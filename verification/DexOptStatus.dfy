/**
  Cancelling dexopt: the lock-protected DexOptStatus object, and the calls to
  dexopt that consult it while other threads block and unblock dexopt.
 */
module DexOptStatus {

  datatype Status = Status(blocked: bool, pids: set<int>, killed: set<int>)

  /** check_cancellation_and_fork when not blocked; fork returned `pid`, negative when it failed. */
  function Forked(s: Status, pid: int): Status {
    if pid > 0 then s.(pids := s.pids + {pid}) else s
  }

  function Removed(s: Status, pid: int): Status {
    s.(pids := s.pids - {pid}, killed := s.killed - {pid})
  }

  function Controlled(s: Status, block: bool): Status {
    if block then Status(true, {}, s.killed + s.pids) else s.(blocked := false)
  }

  class DexOptStatus {
    var blocked: bool
    var pids: set<int>
    var killed: set<int>

    function Value(): Status
      reads this
    {
      Status(blocked, pids, killed)
    }

    constructor ()
      ensures Value() == Status(false, {}, {})
    {
      blocked, pids, killed := false, {}, {};
    }

    /** `forked` is what fork would return to the parent. */
    method CheckCancellationAndFork(forked: int) returns (cancelled: bool, pid: int)
      modifies this
      ensures cancelled == old(blocked)
      ensures if cancelled then pid == -1 && Value() == old(Value())
              else pid == forked && Value() == Forked(old(Value()), forked)
    {
      if blocked {
        return true, -1;
      }
      if forked > 0 {
        pids := pids + {forked};
      }
      return false, forked;
    }

    method CheckIfKilledAndRemove(pid: int) returns (wasKilled: bool)
      modifies this
      ensures wasKilled == (pid in old(killed)) && Value() == Removed(old(Value()), pid)
    {
      pids := pids - {pid};
      wasKilled := pid in killed;
      killed := killed - {pid};
    }

    /** `order` is how the loop runs through the registered pids; `signalled` are the processes sent SIGKILL. */
    method ControlBlocking(block: bool, order: seq<int>) returns (signalled: seq<int>)
      requires pids == set p | p in order
      modifies this
      ensures Value() == Controlled(old(Value()), block)
      ensures forall p :: p in signalled <==> block && p in old(pids)
    {
      signalled := [];
      blocked := block;
      if !block {
        return;
      }
      for i := 0 to |order|
        invariant pids == old(pids) && blocked && signalled == order[..i]
        invariant killed == old(killed) + set p | p in order[..i]
      {
        signalled := signalled + [order[i]];
        killed := killed + {order[i]};
      }
      assert order[..|order|] == order;
      pids := {};
    }
  }

  // ----- calls to dexopt, interleaved

  datatype Outcome = Completed | NotCompleted | Failed

  /**
    How far a call got.  Each of the first three next looks whether dexopt is
    blocked, the last of them together with the fork; a primary dex file skips
    the secondary phases, whose child only analyses the file.
   */
  datatype Phase =
    | Entered
    | Secondary
    | SecondaryFork
    | SecondaryChild(pid: int)
    | MainFork
    | MainChild(pid: int)
    | Ended(outcome: Outcome)

  const SIGKILL := 9

  /** A child's exit: normal, with a code, or by a signal. */
  datatype Exit = Exited(code: int) | Signalled(signal: int)

  /** What was asked for: DEXOPT_SECONDARY_DEX and DEXOPT_FORCE. */
  datatype Job = Job(secondary: bool, force: bool)

  /** A child's exit, and whether the file-system calls that may follow it go well. */
  datatype Wait = Wait(exit: Exit, ok: bool)

  /** `since` is when the call came in, and `waits` are those for its children, as they ended. */
  datatype Call = Call(phase: Phase, since: nat, job: Job, waits: seq<Wait>)

  datatype State = State(status: Status, calls: map<nat, Call>, time: nat)

  /** How a check of blocking, alone or before a fork, moves a call on. */
  ghost predicate AfterCheck(s: State, job: Job, from: Phase, to: Phase) {
    match from
    case Entered =>
      if s.status.blocked then to == Ended(NotCompleted)
      else to == (if job.secondary then Secondary else MainFork) || to == Ended(Failed)
    case Secondary =>
      if s.status.blocked then to == Ended(NotCompleted) else to.SecondaryFork? || to == Ended(Failed)
    case _ => false
  }

  // ----- a child's exit

  /** kSecondaryDexDexoptAnalyzerSkippedNoFile. */
  const NO_FILE := 205

  datatype Need = NotNeeded | Needed | BadResult

  /** What the analyser's exit code says of the file. */
  function Analysed(code: int): Need {
    if code == 0 || code == NO_FILE then NotNeeded
    else if code == 1 || code == 4 || code == 5 then Needed
    else BadResult
  }

  /**
    What a call makes of its child's exit, once it knows whether the child was
    killed.  `ok` is how the file-system calls that follow go: opening the files
    to compile after the analyser, committing the result after the compiler.
   */
  function AfterChild(from: Phase, job: Job, wasKilled: bool, exit: Exit, ok: bool): Phase
    requires from.SecondaryChild? || from.MainChild?
  {
    if from.SecondaryChild? then
      if exit.Signalled? then Ended(if exit.signal == SIGKILL && wasKilled then NotCompleted else Failed)
      else
        match Analysed(exit.code)
        case BadResult => Ended(Failed)
        case NotNeeded =>
          if !job.force || exit.code == NO_FILE then Ended(Completed) else if ok then MainFork else Ended(Failed)
        case Needed => if ok then MainFork else Ended(Failed)
    else if exit == Exited(0) then Ended(if ok then Completed else Failed)
    else if exit == Signalled(SIGKILL) && wasKilled then Ended(NotCompleted)
    else Ended(Failed)
  }

  // ----- the same on the wait status of the child

  /** A status as waitpid reports it; `core` tells of a dump, which only a signal may leave. */
  ghost predicate Reports(status: int, exit: Exit, core: bool) {
    match exit
    case Exited(code) => 0 <= code < 256 && status == code * 256
    case Signalled(signal) => 0 < signal < 127 && status == signal + if core then 128 else 0
  }

  function TermSig(status: int): int {
    status % 128
  }

  function ExitStatus(status: int): int {
    status / 256 % 256
  }

  lemma {:induction false} ReportsMeans(status: int, exit: Exit, core: bool)
    requires Reports(status, exit, core)
    ensures status == 0 <==> exit == Exited(0)
    ensures TermSig(status) == 0 <==> exit.Exited?
    ensures exit.Exited? ==> ExitStatus(status) == exit.code
    ensures exit.Signalled? ==> TermSig(status) == exit.signal
  {
  }

  /** process_secondary_dexoptanalyzer_result. */
  method ProcessResult(code: int) returns (ok: bool, needed: bool)
    ensures ok <==> code in {0, 1, 4, 5, 205}
    ensures ok ==> (needed <==> code in {1, 4, 5})
    ensures Analysed(code) == if !ok then BadResult else if needed then Needed else NotNeeded
  {
    ok, needed := true, false;
    if code == 0 || code == NO_FILE {
      return;
    }
    needed := code == 1 || code == 4 || code == 5;
    ok := needed;
  }

  /**
    What follows a wait for the analyser: cancelled exactly if it died by
    SIGKILL and dexopt killed it, else an error unless it exited with a valid
    code, and then compilation exactly if needed, or forced with the file there.
   */
  method AfterAnalyser(status: int, wasKilled: bool, force: bool, ghost exit: Exit, ghost core: bool)
    returns (cancelled: bool, failed: bool, compile: bool)
    requires Reports(status, exit, core)
    ensures cancelled <==> exit == Signalled(SIGKILL) && wasKilled
    ensures failed <==> !cancelled && (exit.Signalled? || exit.code !in {0, 1, 4, 5, 205})
    ensures compile <==> exit.Exited? && (exit.code in {1, 4, 5} || (force && exit.code == 0))
  {
    ReportsMeans(status, exit, core);
    cancelled, failed, compile := false, false, false;
    if TermSig(status) != 0 {
      cancelled := TermSig(status) == SIGKILL && wasKilled;
      failed := !cancelled;
      return;
    }
    var ok, needed := ProcessResult(ExitStatus(status));
    if !ok {
      failed := true;
      return;
    }
    compile := needed || (force && ExitStatus(status) != NO_FILE);
  }

  /**
    What follows a wait for the compiler: completed exactly if it exited with 0
    and its work was committed, not completed exactly if it died by SIGKILL and
    dexopt killed it, and failed otherwise.
   */
  method AfterCompiler(status: int, wasKilled: bool, committed: bool, ghost exit: Exit, ghost core: bool)
    returns (outcome: Outcome)
    requires Reports(status, exit, core)
    ensures outcome == Completed <==> exit == Exited(0) && committed
    ensures outcome == NotCompleted <==> exit == Signalled(SIGKILL) && wasKilled
  {
    ReportsMeans(status, exit, core);
    if status == 0 {
      return if committed then Completed else Failed;
    }
    if TermSig(status) == SIGKILL && wasKilled {
      return NotCompleted;
    }
    return Failed;
  }

  /** The end of a wait for the child of phase `from`, as the calls below take it. */
  method Conclude(from: Phase, job: Job, status: int, wasKilled: bool, ok: bool, ghost exit: Exit, ghost core: bool)
    returns (to: Phase)
    requires (from.SecondaryChild? || from.MainChild?) && Reports(status, exit, core)
    ensures to == AfterChild(from, job, wasKilled, exit, ok)
  {
    if from.MainChild? {
      var outcome := AfterCompiler(status, wasKilled, ok, exit, core);
      return Ended(outcome);
    }
    var cancelled, failed, compile := AfterAnalyser(status, wasKilled, job.force, exit, core);
    if cancelled {
      return Ended(NotCompleted);
    }
    if failed || (compile && !ok) {
      return Ended(Failed);
    }
    return if compile then MainFork else Ended(Completed);
  }

  // ----- steps

  predicate HasChild(phase: Phase) {
    (phase.SecondaryChild? || phase.MainChild?) && phase.pid > 0
  }

  /** A started child whose call has not yet asked to remove it. */
  ghost predicate Started(s: State, pid: int) {
    exists c :: c in s.calls && HasChild(s.calls[c].phase) && s.calls[c].phase.pid == pid
  }

  ghost predicate Moved(s: State, s': State, c: nat, to: Phase, waits: seq<Wait>) {
    && c in s.calls && s'.calls == s.calls[c := s.calls[c].(phase := to, waits := s.calls[c].waits + waits)]
    && s'.time == s.time + 1
  }

  ghost predicate Control(s: State, s': State, block: bool) {
    s' == s.(status := Controlled(s.status, block), time := s.time + 1)
  }

  ghost predicate Begin(s: State, s': State, c: nat, job: Job) {
    c !in s.calls && s' == s.(calls := s.calls[c := Call(Entered, s.time + 1, job, [])], time := s.time + 1)
  }

  ghost predicate Check(s: State, s': State, c: nat, to: Phase) {
    Moved(s, s', c, to, []) && s'.status == s.status && AfterCheck(s, s.calls[c].job, s.calls[c].phase, to)
  }

  /** A new child gets a pid that no started child has. */
  ghost predicate Fork(s: State, s': State, c: nat, pid: int) {
    && c in s.calls && (s.calls[c].phase.SecondaryFork? || s.calls[c].phase.MainFork?)
    && if s.status.blocked then s'.status == s.status && Moved(s, s', c, Ended(NotCompleted), [])
       else
         && !Started(s, pid) && s'.status == Forked(s.status, pid)
         && Moved(s, s', c, if s.calls[c].phase.MainFork? then MainChild(pid) else SecondaryChild(pid), [])
  }

  ghost predicate Collect(s: State, s': State, c: nat, exit: Exit, ok: bool) {
    && c in s.calls && (s.calls[c].phase.SecondaryChild? || s.calls[c].phase.MainChild?)
    && var from := s.calls[c].phase;
       && Moved(s, s', c, AfterChild(from, s.calls[c].job, from.pid in s.status.killed, exit, ok), [Wait(exit, ok)])
       && s'.status == Removed(s.status, from.pid)
  }

  ghost predicate Next(s: State, s': State) {
    || (exists block :: Control(s, s', block))
    || (exists c, job :: Begin(s, s', c, job))
    || (exists c, to :: Check(s, s', c, to))
    || (exists c, pid :: Fork(s, s', c, pid))
    || (exists c, exit, ok :: Collect(s, s', c, exit, ok))
  }

  const START := State(Status(false, {}, {}), map[], 0)

  ghost predicate IsRun(run: seq<State>) {
    |run| > 0 && run[0] == START && forall j :: 0 <= j < |run| - 1 ==> Next(run[j], run[j + 1])
  }

  // ----- every started child is registered or killed, and not both

  ghost predicate OneHolder(s: State) {
    forall c, d ::
      (c in s.calls && d in s.calls && HasChild(s.calls[c].phase) && HasChild(s.calls[d].phase)
       && s.calls[c].phase.pid == s.calls[d].phase.pid) ==> c == d
  }

  ghost predicate Inv(s: State) {
    && (s.status.blocked ==> s.status.pids == {})
    && s.status.pids !! s.status.killed
    && (forall pid :: pid in s.status.pids || pid in s.status.killed <==> Started(s, pid))
    && OneHolder(s)
  }

  lemma {:induction false} StartedKept(s: State, s': State, pid: int)
    requires s'.calls == s.calls
    ensures Started(s', pid) <==> Started(s, pid)
  {
  }

  /** When a call moves, only the children it had and has matter. */
  lemma {:induction false} StartedMoved(s: State, s': State, c: nat, to: Phase, waits: seq<Wait>, pid: int)
    requires Moved(s, s', c, to, waits) && OneHolder(s)
    ensures Started(s', pid) <==>
            (HasChild(to) && to.pid == pid)
            || (Started(s, pid) && !(HasChild(s.calls[c].phase) && s.calls[c].phase.pid == pid))
  {
    if Started(s, pid) {
      var d :| d in s.calls && HasChild(s.calls[d].phase) && s.calls[d].phase.pid == pid;
      if d != c {
        assert d in s'.calls && s'.calls[d] == s.calls[d];
      }
    }
    if HasChild(to) && to.pid == pid {
      assert c in s'.calls && s'.calls[c].phase == to;
    }
    if Started(s', pid) {
      var d :| d in s'.calls && HasChild(s'.calls[d].phase) && s'.calls[d].phase.pid == pid;
      if d != c {
        assert d in s.calls && s'.calls[d] == s.calls[d];
      }
    }
  }

  lemma {:induction false} BeginKeeps(s: State, s': State, c: nat, job: Job)
    requires Inv(s) && Begin(s, s', c, job)
    ensures Inv(s')
  {
    forall pid
      ensures Started(s', pid) <==> Started(s, pid)
    {
      if Started(s, pid) {
        var d :| d in s.calls && HasChild(s.calls[d].phase) && s.calls[d].phase.pid == pid;
        assert s'.calls[d] == s.calls[d];
      }
    }
  }

  lemma {:induction false} ControlKeeps(s: State, s': State, block: bool)
    requires Inv(s) && Control(s, s', block)
    ensures Inv(s')
  {
    forall pid
      ensures Started(s', pid) <==> Started(s, pid)
    {
      StartedKept(s, s', pid);
    }
  }

  lemma {:induction false} CheckKeeps(s: State, s': State, c: nat, to: Phase)
    requires Inv(s) && Check(s, s', c, to)
    ensures Inv(s')
  {
    assert !HasChild(to) && !HasChild(s.calls[c].phase);
    forall pid
      ensures Started(s', pid) <==> Started(s, pid)
    {
      StartedMoved(s, s', c, to, [], pid);
    }
  }

  lemma {:induction false} ForkKeeps(s: State, s': State, c: nat, pid: int)
    requires Inv(s) && Fork(s, s', c, pid)
    ensures Inv(s')
  {
    var to := s'.calls[c].phase;
    assert Moved(s, s', c, to, []);
    forall p
      ensures Started(s', p) <==> (HasChild(to) && to.pid == p) || Started(s, p)
    {
      StartedMoved(s, s', c, to, [], p);
    }
  }

  lemma {:induction false} CollectKeeps(s: State, s': State, c: nat, exit: Exit, ok: bool)
    requires Inv(s) && Collect(s, s', c, exit, ok)
    ensures Inv(s')
  {
    hide Analysed;
    var to := s'.calls[c].phase;
    forall p
      ensures Started(s', p) <==> Started(s, p) && p != s.calls[c].phase.pid
    {
      StartedMoved(s, s', c, to, [Wait(exit, ok)], p);
    }
  }

  lemma {:induction false} NextKeeps(s: State, s': State)
    requires Inv(s) && Next(s, s')
    ensures Inv(s')
  {
    hide Inv, Control, Begin, Check, Fork, Collect;
    if block :| Control(s, s', block) {
      ControlKeeps(s, s', block);
    } else if c, job :| Begin(s, s', c, job) {
      BeginKeeps(s, s', c, job);
    } else if c, to :| Check(s, s', c, to) {
      CheckKeeps(s, s', c, to);
    } else if c, pid :| Fork(s, s', c, pid) {
      ForkKeeps(s, s', c, pid);
    } else {
      var c, exit, ok :| Collect(s, s', c, exit, ok);
      CollectKeeps(s, s', c, exit, ok);
    }
  }

  lemma {:induction false} RunKeeps(run: seq<State>, j: nat)
    requires IsRun(run) && j < |run|
    ensures Inv(run[j])
    decreases j
  {
    if j > 0 {
      RunKeeps(run, j - 1);
      assert Next(run[j - 1], run[j - 1 + 1]);
      NextKeeps(run[j - 1], run[j]);
    }
  }

  /**
    In every state of every run: nothing is registered while dexopt is blocked,
    and a child that was started and not yet removed is either registered or
    killed, never both, and nothing else is.
   */
  lemma {:induction false} ChildrenAreAccountedFor(run: seq<State>, j: nat)
    requires IsRun(run) && j < |run|
    ensures run[j].status.blocked ==> run[j].status.pids == {}
    ensures forall pid :: Started(run[j], pid) <==> pid in run[j].status.pids || pid in run[j].status.killed
    ensures run[j].status.pids !! run[j].status.killed
  {
    RunKeeps(run, j);
  }

  // ----- why a call is not completed

  ghost predicate BlockedBetween(run: seq<State>, i: nat, j: nat)
    requires j < |run|
  {
    exists k :: i <= k <= j && run[k].status.blocked
  }

  /** A call that holds a killed child, or that was not completed, saw dexopt blocked. */
  ghost predicate Justified(run: seq<State>, j: nat, c: nat)
    requires j < |run|
  {
    c in run[j].calls ==>
      && run[j].calls[c].since <= j
      && (HasChild(run[j].calls[c].phase) && run[j].calls[c].phase.pid in run[j].status.killed ==>
            BlockedBetween(run, run[j].calls[c].since, j))
      && (run[j].calls[c].phase == Ended(NotCompleted) ==> BlockedBetween(run, run[j].calls[c].since, j))
  }

  lemma {:induction false} BlockedLonger(run: seq<State>, i: nat, j: nat)
    requires j + 1 < |run|
    ensures BlockedBetween(run, i, j) ==> BlockedBetween(run, i, j + 1)
    ensures i <= j && run[j].status.blocked ==> BlockedBetween(run, i, j + 1)
    ensures i <= j + 1 && run[j + 1].status.blocked ==> BlockedBetween(run, i, j + 1)
  {
    if BlockedBetween(run, i, j) {
      var k :| i <= k <= j && run[k].status.blocked;
    }
  }

  lemma {:induction false} TimePasses(run: seq<State>, j: nat)
    requires IsRun(run) && j < |run|
    ensures run[j].time == j
    decreases j
  {
    if j > 0 {
      TimePasses(run, j - 1);
      assert Next(run[j - 1], run[j - 1 + 1]);
    }
  }

  lemma {:induction false} StepJustified(run: seq<State>, j: nat, c: nat)
    requires IsRun(run) && j + 1 < |run| && Inv(run[j]) && run[j].time == j && Justified(run, j, c)
    ensures Justified(run, j + 1, c)
  {
    var s, s' := run[j], run[j + 1];
    assert Next(run[j], run[j + 1]);
    if c in s.calls {
      BlockedLonger(run, s.calls[c].since, j);
    }
    assert forall p :: p in s.status.killed ==> Started(s, p) && p > 0;
    hide BlockedBetween, Started, Inv;
    if block :| Control(s, s', block) {
    } else if d, job :| Begin(s, s', d, job) {
    } else if d, to :| Check(s, s', d, to) {
    } else if d, pid :| Fork(s, s', d, pid) {
    } else {
      var d, exit, ok :| Collect(s, s', d, exit, ok);
    }
  }

  lemma {:induction false} RunJustified(run: seq<State>, j: nat, c: nat)
    requires IsRun(run) && j < |run|
    ensures Justified(run, j, c)
    decreases j
  {
    if j > 0 {
      RunJustified(run, j - 1, c);
      RunKeeps(run, j - 1);
      TimePasses(run, j - 1);
      StepJustified(run, j - 1, c);
    }
  }

  lemma {:induction false} SinceBefore(run: seq<State>, j: nat, c: nat)
    requires IsRun(run) && j < |run| && c in run[j].calls
    ensures run[j].calls[c].since <= j
  {
    RunJustified(run, j, c);
  }

  /** A call stays with its arrival time; a new one has only come in. */
  lemma {:induction false} StepKeepsCall(s: State, s': State, c: nat)
    requires Next(s, s')
    ensures c in s.calls ==> c in s'.calls && s'.calls[c].since == s.calls[c].since && s'.calls[c].job == s.calls[c].job
    ensures c !in s.calls && c in s'.calls ==>
              s'.calls[c].phase.Entered? && s'.calls[c].since == s.time + 1 && s'.calls[c].waits == []
  {
  }

  /** `since` is when the call came in, and it has been there since. */
  lemma {:induction false} CallSince(run: seq<State>, j: nat, c: nat, k: nat)
    requires IsRun(run) && j < |run| && c in run[j].calls && run[j].calls[c].since <= k <= j
    ensures c in run[k].calls && run[k].calls[c].since == run[j].calls[c].since
    ensures k == run[k].calls[c].since ==> k > 0 && c !in run[k - 1].calls && run[k].calls[c].phase.Entered?
    decreases j
  {
    hide Next, Justified;
    if j > 0 {
      assert Next(run[j - 1], run[j - 1 + 1]);
      TimePasses(run, j - 1);
      StepKeepsCall(run[j - 1], run[j], c);
      if c in run[j - 1].calls {
        SinceBefore(run, j - 1, c);
        if k < j {
          CallSince(run, j - 1, c, k);
        }
      }
    }
  }

  // ----- what each outcome means

  /** The analyser wants its file compiled, and the files for that could be opened. */
  predicate WantsCompiling(job: Job, w: Wait) {
    w.ok && w.exit.Exited? && (w.exit.code in {1, 4, 5} || (w.exit.code == 0 && job.force))
  }

  /** The analyser found nothing to compile. */
  predicate NothingToDo(job: Job, w: Wait) {
    w.exit == Exited(205) || (w.exit == Exited(0) && !job.force)
  }

  predicate Compiled(w: Wait) {
    w.exit == Exited(0) && w.ok
  }

  /** What a call waited for says that it succeeded. */
  predicate Succeeded(job: Job, waits: seq<Wait>) {
    if job.secondary then
      || (|waits| == 1 && NothingToDo(job, waits[0]))
      || (|waits| == 2 && WantsCompiling(job, waits[0]) && Compiled(waits[1]))
    else |waits| == 1 && Compiled(waits[0])
  }

  /** A call waits for an analyser only for secondary dex files, and compiles those only if that is wanted. */
  ghost predicate InOrder(call: Call) {
    && (call.phase.Entered? ==> call.waits == [])
    && (call.phase.Secondary? || call.phase.SecondaryFork? || call.phase.SecondaryChild? ==>
          call.job.secondary && call.waits == [])
    && (call.phase.MainFork? || call.phase.MainChild? ==>
          if call.job.secondary then |call.waits| == 1 && WantsCompiling(call.job, call.waits[0])
          else call.waits == [])
    && (call.phase.Ended? ==> (call.phase.outcome == Completed <==> Succeeded(call.job, call.waits)))
  }

  lemma {:induction false} CollectInOrder(s: State, s': State, c: nat, exit: Exit, ok: bool)
    requires Collect(s, s', c, exit, ok) && InOrder(s.calls[c])
    ensures InOrder(s'.calls[c])
  {
  }

  lemma {:induction false} StepInOrder(s: State, s': State, c: nat)
    requires Next(s, s') && (c in s.calls ==> InOrder(s.calls[c]))
    ensures c in s'.calls ==> InOrder(s'.calls[c])
  {
    if d, exit, ok :| Collect(s, s', d, exit, ok) {
      if d == c {
        CollectInOrder(s, s', c, exit, ok);
      }
    }
  }

  lemma {:induction false} RunInOrder(run: seq<State>, j: nat, c: nat)
    requires IsRun(run) && j < |run|
    ensures c in run[j].calls ==> InOrder(run[j].calls[c])
    decreases j
  {
    hide Next, InOrder;
    if j > 0 {
      RunInOrder(run, j - 1, c);
      assert Next(run[j - 1], run[j - 1 + 1]);
      StepInOrder(run[j - 1], run[j], c);
    }
  }

  /**
    A call that ended is completed exactly if its compiler exited with 0 and the
    result was committed, or its analyser said that there is nothing to compile;
    a secondary dex file is compiled exactly if its analyser says so or the
    caller forces it.
   */
  lemma {:induction false} CompletedExactly(run: seq<State>, j: nat, c: nat)
    requires IsRun(run) && j < |run| && c in run[j].calls
    ensures var call := run[j].calls[c];
            && (call.phase.Ended? ==> (call.phase.outcome == Completed <==> Succeeded(call.job, call.waits)))
            && (call.phase.MainChild? && call.job.secondary ==>
                  |call.waits| == 1 && WantsCompiling(call.job, call.waits[0]))
  {
    RunInOrder(run, j, c);
  }

  /** The call `c`, not ended in `s`, ends as `call` with what it meets there. */
  ghost predicate EndsWith(s: State, c: nat, call: Call) {
    && c in s.calls && !s.calls[c].phase.Ended? && call.phase.Ended?
    && var was, outcome := s.calls[c], call.phase.outcome;
       match was.phase
       case Entered => outcome == if s.status.blocked then NotCompleted else Failed
       case Secondary => outcome == if s.status.blocked then NotCompleted else Failed
       case SecondaryFork => s.status.blocked && outcome == NotCompleted
       case MainFork => s.status.blocked && outcome == NotCompleted
       case SecondaryChild(pid) =>
         && |call.waits| == 1
         && (outcome == Completed <==> NothingToDo(call.job, call.waits[0]))
         && (outcome == NotCompleted <==> call.waits[0].exit == Signalled(9) && pid in s.status.killed)
       case MainChild(pid) =>
         && |call.waits| == |was.waits| + 1
         && (outcome == Completed <==> Compiled(call.waits[|was.waits|]))
         && (outcome == NotCompleted <==> call.waits[|was.waits|].exit == Signalled(9) && pid in s.status.killed)
       case Ended(_) => false
  }

  lemma {:induction false} StepEnds(s: State, s': State, c: nat)
    requires Next(s, s') && c in s.calls && InOrder(s.calls[c])
    ensures s.calls[c].phase.Ended? ==> c in s'.calls && s'.calls[c] == s.calls[c]
    ensures !s.calls[c].phase.Ended? && c in s'.calls && s'.calls[c].phase.Ended? ==> EndsWith(s, c, s'.calls[c])
  {
  }

  /**
    Every ended call ended at one moment since it came in, by what it met there:
    not completed exactly if it found dexopt blocked, or if its child died by
    SIGKILL and was one that dexopt killed.
   */
  lemma {:induction false} OutcomeExactly(run: seq<State>, j: nat, c: nat) returns (k: nat)
    requires IsRun(run) && j < |run| && c in run[j].calls && run[j].calls[c].phase.Ended?
    ensures run[j].calls[c].since <= k < j && EndsWith(run[k], c, run[j].calls[c])
    ensures forall n :: k < n <= j ==> c in run[n].calls && run[n].calls[c] == run[j].calls[c]
    decreases j
  {
    hide Next, EndsWith, InOrder, Justified;
    assert j > 0;
    assert Next(run[j - 1], run[j - 1 + 1]);
    StepKeepsCall(run[j - 1], run[j], c);
    RunInOrder(run, j - 1, c);
    StepEnds(run[j - 1], run[j], c);
    if run[j - 1].calls[c].phase.Ended? {
      k := OutcomeExactly(run, j - 1, c);
    } else {
      k := j - 1;
      SinceBefore(run, j - 1, c);
    }
  }

  // ----- no call is stuck

  /** The call `c` can next be in phase `to`. */
  ghost predicate CanMove(s: State, c: nat, to: Phase) {
    exists s' :: Next(s, s') && c in s'.calls && s'.calls[c].phase == to
  }

  lemma {:induction false} CheckGoesOn(s: State, c: nat, to: Phase)
    requires c in s.calls && AfterCheck(s, s.calls[c].job, s.calls[c].phase, to)
    ensures CanMove(s, c, to)
  {
    var s' := s.(calls := s.calls[c := s.calls[c].(phase := to, waits := s.calls[c].waits + [])], time := s.time + 1);
    assert Check(s, s', c, to);
  }

  lemma {:induction false} ForkGoesOn(s: State, c: nat, pid: int)
    requires c in s.calls && (s.calls[c].phase.SecondaryFork? || s.calls[c].phase.MainFork?) && !Started(s, pid)
    ensures CanMove(s, c, if s.status.blocked then Ended(NotCompleted)
                          else if s.calls[c].phase.MainFork? then MainChild(pid) else SecondaryChild(pid))
  {
    var to := if s.status.blocked then Ended(NotCompleted)
              else if s.calls[c].phase.MainFork? then MainChild(pid) else SecondaryChild(pid);
    var s' := State(if s.status.blocked then s.status else Forked(s.status, pid),
                    s.calls[c := s.calls[c].(phase := to, waits := s.calls[c].waits + [])], s.time + 1);
    assert Fork(s, s', c, pid);
  }

  lemma {:induction false} CollectGoesOn(s: State, c: nat, exit: Exit, ok: bool)
    requires c in s.calls && (s.calls[c].phase.SecondaryChild? || s.calls[c].phase.MainChild?)
    ensures var from := s.calls[c].phase;
            CanMove(s, c, AfterChild(from, s.calls[c].job, from.pid in s.status.killed, exit, ok))
  {
    var from := s.calls[c].phase;
    var to := AfterChild(from, s.calls[c].job, from.pid in s.status.killed, exit, ok);
    var waits := s.calls[c].waits + [Wait(exit, ok)];
    var s' := State(Removed(s.status, from.pid), s.calls[c := s.calls[c].(phase := to, waits := waits)], s.time + 1);
    assert Collect(s, s', c, exit, ok);
  }

  /**
    Whatever other calls do, a call can go on: while dexopt is blocked its next
    look ends it as not completed, otherwise it reaches its next phase; with any
    pid that is free its child is forked, and any exit of its child is collected.
   */
  lemma {:induction false} CallsGoOn(s: State, c: nat, pid: int, exit: Exit, ok: bool)
    requires c in s.calls && !Started(s, pid)
    ensures var call, blocked := s.calls[c], s.status.blocked;
            match call.phase
            case Entered =>
              CanMove(s, c, if blocked then Ended(NotCompleted) else if call.job.secondary then Secondary else MainFork)
            case Secondary => CanMove(s, c, if blocked then Ended(NotCompleted) else SecondaryFork)
            case SecondaryFork => CanMove(s, c, if blocked then Ended(NotCompleted) else SecondaryChild(pid))
            case MainFork => CanMove(s, c, if blocked then Ended(NotCompleted) else MainChild(pid))
            case SecondaryChild(p) => CanMove(s, c, AfterChild(call.phase, call.job, p in s.status.killed, exit, ok))
            case MainChild(p) => CanMove(s, c, AfterChild(call.phase, call.job, p in s.status.killed, exit, ok))
            case Ended(_) => true
  {
    hide CanMove, Started, AfterChild;
    var call, blocked := s.calls[c], s.status.blocked;
    match call.phase
    case Entered =>
      CheckGoesOn(s, c, if blocked then Ended(NotCompleted) else if call.job.secondary then Secondary else MainFork);
    case Secondary => CheckGoesOn(s, c, if blocked then Ended(NotCompleted) else SecondaryFork);
    case SecondaryFork => ForkGoesOn(s, c, pid);
    case MainFork => ForkGoesOn(s, c, pid);
    case SecondaryChild(_) => CollectGoesOn(s, c, exit, ok);
    case MainChild(_) => CollectGoesOn(s, c, exit, ok);
    case Ended(_) =>
  }

  /** Dexopt can be blocked and unblocked, and a new call can come in, at any moment. */
  lemma {:induction false} AlwaysControllable(s: State, block: bool, c: nat, job: Job)
    requires c !in s.calls
    ensures exists s' :: Next(s, s') && s'.calls == s.calls && s'.status == Controlled(s.status, block)
    ensures exists s' ::
              Next(s, s') && s'.status == s.status && s'.calls == s.calls[c := Call(Entered, s.time + 1, job, [])]
  {
    assert Control(s, s.(status := Controlled(s.status, block), time := s.time + 1), block);
    assert Begin(s, s.(calls := s.calls[c := Call(Entered, s.time + 1, job, [])], time := s.time + 1), c, job);
  }

  lemma {:induction false} Extended(run: seq<State>, s: State)
    requires IsRun(run) && Next(run[|run| - 1], s)
    ensures IsRun(run + [s])
  {
    var r := run + [s];
    forall j | 0 <= j < |r| - 1
      ensures Next(r[j], r[j + 1])
    {
      assert j < |run| - 1 ==> Next(run[j], run[j + 1]);
    }
  }

  /** A compiler is killed by blocking, and its call, on seeing SIGKILL, ends as not completed. */
  lemma {:induction false} KilledCompile() returns (run: seq<State>)
    ensures IsRun(run)
    ensures var s := run[|run| - 1];
            s.status == Status(true, {}, {}) && 0 in s.calls && s.calls[0].phase == Ended(NotCompleted)
  {
    var x := Call(Entered, 1, Job(false, false), []);
    var w := Wait(Signalled(9), true);
    var s1 := State(Status(false, {}, {}), map[0 := x], 1);
    var s2 := State(Status(false, {}, {}), map[0 := x.(phase := MainFork)], 2);
    var s3 := State(Status(false, {7}, {}), map[0 := x.(phase := MainChild(7))], 3);
    var s4 := State(Status(true, {}, {7}), map[0 := x.(phase := MainChild(7))], 4);
    var s5 := State(Status(true, {}, {}), map[0 := x.(phase := Ended(NotCompleted), waits := [w])], 5);
    var none: seq<Wait> := [];
    assert none + none == none && none + [w] == [w];
    assert s2.calls == s1.calls[0 := s2.calls[0]] && s5.calls == s4.calls[0 := s5.calls[0]];
    assert Begin(START, s1, 0, x.job) && Check(s1, s2, 0, MainFork);
    assert Fork(s2, s3, 0, 7) && Control(s3, s4, true) && Collect(s4, s5, 0, w.exit, w.ok);
    assert Next(START, s1) && Next(s1, s2) && Next(s2, s3) && Next(s3, s4) && Next(s4, s5);
    hide Next;
    run := [START];
    Extended(run, s1);
    Extended(run + [s1], s2);
    Extended(run + [s1] + [s2], s3);
    Extended(run + [s1] + [s2] + [s3], s4);
    Extended(run + [s1] + [s2] + [s3] + [s4], s5);
    run := run + [s1] + [s2] + [s3] + [s4] + [s5];
  }

  /** A call is reported as not completed only if dexopt was blocked at some moment during that call. */
  lemma {:induction false} NotCompletedMeansBlocked(run: seq<State>, j: nat, c: nat)
    requires IsRun(run) && j < |run| && c in run[j].calls && run[j].calls[c].phase == Ended(NotCompleted)
    ensures exists k ::
              run[j].calls[c].since <= k <= j && run[k].status.blocked && c in run[k].calls
  {
    RunJustified(run, j, c);
    var k :| run[j].calls[c].since <= k <= j && run[k].status.blocked;
    CallSince(run, j, c, k);
  }
}
