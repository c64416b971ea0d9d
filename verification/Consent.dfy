/**
  The user-consent protocol of dumpstate: the main thread of RunInternal and
  CopyBugreportIfUserConsented, interleaved with the approve and deny
  callbacks arriving on binder threads.

  The callback's lock is held by an approval from setting its result to the
  end of the early screenshot copy; every read of the result takes that lock.
 */
module Consent {
  import opened Options

  datatype Result = Unavailable | Approved | Denied

  /** What the caller asked for: `shell` callers need no consent, `api` callers gave a report fd. */
  datatype Config = Config(shell: bool, api: bool, deferred: bool, screenshot: bool, screenshotFd: bool, early: bool)

  /** An approval holding the callback's lock. */
  datatype Approver = Idle | Entered | Copying

  datatype Status = Ok | Error | ConsentDenied | TimedOut

  /** Where the main thread is. */
  datatype Main =
    | Preparing
    | Dumping
    | Asking
    | Waiting
    | Decided(result: Result)
    | CheckingShot
    | CopyingShot
    | Done(status: Status)

  /**
    `copied` is is_screenshot_copied.  The counters are the history: approvals
    received, writes begun to the caller's report and screenshot fds, and
    screenshot copies that succeeded.
   */
  datatype State = State(main: Main, callback: Option<Result>, approver: Approver, copied: bool,
                         approvals: nat, reportWrites: nat, shotWrites: nat, shotCopies: nat)

  const START := State(Preparing, None, Idle, false, 0, 0, 0, 0)

  predicate WantsShot(c: Config) {
    c.screenshot && c.screenshotFd
  }

  predicate NeedsConsent(c: Config) {
    !c.shell && c.api && !c.deferred
  }

  function One(b: bool): nat {
    if b then 1 else 0
  }

  // ----- callbacks

  ghost predicate ApproveEnter(c: Config, s: State, s': State) {
    && s.callback.Some? && s.approver == Idle
    && s' == s.(callback := Some(Approved), approver := Entered, approvals := s.approvals + 1)
  }

  ghost predicate ApproveDecide(c: Config, s: State, s': State) {
    && s.approver == Entered
    && s' == s.(approver := if s.copied || !WantsShot(c) || !c.early then Idle else Copying,
                shotWrites := s.shotWrites + One(!(s.copied || !WantsShot(c) || !c.early)))
  }

  ghost predicate ApproveCopied(c: Config, s: State, s': State, ok: bool) {
    s.approver == Copying && s' == s.(approver := Idle, copied := ok, shotCopies := s.shotCopies + One(ok))
  }

  ghost predicate Deny(c: Config, s: State, s': State) {
    s.callback.Some? && s.approver == Idle && s' == s.(callback := Some(Denied))
  }

  // ----- the main thread

  /** getResult: waits for the callback's lock. */
  predicate Readable(s: State) {
    s.callback.Some? && s.approver == Idle
  }

  ghost predicate Check(c: Config, s: State, s': State) {
    && s.main == Preparing
    && s' == s.(main := Dumping, callback := if NeedsConsent(c) then Some(Unavailable) else s.callback)
  }

  /** A dump may notice a denial, or fail for its own reasons. */
  ghost predicate StopDumping(c: Config, s: State, s': State) {
    && s.main == Dumping
    && (|| s' == s.(main := Done(Error))
        || (Readable(s) && s.callback.value == Denied && s' == s.(main := Done(ConsentDenied))))
  }

  ghost predicate EndDumping(c: Config, s: State, s': State) {
    s.main == Dumping && s' == s.(main := if c.api && !c.deferred then Asking else Done(Ok))
  }

  ghost predicate Ask(c: Config, s: State, s': State) {
    && s.main == Asking
    && if c.shell then s' == s.(main := Decided(Approved))
       else
         && Readable(s)
         && s' == s.(main := if s.callback.value == Unavailable then Waiting else Decided(s.callback.value))
  }

  ghost predicate AskAgain(c: Config, s: State, s': State) {
    s.main == Waiting && Readable(s) && s' == s.(main := Decided(s.callback.value))
  }

  ghost predicate Act(c: Config, s: State, s': State, ok: bool) {
    && s.main.Decided?
    && match s.main.result
       case Denied => s' == s.(main := Done(ConsentDenied))
       case Unavailable => s' == s.(main := Done(TimedOut))
       case Approved => s' == s.(main := if ok then CheckingShot else Done(Error), reportWrites := s.reportWrites + 1)
  }

  ghost predicate CheckShot(c: Config, s: State, s': State) {
    && s.main == CheckingShot
    && s' == s.(main := if WantsShot(c) && !s.copied then CopyingShot else Done(Ok),
                shotWrites := s.shotWrites + One(WantsShot(c) && !s.copied))
  }

  ghost predicate ShotCopied(c: Config, s: State, s': State, ok: bool) {
    && s.main == CopyingShot
    && s' == s.(main := Done(if ok then Ok else Error), copied := ok, shotCopies := s.shotCopies + One(ok))
  }

  ghost predicate Next(c: Config, s: State, s': State) {
    || ApproveEnter(c, s, s') || ApproveDecide(c, s, s') || (exists ok :: ApproveCopied(c, s, s', ok)) || Deny(c, s, s')
    || Check(c, s, s') || StopDumping(c, s, s') || EndDumping(c, s, s') || Ask(c, s, s') || AskAgain(c, s, s')
    || (exists ok :: Act(c, s, s', ok)) || CheckShot(c, s, s') || (exists ok :: ShotCopied(c, s, s', ok))
  }

  ghost predicate IsRun(c: Config, run: seq<State>) {
    run != [] && run[0] == START && forall i :: 0 <= i < |run| - 1 ==> Next(c, run[i], run[i + 1])
  }

  // ----- what every step keeps

  /** The main thread has settled on sharing, or is past that. */
  predicate Sharing(s: State) {
    s.main == Decided(Approved) || s.main == CheckingShot || s.main == CopyingShot
  }

  ghost predicate Guarded(c: Config, s: State) {
    && (s.approvals > 0 ==> s.callback.Some?)
    && (s.approver != Idle ==> s.approvals > 0)
    && (s.callback == Some(Approved) ==> s.approvals > 0)
    && (s.callback.Some? <==> NeedsConsent(c) && s.main != Preparing)
    && (s.main in {Asking, Waiting} || s.main.Decided? || Sharing(s) ==> c.api && !c.deferred)
    && (s.main == Waiting ==> !c.shell)
    && (Sharing(s) || s.reportWrites > 0 || s.shotWrites > 0 || s.shotCopies > 0 || s.copied ==>
          c.shell || s.approvals > 0)
  }

  /** With one approval at most, nobody is in the middle of one once sharing is decided. */
  ghost predicate Once(c: Config, s: State) {
    s.approvals <= 1 ==>
      && (Sharing(s) ==> s.approver == Idle)
      && (s.approver == Copying || s.main == CopyingShot ==> !s.copied)
      && s.shotCopies == One(s.copied)
  }

  lemma {:induction false} NextInv(c: Config, s: State, s': State)
    requires Guarded(c, s) && Once(c, s) && Next(c, s, s')
    ensures Guarded(c, s') && Once(c, s')
  {
  }

  lemma {:induction false} RunInv(c: Config, run: seq<State>, i: nat)
    requires IsRun(c, run) && i < |run|
    ensures Guarded(c, run[i]) && Once(c, run[i])
  {
    if i > 0 {
      RunInv(c, run, i - 1);
      assert Next(c, run[i - 1], run[i - 1 + 1]);
      NextInv(c, run[i - 1], run[i]);
    }
  }

  // ----- theorems about every run

  /** Nothing is written to the caller's fds before an approval, except for a shell caller. */
  lemma {:induction false} SharesOnlyWithConsent(c: Config, run: seq<State>, i: nat)
    requires IsRun(c, run) && i < |run| && !c.shell
    requires run[i].reportWrites > 0 || run[i].shotWrites > 0
    ensures run[i].approvals > 0 && c.api && !c.deferred
  {
    RunInv(c, run, i);
  }

  /** Wherever the main thread reads the callback without a null check, there is one. */
  lemma {:induction false} CallbackIsNeverNull(c: Config, run: seq<State>, i: nat)
    requires IsRun(c, run) && i < |run| && !c.shell && run[i].main in {Asking, Waiting}
    ensures run[i].callback.Some?
  {
    RunInv(c, run, i);
  }

  // ----- what the final status means

  /** The main thread is past its last look at the callback. */
  predicate Past(main: Main) {
    main.Decided? || main == CheckingShot || main == CopyingShot || main.Done?
  }

  /** The main thread does, or has done, what the answer `v` asks for. */
  ghost predicate Answers(main: Main, v: Result) {
    match main
    case Decided(result) => result == v
    case CheckingShot => v == Approved
    case CopyingShot => v == Approved
    case Done(status) => (status == ConsentDenied <==> v == Denied) && (status == TimedOut <==> v == Unavailable)
    case _ => true
  }

  /** What the main thread met at its last look, in state `s`, explains where it is now. */
  ghost predicate Explains(c: Config, s: State, main: Main) {
    match s.main
    case Dumping =>
      && main.Done? && main.status != TimedOut
      && (main.status == ConsentDenied ==> Readable(s) && s.callback.value == Denied)
      && (main.status == Ok ==> !c.api || c.deferred)
    case Asking =>
      if c.shell then Answers(main, Approved)
      else Readable(s) && s.callback.value != Unavailable && Answers(main, s.callback.value)
    case Waiting => Readable(s) && Answers(main, s.callback.value)
    case _ => false
  }

  lemma {:induction false} StepExplains(c: Config, s: State, s': State)
    requires Next(c, s, s') && Past(s'.main) && !Past(s.main)
    ensures Explains(c, s, s'.main)
  {
  }

  lemma {:induction false} StepAnswers(c: Config, s0: State, s: State, s': State)
    requires Next(c, s, s') && Past(s.main) && Explains(c, s0, s.main)
    ensures Past(s'.main) && Explains(c, s0, s'.main)
  {
  }

  /**
    Once the main thread is past asking, its last look at the callback explains
    what it does: it reports a denial exactly if the answer was a denial, a
    timeout exactly if there still was none at the second look, and shares
    exactly on an approval; a dump that stops before asking never times out.
   */
  lemma {:induction false} StatusMeans(c: Config, run: seq<State>, j: nat) returns (k: nat)
    requires IsRun(c, run) && j < |run| && Past(run[j].main)
    ensures k < j && !Past(run[k].main) && Explains(c, run[k], run[j].main)
    ensures forall n :: k < n <= j ==> Past(run[n].main)
    decreases j
  {
    hide Next, Explains;
    assert j > 0;
    assert Next(c, run[j - 1], run[j - 1 + 1]);
    if Past(run[j - 1].main) {
      k := StatusMeans(c, run, j - 1);
      StepAnswers(c, run[k], run[j - 1], run[j]);
    } else {
      k := j - 1;
      StepExplains(c, run[k], run[j]);
    }
  }

  // ----- nobody is stuck

  /** The main thread can go on unless an approval holds the lock it waits for, and that can go on. */
  lemma {:induction false} SomebodyGoesOn(c: Config, run: seq<State>, i: nat)
    requires IsRun(c, run) && i < |run|
    ensures var s := run[i];
            && (s.approver != Idle ==> exists s' :: Next(c, s, s') && s'.approver != s.approver && s'.main == s.main)
            && (!s.main.Done? && (s.approver == Idle || s.main !in {Asking, Waiting}) ==>
                  exists s' :: Next(c, s, s') && s'.main != s.main)
  {
    RunInv(c, run, i);
    hide Once, IsRun;
    ApproverGoesOn(c, run[i]);
    MainGoesOn(c, run[i]);
  }

  lemma {:induction false} ApproverGoesOn(c: Config, s: State)
    ensures s.approver != Idle ==> exists s' :: Next(c, s, s') && s'.approver != s.approver && s'.main == s.main
  {
    if s.approver == Entered {
      var early := !(s.copied || !WantsShot(c) || !c.early);
      var s' := s.(approver := if early then Copying else Idle, shotWrites := s.shotWrites + One(early));
      assert ApproveDecide(c, s, s');
    } else if s.approver == Copying {
      var s' := s.(approver := Idle, copied := true, shotCopies := s.shotCopies + One(true));
      assert ApproveCopied(c, s, s', true);
    }
  }

  lemma {:induction false} MainGoesOn(c: Config, s: State)
    requires Guarded(c, s)
    ensures !s.main.Done? && (s.approver == Idle || s.main !in {Asking, Waiting}) ==>
              exists s' :: Next(c, s, s') && s'.main != s.main
  {
    if !s.main.Done? && (s.approver == Idle || s.main !in {Asking, Waiting}) {
      var s' := MainStep(c, s);
    }
  }

  lemma {:induction false} MainStep(c: Config, s: State) returns (s': State)
    requires Guarded(c, s) && !s.main.Done? && (s.approver == Idle || s.main !in {Asking, Waiting})
    ensures Next(c, s, s') && s'.main != s.main
  {
    match s.main
    case Preparing =>
      s' := s.(main := Dumping, callback := if NeedsConsent(c) then Some(Unavailable) else s.callback);
    case Dumping => s' := s.(main := if c.api && !c.deferred then Asking else Done(Ok));
    case Asking =>
      var v := if c.shell then Approved else s.callback.value;
      s' := s.(main := if v == Unavailable then Waiting else Decided(v));
    case Waiting => s' := s.(main := Decided(s.callback.value));
    case Decided(result) =>
      s' := s.(main := match result case Denied => Done(ConsentDenied) case Unavailable => Done(TimedOut)
                                    case Approved => CheckingShot,
               reportWrites := s.reportWrites + One(result == Approved));
      assert Act(c, s, s', true);
    case CheckingShot =>
      var shot := WantsShot(c) && !s.copied;
      s' := s.(main := if shot then CopyingShot else Done(Ok), shotWrites := s.shotWrites + One(shot));
    case CopyingShot =>
      s' := s.(main := Done(Ok), copied := true, shotCopies := s.shotCopies + One(true));
      assert ShotCopied(c, s, s', true);
  }

  // ----- what the callback says

  /** In this step the user answers `v`. */
  ghost predicate Answered(c: Config, s: State, s': State, v: Result) {
    (v == Approved && ApproveEnter(c, s, s')) || (v == Denied && Deny(c, s, s'))
  }

  /** Nobody answers between two moments. */
  ghost predicate Silent(c: Config, run: seq<State>, i: nat, j: nat)
    requires j < |run|
  {
    forall n :: i <= n < j ==> !ApproveEnter(c, run[n], run[n + 1]) && !Deny(c, run[n], run[n + 1])
  }

  lemma {:induction false} StepSilent(c: Config, s: State, s': State)
    requires Next(c, s, s') && !ApproveEnter(c, s, s') && !Deny(c, s, s') && s.main != Preparing
    ensures s'.callback == s.callback && s'.main != Preparing
  {
  }

  lemma {:induction false} SilenceKeeps(c: Config, run: seq<State>, i: nat, j: nat)
    requires IsRun(c, run) && i <= j < |run| && run[i].main != Preparing && Silent(c, run, i, j)
    ensures run[j].callback == run[i].callback && run[j].main != Preparing
    decreases j
  {
    hide Next, ApproveEnter, Deny;
    if i < j {
      SilenceKeeps(c, run, i, j - 1);
      assert Next(c, run[j - 1], run[j - 1 + 1]);
      assert !ApproveEnter(c, run[j - 1], run[j - 1 + 1]) && !Deny(c, run[j - 1], run[j - 1 + 1]);
      StepSilent(c, run[j - 1], run[j]);
    }
  }

  /** The callback holds the user's last answer, and while there is none, that there is none. */
  lemma {:induction false} CallbackHoldsLastAnswer(c: Config, run: seq<State>, i: nat, j: nat, v: Result)
    requires IsRun(c, run) && i < j < |run| && Silent(c, run, i + 1, j)
    ensures Answered(c, run[i], run[i + 1], v) ==> run[j].callback == Some(v)
    ensures Check(c, run[i], run[i + 1]) ==> run[j].callback == if NeedsConsent(c) then Some(Unavailable) else None
  {
    hide Next;
    RunInv(c, run, i);
    if Answered(c, run[i], run[i + 1], v) || Check(c, run[i], run[i + 1]) {
      SilenceKeeps(c, run, i + 1, j);
    }
  }

  // ----- what is shared

  /** The report is written once at most; success means that it, and a screenshot that is wanted, was shared. */
  ghost predicate Shared(c: Config, s: State) {
    && (s.main in {Preparing, Dumping, Asking, Waiting} || s.main.Decided? ==> s.reportWrites == 0)
    && (s.main == CheckingShot || s.main == CopyingShot ==> s.reportWrites == 1)
    && s.reportWrites <= 1
    && (!WantsShot(c) ==> s.shotWrites == 0 && s.shotCopies == 0 && !s.copied)
    && (s.main == CopyingShot ==> WantsShot(c))
    && (s.copied ==> s.shotCopies > 0)
    && (s.main == Done(Ok) && c.api && !c.deferred ==> s.reportWrites == 1 && (WantsShot(c) ==> s.shotCopies > 0))
    && (s.main == Done(ConsentDenied) || s.main == Done(TimedOut) ==> s.reportWrites == 0)
    && (s.approver == Copying ==> WantsShot(c))
    && s.shotCopies + One(s.approver == Copying) + One(s.main == CopyingShot) <= s.shotWrites
  }

  lemma {:induction false} CallbackShared(c: Config, s: State, s': State)
    requires Shared(c, s)
    requires ApproveEnter(c, s, s') || ApproveDecide(c, s, s') || (exists ok :: ApproveCopied(c, s, s', ok))
             || Deny(c, s, s')
    ensures Shared(c, s')
  {
  }

  lemma {:induction false} AskingShared(c: Config, s: State, s': State)
    requires Shared(c, s)
    requires Check(c, s, s') || StopDumping(c, s, s') || EndDumping(c, s, s') || Ask(c, s, s') || AskAgain(c, s, s')
    ensures Shared(c, s')
  {
  }

  lemma {:induction false} CopyingShared(c: Config, s: State, s': State)
    requires Shared(c, s)
    requires (exists ok :: Act(c, s, s', ok)) || CheckShot(c, s, s') || (exists ok :: ShotCopied(c, s, s', ok))
    ensures Shared(c, s')
  {
  }

  lemma {:induction false} NextShared(c: Config, s: State, s': State)
    requires Shared(c, s) && Next(c, s, s')
    ensures Shared(c, s')
  {
    hide Shared, ApproveEnter, ApproveDecide, ApproveCopied, Deny, Check, StopDumping, EndDumping, Ask, AskAgain;
    hide Act, CheckShot, ShotCopied;
    if (exists ok :: Act(c, s, s', ok)) || CheckShot(c, s, s') || (exists ok :: ShotCopied(c, s, s', ok)) {
      CopyingShared(c, s, s');
    } else if Check(c, s, s') || StopDumping(c, s, s') || EndDumping(c, s, s') || Ask(c, s, s') || AskAgain(c, s, s') {
      AskingShared(c, s, s');
    } else {
      CallbackShared(c, s, s');
    }
  }

  lemma {:induction false} RunShared(c: Config, run: seq<State>, i: nat)
    requires IsRun(c, run) && i < |run|
    ensures Shared(c, run[i])
  {
    hide Next, Shared;
    if i > 0 {
      RunShared(c, run, i - 1);
      assert Next(c, run[i - 1], run[i - 1 + 1]);
      NextShared(c, run[i - 1], run[i]);
    } else {
      assert Shared(c, START) by { StartShared(c); }
    }
  }

  lemma {:induction false} StartShared(c: Config)
    ensures Shared(c, START)
  {
  }

  /**
    A caller that is told OK after asking for the report has it, and the
    screenshot if wanted; one told of a denial or a timeout has no report; and
    the report is never written twice.
   */
  lemma {:induction false} SuccessMeansShared(c: Config, run: seq<State>, i: nat)
    requires IsRun(c, run) && i < |run|
    ensures run[i].reportWrites <= 1
    ensures run[i].main == Done(Ok) && c.api && !c.deferred ==>
              run[i].reportWrites == 1 && (c.screenshot && c.screenshotFd ==> run[i].shotCopies > 0)
    ensures run[i].main == Done(ConsentDenied) || run[i].main == Done(TimedOut) ==> run[i].reportWrites == 0
    ensures !(c.screenshot && c.screenshotFd) ==> run[i].shotWrites == 0
  {
    RunShared(c, run, i);
  }

  /** No run with at most `n` approvals copies the screenshot successfully twice. */
  ghost predicate CopiesOnce(c: Config, n: nat) {
    forall run: seq<State>, i :: IsRun(c, run) && 0 <= i < |run| && run[i].approvals <= n ==> run[i].shotCopies <= 1
  }

  /** An approval may itself copy the screenshot. */
  predicate CopiesEarly(c: Config) {
    NeedsConsent(c) && WantsShot(c) && c.early
  }

  /** Without early copies only the main thread copies, and it does so once. */
  ghost predicate MainOnly(c: Config, s: State) {
    !CopiesEarly(c) ==>
      && s.approver != Copying
      && (s.main.Done? || s.shotCopies == 0)
      && s.shotCopies <= 1
  }

  lemma {:induction false} NextMainOnly(c: Config, s: State, s': State)
    requires Guarded(c, s) && MainOnly(c, s) && Next(c, s, s')
    ensures MainOnly(c, s')
  {
  }

  lemma {:induction false} RunMainOnly(c: Config, run: seq<State>, i: nat)
    requires IsRun(c, run) && i < |run|
    ensures MainOnly(c, run[i])
  {
    hide Next, Guarded, MainOnly;
    if i > 0 {
      RunInv(c, run, i - 1);
      RunMainOnly(c, run, i - 1);
      assert Next(c, run[i - 1], run[i - 1 + 1]);
      NextMainOnly(c, run[i - 1], run[i]);
    } else {
      assert MainOnly(c, START) by { StartMainOnly(c); }
    }
  }

  lemma {:induction false} StartMainOnly(c: Config)
    ensures MainOnly(c, START)
  {
  }

  /**
    For what the caller asked, the screenshot is copied successfully at most
    once in every run, whatever the number of approvals, exactly unless an
    approval may itself copy it; then exactly if approval comes at most once.
   */
  lemma {:induction false} ScreenshotCopiedOnce(c: Config, n: nat)
    ensures CopiesOnce(c, n) <==> n <= 1 || !CopiesEarly(c)
  {
    if n <= 1 || !CopiesEarly(c) {
      forall run: seq<State>, i | IsRun(c, run) && 0 <= i < |run| && run[i].approvals <= n
        ensures run[i].shotCopies <= 1
      {
        RunInv(c, run, i);
        RunMainOnly(c, run, i);
      }
    } else {
      var run := TwoCopies(c);
      assert IsRun(c, run) && run[|run| - 1].approvals <= n;
    }
  }

  lemma {:induction false} Extended(c: Config, run: seq<State>, s: State)
    requires IsRun(c, run) && Next(c, run[|run| - 1], s)
    ensures IsRun(c, run + [s])
  {
    var r := run + [s];
    forall i | 0 <= i < |r| - 1
      ensures Next(c, r[i], r[i + 1])
    {
      assert i < |run| - 1 ==> Next(c, run[i], run[i + 1]);
    }
  }

  /** The main thread's part before anyone approves. */
  const DUMPING := START.(main := Dumping, callback := Some(Unavailable))

  lemma {:induction false} RunToDumping(c: Config) returns (run: seq<State>)
    requires CopiesEarly(c)
    ensures run != [] && IsRun(c, run) && run[|run| - 1] == DUMPING
  {
    run := [START];
    assert Check(c, START, DUMPING);
    Extended(c, run, DUMPING);
    run := run + [DUMPING];
  }

  /** A whole approval that tries to copy early. */
  lemma {:induction false} RunApproval(c: Config, run: seq<State>, ok: bool) returns (longer: seq<State>)
    requires CopiesEarly(c) && run != [] && IsRun(c, run)
    requires var s := run[|run| - 1]; s.callback.Some? && s.approver == Idle && !s.copied
    ensures longer != [] && IsRun(c, longer)
    ensures var s := run[|run| - 1];
            longer[|longer| - 1] == s.(callback := Some(Approved), approvals := s.approvals + 1, copied := ok,
                                       shotWrites := s.shotWrites + 1, shotCopies := s.shotCopies + One(ok))
  {
    hide IsRun, Next;
    var s := run[|run| - 1];
    var s1 := s.(callback := Some(Approved), approver := Entered, approvals := s.approvals + 1);
    var s2 := s1.(approver := Copying, shotWrites := s.shotWrites + 1);
    var s3 := s2.(approver := Idle, copied := ok, shotCopies := s.shotCopies + One(ok));
    ApprovalSteps(c, s, s1, s2, s3, ok);
    Extended(c, run, s1);
    Extended(c, run + [s1], s2);
    Extended(c, run + [s1] + [s2], s3);
    longer := run + [s1] + [s2] + [s3];
  }

  lemma {:induction false} ApprovalSteps(c: Config, s: State, s1: State, s2: State, s3: State, ok: bool)
    requires ApproveEnter(c, s, s1) && ApproveDecide(c, s1, s2) && ApproveCopied(c, s2, s3, ok)
    ensures Next(c, s, s1) && Next(c, s1, s2) && Next(c, s2, s3)
  {
  }

  /** From an approved dump to the main thread's own copy of the screenshot. */
  lemma {:induction false} RunToCopying(c: Config, run: seq<State>) returns (longer: seq<State>)
    requires CopiesEarly(c) && run != [] && IsRun(c, run)
    requires var s := run[|run| - 1];
             s.main == Dumping && s.callback == Some(Approved) && s.approver == Idle && !s.copied
    ensures longer != [] && IsRun(c, longer)
    ensures var s := run[|run| - 1];
            longer[|longer| - 1] == s.(main := CopyingShot, reportWrites := s.reportWrites + 1,
                                       shotWrites := s.shotWrites + 1)
  {
    hide IsRun, Next;
    var s := run[|run| - 1];
    var s1 := s.(main := Asking);
    var s2 := s1.(main := Decided(Approved));
    var s3 := s2.(main := CheckingShot, reportWrites := s.reportWrites + 1);
    var s4 := s3.(main := CopyingShot, shotWrites := s.shotWrites + 1);
    SharingSteps(c, s, s1, s2, s3, s4);
    Extended(c, run, s1);
    Extended(c, run + [s1], s2);
    Extended(c, run + [s1] + [s2], s3);
    Extended(c, run + [s1] + [s2] + [s3], s4);
    longer := run + [s1] + [s2] + [s3] + [s4];
  }

  lemma {:induction false} SharingSteps(c: Config, s: State, s1: State, s2: State, s3: State, s4: State)
    requires EndDumping(c, s, s1) && Ask(c, s1, s2) && Act(c, s2, s3, true) && CheckShot(c, s3, s4)
    ensures Next(c, s, s1) && Next(c, s1, s2) && Next(c, s2, s3) && Next(c, s3, s4)
  {
  }

  /** A failed early copy, then a second approval racing with the main thread's own copy. */
  lemma {:induction false} TwoCopies(c: Config) returns (run: seq<State>)
    requires CopiesEarly(c)
    ensures IsRun(c, run) && run[|run| - 1].approvals == 2 && run[|run| - 1].shotCopies == 2
  {
    hide IsRun, Next;
    run := RunToDumping(c);
    run := RunApproval(c, run, false);
    run := RunToCopying(c, run);
    run := RunApproval(c, run, true);
    var s := run[|run| - 1];
    var s1 := s.(main := Done(Ok), copied := true, shotCopies := s.shotCopies + 1);
    LastCopy(c, s, s1);
    Extended(c, run, s1);
    run := run + [s1];
  }

  lemma {:induction false} LastCopy(c: Config, s: State, s1: State)
    requires ShotCopied(c, s, s1, true)
    ensures Next(c, s, s1)
  {
  }

  // ----- retrieving a deferred report

  const RETRIEVE_TIMEOUT_MS := 30 * 1000

  /**
    Dumpstate::RetrieveInternal.  `answers` is what getResult returns each time
    and `elapsed` the clock at each test of the loop, a second or more apart.
    The report is written only on an approval, which is the first answer.
   */
  method Retrieve(available: bool, answers: nat -> Result, elapsed: nat -> nat, copyOk: bool, keep: bool)
    returns (status: Status, n: nat, wrote: bool, removed: bool)
    requires forall k: nat :: elapsed(k + 1) >= elapsed(k) + 1000
    ensures forall k: nat :: k + 1 < n ==> answers(k) == Unavailable
    ensures wrote <==> available && n > 0 && answers(n - 1) == Approved
    ensures status == ConsentDenied <==> available && n > 0 && answers(n - 1) == Denied
    ensures status == TimedOut <==> !available || (n > 0 && answers(n - 1) == Unavailable)
    ensures available && status == TimedOut ==> n > 0 && elapsed(n - 1) >= RETRIEVE_TIMEOUT_MS
    ensures status == Ok <==> wrote && copyOk
    ensures removed <==> wrote && copyOk && !keep
  {
    n, wrote, removed := 0, false, false;
    if !available {
      return TimedOut, n, wrote, removed;
    }
    var result := answers(0);
    n := 1;
    while result == Unavailable && elapsed(n - 1) < RETRIEVE_TIMEOUT_MS
      invariant n > 0 && result == answers(n - 1)
      invariant forall k: nat :: k + 1 < n ==> answers(k) == Unavailable
      decreases RETRIEVE_TIMEOUT_MS - elapsed(n - 1)
    {
      assert elapsed(n - 1 + 1) >= elapsed(n - 1) + 1000;
      result := answers(n);
      n := n + 1;
    }
    if result == Denied {
      return ConsentDenied, n, wrote, removed;
    }
    if result == Unavailable {
      return TimedOut, n, wrote, removed;
    }
    wrote := true;
    removed := copyOk && !keep;
    status := if copyOk then Ok else Error;
  }

  /** The callback object and the option it shares with the main thread. */
  class Session {
    const config: Config
    var main: Main
    var callback: Option<Result>
    var approver: Approver
    var copied: bool
    var approvals: nat
    var reportWrites: nat
    var shotWrites: nat
    var shotCopies: nat

    function Value(): State
      reads this
    {
      State(main, callback, approver, copied, approvals, reportWrites, shotWrites, shotCopies)
    }

    constructor (config: Config)
      ensures Value() == START && this.config == config
    {
      this.config := config;
      main, callback, approver, copied := Preparing, None, Idle, false;
      approvals, reportWrites, shotWrites, shotCopies := 0, 0, 0, 0;
    }

    /** onReportApproved, when no other thread comes between; `copyOk` is how CopyFileToFd went. */
    method OnReportApproved(copyOk: bool)
      requires callback.Some? && approver == Idle
      modifies this
      ensures approver == Idle
      ensures exists s1, s2 ::
                && ApproveEnter(config, old(Value()), s1) && ApproveDecide(config, s1, s2)
                && if s2.approver == Copying then ApproveCopied(config, s2, Value(), copyOk) else Value() == s2
    {
      callback, approver, approvals := Some(Approved), Entered, approvals + 1;
      ghost var s1 := Value();
      if copied || !WantsShot(config) || !config.early {
        approver := Idle;
        assert ApproveEnter(config, old(Value()), s1) && ApproveDecide(config, s1, Value());
        return;
      }
      approver, shotWrites := Copying, shotWrites + 1;
      ghost var s2 := Value();
      copied := copyOk;
      if copyOk {
        shotCopies := shotCopies + 1;
      }
      approver := Idle;
      assert ApproveEnter(config, old(Value()), s1) && ApproveDecide(config, s1, s2);
    }

    method OnReportDenied()
      requires callback.Some? && approver == Idle
      modifies this
      ensures Deny(config, old(Value()), Value())
    {
      callback := Some(Denied);
    }

    /** The first look at the result in CopyBugreportIfUserConsented; a shell caller needs none. */
    method AskForConsent() returns (waits: bool)
      requires main == Asking && (config.shell || Readable(Value()))
      modifies this`main
      ensures Ask(config, old(Value()), Value()) && (waits <==> main == Waiting)
    {
      var result := Approved;
      if !config.shell {
        result := callback.value;
      }
      waits := result == Unavailable;
      main := if waits then Waiting else Decided(result);
    }

    /** The second look, once the time for an answer is over. */
    method AskOnceMore()
      requires main == Waiting && Readable(Value())
      modifies this`main
      ensures AskAgain(config, old(Value()), Value())
    {
      main := Decided(callback.value);
    }

    /** Acting on the result; `copyOk` is how copying the report would go. */
    method ActOnConsent(copyOk: bool)
      requires main.Decided?
      modifies this`main, this`reportWrites
      ensures Act(config, old(Value()), Value(), copyOk)
      ensures reportWrites > old(reportWrites) <==> old(main) == Decided(Approved)
      ensures main == Done(ConsentDenied) <==> old(main) == Decided(Denied)
      ensures main == Done(TimedOut) <==> old(main) == Decided(Unavailable)
    {
      match main.result
      case Denied => main := Done(ConsentDenied);
      case Unavailable => main := Done(TimedOut);
      case Approved =>
        reportWrites := reportWrites + 1;
        main := if copyOk then CheckingShot else Done(Error);
    }
  }
}
