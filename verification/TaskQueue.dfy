/**
  dumpstate's TaskQueue of zip entries, drained by any number of concurrent
  `run` calls while other threads still add to it.

  One step is what a thread does under the queue's lock, or the end of a task,
  which runs without it.  A task adds its file to the zip unless cancelled,
  and in either case removes the file.
 */
module TaskQueue {
  import opened Options
  import opened Sequences

  /** A `run(do_cancel)` in progress, with the task it is invoking. */
  datatype Runner = Runner(cancel: bool, hand: Option<nat>)

  datatype Call = Call(task: nat, cancelled: bool)

  /**
    `added` and `invoked` are the history of tasks added and of invocations;
    `cleaned` and `zipped` are the tasks whose file was removed or zipped.
   */
  datatype State = State(queue: seq<nat>, runners: map<nat, Runner>,
                         added: seq<nat>, invoked: seq<Call>, cleaned: set<nat>, zipped: set<nat>)

  const EMPTY := State([], map[], [], [], {}, {})

  ghost predicate Add(s: State, s': State, task: nat) {
    task !in s.added && s' == s.(queue := s.queue + [task], added := s.added + [task])
  }

  ghost predicate Begin(s: State, s': State, r: nat, cancel: bool) {
    r !in s.runners && s' == s.(runners := s.runners[r := Runner(cancel, None)])
  }

  ghost predicate Take(s: State, s': State, r: nat) {
    && r in s.runners && s.runners[r].hand == None && s.queue != []
    && s' == s.(queue := s.queue[1..], runners := s.runners[r := s.runners[r].(hand := Some(s.queue[0]))],
                invoked := s.invoked + [Call(s.queue[0], s.runners[r].cancel)])
  }

  ghost predicate Finish(s: State, s': State, r: nat) {
    && r in s.runners && s.runners[r].hand.Some?
    && var t := s.runners[r].hand.value;
       s' == s.(runners := s.runners[r := s.runners[r].(hand := None)],
                cleaned := s.cleaned + {t},
                zipped := if s.runners[r].cancel then s.zipped else s.zipped + {t})
  }

  /** A run returns once it finds the queue empty. */
  ghost predicate Return(s: State, s': State, r: nat) {
    && r in s.runners && s.runners[r].hand == None && s.queue == []
    && s' == s.(runners := s.runners - {r})
  }

  ghost predicate Next(s: State, s': State) {
    || (exists t :: Add(s, s', t))
    || (exists r, cancel :: Begin(s, s', r, cancel))
    || (exists r :: Take(s, s', r))
    || (exists r :: Finish(s, s', r))
    || (exists r :: Return(s, s', r))
  }

  ghost predicate IsRun(run: seq<State>) {
    run != [] && run[0] == EMPTY && forall i :: 0 <= i < |run| - 1 ==> Next(run[i], run[i + 1])
  }

  // ----- what every step keeps

  function Tasks(calls: seq<Call>): seq<nat> {
    if calls == [] then [] else Tasks(calls[..|calls| - 1]) + [calls[|calls| - 1].task]
  }

  ghost predicate InHand(s: State, t: nat) {
    exists r :: r in s.runners && s.runners[r].hand == Some(t)
  }

  /** The cancel flag task `t` was invoked with. */
  ghost predicate InvokedAs(s: State, t: nat, cancelled: bool) {
    Call(t, cancelled) in s.invoked
  }

  ghost predicate Inv(s: State) {
    && Distinct(s.added)
    && s.added == Tasks(s.invoked) + s.queue
    && (forall r :: r in s.runners && s.runners[r].hand.Some? ==>
          InvokedAs(s, s.runners[r].hand.value, s.runners[r].cancel) && s.runners[r].hand.value !in s.cleaned)
    && (forall r, q :: r in s.runners && q in s.runners && r != q && s.runners[r].hand.Some? ==>
          s.runners[r].hand != s.runners[q].hand)
    && (forall t :: t in s.cleaned ==> t in Tasks(s.invoked))
    && (forall t :: t in Tasks(s.invoked) ==> t in s.cleaned || InHand(s, t))
    && (forall t :: t in s.zipped <==> t in s.cleaned && InvokedAs(s, t, false))
  }

  lemma {:induction false} TasksGrow(calls: seq<Call>, c: Call)
    ensures Tasks(calls + [c]) == Tasks(calls) + [c.task]
  {
    assert (calls + [c])[..|calls|] == calls;
  }

  lemma {:induction false} TasksOf(calls: seq<Call>, c: Call)
    requires c in calls
    ensures c.task in Tasks(calls)
  {
    var n := |calls| - 1;
    if calls[n] != c {
      assert c in calls[..n];
      TasksOf(calls[..n], c);
    }
  }

  lemma {:induction false} TakeInv(s: State, s': State, r: nat)
    requires Inv(s) && Take(s, s', r)
    ensures Inv(s')
  {
    var t, c := s.queue[0], Call(s.queue[0], s.runners[r].cancel);
    TasksGrow(s.invoked, c);
    assert s.queue == [t] + s.queue[1..];
    assert s'.added == Tasks(s'.invoked) + s'.queue;
    assert t !in Tasks(s.invoked) by {
      var n := |Tasks(s.invoked)|;
      assert s.added[n] == t;
      assert forall k :: 0 <= k < n ==> Tasks(s.invoked)[k] == s.added[k] && s.added[k] != s.added[n];
    }
    forall q | q in s.runners && s.runners[q].hand.Some?
      ensures s.runners[q].hand != Some(t)
    {
      TasksOf(s.invoked, Call(s.runners[q].hand.value, s.runners[q].cancel));
    }
    TakenInHand(s, s', r);
  }

  /** The task taken joins those in hand, and those in hand stay. */
  lemma {:induction false} TakenInHand(s: State, s': State, r: nat)
    requires Take(s, s', r)
    ensures InHand(s', s.queue[0]) && forall u: nat :: InHand(s, u) ==> InHand(s', u)
  {
    assert s'.runners[r].hand == Some(s.queue[0]);
    forall u: nat | InHand(s, u)
      ensures InHand(s', u)
    {
      var q :| q in s.runners && s.runners[q].hand == Some(u);
      assert q != r && s'.runners[q] == s.runners[q];
    }
  }

  lemma {:induction false} FinishInv(s: State, s': State, r: nat)
    requires Inv(s) && Finish(s, s', r)
    ensures Inv(s')
  {
    var t, cancel := s.runners[r].hand.value, s.runners[r].cancel;
    TasksOf(s.invoked, Call(t, cancel));
    InvokedOnce(s, t, cancel);
    forall u | u in Tasks(s'.invoked)
      ensures u in s'.cleaned || InHand(s', u)
    {
      if u != t && u !in s.cleaned {
        var q :| q in s.runners && s.runners[q].hand == Some(u);
        assert q != r && s'.runners[q] == s.runners[q];
      }
    }
  }

  /** A task is invoked only one way. */
  lemma {:induction false} InvokedOnce(s: State, t: nat, cancel: bool)
    requires Distinct(s.added) && s.added == Tasks(s.invoked) + s.queue && InvokedAs(s, t, cancel)
    ensures !InvokedAs(s, t, !cancel)
  {
    var i :| 0 <= i < |s.invoked| && s.invoked[i] == Call(t, cancel);
    TaskAt(s.invoked, i);
    forall j | 0 <= j < |s.invoked| && j != i
      ensures s.invoked[j].task != t
    {
      TaskAt(s.invoked, j);
      assert s.added[i] == t && s.added[j] == s.invoked[j].task;
    }
  }

  lemma {:induction false} TaskAt(calls: seq<Call>, i: nat)
    requires i < |calls|
    ensures |Tasks(calls)| == |calls| && Tasks(calls)[i] == calls[i].task
  {
    var n := |calls| - 1;
    if n > 0 {
      TaskAt(calls[..n], if i < n then i else 0);
    }
  }

  lemma {:induction false} NextInv(s: State, s': State)
    requires Inv(s) && Next(s, s')
    ensures Inv(s')
  {
    if t: nat :| Add(s, s', t) {
      assert s'.added == Tasks(s'.invoked) + s'.queue;
      OthersInv(s, s');
    } else if r: nat :| Take(s, s', r) {
      TakeInv(s, s', r);
    } else if r: nat :| Finish(s, s', r) {
      FinishInv(s, s', r);
    } else {
      OthersInv(s, s');
    }
  }

  /** Steps that invoke and finish nothing. */
  lemma {:induction false} OthersInv(s: State, s': State)
    requires Inv(s) && s'.invoked == s.invoked && s'.cleaned == s.cleaned && s'.zipped == s.zipped
    requires Distinct(s'.added) && s'.added == Tasks(s'.invoked) + s'.queue
    requires forall r :: r in s'.runners && s'.runners[r].hand.Some? ==> r in s.runners && s'.runners[r] == s.runners[r]
    requires forall r :: r in s.runners && s.runners[r].hand.Some? ==> r in s'.runners && s'.runners[r] == s.runners[r]
    ensures Inv(s')
  {
    forall t: nat | InHand(s, t)
      ensures InHand(s', t)
    {
      var r :| r in s.runners && s.runners[r].hand == Some(t);
      assert r in s'.runners;
    }
  }

  lemma {:induction false} RunInv(run: seq<State>, i: nat)
    requires IsRun(run) && i < |run|
    ensures Inv(run[i])
  {
    if i > 0 {
      RunInv(run, i - 1);
      assert Next(run[i - 1], run[i - 1 + 1]);
      NextInv(run[i - 1], run[i]);
    }
  }

  // ----- theorems about every run

  function Times(calls: seq<Call>, t: nat): nat {
    if calls == [] then 0 else Times(calls[..|calls| - 1], t) + if calls[|calls| - 1].task == t then 1 else 0
  }

  lemma {:induction false} TimesDistinct(calls: seq<Call>, t: nat)
    requires Distinct(Tasks(calls))
    ensures Times(calls, t) == if t in Tasks(calls) then 1 else 0
  {
    if calls != [] {
      var n := |calls| - 1;
      assert calls == calls[..n] + [calls[n]];
      TasksGrow(calls[..n], calls[n]);
      var before := Tasks(calls[..n]);
      assert Tasks(calls) == before + [calls[n].task];
      assert forall i :: 0 <= i < |before| ==>
          before[i] == Tasks(calls)[i] && Tasks(calls)[i] != Tasks(calls)[|before|];
      assert calls[n].task !in before;
      TimesDistinct(calls[..n], t);
    }
  }

  lemma {:induction false} InvInvokes(s: State, t: nat)
    requires Inv(s)
    ensures Times(s.invoked, t) == if t in s.added && t !in s.queue then 1 else 0
  {
    assert forall k :: 0 <= k < |Tasks(s.invoked)| ==> Tasks(s.invoked)[k] == s.added[k];
    assert forall k :: 0 <= k < |s.queue| ==> s.queue[k] == s.added[|Tasks(s.invoked)| + k];
    TimesDistinct(s.invoked, t);
  }

  /** In order and exactly once: what was invoked is what was added, less what still waits. */
  lemma {:induction false} InvokedExactlyOnce(run: seq<State>, i: nat, t: nat)
    requires IsRun(run) && i < |run|
    ensures run[i].added == Tasks(run[i].invoked) + run[i].queue
    ensures Times(run[i].invoked, t) == if t in run[i].added && t !in run[i].queue then 1 else 0
  {
    RunInv(run, i);
    InvInvokes(run[i], t);
  }

  /** A run keeps its flag; what was invoked and what was removed stays so. */
  lemma {:induction false} StepKeeps(s: State, s': State, r: nat)
    requires Next(s, s')
    ensures r in s.runners && r in s'.runners ==> s'.runners[r].cancel == s.runners[r].cancel
    ensures s.invoked <= s'.invoked && s.cleaned <= s'.cleaned
  {
  }

  lemma {:induction false} RunStaysSo(run: seq<State>, i: nat, j: nat)
    requires IsRun(run) && i <= j < |run|
    ensures run[i].invoked <= run[j].invoked && run[i].cleaned <= run[j].cleaned
    decreases j
  {
    hide Next;
    if i < j {
      RunStaysSo(run, i, j - 1);
      assert Next(run[j - 1], run[j - 1 + 1]);
      StepKeeps(run[j - 1], run[j], 0);
    }
  }

  lemma {:induction false} FlagKept(run: seq<State>, i: nat, j: nat, r: nat)
    requires IsRun(run) && i <= j < |run| && forall n :: i <= n <= j ==> r in run[n].runners
    ensures run[j].runners[r].cancel == run[i].runners[r].cancel
    decreases j
  {
    hide Next;
    if i < j {
      FlagKept(run, i, j - 1, r);
      assert r in run[j - 1].runners && r in run[j].runners;
      assert Next(run[j - 1], run[j - 1 + 1]);
      StepKeeps(run[j - 1], run[j], r);
    }
  }

  /**
    A task taken and finished by one call of run(cancel), whatever else happens
    in between, is invoked with that flag, once and only so; its file is
    removed, and was zipped exactly when the run does not cancel.
   */
  lemma {:induction false} InvokedAsBegun(run: seq<State>, i: nat, j: nat, k: nat, l: nat, r: nat, cancel: bool, t: nat)
    requires IsRun(run) && i < j < k < l < |run|
    requires Begin(run[i], run[i + 1], r, cancel) && forall n :: i < n <= k ==> r in run[n].runners
    requires Take(run[j], run[j + 1], r) && t == run[j].queue[0]
    requires Finish(run[k], run[k + 1], r) && run[k].runners[r].hand == Some(t)
    ensures InvokedAs(run[l], t, cancel) && !InvokedAs(run[l], t, !cancel) && Times(run[l].invoked, t) == 1
    ensures t in run[l].cleaned && (t in run[l].zipped <==> !cancel)
  {
    hide IsRun, Next, Inv, Times;
    FlagKept(run, i + 1, j, r);
    assert Call(t, cancel) == run[j + 1].invoked[|run[j].invoked|];
    RunStaysSo(run, j + 1, l);
    RunStaysSo(run, k + 1, l);
    RunInv(run, l);
    TasksOf(run[l].invoked, Call(t, cancel));
    InvokedAlone(run[l], t, cancel);
  }

  lemma {:induction false} InvokedAlone(s: State, t: nat, cancel: bool)
    requires Inv(s) && InvokedAs(s, t, cancel) && t in s.cleaned && t in Tasks(s.invoked)
    ensures !InvokedAs(s, t, !cancel) && Times(s.invoked, t) == 1 && (t in s.zipped <==> !cancel)
  {
    InvokedOnce(s, t, cancel);
    assert forall k :: 0 <= k < |Tasks(s.invoked)| ==> Tasks(s.invoked)[k] == s.added[k];
    TimesDistinct(s.invoked, t);
  }

  /** The invocations of `tasks`, in order. */
  function CallsOf(tasks: seq<nat>, cancelled: bool): seq<Call> {
    seq(|tasks|, i requires 0 <= i < |tasks| => Call(tasks[i], cancelled))
  }

  /** The queue after its first `n` tasks were invoked, one after the other. */
  ghost function Handled(s: State, cancel: bool, n: nat): State
    requires n <= |s.queue|
  {
    var done := set t | t in s.queue[..n];
    s.(queue := s.queue[n..], invoked := s.invoked + CallsOf(s.queue[..n], cancel), cleaned := s.cleaned + done,
       zipped := if cancel then s.zipped else s.zipped + done)
  }

  lemma {:induction false} HandledNone(s: State, cancel: bool)
    ensures Handled(s, cancel, 0) == s
  {
  }

  lemma {:induction false} HandledNext(s: State, cancel: bool, n: nat)
    requires n < |s.queue|
    ensures Handled(s, cancel, n).queue == s.queue[n..] && Handled(s, cancel, n + 1).runners == s.runners
    ensures Handled(Handled(s, cancel, n), cancel, 1) == Handled(s, cancel, n + 1)
    ensures Handled(s, cancel, n + 1).queue == s.queue[n + 1..]
  {
    var a, b := Handled(s, cancel, n), Handled(s, cancel, n + 1);
    assert s.queue[..n + 1] == s.queue[..n] + [s.queue[n]] && a.queue[..1] == [s.queue[n]];
    assert CallsOf(s.queue[..n + 1], cancel) == CallsOf(s.queue[..n], cancel) + CallsOf(a.queue[..1], cancel);
    assert Handled(a, cancel, 1).invoked == b.invoked;
    assert Handled(a, cancel, 1).cleaned == b.cleaned;
  }

  lemma {:induction false} HandledAll(s: State, cancel: bool)
    ensures var e, done := Handled(s, cancel, |s.queue|), set t | t in s.queue;
            && e.queue == [] && e.added == s.added && e.invoked == s.invoked + CallsOf(s.queue, cancel)
            && e.cleaned == s.cleaned + done && e.zipped == if cancel then s.zipped else s.zipped + done
  {
    assert s.queue[..|s.queue|] == s.queue;
  }

  // ----- the queue itself, one locked section at a time

  class Queue {
    var tasks: seq<nat>
    var runners: map<nat, Runner>
    ghost var added: seq<nat>
    ghost var invoked: seq<Call>
    var cleaned: set<nat>
    var zipped: set<nat>

    ghost function Value(): State
      reads this
    {
      State(tasks, runners, added, invoked, cleaned, zipped)
    }

    constructor ()
      ensures Value() == EMPTY
    {
      tasks, runners, cleaned, zipped := [], map[], {}, {};
      added, invoked := [], [];
    }

    /** A call of run(cancel). */
    method BeginRun(r: nat, cancel: bool)
      requires r !in runners
      modifies this
      ensures Begin(old(Value()), Value(), r, cancel)
    {
      runners := runners[r := Runner(cancel, None)];
    }

    method AddTask(task: nat)
      requires task !in added
      modifies this
      ensures Add(old(Value()), Value(), task)
    {
      tasks := tasks + [task];
      added := added + [task];
    }

    /** The test and the pop of run's loop, under the lock; nothing to invoke means that run `r` returns. */
    method RunTurn(r: nat) returns (task: Option<nat>)
      requires r in runners && runners[r].hand == None
      modifies this
      ensures if task.Some? then Take(old(Value()), Value(), r) && runners[r].hand == task
              else Return(old(Value()), Value(), r)
    {
      if tasks == [] {
        runners := runners - {r};
        return None;
      }
      task := Some(tasks[0]);
      tasks := tasks[1..];
      invoked := invoked + [Call(task.value, runners[r].cancel)];
      runners := runners[r := runners[r].(hand := task)];
    }

    /** The task of EnqueueAddZipEntryAndCleanupIfNeeded, invoked without the lock. */
    method Invoke(r: nat)
      requires r in runners && runners[r].hand.Some?
      modifies this
      ensures Finish(old(Value()), Value(), r)
    {
      var task := runners[r].hand.value;
      if !runners[r].cancel {
        zipped := zipped + {task};
      }
      cleaned := cleaned + {task};
      runners := runners[r := runners[r].(hand := None)];
    }

    /** One turn of run's loop when no other thread comes between; `more` tells whether there was a task. */
    method RunOne(r: nat) returns (more: bool)
      requires r in runners && runners[r].hand == None
      modifies this
      ensures more <==> old(tasks) != []
      ensures more ==> Value() == Handled(old(Value()), old(runners[r].cancel), 1)
      ensures !more ==> Return(old(Value()), Value(), r)
    {
      ghost var s := Value();
      var task := RunTurn(r);
      more := task.Some?;
      if more {
        assert CallsOf(s.queue[..1], s.runners[r].cancel) == [Call(s.queue[0], s.runners[r].cancel)];
        Invoke(r);
        assert runners == s.runners;
      }
    }

    /**
      A whole run(cancel) with no other thread about: the queue is emptied in
      order, every file removed, and all are zipped or, when cancelling, none.
     */
    method Run(r: nat, cancel: bool)
      requires r !in runners
      modifies this
      ensures tasks == [] && runners == old(runners) && added == old(added)
      ensures invoked == old(invoked) + CallsOf(old(tasks), cancel)
      ensures cleaned == old(cleaned) + set t | t in old(tasks)
      ensures zipped == if cancel then old(zipped) else old(zipped) + set t | t in old(tasks)
    {
      hide Handled, CallsOf;
      ghost var n := 0;
      BeginRun(r, cancel);
      ghost var s := Value();
      HandledNone(s, cancel);
      var more := true;
      while more
        invariant n <= |s.queue| && (!more ==> n == |s.queue|)
        invariant Value() == Handled(s, cancel, n).(runners := if more then s.runners else s.runners - {r})
        invariant Handled(s, cancel, n).runners == s.runners && Handled(s, cancel, n).queue == s.queue[n..]
        decreases |s.queue| - n, more
      {
        more := RunOne(r);
        if more {
          HandledNext(s, cancel, n);
          n := n + 1;
        }
      }
      HandledAll(s, cancel);
      assert s.runners - {r} == old(runners);
    }

    /** The end of ShutdownDumpPool: drains the queue and destroys it, which drains it once more. */
    method Shutdown(drain: nat, destroy: nat)
      requires drain !in runners && destroy !in runners
      modifies this
      ensures tasks == [] && runners == old(runners) && added == old(added)
      ensures cleaned == old(cleaned) + set t | t in old(tasks)
      ensures zipped == old(zipped) && invoked == old(invoked) + CallsOf(old(tasks), true)
    {
      Run(drain, true);
      Run(destroy, true);
    }
  }
}
