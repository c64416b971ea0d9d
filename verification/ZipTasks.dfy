/**
  The pool and the queue together, as Dumpstate uses them: tasks running on
  pool workers, and the main thread, add zip entries to the queue; runs of the
  queue come from the main thread and from a cancelling binder thread; and
  Dumpstate::ShutdownDumpPool joins the pool, drains the queue and destroys it.
 */
module ZipTasks {
  import opened Options
  import Pool = DumpPool
  import Queue = TaskQueue

  /**
    The main thread: working, then in ShutdownDumpPool joining the pool's
    threads, in its own run(true), in the one of the queue's destructor, and done.
   */
  datatype Main = Working | Joining | Draining | Destroying | Done

  datatype State = State(pool: Pool.State, queue: Queue.State, main: Main)

  const START := State(Pool.EMPTY, Queue.EMPTY, Working)

  /** The run(true) of ShutdownDumpPool, and that of the queue's destructor. */
  const DRAIN: nat := 0
  const DESTROY: nat := 1

  predicate OwnRun(r: nat) {
    r == DRAIN || r == DESTROY
  }

  /** Some worker is running a task. */
  predicate Busy(s: State) {
    exists w :: 0 <= w < |s.pool.workers| && s.pool.workers[w].Busy?
  }

  // ----- steps

  ghost predicate StartPool(s: State, s': State, count: int) {
    s.main == Working && Pool.Start(s.pool, s'.pool, count) && s' == s.(pool := s'.pool)
  }

  /** Tasks are posted by the main thread or by a running task. */
  ghost predicate PostTask(s: State, s': State, task: nat, woken: int) {
    (s.main == Working || Busy(s)) && Pool.Post(s.pool, s'.pool, task, woken) && s' == s.(pool := s'.pool)
  }

  ghost predicate WorkerStep(s: State, s': State, w: nat) {
    Pool.WorkerStep(s.pool, s'.pool, w) && s' == s.(pool := s'.pool)
  }

  /** Zip entries are added by the main thread or by a running task. */
  ghost predicate AddEntry(s: State, s': State, task: nat) {
    (s.main == Working || Busy(s)) && Queue.Add(s.queue, s'.queue, task) && s' == s.(queue := s'.queue)
  }

  /** A run that is not part of the shutdown, as long as there is a queue. */
  ghost predicate BeginRun(s: State, s': State, r: nat, cancel: bool) {
    !OwnRun(r) && s.main != Done && Queue.Begin(s.queue, s'.queue, r, cancel) && s' == s.(queue := s'.queue)
  }

  ghost predicate RunStep(s: State, s': State, r: nat) {
    && (Queue.Take(s.queue, s'.queue, r) || Queue.Finish(s.queue, s'.queue, r)
        || (!OwnRun(r) && Queue.Return(s.queue, s'.queue, r)))
    && s' == s.(queue := s'.queue)
  }

  /** The pool's destructor, up to the joins; without threads there is nothing to join. */
  ghost predicate StopPool(s: State, s': State) {
    && s.main == Working
    && if s.pool.shutdown || s.pool.workers == [] then
         s'.pool == s.pool && Drains(s, s')
       else
         Pool.Shutdown(s.pool, s'.pool) && s' == s.(pool := s'.pool, main := Joining)
  }

  ghost predicate JoinPool(s: State, s': State) {
    s.main == Joining && Pool.Join(s.pool, s'.pool) && Drains(s, s')
  }

  ghost predicate Drains(s: State, s': State) {
    Queue.Begin(s.queue, s'.queue, DRAIN, true) && s'.main == Draining
  }

  /** The drain is over, and the queue's destructor runs it once more. */
  ghost predicate EndDrain(s: State, s': State) {
    && s.main == Draining && s'.pool == s.pool && s'.main == Destroying
    && exists between :: Queue.Return(s.queue, between, DRAIN) && Queue.Begin(between, s'.queue, DESTROY, true)
  }

  ghost predicate EndDestroy(s: State, s': State) {
    && s.main == Destroying && s'.pool == s.pool && s'.main == Done
    && Queue.Return(s.queue, s'.queue, DESTROY)
  }

  ghost predicate Next(s: State, s': State) {
    || (exists count :: StartPool(s, s', count))
    || (exists task, woken :: PostTask(s, s', task, woken))
    || (exists w :: WorkerStep(s, s', w))
    || (exists task :: AddEntry(s, s', task))
    || (exists r, cancel :: BeginRun(s, s', r, cancel))
    || (exists r :: RunStep(s, s', r))
    || StopPool(s, s')
    || JoinPool(s, s')
    || EndDrain(s, s')
    || EndDestroy(s, s')
  }

  ghost predicate IsRun(run: seq<State>) {
    run != [] && run[0] == START && forall i :: 0 <= i < |run| - 1 ==> Next(run[i], run[i + 1])
  }

  // ----- what every step keeps

  /** Once the pool is joined no worker is left, and once drained nothing waits. */
  ghost predicate Ordered(s: State) {
    && (s.main == Working ==> !s.pool.shutdown)
    && (s.main == Joining ==> s.pool.shutdown && s.pool.workers != [])
    && (s.main in {Draining, Destroying, Done} ==> s.pool.workers == [])
    && (s.main in {Destroying, Done} ==> s.queue.queue == [])
    && (DRAIN in s.queue.runners <==> s.main == Draining)
    && (DESTROY in s.queue.runners <==> s.main == Destroying)
  }

  lemma {:induction false} NextOrdered(s: State, s': State)
    requires Ordered(s) && Next(s, s')
    ensures Ordered(s')
  {
  }

  /** A step of the whole is one or two steps of the queue, or leaves it alone. */
  lemma {:induction false} NextQueue(s: State, s': State)
    requires Queue.Inv(s.queue) && Next(s, s')
    ensures Queue.Inv(s'.queue)
  {
    hide Queue.Inv;
    if s'.queue != s.queue {
      if EndDrain(s, s') {
        var between :| Queue.Return(s.queue, between, DRAIN) && Queue.Begin(between, s'.queue, DESTROY, true);
        Queue.NextInv(s.queue, between);
        Queue.NextInv(between, s'.queue);
      } else {
        assert Queue.Next(s.queue, s'.queue);
        Queue.NextInv(s.queue, s'.queue);
      }
    }
  }

  lemma {:induction false} RunKeeps(run: seq<State>, i: nat)
    requires IsRun(run) && i < |run|
    ensures Ordered(run[i]) && Queue.Inv(run[i].queue)
  {
    hide Next, Ordered, Queue.Inv;
    if i == 0 {
      StartKeeps();
    } else {
      RunKeeps(run, i - 1);
      assert Next(run[i - 1], run[i - 1 + 1]);
      NextOrdered(run[i - 1], run[i]);
      NextQueue(run[i - 1], run[i]);
    }
  }

  lemma {:induction false} StartKeeps()
    ensures Ordered(START) && Queue.Inv(START.queue)
  {
  }

  // ----- theorems about every run

  /** Once the pool is joined nobody adds an entry any more. */
  lemma {:induction false} NobodyAddsAfterJoin(run: seq<State>, i: nat, j: nat)
    requires IsRun(run) && i <= j < |run| && run[i].main in {Draining, Destroying, Done}
    ensures run[j].main in {Draining, Destroying, Done} && run[j].queue.added == run[i].queue.added
    decreases j
  {
    hide Next, Ordered, Queue.Inv;
    if i < j {
      NobodyAddsAfterJoin(run, i, j - 1);
      RunKeeps(run, j - 1);
      assert Next(run[j - 1], run[j - 1 + 1]);
      LateStep(run[j - 1], run[j]);
    }
  }

  lemma {:induction false} LateStep(s: State, s': State)
    requires Ordered(s) && Next(s, s') && s.main in {Draining, Destroying, Done}
    ensures s'.main in {Draining, Destroying, Done} && s'.queue.added == s.queue.added
  {
  }

  /**
    After ShutdownDumpPool every added task was invoked exactly once, its file
    is removed unless another run still has the task in hand, and was zipped
    exactly when the task was not cancelled.
   */
  lemma {:induction false} NothingLeftAfterShutdown(run: seq<State>, i: nat, t: nat)
    requires IsRun(run) && i < |run| && run[i].main in {Destroying, Done} && t in run[i].queue.added
    ensures Queue.Times(run[i].queue.invoked, t) == 1
    ensures t in run[i].queue.cleaned || Queue.InHand(run[i].queue, t)
    ensures run[i].queue.runners == map[] ==> t in run[i].queue.cleaned
    ensures t in run[i].queue.zipped <==> t in run[i].queue.cleaned && Queue.InvokedAs(run[i].queue, t, false)
  {
    RunKeeps(run, i);
    Queue.InvInvokes(run[i].queue, t);
    var q := run[i].queue;
    assert q.added == Queue.Tasks(q.invoked);
  }

  // ----- who adds, posts and runs

  /** A zip entry can be added exactly while the main thread works or a worker is running a task. */
  lemma {:induction false} AddsExactly(s: State, task: nat)
    requires task !in s.queue.added
    ensures (exists s' :: Next(s, s') && s'.queue.added == s.queue.added + [task]) <==>
            s.main == Working || exists w :: 0 <= w < |s.pool.workers| && s.pool.workers[w].Busy?
  {
    if s.main == Working || Busy(s) {
      var s' := s.(queue := s.queue.(queue := s.queue.queue + [task], added := s.queue.added + [task]));
      assert AddEntry(s, s', task);
    }
  }

  /** So can a task be posted to the pool. */
  lemma {:induction false} PostsExactly(s: State, task: nat)
    requires task !in s.pool.posted
    ensures (exists s' :: Next(s, s') && s'.pool.posted == s.pool.posted + [task]) <==>
            s.main == Working || exists w :: 0 <= w < |s.pool.workers| && s.pool.workers[w].Busy?
  {
    if s.main == Working || Busy(s) {
      var x := s.pool;
      var woken := -1;
      if Pool.Asleep in x.workers {
        woken :| 0 <= woken < |x.workers| && x.workers[woken] == Pool.Asleep;
      }
      var s' := s.(pool := x.(tasks := x.tasks + [task], posted := x.posted + [task],
                              workers := if woken == -1 then x.workers else x.workers[woken := Pool.Ready]));
      assert PostTask(s, s', task, woken);
    }
  }

  /** Another thread can begin a run with either flag exactly while the queue exists. */
  lemma {:induction false} RunsExactly(s: State, r: nat, cancel: bool)
    requires !OwnRun(r) && r !in s.queue.runners
    ensures (exists s' :: Next(s, s') && r in s'.queue.runners && s'.queue.runners[r].cancel == cancel) <==>
            s.main != Done
  {
    if s.main != Done {
      var s' := s.(queue := s.queue.(runners := s.queue.runners[r := Queue.Runner(cancel, None)]));
      assert BeginRun(s, s', r, cancel);
    }
  }

  /** Workers go on whatever the main thread does, and the pool can be started while that works. */
  lemma {:induction false} PoolGoesOn(s: State, pool: Pool.State, w: nat, count: int)
    ensures Pool.WorkerStep(s.pool, pool, w) ==> Next(s, s.(pool := pool))
    ensures s.main == Working && Pool.Start(s.pool, pool, count) ==> Next(s, s.(pool := pool))
  {
    assert WorkerStep(s, s.(pool := pool), w) <==> Pool.WorkerStep(s.pool, pool, w);
    assert StartPool(s, s.(pool := pool), count) <==> s.main == Working && Pool.Start(s.pool, pool, count);
  }

  // ----- the shutdown goes on

  ghost predicate CanReach(s: State, main: Main) {
    exists s' :: Next(s, s') && s'.main == main
  }

  lemma {:induction false} WorkingStops(s: State)
    requires Ordered(s) && s.main == Working
    ensures CanReach(s, if s.pool.workers == [] then Draining else Joining)
  {
    if s.pool.workers == [] {
      var queue := s.queue.(runners := s.queue.runners[DRAIN := Queue.Runner(true, None)]);
      assert StopPool(s, State(s.pool, queue, Draining));
    } else {
      var pool := s.pool.(shutdown := true, tasks := [], workers := Pool.Roused(s.pool.workers));
      assert StopPool(s, State(pool, s.queue, Joining));
    }
  }

  lemma {:induction false} JoiningDrains(s: State)
    requires Ordered(s) && s.main == Joining && forall w :: 0 <= w < |s.pool.workers| ==> s.pool.workers[w] == Pool.Gone
    ensures CanReach(s, Draining)
  {
    var queue := s.queue.(runners := s.queue.runners[DRAIN := Queue.Runner(true, None)]);
    assert JoinPool(s, State(s.pool.(workers := []), queue, Draining));
  }

  lemma {:induction false} DrainingEnds(s: State)
    requires Ordered(s) && s.main == Draining && s.queue.queue == [] && s.queue.runners[DRAIN].hand == None
    ensures CanReach(s, Destroying)
  {
    var between := s.queue.(runners := s.queue.runners - {DRAIN});
    var queue := between.(runners := between.runners[DESTROY := Queue.Runner(true, None)]);
    assert Queue.Return(s.queue, between, DRAIN) && Queue.Begin(between, queue, DESTROY, true);
    assert EndDrain(s, State(s.pool, queue, Destroying));
  }

  lemma {:induction false} DestroyingEnds(s: State)
    requires Ordered(s) && s.main == Destroying && s.queue.runners[DESTROY].hand == None
    ensures CanReach(s, Done)
  {
    var queue := s.queue.(runners := s.queue.runners - {DESTROY});
    assert EndDestroy(s, State(s.pool, queue, Done));
  }

  /** A run with a task in hand can finish it, and one without can take the next. */
  lemma {:induction false} RunGoesOn(s: State, r: nat)
    requires r in s.queue.runners && (s.queue.runners[r].hand.Some? || s.queue.queue != [])
    ensures exists s' :: Next(s, s') && s'.main == s.main && r in s'.queue.runners
                         && if s.queue.runners[r].hand.Some? then s'.queue.runners[r].hand == None
                            else s'.queue.runners[r].hand == Some(s.queue.queue[0])
  {
    var x, q := s.queue.runners[r], s.queue;
    if x.hand.Some? {
      var q' := q.(runners := q.runners[r := x.(hand := None)], cleaned := q.cleaned + {x.hand.value},
                   zipped := if x.cancel then q.zipped else q.zipped + {x.hand.value});
      assert Queue.Finish(q, q', r);
      assert RunStep(s, s.(queue := q'), r);
    } else {
      var q' := q.(queue := q.queue[1..], runners := q.runners[r := x.(hand := Some(q.queue[0]))],
                   invoked := q.invoked + [Queue.Call(q.queue[0], x.cancel)]);
      assert Queue.Take(q, q', r);
      assert RunStep(s, s.(queue := q'), r);
    }
  }

  /**
    In every state of every run ShutdownDumpPool can go on: it can begin, join
    the pool once its workers are gone, and end each of its own runs of the
    queue once that is empty and the run has no task in hand.
   */
  lemma {:induction false} ShutdownGoesOn(run: seq<State>, i: nat)
    requires IsRun(run) && i < |run|
    ensures var s := run[i];
            match s.main
            case Working => CanReach(s, if s.pool.workers == [] then Draining else Joining)
            case Joining =>
              (forall w :: 0 <= w < |s.pool.workers| ==> s.pool.workers[w] == Pool.Gone) ==> CanReach(s, Draining)
            case Draining =>
              && DRAIN in s.queue.runners
              && (s.queue.queue == [] && s.queue.runners[DRAIN].hand == None ==> CanReach(s, Destroying))
            case Destroying =>
              && DESTROY in s.queue.runners && s.queue.queue == []
              && (s.queue.runners[DESTROY].hand == None ==> CanReach(s, Done))
            case Done => true
  {
    hide CanReach, IsRun;
    RunKeeps(run, i);
    var s := run[i];
    match s.main
    case Working => WorkingStops(s);
    case Joining =>
      if forall w :: 0 <= w < |s.pool.workers| ==> s.pool.workers[w] == Pool.Gone {
        JoiningDrains(s);
      }
    case Draining =>
      if s.queue.queue == [] && s.queue.runners[DRAIN].hand == None {
        DrainingEnds(s);
      }
    case Destroying =>
      if s.queue.runners[DESTROY].hand == None {
        DestroyingEnds(s);
      }
    case Done =>
  }

  // ----- what the shutdown finds waiting is not zipped

  ghost predicate OnlyOwnRuns(s: State) {
    forall r :: r in s.queue.runners ==> OwnRun(r)
  }

  /** The runs of the shutdown cancel. */
  ghost predicate OwnRunsCancel(s: State) {
    forall r :: r in s.queue.runners && OwnRun(r) ==> s.queue.runners[r].cancel
  }

  lemma {:induction false} NextOwnRunsCancel(s: State, s': State)
    requires OwnRunsCancel(s) && Next(s, s')
    ensures OwnRunsCancel(s')
  {
  }

  lemma {:induction false} RunOwnRunsCancel(run: seq<State>, i: nat)
    requires IsRun(run) && i < |run|
    ensures OwnRunsCancel(run[i])
  {
    hide Next;
    if i > 0 {
      RunOwnRunsCancel(run, i - 1);
      assert Next(run[i - 1], run[i - 1 + 1]);
      NextOwnRunsCancel(run[i - 1], run[i]);
    }
  }

  /** What was invoked since `before` was cancelled. */
  ghost predicate CancelledSince(before: seq<Queue.Call>, after: seq<Queue.Call>) {
    before <= after && forall k :: |before| <= k < |after| ==> after[k].cancelled
  }

  lemma {:induction false} StepCancels(s: State, s': State)
    requires Next(s, s') && OnlyOwnRuns(s) && OwnRunsCancel(s)
    ensures CancelledSince(s.queue.invoked, s'.queue.invoked)
  {
  }

  lemma {:induction false} StretchCancels(run: seq<State>, i: nat, j: nat)
    requires IsRun(run) && i <= j < |run| && forall n :: i <= n <= j ==> OnlyOwnRuns(run[n])
    ensures CancelledSince(run[i].queue.invoked, run[j].queue.invoked)
    decreases j
  {
    hide Next, OnlyOwnRuns, OwnRunsCancel;
    if i < j {
      StretchCancels(run, i, j - 1);
      RunOwnRunsCancel(run, j - 1);
      assert Next(run[j - 1], run[j - 1 + 1]);
      StepCancels(run[j - 1], run[j]);
    }
  }

  /**
    A task that waits when only the shutdown's own runs are left is never
    zipped, and in the end its file is removed.
   */
  lemma {:induction false} ShutdownCancels(run: seq<State>, i: nat, j: nat, t: nat)
    requires IsRun(run) && i <= j < |run| && t in run[i].queue.queue
    requires forall n :: i <= n <= j ==> OnlyOwnRuns(run[n])
    ensures t !in run[j].queue.zipped
    ensures run[j].main == Done ==> t in run[j].queue.cleaned
  {
    hide IsRun, OnlyOwnRuns;
    RunKeeps(run, i);
    RunKeeps(run, j);
    StretchCancels(run, i, j);
    var before, after := run[i].queue, run[j].queue;
    NotYetInvoked(before, t);
    if Queue.InvokedAs(after, t, false) {
      var k :| 0 <= k < |after.invoked| && after.invoked[k] == Queue.Call(t, false);
      assert before.invoked[k] == after.invoked[k];
      Queue.TasksOf(before.invoked, before.invoked[k]);
    }
    if run[j].main == Done {
      EndsCleaned(run, i, j, t);
    }
  }

  lemma {:induction false} NotYetInvoked(q: Queue.State, t: nat)
    requires Queue.Inv(q) && t in q.queue
    ensures t !in Queue.Tasks(q.invoked)
  {
    var done := Queue.Tasks(q.invoked);
    var k :| 0 <= k < |q.queue| && q.queue[k] == t;
    assert q.added[|done| + k] == t;
    assert forall n :: 0 <= n < |done| ==> done[n] == q.added[n] && q.added[n] != q.added[|done| + k];
  }

  lemma {:induction false} StepAdds(s: State, s': State)
    requires Next(s, s')
    ensures s.queue.added <= s'.queue.added
  {
  }

  lemma {:induction false} RunAdds(run: seq<State>, i: nat, j: nat)
    requires IsRun(run) && i <= j < |run|
    ensures run[i].queue.added <= run[j].queue.added
    decreases j
  {
    hide Next;
    if i < j {
      RunAdds(run, i, j - 1);
      assert Next(run[j - 1], run[j - 1 + 1]);
      StepAdds(run[j - 1], run[j]);
    }
  }

  lemma {:induction false} EndsCleaned(run: seq<State>, i: nat, j: nat, t: nat)
    requires IsRun(run) && i <= j < |run| && t in run[i].queue.queue && run[j].main == Done && OnlyOwnRuns(run[j])
    ensures t in run[j].queue.cleaned
  {
    hide IsRun;
    RunKeeps(run, i);
    RunKeeps(run, j);
    RunAdds(run, i, j);
    assert t in run[i].queue.added;
    NothingLeftAfterShutdown(run, j, t);
  }
}
