/**
  The worker protocol of dumpstate's DumpPool: tasks posted under a lock, a
  condition variable that may wake spuriously, and a destructor that drops
  what is queued and joins the workers.

  One step is what a thread does while it holds the pool's lock, or the end
  of a task, which runs without it.
 */
module DumpPool {
  import opened Sequences

  const MAX_THREAD_COUNT := 4

  /** Ready workers are about to take the lock and look; Asleep ones wait on the condition variable. */
  datatype Worker = Ready | Asleep | Busy(task: nat) | Gone

  /** `posted` and `started` are the history of tasks posted and started. */
  datatype State = State(shutdown: bool, tasks: seq<nat>, workers: seq<Worker>,
                         posted: seq<nat>, started: seq<nat>)

  const EMPTY := State(false, [], [], [], [])

  // ----- steps

  ghost predicate Start(s: State, s': State, count: int) {
    && count > 0 && s.workers == [] && !s.shutdown
    && var n := if count > MAX_THREAD_COUNT then MAX_THREAD_COUNT else count;
       s' == s.(shutdown := false, workers := seq(n, i => Ready))
  }

  /** Pushes a task, shut down or not, and notifies one waiter, if there is one; which one is left open. */
  ghost predicate Post(s: State, s': State, task: nat, woken: int) {
    && task !in s.posted
    && (if Asleep in s.workers then 0 <= woken < |s.workers| && s.workers[woken] == Asleep else woken == -1)
    && s' == s.(tasks := s.tasks + [task], posted := s.posted + [task],
                workers := if woken == -1 then s.workers else s.workers[woken := Ready])
  }

  /** A worker holding the lock: leaves, waits, or takes the front task. */
  function Looked(s: State, w: nat): State
    requires w < |s.workers|
  {
    if s.shutdown then s.(workers := s.workers[w := Gone])
    else if s.tasks == [] then s.(workers := s.workers[w := Asleep])
    else s.(workers := s.workers[w := Busy(s.tasks[0])], tasks := s.tasks[1..], started := s.started + [s.tasks[0]])
  }

  ghost predicate Look(s: State, s': State, w: nat) {
    w < |s.workers| && s.workers[w] == Ready && s' == Looked(s, w)
  }

  ghost predicate Finish(s: State, s': State, w: nat) {
    w < |s.workers| && s.workers[w].Busy? && s' == s.(workers := s.workers[w := Ready])
  }

  ghost predicate WakeSpuriously(s: State, s': State, w: nat) {
    w < |s.workers| && s.workers[w] == Asleep && s' == s.(workers := s.workers[w := Ready])
  }

  function Roused(workers: seq<Worker>): seq<Worker> {
    seq(|workers|, i requires 0 <= i < |workers| => if workers[i] == Asleep then Ready else workers[i])
  }

  /** The destructor up to joining the workers. */
  ghost predicate Shutdown(s: State, s': State) {
    !s.shutdown && s.workers != [] && s' == s.(shutdown := true, tasks := [], workers := Roused(s.workers))
  }

  ghost predicate Join(s: State, s': State) {
    s.shutdown && s.workers != [] && (forall w :: 0 <= w < |s.workers| ==> s.workers[w] == Gone)
    && s' == s.(workers := [])
  }

  ghost predicate WorkerStep(s: State, s': State, w: nat) {
    Look(s, s', w) || Finish(s, s', w) || WakeSpuriously(s, s', w)
  }

  ghost predicate Next(s: State, s': State) {
    || (exists count :: Start(s, s', count))
    || (exists task, woken :: Post(s, s', task, woken))
    || (exists w :: WorkerStep(s, s', w))
    || Shutdown(s, s')
    || Join(s, s')
  }

  ghost predicate IsRun(run: seq<State>) {
    run != [] && run[0] == EMPTY && forall i :: 0 <= i < |run| - 1 ==> Next(run[i], run[i + 1])
  }

  // ----- what every step keeps

  /** How many workers are not waiting. */
  function Awake(workers: seq<Worker>): nat {
    if workers == [] then 0
    else Awake(workers[..|workers| - 1]) + if workers[|workers| - 1] == Asleep then 0 else 1
  }

  function Min(a: nat, b: nat): nat {
    if a <= b then a else b
  }

  ghost predicate Inv(s: State) {
    && Distinct(s.posted)
    && s.started <= s.posted
    && (!s.shutdown ==> s.posted == s.started + s.tasks)
    && (!s.shutdown ==> Awake(s.workers) >= Min(|s.tasks|, |s.workers|))
    && (!s.shutdown ==> Gone !in s.workers)
    && (s.shutdown ==> Asleep !in s.workers)
  }

  lemma {:induction false} AwakeAfter(workers: seq<Worker>, w: nat, x: Worker)
    requires w < |workers|
    ensures Awake(workers[w := x]) + (if workers[w] == Asleep then 0 else 1)
         == Awake(workers) + if x == Asleep then 0 else 1
  {
    var n := |workers| - 1;
    if w < n {
      assert workers[w := x][..n] == workers[..n][w := x];
      AwakeAfter(workers[..n], w, x);
    } else {
      assert workers[w := x][..n] == workers[..n];
    }
  }

  lemma {:induction false} AllAwake(workers: seq<Worker>)
    ensures Awake(workers) <= |workers|
    ensures Asleep !in workers ==> Awake(workers) == |workers|
  {
    if workers != [] {
      AllAwake(workers[..|workers| - 1]);
      assert workers == workers[..|workers| - 1] + [workers[|workers| - 1]];
    }
  }

  lemma {:induction false} PostInv(s: State, s': State, task: nat, woken: int)
    requires Inv(s) && Post(s, s', task, woken)
    ensures Inv(s')
  {
    AllAwake(s.workers);
    if woken != -1 {
      AwakeAfter(s.workers, woken, Ready);
    }
    assert !s.shutdown ==> s'.posted == s'.started + s'.tasks;
  }

  lemma {:induction false} LookInv(s: State, s': State, w: nat)
    requires Inv(s) && Look(s, s', w)
    ensures Inv(s')
  {
    AwakeAfter(s.workers, w, s'.workers[w]);
    if !s.shutdown && s.tasks != [] {
      assert s.tasks == [s.tasks[0]] + s.tasks[1..];
      assert s'.posted == s'.started + s'.tasks;
    }
  }

  lemma {:induction false} RouseInv(s: State, s': State, w: nat)
    requires Inv(s) && (Finish(s, s', w) || WakeSpuriously(s, s', w))
    ensures Inv(s')
  {
    AwakeAfter(s.workers, w, Ready);
  }

  lemma {:induction false} NextInv(s: State, s': State)
    requires Inv(s) && Next(s, s')
    ensures Inv(s')
  {
    if task, woken :| Post(s, s', task, woken) {
      PostInv(s, s', task, woken);
    } else if w: nat :| WorkerStep(s, s', w) {
      if Look(s, s', w) {
        LookInv(s, s', w);
      } else {
        RouseInv(s, s', w);
      }
    } else {
      AllAwake(s'.workers);
    }
  }

  lemma {:induction false} RunInv(run: seq<State>, i: nat)
    requires IsRun(run) && i < |run|
    ensures Inv(run[i])
  {
    if i > 0 {
      RunInv(run, i - 1);
      assert Next(run[i - 1], run[i - 1 + 1]);
      NextInv(run[i - 1], run[i]);
    }
  }

  // ----- theorems about every run

  /** Tasks start in the order they were posted, each at most once, and none is lost before shutdown. */
  lemma {:induction false} TasksStartInOrder(run: seq<State>, i: nat)
    requires IsRun(run) && i < |run|
    ensures run[i].started <= run[i].posted && Distinct(run[i].started)
    ensures !run[i].shutdown ==> run[i].posted == run[i].started + run[i].tasks
  {
    RunInv(run, i);
  }

  /** No wakeup is lost: as many workers are awake as there are tasks for, up to all of them. */
  lemma {:induction false} NoLostWakeup(run: seq<State>, i: nat)
    requires IsRun(run) && i < |run| && !run[i].shutdown
    ensures Awake(run[i].workers) >= Min(|run[i].tasks|, |run[i].workers|)
    ensures run[i].tasks != [] && run[i].workers != [] ==>
              exists w :: 0 <= w < |run[i].workers| && (run[i].workers[w].Ready? || run[i].workers[w].Busy?)
  {
    RunInv(run, i);
    var workers := run[i].workers;
    if run[i].tasks != [] && workers != [] {
      SomeAwake(workers);
    }
  }

  lemma {:induction false} SomeAwake(workers: seq<Worker>)
    requires Awake(workers) > 0
    ensures exists w :: 0 <= w < |workers| && workers[w] != Asleep
  {
    var n := |workers| - 1;
    if workers[n] == Asleep {
      SomeAwake(workers[..n]);
      var w :| 0 <= w < n && workers[..n][w] != Asleep;
      assert workers[w] != Asleep;
    }
  }

  /**
    Once shutdown is set it stays set, nothing starts any more and no worker
    waits; a task still running may post, but what it posts stays queued.
   */
  lemma {:induction false} NothingStartsAfterShutdown(run: seq<State>, i: nat, j: nat)
    requires IsRun(run) && i <= j < |run| && run[i].shutdown
    ensures run[j].shutdown && run[j].started == run[i].started && Asleep !in run[j].workers
    ensures run[i].posted <= run[j].posted && run[j].tasks == run[i].tasks + run[j].posted[|run[i].posted|..]
    decreases j
  {
    RunInv(run, j);
    hide Next;
    if i < j {
      NothingStartsAfterShutdown(run, i, j - 1);
      assert Next(run[j - 1], run[j - 1 + 1]);
      LateStep(run[j - 1], run[j], |run[i].posted|);
    }
  }

  /** After shutdown a step starts nothing, and what it posts is queued. */
  lemma {:induction false} LateStep(s: State, s': State, n: nat)
    requires Next(s, s') && s.shutdown && n <= |s.posted|
    ensures s'.shutdown && s'.started == s.started
    ensures s.posted <= s'.posted && s'.tasks == s.tasks + s'.posted[|s.posted|..]
    ensures s'.posted[n..] == s.posted[n..] + s'.posted[|s.posted|..]
  {
  }

  /**
    The shutdown drops what is queued: afterwards the queue holds just what was
    posted since, and nothing has started.
   */
  lemma {:induction false} DroppedAtShutdown(run: seq<State>, i: nat, j: nat)
    requires IsRun(run) && i < j < |run| && !run[i].shutdown && run[i + 1].shutdown
    ensures run[i].posted <= run[j].posted && run[j].tasks == run[j].posted[|run[i].posted|..]
    ensures run[j].started == run[i].started
  {
    assert Next(run[i], run[i + 1]);
    assert run[i + 1].tasks == [] && run[i + 1].posted == run[i].posted && run[i + 1].started == run[i].started;
    NothingStartsAfterShutdown(run, i + 1, j);
  }

  /** The pool is joined only after its shutdown, with every worker gone and so no task running. */
  lemma {:induction false} JoinedMeansGone(run: seq<State>, i: nat)
    requires IsRun(run) && i + 1 < |run| && run[i].workers != [] && run[i + 1].workers == []
    ensures run[i].shutdown && forall w :: 0 <= w < |run[i].workers| ==> run[i].workers[w] == Gone
  {
    assert Next(run[i], run[i + 1]);
  }

  // ----- what the workers run

  /** There are at most four workers; each runs a task that was started, and no two the same. */
  ghost predicate RunsStarted(s: State) {
    && |s.workers| <= 4
    && (forall w :: 0 <= w < |s.workers| && s.workers[w].Busy? ==> s.workers[w].task in s.started)
    && (forall v, w :: 0 <= v < w < |s.workers| && s.workers[v].Busy? ==> s.workers[v] != s.workers[w])
  }

  lemma {:induction false} LookRuns(s: State, s': State, w: nat)
    requires Inv(s) && RunsStarted(s) && Look(s, s', w)
    ensures RunsStarted(s')
  {
    if !s.shutdown && s.tasks != [] {
      var t, n := s.tasks[0], |s.started|;
      assert s.posted[n] == t;
      assert forall k :: 0 <= k < n ==> s.started[k] == s.posted[k] && s.posted[k] != s.posted[n];
      assert t !in s.started;
    }
  }

  lemma {:induction false} NextRuns(s: State, s': State)
    requires Inv(s) && RunsStarted(s) && Next(s, s')
    ensures RunsStarted(s')
  {
    hide Inv;
    if w: nat :| Look(s, s', w) {
      LookRuns(s, s', w);
    }
  }

  /** In every state of every run. */
  lemma {:induction false} WorkersRunStartedTasks(run: seq<State>, i: nat)
    requires IsRun(run) && i < |run|
    ensures RunsStarted(run[i])
  {
    hide Next, Inv, RunsStarted;
    if i > 0 {
      WorkersRunStartedTasks(run, i - 1);
      RunInv(run, i - 1);
      assert Next(run[i - 1], run[i - 1 + 1]);
      NextRuns(run[i - 1], run[i]);
    } else {
      NobodyRuns();
    }
  }

  lemma {:induction false} NobodyRuns()
    ensures RunsStarted(EMPTY)
  {
  }

  lemma {:induction false} Extended(run: seq<State>, s: State)
    requires IsRun(run) && Next(run[|run| - 1], s)
    ensures IsRun(run + [s])
  {
    var r := run + [s];
    forall i | 0 <= i < |r| - 1
      ensures Next(r[i], r[i + 1])
    {
      assert i < |run| - 1 ==> Next(run[i], run[i + 1]);
    }
  }

  /** One worker has taken task 1 when the pool is shut down. */
  const LAST_TASK := State(true, [], [Busy(1)], [1], [1])

  lemma {:induction false} RunToLastTask() returns (run: seq<State>)
    ensures run != [] && IsRun(run) && run[|run| - 1] == LAST_TASK
  {
    var s1 := EMPTY.(workers := [Ready]);
    var s2 := s1.(tasks := [1], posted := [1]);
    var s3 := Looked(s2, 0);
    assert Start(EMPTY, s1, 1) && Post(s1, s2, 1, -1) && Look(s2, s3, 0) && Shutdown(s3, LAST_TASK);
    assert WorkerStep(s2, s3, 0);
    assert Next(EMPTY, s1) && Next(s1, s2) && Next(s2, s3) && Next(s3, LAST_TASK);
    run := [EMPTY];
    hide Next;
    Extended(run, s1);
    Extended(run + [s1], s2);
    Extended(run + [s1] + [s2], s3);
    Extended(run + [s1] + [s2] + [s3], LAST_TASK);
    run := run + [s1] + [s2] + [s3] + [LAST_TASK];
  }

  /** A worker's task posts after shutdown, and the pool is joined with the new task still queued. */
  lemma {:induction false} LatePost() returns (run: seq<State>)
    ensures IsRun(run) && run[|run| - 1].shutdown && run[|run| - 1].workers == []
    ensures run[|run| - 1].tasks == [2] && run[|run| - 1].started == [1]
  {
    var s5 := LAST_TASK.(tasks := [2], posted := [1, 2]);
    var s6 := s5.(workers := [Ready]);
    var s7 := s6.(workers := [Gone]);
    var s8 := s7.(workers := []);
    assert Post(LAST_TASK, s5, 2, -1) && Finish(s5, s6, 0) && Look(s6, s7, 0) && Join(s7, s8);
    assert WorkerStep(s5, s6, 0) && WorkerStep(s6, s7, 0);
    assert Next(LAST_TASK, s5) && Next(s5, s6) && Next(s6, s7) && Next(s7, s8);
    hide Next, IsRun;
    run := RunToLastTask();
    Extended(run, s5);
    Extended(run + [s5], s6);
    Extended(run + [s5] + [s6], s7);
    Extended(run + [s5] + [s6] + [s7], s8);
    run := run + [s5] + [s6] + [s7] + [s8];
  }

  /** Some continuation of the run starts the task. */
  ghost predicate CanStart(run: seq<State>, task: nat) {
    exists longer: seq<State> :: run <= longer && IsRun(longer) && task in longer[|longer| - 1].started
  }

  /** One awake worker alone can work the queue off up to a task. */
  lemma {:induction false} WorkOff(run: seq<State>, w: nat, task: nat) returns (longer: seq<State>)
    requires run != [] && IsRun(run)
    requires var s := run[|run| - 1];
             && !s.shutdown && task in s.tasks
             && w < |s.workers| && (s.workers[w] == Ready || s.workers[w].Busy?)
    ensures longer != [] && run <= longer && IsRun(longer) && task in longer[|longer| - 1].started
    decreases |run[|run| - 1].tasks|, if run[|run| - 1].workers[w].Busy? then 1 else 0
  {
    hide IsRun, Next;
    var s := run[|run| - 1];
    var s1 := if s.workers[w].Busy? then s.(workers := s.workers[w := Ready]) else Looked(s, w);
    WorkerGoesOn(s, s1, w);
    Extended(run, s1);
    longer := run + [s1];
    if task !in s1.started {
      assert s.tasks == [s.tasks[0]] + s.tasks[1..];
      longer := WorkOff(longer, w, task);
    }
  }

  lemma {:induction false} WorkerGoesOn(s: State, s1: State, w: nat)
    requires Look(s, s1, w) || Finish(s, s1, w)
    ensures Next(s, s1)
  {
    assert WorkerStep(s, s1, w);
  }

  lemma {:induction false} FirstWorker(run: seq<State>) returns (longer: seq<State>, w: nat)
    requires run != [] && IsRun(run) && !run[|run| - 1].shutdown && run[|run| - 1].tasks != []
    ensures longer != [] && run <= longer && IsRun(longer)
    ensures var s, s1 := run[|run| - 1], longer[|longer| - 1];
            && !s1.shutdown && s1.tasks == s.tasks
            && w < |s1.workers| && (s1.workers[w] == Ready || s1.workers[w].Busy?)
  {
    var s := run[|run| - 1];
    if s.workers == [] {
      var s1 := s.(workers := [Ready]);
      assert Start(s, s1, 1);
      Extended(run, s1);
      longer, w := run + [s1], 0;
    } else {
      NoLostWakeup(run, |run| - 1);
      var k :| 0 <= k < |s.workers| && (s.workers[k].Ready? || s.workers[k].Busy?);
      longer, w := run, k;
    }
  }

  /** A task just posted can still start exactly when the pool was not shut down at the post. */
  lemma {:induction false} StartsExactly(run: seq<State>, s': State, task: nat, woken: int)
    requires run != [] && IsRun(run) && Post(run[|run| - 1], s', task, woken)
    ensures CanStart(run + [s'], task) <==> !run[|run| - 1].shutdown
  {
    var s := run[|run| - 1];
    assert Next(s, s');
    Extended(run, s');
    var r := run + [s'];
    if s.shutdown {
      RunInv(run, |run| - 1);
      assert task !in s'.started;
      forall longer: seq<State> | r <= longer && IsRun(longer)
        ensures task !in longer[|longer| - 1].started
      {
        NothingStartsAfterShutdown(longer, |run|, |longer| - 1);
      }
    } else {
      hide IsRun, Next;
      var r1, w := FirstWorker(r);
      var longer := WorkOff(r1, w, task);
      assert r <= longer;
    }
  }

  /** Steps a worker still needs before it is gone. */
  function Ahead(x: Worker): nat {
    match x
    case Busy(_) => 2
    case Ready => 1
    case Asleep => 0
    case Gone => 0
  }

  function Work(workers: seq<Worker>): nat {
    if workers == [] then 0 else Work(workers[..|workers| - 1]) + Ahead(workers[|workers| - 1])
  }

  lemma {:induction false} WorkAfter(workers: seq<Worker>, w: nat, x: Worker)
    requires w < |workers|
    ensures Work(workers[w := x]) + Ahead(workers[w]) == Work(workers) + Ahead(x)
  {
    var n := |workers| - 1;
    if w < n {
      assert workers[w := x][..n] == workers[..n][w := x];
      WorkAfter(workers[..n], w, x);
    } else {
      assert workers[w := x][..n] == workers[..n];
    }
  }

  /**
    After shutdown the join is reached: until all workers are gone some worker
    can step, and every step a worker takes brings the end closer.
   */
  lemma {:induction false} ShutdownCompletes(run: seq<State>, i: nat)
    requires IsRun(run) && i < |run| && run[i].shutdown && run[i].workers != []
    ensures (exists s' :: Join(run[i], s')) || (exists w, s' :: WorkerStep(run[i], s', w))
    ensures forall w, s' :: WorkerStep(run[i], s', w) ==> Work(s'.workers) < Work(run[i].workers)
  {
    RunInv(run, i);
    var s := run[i];
    if forall w :: 0 <= w < |s.workers| ==> s.workers[w] == Gone {
      assert Join(s, s.(workers := []));
    } else {
      var w :| 0 <= w < |s.workers| && s.workers[w] != Gone;
      if s.workers[w] == Ready {
        assert WorkerStep(s, Looked(s, w), w);
      } else {
        assert WorkerStep(s, s.(workers := s.workers[w := Ready]), w);
      }
    }
    forall w: nat, s' | WorkerStep(s, s', w)
      ensures Work(s'.workers) < Work(s.workers)
    {
      WorkAfter(s.workers, w, s'.workers[w]);
    }
  }

  // ----- the pool itself, one locked section at a time

  class Pool {
    var shutdown: bool
    var tasks: seq<nat>
    var workers: seq<Worker>
    ghost var posted: seq<nat>
    ghost var started: seq<nat>

    ghost function Value(): State
      reads this
    {
      State(shutdown, tasks, workers, posted, started)
    }

    constructor ()
      ensures Value() == EMPTY
    {
      shutdown, tasks, workers := false, [], [];
      posted, started := [], [];
    }

    method StartThreads(count: int)
      requires count > 0 && workers == [] && !shutdown
      modifies this
      ensures Start(old(Value()), Value(), count)
      ensures |workers| == (if count > 4 then 4 else count) && forall w :: w in workers ==> w == Ready
    {
      var n := count;
      if n > MAX_THREAD_COUNT {
        n := MAX_THREAD_COUNT;
      }
      for i := 0 to n
        invariant Value() == old(Value()).(workers := workers) && workers == seq(i, k => Ready)
      {
        workers := workers + [Ready];
      }
    }

    /** `woken` is the waiter notify_one picks, or -1 when nobody waits. */
    method PostTask(task: nat, woken: int)
      requires task !in posted
      requires if Asleep in workers then 0 <= woken < |workers| && workers[woken] == Asleep else woken == -1
      modifies this
      ensures Post(old(Value()), Value(), task, woken)
    {
      tasks := tasks + [task];
      posted := posted + [task];
      if woken != -1 {
        workers := workers[woken := Ready];
      }
    }

    /** What worker `w` does in loop() each time it holds the lock; `task` is the one it then invokes. */
    method LoopTurn(w: nat) returns (task: seq<nat>)
      requires w < |workers| && workers[w] == Ready
      modifies this
      ensures Look(old(Value()), Value(), w)
      ensures task == if workers[w].Busy? then [workers[w].task] else []
    {
      task := [];
      if shutdown {
        workers := workers[w := Gone];
      } else if tasks == [] {
        workers := workers[w := Asleep];
      } else {
        task := [tasks[0]];
        tasks := tasks[1..];
        started := started + task;
        workers := workers[w := Busy(task[0])];
      }
    }

    /** The destructor up to the joins; it does nothing without threads or a second time. */
    method StopWorkers() returns (joins: bool)
      modifies this
      ensures joins <==> !old(shutdown) && old(workers) != []
      ensures if joins then Shutdown(old(Value()), Value()) else Value() == old(Value())
      ensures joins ==> shutdown && tasks == [] && Asleep !in workers
    {
      if shutdown || workers == [] {
        return false;
      }
      while tasks != []
        invariant Value() == old(Value()).(tasks := tasks)
        decreases |tasks|
      {
        tasks := tasks[1..];
      }
      shutdown := true;
      for i := 0 to |workers|
        invariant |workers| == |old(workers)|
        invariant Value() == old(Value()).(tasks := [], shutdown := true, workers := workers)
        invariant forall k :: 0 <= k < i ==> workers[k] == Roused(old(workers))[k]
        invariant forall k :: i <= k < |workers| ==> workers[k] == old(workers)[k]
      {
        if workers[i] == Asleep {
          workers := workers[i := Ready];
        }
      }
      assert workers == Roused(old(workers));
      joins := true;
    }
  }
}
