/** The worker pool of `CommandRunner.run_multi_process`: workers take
    items from one shared pending queue, first in first out, and put each
    processed command on the completed queue; a sentinel stops a worker.
    The processes run concurrently, so the pool is a transition system in
    which any enabled step of any worker may come next. */
module WorkerPool {
  import opened Wrappers
  import opened CommandRunner

  /** A worker blocked on the queue, processing a command, or exited. */
  datatype Worker = Idle | Busy(job: Command) | Stopped

  datatype Pool = Pool(pending: seq<Option<Command>>, workers: seq<Worker>, completed: seq<Command>)

  /** A worker takes the head of the pending queue, or a busy worker puts
      its processed command on the completed queue. */
  datatype Step = Take(w: nat) | Finish(w: nat)

  predicate Enabled(p: Pool, s: Step) {
    match s
    case Take(w) => w < |p.workers| && p.workers[w].Idle? && p.pending != []
    case Finish(w) => w < |p.workers| && p.workers[w].Busy?
  }

  function Next(rt: Runtime, p: Pool, s: Step): Pool
    requires Enabled(p, s)
  {
    match s
    case Take(w) =>
      var item := p.pending[0];
      p.(pending := p.pending[1..], workers := p.workers[w := if item.Some? then Busy(item.value) else Stopped])
    case Finish(w) =>
      p.(workers := p.workers[w := Idle], completed := p.completed + [Process(rt, p.workers[w].job)])
  }

  /** The pool after the steps of `schedule`, if each is enabled in turn. */
  function Run(rt: Runtime, p: Pool, schedule: seq<Step>): (r: Option<Pool>)
    ensures r.Some? ==> |r.value.workers| == |p.workers|
    decreases |schedule|
  {
    if schedule == [] then Some(p)
    else if !Enabled(p, schedule[0]) then None
    else Run(rt, Next(rt, p, schedule[0]), schedule[1..])
  }

  /** No worker is busy, and a worker still waiting finds the queue empty. */
  predicate Final(p: Pool) {
    forall w :: 0 <= w < |p.workers| ==> !p.workers[w].Busy? && (p.workers[w].Idle? ==> p.pending == [])
  }

  /** `Final` is exactly "no step is enabled". */
  lemma FinalIffStuck(p: Pool)
    ensures Final(p) <==> forall s :: !Enabled(p, s)
  {
    if !Final(p) {
      var w :| 0 <= w < |p.workers| && (p.workers[w].Busy? || (p.workers[w].Idle? && p.pending != []));
      if p.workers[w].Busy? {
        assert Enabled(p, Finish(w));
      } else {
        assert Enabled(p, Take(w));
      }
    }
  }

  // ---------------------------------------------------------------------
  // Counting workers
  // ---------------------------------------------------------------------

  /** Number of workers that have not exited. */
  function Live(ws: seq<Worker>): nat
    ensures Live(ws) <= |ws|
  {
    if ws == [] then 0 else (if ws[0].Stopped? then 0 else 1) + Live(ws[1..])
  }

  /** Number of busy workers. */
  function BusyCount(ws: seq<Worker>): nat {
    if ws == [] then 0 else (if ws[0].Busy? then 1 else 0) + BusyCount(ws[1..])
  }

  /** How many workers hold a command whose processed form is `c`. */
  function InFlight(rt: Runtime, ws: seq<Worker>, c: Command): nat {
    if ws == [] then 0 else Holds(rt, ws[0], c) + InFlight(rt, ws[1..], c)
  }

  function Holds(rt: Runtime, x: Worker, c: Command): nat {
    if x.Busy? && Process(rt, x.job) == c then 1 else 0
  }

  lemma {:induction false} LiveUpdate(ws: seq<Worker>, w: nat, x: Worker)
    requires w < |ws|
    ensures Live(ws[w := x]) + (if ws[w].Stopped? then 0 else 1) == Live(ws) + (if x.Stopped? then 0 else 1)
  {
    if w > 0 {
      LiveUpdate(ws[1..], w - 1, x);
      assert ws[w := x][1..] == ws[1..][w - 1 := x];
    }
  }

  lemma {:induction false} BusyCountUpdate(ws: seq<Worker>, w: nat, x: Worker)
    requires w < |ws|
    ensures BusyCount(ws[w := x]) + (if ws[w].Busy? then 1 else 0) == BusyCount(ws) + (if x.Busy? then 1 else 0)
  {
    if w > 0 {
      BusyCountUpdate(ws[1..], w - 1, x);
      assert ws[w := x][1..] == ws[1..][w - 1 := x];
    }
  }

  lemma {:induction false} InFlightUpdate(rt: Runtime, ws: seq<Worker>, w: nat, x: Worker, c: Command)
    requires w < |ws|
    ensures InFlight(rt, ws[w := x], c) + Holds(rt, ws[w], c) == InFlight(rt, ws, c) + Holds(rt, x, c)
  {
    if w > 0 {
      InFlightUpdate(rt, ws[1..], w - 1, x, c);
      assert ws[w := x][1..] == ws[1..][w - 1 := x];
    } else {
      assert ws[w := x][1..] == ws[1..];
    }
  }

  /** A worker that has not exited, when some has not. */
  lemma {:induction false} LiveWitness(ws: seq<Worker>) returns (w: nat)
    requires Live(ws) > 0
    ensures w < |ws| && !ws[w].Stopped?
  {
    if ws[0].Stopped? {
      var v := LiveWitness(ws[1..]);
      w := v + 1;
    } else {
      w := 0;
    }
  }

  lemma {:induction false} LiveAtLeastOne(ws: seq<Worker>, w: nat)
    requires w < |ws| && !ws[w].Stopped?
    ensures Live(ws) > 0
  {
    if w > 0 && ws[0].Stopped? {
      LiveAtLeastOne(ws[1..], w - 1);
    }
  }

  /** With no worker busy nothing is in flight. */
  lemma {:induction false} NothingInFlight(rt: Runtime, ws: seq<Worker>, c: Command)
    requires forall w :: 0 <= w < |ws| ==> !ws[w].Busy?
    ensures InFlight(rt, ws, c) == 0
  {
    if ws != [] {
      NothingInFlight(rt, ws[1..], c);
    }
  }

  /** Workers just started: all waiting on the queue. */
  function Fresh(n: nat): (ws: seq<Worker>)
    ensures |ws| == n && Live(ws) == n && BusyCount(ws) == 0
    ensures forall w :: 0 <= w < n ==> ws[w] == Idle
  {
    if n == 0 then [] else [Idle] + Fresh(n - 1)
  }

  lemma {:induction false} FreshInFlight(rt: Runtime, n: nat, c: Command)
    ensures InFlight(rt, Fresh(n), c) == 0
  {
    if n > 0 {
      FreshInFlight(rt, n - 1, c);
    }
  }

  // ---------------------------------------------------------------------
  // Every schedule processes every job exactly once
  // ---------------------------------------------------------------------

  /** `n` fresh workers and the queue `start_workers` fills. */
  function Start(jobs: seq<Command>, n: nat): Pool {
    Pool(Enqueue(jobs, n), Fresh(n), [])
  }

  /** The state after the first `t` jobs have been taken: the rest of the
      jobs then one sentinel per live worker are pending; while jobs
      remain no worker has exited; each taken job is completed or in
      flight. */
  ghost predicate Inv(rt: Runtime, jobs: seq<Command>, p: Pool, t: nat) {
    && t <= |jobs|
    && p.pending == Pending(jobs[t..]) + Sentinels(Live(p.workers))
    && (t < |jobs| ==> Live(p.workers) == |p.workers| > 0)
    && forall c :: multiset(p.completed)[c] + InFlight(rt, p.workers, c) == multiset(ProcessAll(rt, jobs[..t]))[c]
  }

  lemma StartInv(rt: Runtime, jobs: seq<Command>, n: nat)
    requires |jobs| > 0 ==> n > 0
    ensures Inv(rt, jobs, Start(jobs, n), 0)
  {
    forall c {
      FreshInFlight(rt, n, c);
    }
    assert jobs[0..] == jobs;
  }

  /** A worker takes the next job. */
  lemma TakeJobInv(rt: Runtime, jobs: seq<Command>, p: Pool, t: nat, w: nat)
    requires Inv(rt, jobs, p, t) && Enabled(p, Take(w)) && t < |jobs|
    ensures Inv(rt, jobs, Next(rt, p, Take(w)), t + 1)
  {
    var q := Next(rt, p, Take(w));
    var job := jobs[t];
    assert p.pending[0] == Some(job);
    assert q.workers == p.workers[w := Busy(job)];
    LiveUpdate(p.workers, w, Busy(job));
    assert q.pending == Pending(jobs[t + 1..]) + Sentinels(Live(q.workers)) by {
      assert jobs[t + 1..] == jobs[t..][1..];
    }
    assert jobs[..t + 1] == jobs[..t] + [job];
    ProcessAllAppend(rt, jobs[..t], [job]);
    assert ProcessAll(rt, [job]) == [Process(rt, job)];
    forall c
      ensures multiset(q.completed)[c] + InFlight(rt, q.workers, c) == multiset(ProcessAll(rt, jobs[..t + 1]))[c]
    {
      InFlightUpdate(rt, p.workers, w, Busy(job), c);
    }
  }

  /** A worker takes a sentinel and exits. */
  lemma TakeSentinelInv(rt: Runtime, jobs: seq<Command>, p: Pool, t: nat, w: nat)
    requires Inv(rt, jobs, p, t) && Enabled(p, Take(w)) && t == |jobs|
    ensures Inv(rt, jobs, Next(rt, p, Take(w)), t)
  {
    var q := Next(rt, p, Take(w));
    assert p.pending[0] == None;
    assert q.workers == p.workers[w := Stopped];
    LiveUpdate(p.workers, w, Stopped);
    assert q.pending == Pending(jobs[t..]) + Sentinels(Live(q.workers));
    forall c
      ensures multiset(q.completed)[c] + InFlight(rt, q.workers, c) == multiset(ProcessAll(rt, jobs[..t]))[c]
    {
      InFlightUpdate(rt, p.workers, w, Stopped, c);
    }
  }

  /** A busy worker puts its processed command on the completed queue. */
  lemma FinishInv(rt: Runtime, jobs: seq<Command>, p: Pool, t: nat, w: nat)
    requires Inv(rt, jobs, p, t) && Enabled(p, Finish(w))
    ensures Inv(rt, jobs, Next(rt, p, Finish(w)), t)
  {
    var q := Next(rt, p, Finish(w));
    var done := Process(rt, p.workers[w].job);
    LiveUpdate(p.workers, w, Idle);
    assert multiset(q.completed) == multiset(p.completed) + multiset{done};
    forall c
      ensures multiset(q.completed)[c] + InFlight(rt, q.workers, c) == multiset(ProcessAll(rt, jobs[..t]))[c]
    {
      InFlightUpdate(rt, p.workers, w, Idle, c);
    }
  }

  lemma NextInv(rt: Runtime, jobs: seq<Command>, p: Pool, t: nat, s: Step) returns (t': nat)
    requires Inv(rt, jobs, p, t) && Enabled(p, s)
    ensures Inv(rt, jobs, Next(rt, p, s), t')
  {
    match s
    case Take(w) =>
      if t < |jobs| {
        TakeJobInv(rt, jobs, p, t, w);
        t' := t + 1;
      } else {
        TakeSentinelInv(rt, jobs, p, t, w);
        t' := t;
      }
    case Finish(w) =>
      FinishInv(rt, jobs, p, t, w);
      t' := t;
  }

  lemma {:induction false} RunInv(rt: Runtime, jobs: seq<Command>, p: Pool, t: nat, schedule: seq<Step>) returns (t': nat)
    requires Inv(rt, jobs, p, t) && Run(rt, p, schedule).Some?
    ensures Inv(rt, jobs, Run(rt, p, schedule).value, t')
    decreases |schedule|
  {
    if schedule == [] {
      t' := t;
    } else {
      var u := NextInv(rt, jobs, p, t, schedule[0]);
      t' := RunInv(rt, jobs, Next(rt, p, schedule[0]), u, schedule[1..]);
    }
  }

  /** Once no step is enabled, every job has been taken, every worker has
      exited, the pending queue is empty and the completed commands are
      the processed jobs, each once. */
  lemma FinalComplete(rt: Runtime, jobs: seq<Command>, p: Pool, t: nat)
    requires Inv(rt, jobs, p, t) && Final(p)
    ensures t == |jobs| && p.pending == []
    ensures forall w :: 0 <= w < |p.workers| ==> p.workers[w].Stopped?
    ensures multiset(p.completed) == multiset(ProcessAll(rt, jobs))
  {
    forall c
      ensures multiset(p.completed)[c] == multiset(ProcessAll(rt, jobs))[c]
    {
      NothingInFlight(rt, p.workers, c);
      assert jobs[..t] == jobs;
    }
    if Live(p.workers) > 0 {
      var w := LiveWitness(p.workers);
      assert p.pending != [];
    }
    forall w | 0 <= w < |p.workers|
      ensures p.workers[w].Stopped?
    {
      if !p.workers[w].Stopped? {
        LiveAtLeastOne(p.workers, w);
      }
    }
    assert jobs[..|jobs|] == jobs;
  }

  /** Whatever order the workers run in, the completed queue ends up a
      permutation of the jobs processed in order, with nothing left
      pending. */
  lemma AnyScheduleProcessesAll(rt: Runtime, jobs: seq<Command>, n: nat, schedule: seq<Step>)
    requires |jobs| > 0 ==> n > 0
    requires Run(rt, Start(jobs, n), schedule).Some? && Final(Run(rt, Start(jobs, n), schedule).value)
    ensures var p := Run(rt, Start(jobs, n), schedule).value;
            && multiset(p.completed) == multiset(ProcessAll(rt, jobs))
            && |p.completed| == |jobs|
            && p.pending == []
            && forall w :: 0 <= w < |p.workers| ==> p.workers[w].Stopped?
  {
    StartInv(rt, jobs, n);
    var t := RunInv(rt, jobs, Start(jobs, n), 0, schedule);
    var p := Run(rt, Start(jobs, n), schedule).value;
    FinalComplete(rt, jobs, p, t);
    assert |multiset(p.completed)| == |multiset(ProcessAll(rt, jobs))|;
  }

  // ---------------------------------------------------------------------
  // One schedule that always reaches the end
  // ---------------------------------------------------------------------

  function FirstBusy(ws: seq<Worker>): (k: nat)
    ensures k <= |ws|
    ensures k < |ws| ==> ws[k].Busy?
    ensures k == |ws| ==> forall w :: 0 <= w < |ws| ==> !ws[w].Busy?
  {
    if ws == [] then 0 else if ws[0].Busy? then 0 else 1 + FirstBusy(ws[1..])
  }

  function FirstIdle(ws: seq<Worker>): (k: nat)
    ensures k <= |ws|
    ensures k < |ws| ==> ws[k].Idle?
    ensures k == |ws| ==> forall w :: 0 <= w < |ws| ==> !ws[w].Idle?
  {
    if ws == [] then 0 else if ws[0].Idle? then 0 else 1 + FirstIdle(ws[1..])
  }

  /** Finish busy workers first, otherwise let the first waiting worker
      take the next item, until no step is enabled. Each take shortens the
      queue and each finish frees a worker, so this ends. */
  function Schedule(rt: Runtime, p: Pool): (s: seq<Step>)
    ensures Run(rt, p, s).Some? && Final(Run(rt, p, s).value)
    decreases 2 * |p.pending| + BusyCount(p.workers)
  {
    var b := FirstBusy(p.workers);
    if b < |p.workers| then
      BusyCountUpdate(p.workers, b, Idle);
      var rest := Schedule(rt, Next(rt, p, Finish(b)));
      assert ([Finish(b)] + rest)[1..] == rest;
      [Finish(b)] + rest
    else
      var i := FirstIdle(p.workers);
      if i < |p.workers| && p.pending != [] then
        var item := p.pending[0];
        BusyCountUpdate(p.workers, i, if item.Some? then Busy(item.value) else Stopped);
        var rest := Schedule(rt, Next(rt, p, Take(i)));
        assert ([Take(i)] + rest)[1..] == rest;
        [Take(i)] + rest
      else
        []
  }

  /** From the queue `start_workers` fills, the pool cannot deadlock: the
      schedule above ends with every worker stopped and every job
      completed once. */
  lemma StartNeverDeadlocks(rt: Runtime, jobs: seq<Command>, n: nat)
    requires |jobs| > 0 ==> n > 0
    ensures var start := Start(jobs, n);
            var p := Run(rt, start, Schedule(rt, start)).value;
            && (forall w :: 0 <= w < |p.workers| ==> p.workers[w].Stopped?)
            && p.pending == []
            && multiset(p.completed) == multiset(ProcessAll(rt, jobs))
  {
    AnyScheduleProcessesAll(rt, jobs, n, Schedule(rt, Start(jobs, n)));
  }

  // ---------------------------------------------------------------------
  // start_workers and run_multi_process
  // ---------------------------------------------------------------------

  /** The runner's two queues, `None` until first created. */
  datatype Runner = Runner(completedQueue: Option<seq<Command>>, pendingQueue: Option<seq<Option<Command>>>)

  datatype RunnerError = RuntimeError

  /** Between runs whatever queues exist are empty. */
  predicate Drained(runner: Runner) {
    && (runner.completedQueue.Some? ==> runner.completedQueue.value == [])
    && (runner.pendingQueue.Some? ==> runner.pendingQueue.value == [])
  }

  /** Starting from drained queues is starting from `Start`. */
  lemma FromDrainedQueues(rt: Runtime, runner: Runner, jobs: seq<Command>, processes: nat, schedule: seq<Step>)
    requires runner.completedQueue.Some? && runner.pendingQueue.Some?
    requires var n := WorkerCount(|jobs|, processes);
             var start := Pool(runner.pendingQueue.value + Enqueue(jobs, n), Fresh(n), runner.completedQueue.value);
             Run(rt, start, schedule).Some? && Final(Run(rt, start, schedule).value)
    ensures Drained(runner) && processes > 0 ==>
              var n := WorkerCount(|jobs|, processes);
              var p := Run(rt, Pool(runner.pendingQueue.value + Enqueue(jobs, n), Fresh(n), runner.completedQueue.value), schedule).value;
              && multiset(p.completed) == multiset(ProcessAll(rt, jobs))
              && |p.completed| == |jobs|
              && p.pending == []
  {
    if Drained(runner) && processes > 0 {
      var n := WorkerCount(|jobs|, processes);
      assert Pool(runner.pendingQueue.value + Enqueue(jobs, n), Fresh(n), runner.completedQueue.value) == Start(jobs, n);
      AnyScheduleProcessesAll(rt, jobs, n, schedule);
    }
  }

  /** `start_workers`: start `min(len(jobs), PROCESSES)` workers, fail
      without a pending queue, enqueue the jobs and one sentinel per
      worker, and wait for every worker to exit. */
  function StartWorkers(rt: Runtime, runner: Runner, jobs: seq<Command>, processes: nat): (r: Result<Pool, RunnerError>)
    requires runner.completedQueue.Some?
    ensures r.Failure? <==> runner.pendingQueue.None?
    ensures r.Success? ==> Final(r.value) && |r.value.workers| == WorkerCount(|jobs|, processes)
    ensures r.Success? && Drained(runner) && processes > 0 ==>
              && multiset(r.value.completed) == multiset(ProcessAll(rt, jobs))
              && |r.value.completed| == |jobs|
              && r.value.pending == []
  {
    var n := WorkerCount(|jobs|, processes);
    if runner.pendingQueue.None? then Failure(RuntimeError)
    else
      var start := Pool(runner.pendingQueue.value + Enqueue(jobs, n), Fresh(n), runner.completedQueue.value);
      var schedule := Schedule(rt, start);
      var p := Run(rt, start, schedule).value;
      FromDrainedQueues(rt, runner, jobs, processes, schedule);
      Success(p)
  }

  /** The results of `run_multi_process` and the runner it leaves. */
  datatype MultiRun = MultiRun(results: seq<Command>, runner: Runner)

  /** `run_multi_process`: create the queues that are missing, run the
      pool, and read exactly as many results as there are commands. */
  function RunMultiProcess(rt: Runtime, runner: Runner, commands: seq<Command>, processes: nat): (r: MultiRun)
    requires processes > 0
    requires Drained(runner)
    ensures |r.results| == |commands|
    ensures multiset(r.results) == multiset(ProcessAll(rt, commands))
    ensures Drained(r.runner) && r.runner.completedQueue.Some? && r.runner.pendingQueue.Some?
  {
    var queues := Runner(
      if runner.completedQueue.None? then Some([]) else runner.completedQueue,
      if runner.pendingQueue.None? then Some([]) else runner.pendingQueue);
    match StartWorkers(rt, queues, commands, processes)
    case Success(p) =>
      var results := p.completed[..|commands|];
      assert results == p.completed;
      MultiRun(results, Runner(Some(p.completed[|commands|..]), Some(p.pending)))
    case Failure(_) =>
      MultiRun([], queues)
  }

  /** The pool returns the same commands as the single-process loop, in
      some order. */
  lemma MultiMatchesSingle(rt: Runtime, runner: Runner, commands: seq<Command>, processes: nat, single: seq<Command>)
    requires processes > 0 && Drained(runner)
    requires |single| == |commands| && forall i :: 0 <= i < |commands| ==> single[i] == Process(rt, commands[i])
    ensures multiset(RunMultiProcess(rt, runner, commands, processes).results) == multiset(single)
  {
    assert single == ProcessAll(rt, commands);
  }
}
