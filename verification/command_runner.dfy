/** The command runner (command_runner/command_runner.py): commands run
    by a shell, post-processed, and collected by one process or by a pool
    of workers reading a pending queue. The shell is an abstract function
    from a command line to its exit; the queue is a sequence. */
module CommandRunner {
  import opened Wrappers
  import opened Text
  import opened Values

  /** A log message a post-processing step may attach to a command. */
  datatype LogMessage = LogMessage(level: int, message: string)

  /** The `Command` dataclass. */
  datatype Command = Command(
    identity: string,
    command: string,
    returnCode: int,
    stdout: string,
    stderr: string,
    details: Value,
    errors: string,
    messages: seq<LogMessage>)

  /** A command as its callers build it: every result field at its default. */
  function NewCommand(identity: string, command: string): (c: Command)
    ensures c.identity == identity && c.command == command
    ensures c.returnCode == 0 && c.stdout == "" && c.stderr == "" && c.errors == ""
    ensures c.details == List([]) && c.messages == []
  {
    Command(identity, command, 0, "", "", List([]), "", [])
  }

  /** `stdout_lines`: the lines of the captured output. */
  function StdoutLines(c: Command): (lines: seq<string>)
    ensures forall k :: 0 <= k < |lines| ==> NoLineBreak(lines[k])
    ensures lines == [] <==> c.stdout == ""
  {
    SplitLines(c.stdout)
  }

  /** `stderr_lines`: the lines of the captured error output. */
  function StderrLines(c: Command): (lines: seq<string>)
    ensures forall k :: 0 <= k < |lines| ==> NoLineBreak(lines[k])
    ensures lines == [] <==> c.stderr == ""
  {
    SplitLines(c.stderr)
  }

  /** Output a command printed line by line comes back as those lines. */
  lemma PrintedLinesRoundTrip(c: Command, out: seq<string>, err: seq<string>)
    requires forall k :: 0 <= k < |out| ==> NoLineBreak(out[k])
    requires forall k :: 0 <= k < |err| ==> NoLineBreak(err[k])
    requires c.stdout == Terminated(out) && c.stderr == Terminated(err)
    ensures StdoutLines(c) == out && StderrLines(c) == err
  {
    SplitLinesOfTerminated(out);
    SplitLinesOfTerminated(err);
  }

  // ---------------------------------------------------------------------
  // Running one command
  // ---------------------------------------------------------------------

  /** How the shell ran a command line: its exit status and its captured
      standard output and error. */
  datatype Exit = Exit(code: int, out: string, err: string)

  /** `run_command`: `subprocess.run(..., check=True)` either returns, on
      status 0, or raises `CalledProcessError`, which is caught. Only the
      failure path records the error output. */
  function RunCommand(c: Command, exit: Exit): (r: Command)
    ensures r.returnCode == exit.code && r.stdout == exit.out
    ensures r.stderr == if exit.code == 0 then c.stderr else exit.err
    ensures r.identity == c.identity && r.command == c.command
    ensures r.details == c.details && r.errors == c.errors && r.messages == c.messages
  {
    if exit.code == 0 then c.(returnCode := 0, stdout := exit.out)
    else c.(returnCode := exit.code, stdout := exit.out, stderr := exit.err)
  }

  /** What the runner cannot see: how the shell runs a command line, and
      the command's own `post_process` callable. */
  datatype Runtime = Runtime(execute: string -> Exit, postProcess: Command -> Command)

  /** What every worker and the single-process loop do with one command:
      run it, then post-process it. */
  function Process(rt: Runtime, c: Command): Command {
    rt.postProcess(RunCommand(c, rt.execute(c.command)))
  }

  /** Every command processed once, in order: the reference result that
      `RunSingleProcess`, `Worker`, `SingleWorker` and the pool are proved
      to produce. */
  function ProcessAll(rt: Runtime, cs: seq<Command>): (r: seq<Command>)
    ensures |r| == |cs|
    ensures forall i :: 0 <= i < |cs| ==> r[i] == Process(rt, cs[i])
  {
    seq(|cs|, i requires 0 <= i < |cs| => Process(rt, cs[i]))
  }

  lemma ProcessAllAppend(rt: Runtime, a: seq<Command>, b: seq<Command>)
    ensures ProcessAll(rt, a + b) == ProcessAll(rt, a) + ProcessAll(rt, b)
  {
  }

  /** `run_single_process`. */
  method RunSingleProcess(rt: Runtime, commands: seq<Command>) returns (results: seq<Command>)
    ensures |results| == |commands|
    ensures forall i :: 0 <= i < |commands| ==> results[i] == Process(rt, commands[i])
  {
    results := [];
    for i := 0 to |commands|
      invariant |results| == i
      invariant forall j :: 0 <= j < i ==> results[j] == Process(rt, commands[j])
    {
      var done := Process(rt, commands[i]);
      results := results + [done];
    }
  }

  /** One command run and then handed to a `post_process` that may raise;
      the failure is the exception it raises. */
  function PostProcessed<E>(execute: string -> Exit, postProcess: Command -> Result<Command, E>, c: Command)
    : Result<Command, E>
  {
    postProcess(RunCommand(c, execute(c.command)))
  }

  /** `run_single_process` when `post_process` can raise: the exception
      leaves the loop, so the first failing command decides the error and
      no later command is run. */
  method RunSingleProcessRaising<E>(execute: string -> Exit, postProcess: Command -> Result<Command, E>, commands: seq<Command>)
    returns (r: Result<seq<Command>, E>)
    ensures r.Success? <==> forall i :: 0 <= i < |commands| ==> PostProcessed(execute, postProcess, commands[i]).Success?
    ensures r.Success? ==>
              && |r.value| == |commands|
              && forall i :: 0 <= i < |commands| ==> r.value[i] == PostProcessed(execute, postProcess, commands[i]).value
    ensures r.Failure? ==>
              exists i :: 0 <= i < |commands|
                          && PostProcessed(execute, postProcess, commands[i]).Failure?
                          && r.error == PostProcessed(execute, postProcess, commands[i]).error
                          && forall j :: 0 <= j < i ==> PostProcessed(execute, postProcess, commands[j]).Success?
  {
    var results := [];
    for i := 0 to |commands|
      invariant |results| == i
      invariant forall j :: 0 <= j < i ==> PostProcessed(execute, postProcess, commands[j]).Success?
      invariant forall j :: 0 <= j < i ==> results[j] == PostProcessed(execute, postProcess, commands[j]).value
    {
      var done := PostProcessed(execute, postProcess, commands[i]);
      if done.Failure? {
        return Failure(done.error);
      }
      results := results + [done.value];
    }
    return Success(results);
  }

  /** A `post_process` that never raises gives, command by command, the
      results of the total model. */
  lemma NeverRaisingPostProcess<E>(rt: Runtime, postProcess: Command -> Result<Command, E>, commands: seq<Command>)
    requires forall c :: postProcess(c) == Success(rt.postProcess(c))
    ensures forall i :: 0 <= i < |commands| ==>
              PostProcessed(rt.execute, postProcess, commands[i]) == Success(ProcessAll(rt, commands)[i])
  {
  }

  // ---------------------------------------------------------------------
  // Worker count and the pending queue
  // ---------------------------------------------------------------------

  /** `PROCESSES`: one less than the CPU count, but never zero. */
  function Processes(cpuCount: int): (n: int)
    ensures cpuCount >= 2 ==> n == cpuCount - 1
    ensures cpuCount == 1 ==> n == 1
    ensures cpuCount >= 1 ==> n >= 1
  {
    if cpuCount - 1 != 0 then cpuCount - 1 else 1
  }

  /** `min(len(jobs), PROCESSES)`: no more workers than jobs. */
  function WorkerCount(jobs: nat, processes: nat): (n: nat)
    ensures n <= jobs && n <= processes
    ensures n == jobs || n == processes
  {
    if jobs <= processes then jobs else processes
  }

  /** With at least one process allowed, any job gets a worker. */
  lemma SomeWorkerForJobs(jobs: nat, cpuCount: int)
    requires cpuCount >= 1
    ensures jobs > 0 ==> WorkerCount(jobs, Processes(cpuCount)) > 0
    ensures WorkerCount(jobs, Processes(cpuCount)) == 0 <==> jobs == 0
  {
  }

  /** The queue items for `jobs`, in order. */
  function Pending(jobs: seq<Command>): (q: seq<Option<Command>>)
    ensures |q| == |jobs|
    ensures forall i :: 0 <= i < |jobs| ==> q[i] == Some(jobs[i])
  {
    seq(|jobs|, i requires 0 <= i < |jobs| => Some(jobs[i]))
  }

  /** `n` stop sentinels. */
  function Sentinels(n: nat): (q: seq<Option<Command>>)
    ensures |q| == n
    ensures forall i :: 0 <= i < n ==> q[i] == None
  {
    seq(n, i => None)
  }

  /** The pending-queue contents `start_workers` produces: every job in
      order, then one sentinel per worker. */
  function Enqueue(jobs: seq<Command>, workers: nat): (q: seq<Option<Command>>)
    ensures |q| == |jobs| + workers
    ensures forall i :: 0 <= i < |jobs| ==> q[i] == Some(jobs[i])
    ensures forall i :: |jobs| <= i < |q| ==> q[i] == None
  {
    Pending(jobs) + Sentinels(workers)
  }

  // ---------------------------------------------------------------------
  // One worker draining the pending queue
  // ---------------------------------------------------------------------

  /** Index of the first sentinel, or the length when there is none. */
  function FirstSentinel(q: seq<Option<Command>>): (k: nat)
    ensures k <= |q|
    ensures forall i :: 0 <= i < k ==> q[i].Some?
    ensures k < |q| ==> q[k] == None
  {
    if q == [] || q[0] == None then 0 else 1 + FirstSentinel(q[1..])
  }

  /** `worker` alone on a queue: take items first in, first out, process
      each and put it on the completed queue, until a sentinel. With no
      sentinel in the queue the worker is left waiting (`stopped` false). */
  method Worker(rt: Runtime, pending: seq<Option<Command>>)
    returns (completed: seq<Command>, rest: seq<Option<Command>>, stopped: bool)
    ensures stopped <==> None in pending
    ensures |completed| == FirstSentinel(pending)
    ensures forall i :: 0 <= i < |completed| ==> completed[i] == Process(rt, pending[i].value)
    ensures stopped ==> rest == pending[FirstSentinel(pending) + 1..]
    ensures !stopped ==> rest == []
  {
    completed := [];
    var i := 0;
    while i < |pending| && pending[i].Some?
      invariant 0 <= i <= |pending|
      invariant forall j :: 0 <= j < i ==> pending[j].Some?
      invariant |completed| == i
      invariant forall j :: 0 <= j < i ==> completed[j] == Process(rt, pending[j].value)
    {
      var command := pending[i].value;
      completed := completed + [Process(rt, command)];
      i := i + 1;
    }
    stopped := i < |pending|;
    if stopped {
      rest := pending[i + 1..];
    } else {
      rest := [];
    }
  }

  /** On the queue `start_workers` fills, the first sentinel comes right
      after the last job. */
  lemma {:induction false} FirstSentinelOfEnqueue(jobs: seq<Command>, workers: nat)
    requires workers > 0
    ensures FirstSentinel(Enqueue(jobs, workers)) == |jobs|
    ensures None in Enqueue(jobs, workers)
  {
    var q := Enqueue(jobs, workers);
    assert q[|jobs|] == None;
  }

  /** A single worker on the queue `start_workers` fills for it processes
      the jobs in order and stops, leaving the queue empty: the pool with
      one worker matches the single-process run. */
  method SingleWorker(rt: Runtime, jobs: seq<Command>)
    returns (completed: seq<Command>, rest: seq<Option<Command>>, stopped: bool)
    ensures stopped && rest == []
    ensures completed == ProcessAll(rt, jobs)
  {
    var q := Enqueue(jobs, 1);
    FirstSentinelOfEnqueue(jobs, 1);
    completed, rest, stopped := Worker(rt, q);
    assert q[|jobs| + 1..] == [];
  }
}
