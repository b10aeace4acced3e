/** `ParallelRunner`: awaits a batch of tasks and counts how they ended.

    Each task of a batch either completes or throws; the model receives that
    outcome per task, in the order the tasks were supplied. The failure count
    is reset at the start of every batch, but the success count, the list of
    runners and the error list are not, so a runner used for a second batch
    still remembers the first. */
module Parallel {
  import opened Wrappers

  datatype Runner = Runner(runners: nat, successes: nat, failures: nat, errors: seq<Fault>)

  /** `new ParallelRunner()`. */
  const Fresh: Runner := Runner(0, 0, 0, [])

  /** How one task ended: `None` when it completed, `Some(e)` when it threw `e`. */
  type TaskOutcome = Option<Fault>

  /** The exceptions of the failed tasks, in task order. */
  function Failures(outcomes: seq<TaskOutcome>): (r: seq<Fault>)
    ensures |r| <= |outcomes|
    ensures |r| == 0 <==> forall i :: 0 <= i < |outcomes| ==> outcomes[i].None?
  {
    if |outcomes| == 0 then []
    else
      var rest := Failures(outcomes[1..]);
      assert forall i :: 1 <= i < |outcomes| ==> outcomes[i] == outcomes[1..][i - 1];
      match outcomes[0]
      case None => rest
      case Some(e) => [e] + rest
  }

  /** The number of tasks that completed. */
  function Successes(outcomes: seq<TaskOutcome>): nat {
    |outcomes| - |Failures(outcomes)|
  }

  /** One task's wrapper: count it as a success, or count it as a failure and keep its exception. */
  function Count(r: Runner, o: TaskOutcome): Runner {
    match o
    case None => r.(runners := r.runners + 1, successes := r.successes + 1)
    case Some(e) => r.(runners := r.runners + 1, failures := r.failures + 1, errors := r.errors + [e])
  }

  /** The loop over the supplied tasks. */
  function CountAll(r: Runner, outcomes: seq<TaskOutcome>): (r': Runner)
    ensures r'.runners == r.runners + |outcomes|
    ensures r'.successes == r.successes + Successes(outcomes)
    ensures r'.failures == r.failures + |Failures(outcomes)|
    ensures r'.errors == r.errors + Failures(outcomes)
    decreases |outcomes|
  {
    if |outcomes| == 0 then r
    else
      var c := Count(r, outcomes[0]);
      var r' := CountAll(c, outcomes[1..]);
      var first := if outcomes[0].Some? then [outcomes[0].value] else [];
      assert Failures(outcomes) == first + Failures(outcomes[1..]);
      assert c.errors == r.errors + first;
      assert r.errors + Failures(outcomes) == c.errors + Failures(outcomes[1..]);
      r'
  }

  /** `RunInParallel`: the runner after the batch, and the returned flag, which
      is true when the success count differs from the number of runners. */
  function RunInParallel(r: Runner, outcomes: seq<TaskOutcome>): (res: (Runner, bool))
    ensures res.0.runners == r.runners + |outcomes|
    ensures res.0.successes == r.successes + Successes(outcomes)
    ensures res.0.failures == |Failures(outcomes)|
    ensures res.0.errors == r.errors + Failures(outcomes)
    ensures res.1 <==> res.0.successes != res.0.runners
  {
    var r' := CountAll(r.(failures := 0), outcomes);
    (r', r'.successes != r'.runners)
  }

  /** On a fresh runner every task is counted exactly once, there is one error
      per failure, and the returned flag says whether any task failed. */
  lemma FreshRunnerCounts(outcomes: seq<TaskOutcome>)
    ensures var (r, failed) := RunInParallel(Fresh, outcomes);
      r.successes + r.failures == |outcomes| &&
      |r.errors| == r.failures &&
      (failed <==> r.failures > 0) &&
      (failed <==> exists i :: 0 <= i < |outcomes| && outcomes[i].Some?)
  {
  }

  /** Counts that never exceed the number of runners. */
  predicate Consistent(r: Runner) {
    r.successes <= r.runners
  }

  /** Once a batch has failed, the runner reports failure for every later batch,
      even one whose tasks all complete. */
  lemma ReusedRunnerKeepsFailing(r: Runner, outcomes: seq<TaskOutcome>)
    requires Consistent(r) && r.successes < r.runners
    ensures RunInParallel(r, outcomes).1
    ensures Consistent(RunInParallel(r, outcomes).0)
  {
  }

  /** Concretely: a runner whose first task threw returns true for a second,
      successful batch, while its failure count for that batch is zero. */
  lemma ReusedRunnerExample(e: Fault)
    ensures var (r1, _) := RunInParallel(Fresh, [Some(e)]);
      var (r2, failed) := RunInParallel(r1, [None]);
      failed && r2.failures == 0
  {
  }

  /** The index of the first task that threw. */
  predicate FirstThrown(outcomes: seq<TaskOutcome>, i: int) {
    0 <= i < |outcomes| && outcomes[i].Some? && forall j :: 0 <= j < i ==> outcomes[j].None?
  }

  /** The first recorded exception is the one of the first task that threw. */
  lemma {:induction false} FirstFailureIsFirstThrown(outcomes: seq<TaskOutcome>)
    requires |Failures(outcomes)| > 0
    ensures exists i :: FirstThrown(outcomes, i) && Failures(outcomes)[0] == outcomes[i].value
    decreases |outcomes|
  {
    if outcomes[0].Some? {
      assert FirstThrown(outcomes, 0);
    } else {
      assert Failures(outcomes) == Failures(outcomes[1..]);
      FirstFailureIsFirstThrown(outcomes[1..]);
      var i :| FirstThrown(outcomes[1..], i) && Failures(outcomes[1..])[0] == outcomes[1..][i].value;
      assert FirstThrown(outcomes, i + 1);
    }
  }

  /** The check a controller grain makes after a batch on a fresh runner: if
      any task failed it throws a GrainOperationException whose message is
      `message` followed by the message of the first recorded exception. */
  function FailIfAny(message: string, outcomes: seq<TaskOutcome>): (r: Result<()>)
    ensures r.Ok? <==> forall i :: 0 <= i < |outcomes| ==> outcomes[i].None?
    ensures r.Err? ==> exists i :: FirstThrown(outcomes, i) &&
                                   r.error == GrainOperation(message + outcomes[i].value.Text())
  {
    var (runner, _) := RunInParallel(Fresh, outcomes);
    if runner.failures > 0 then
      FirstFailureIsFirstThrown(outcomes);
      Err(GrainOperation(message + runner.errors[0].Text()))
    else Ok(())
  }
}
