/** `ResultTaskManager` and `TaskManager`: a queue of work items run with at
    most `parallel` of them in flight, each failure or rejected result retried
    while a handler asks for it (at most ten times), and a count of how every
    item finally ended.

    The threads are not modelled. A manager is a value; `Start` launches the
    first items, and the continuation `OnComplete` is applied once per
    finished item, in whatever order the items finish. How an item finished is
    a parameter (`Completion`), as are the two retry handlers and whether the
    cancellation token has fired. `Start` returns once the countdown reaches
    zero (`Finished`); it throws when the token fires first. */
module TaskRunner {
  import opened Wrappers

  /** The hard-coded limit on retries of one item. */
  const MaxRetry: nat := 10

  /** `Timeouts.TaskManagerDelayTimeout`: milliseconds of delay per retry. */
  const DelayStep: nat := 50

  /** `_parallelCount` when the `TaskManagerParallelTaskCount` variable is unset. */
  const DefaultParallel: int := 8

  /** A queued work item: which task it runs and how often it has been retried. */
  datatype Item = Item(id: int, retry: nat)

  /** How the awaited task of an item ended: it threw, it returned a value, or
      it was cancelled. */
  datatype Completion<R> = Threw(error: Fault) | Returned(value: R) | Canceled

  /** The manager's fields. `countdown` is the `CountdownEvent` of the running
      `Start`; `results` and `errors` are bags, kept here in arrival order. */
  datatype Manager<R> = Manager(
    parallel: int,
    appended: int,
    queue: seq<Item>,
    running: seq<Item>,
    countdown: int,
    successes: nat,
    faulted: nat,
    timedout: nat,
    errors: seq<Fault>,
    results: seq<R>)

  /** A new manager with the given degree of parallelism. */
  function New<R>(parallel: int): (m: Manager<R>)
    ensures m.queue == [] && m.running == [] && Settled(m) == 0
    ensures m.errors == [] && m.results == []
  {
    Manager(parallel, 0, [], [], 0, 0, 0, 0, [], [])
  }

  /** Items that have ended for good, whatever the way. */
  function Settled<R>(m: Manager<R>): nat {
    m.successes + m.faulted + m.timedout
  }

  /** `n` fresh items numbered from `start`. */
  function FreshItems(start: int, n: nat): (items: seq<Item>)
    ensures |items| == n
    ensures forall i :: 0 <= i < n ==> items[i] == Item(start + i, 0)
    decreases n
  {
    if n == 0 then [] else FreshItems(start, n - 1) + [Item(start + n - 1, 0)]
  }

  /** `AppendTasks`: `n` more items at the back of the queue, never retried yet;
      nothing else changes. */
  function AppendTasks<R>(m: Manager<R>, n: nat): (r: Manager<R>)
    ensures |r.queue| == |m.queue| + n && r.queue[..|m.queue|] == m.queue
    ensures forall i :: |m.queue| <= i < |r.queue| ==> r.queue[i].retry == 0
    ensures r.(queue := m.queue, appended := m.appended) == m
  {
    var items := FreshItems(m.appended, n);
    assert (m.queue + items)[..|m.queue|] == m.queue;
    m.(queue := m.queue + items, appended := m.appended + n)
  }

  // --------------------------------------------------------------------- start

  /** What `Start` does when it does not throw: return an empty array at once,
      or launch items and wait on the countdown. */
  datatype Started<R> = NothingToDo | Launched(m: Manager<R>)

  /** How many items the launch loop of `Start` dequeues. */
  function LaunchCount(parallel: int, queued: nat): (k: nat)
    ensures k <= queued
    ensures parallel <= 0 ==> k == 0
    ensures parallel >= 1 && queued >= 1 ==> k >= 1
    ensures k <= parallel || k == 0
  {
    if parallel <= 0 then 0 else if parallel < queued then parallel else queued
  }

  /** `Start`: throws when the token has already fired, returns an empty array
      when there is nothing queued, and otherwise arms the countdown with the
      number of queued items and launches up to `parallel` of them. */
  function Start<R>(m: Manager<R>, cancelled: bool): (r: Result<Started<R>>)
    ensures r.Err? <==> cancelled
    ensures r.Err? ==> r.error == OperationCanceled
    ensures r == Ok(NothingToDo) <==> !cancelled && m.queue == []
    ensures r.Ok? && r.value.Launched? ==>
              var s := r.value.m;
              s.countdown == |m.queue| && |s.queue| + |s.running| == |m.queue| + |m.running| &&
              s.(queue := m.queue, running := m.running, countdown := m.countdown) == m
  {
    if cancelled then Err(OperationCanceled)
    else if m.queue == [] then Ok(NothingToDo)
    else
      var k := LaunchCount(m.parallel, |m.queue|);
      Ok(Launched(m.(queue := m.queue[k..], running := m.running + m.queue[..k], countdown := |m.queue|)))
  }

  /** Every item still owed to the countdown is queued or running, at most
      `parallel` items run, and no item has been retried more than ten times. */
  predicate Inv<R>(m: Manager<R>) {
    m.countdown == |m.queue| + |m.running| &&
    |m.running| <= (if m.parallel < 0 then 0 else m.parallel) &&
    Bounded(m.queue) && Bounded(m.running)
  }

  /** No item has been retried more than ten times. */
  predicate Bounded(items: seq<Item>) {
    forall i :: 0 <= i < |items| ==> items[i].retry <= MaxRetry
  }

  lemma BoundedParts(a: seq<Item>, b: seq<Item>)
    ensures Bounded(a + b) <==> Bounded(a) && Bounded(b)
  {
    if Bounded(a) && Bounded(b) {
      forall i | 0 <= i < |a + b| ensures (a + b)[i].retry <= MaxRetry {
        if i >= |a| { assert (a + b)[i] == b[i - |a|]; }
      }
    }
    if Bounded(a + b) {
      forall i | 0 <= i < |a| ensures a[i].retry <= MaxRetry {
        assert (a + b)[i] == a[i];
      }
      forall i | 0 <= i < |b| ensures b[i].retry <= MaxRetry {
        assert (a + b)[|a| + i] == b[i];
      }
    }
  }

  /** No queued item waits while nothing runs. */
  predicate Busy<R>(m: Manager<R>) {
    m.queue != [] ==> m.running != []
  }

  /** Launching from an idle manager whose items have not been retried beyond
      the limit sets up the invariant, and with `parallel` at least one the
      launched manager is busy. */
  lemma StartEstablishes<R>(m: Manager<R>, cancelled: bool)
    requires m.running == []
    requires Bounded(m.queue)
    requires Start(m, cancelled).Ok? && Start(m, cancelled).value.Launched?
    ensures Inv(Start(m, cancelled).value.m)
    ensures m.parallel >= 1 ==> Busy(Start(m, cancelled).value.m)
  {
    var k := LaunchCount(m.parallel, |m.queue|);
    var s := Start(m, cancelled).value.m;
    assert m.queue == s.running + s.queue;
    BoundedParts(s.running, s.queue);
  }

  /** With no parallelism configured nothing is launched, so the countdown of a
      non-empty queue never reaches zero and `Start` only ends by cancellation. */
  lemma ZeroParallelNeverLaunches<R>(m: Manager<R>)
    requires m.parallel <= 0 && m.queue != [] && m.running == []
    ensures Start(m, false).Ok? && Start(m, false).value.Launched?
    ensures Start(m, false).value.m.running == []
    ensures Start(m, false).value.m.countdown > 0
  {
  }

  /** `Start` has returned: every item it counted has ended. */
  predicate Finished<R>(m: Manager<R>) {
    m.countdown == 0
  }

  // ---------------------------------------------------------------- completion

  /** The decision `OnComplete` makes for one finished item. */
  datatype Disposition<R> =
    | Succeeded(value: R)        // accepted result: a success
    | FailedWith(error: Fault)   // exception not retried: an error and a fault
    | GaveUp(value: R)           // result still rejected after ten retries: kept, but a fault
    | Retried                    // back to the queue with one more retry
    | TimedOut                   // cancelled task

  /** The branches of `OnComplete` for an item that has been retried `retry`
      times; the handlers are `None` when the manager was built without them. */
  function Dispose<R>(retry: nat, c: Completion<R>, onError: Option<Fault -> bool>, onResult: Option<R -> bool>): (d: Disposition<R>)
    ensures d.Retried? ==> retry < MaxRetry
    ensures d.Retried? <==>
              (retry < MaxRetry &&
               ((c.Threw? && onError.Some? && onError.value(c.error)) ||
                (c.Returned? && onResult.Some? && onResult.value(c.value))))
  {
    match c
    case Threw(e) =>
      if retry >= MaxRetry then FailedWith(e)
      else if onError.Some? && onError.value(e) then Retried
      else FailedWith(e)
    case Returned(v) =>
      if onResult.Some? && onResult.value(v) then
        if retry >= MaxRetry then GaveUp(v) else Retried
      else Succeeded(v)
    case Canceled => TimedOut
  }

  /** Without handlers nothing is retried: a returned value is a success, an
      exception a fault, a cancellation a timeout. */
  lemma NoHandlersNoRetry<R>(retry: nat, c: Completion<R>)
    ensures var d := Dispose(retry, c, None, None);
      !d.Retried? && !d.GaveUp? &&
      (c.Returned? ==> d == Succeeded(c.value)) &&
      (c.Threw? ==> d == FailedWith(c.error)) &&
      (c.Canceled? ==> d == TimedOut)
  {
  }

  /** The counters, error list and result list after a disposition. */
  function Record<R>(m: Manager<R>, item: Item, d: Disposition<R>): Manager<R> {
    match d
    case Succeeded(v) => m.(successes := m.successes + 1, results := m.results + [v])
    case FailedWith(e) => m.(faulted := m.faulted + 1, errors := m.errors + [e])
    case GaveUp(v) => m.(faulted := m.faulted + 1, results := m.results + [v])
    case Retried => m.(queue := m.queue + [Item(item.id, item.retry + 1)])
    case TimedOut => m.(timedout := m.timedout + 1)
  }

  /** The item `OnComplete` launches when fewer than `parallel` others run and
      the token has not fired. */
  function LaunchNext<R>(m: Manager<R>, cancelled: bool): Manager<R> {
    if |m.running| < m.parallel && !cancelled && m.queue != [] then
      m.(queue := m.queue[1..], running := m.running + [m.queue[0]])
    else m
  }

  /** `running` without its k-th item. */
  function Without(running: seq<Item>, k: nat): (r: seq<Item>)
    requires k < |running|
    ensures |r| == |running| - 1
  {
    running[..k] + running[k + 1..]
  }

  /** `OnComplete` for the k-th running item: decide, record, launch one more
      item, and signal the countdown unless the item was put back. */
  function OnComplete<R>(m: Manager<R>, k: nat, c: Completion<R>,
                         onError: Option<Fault -> bool>, onResult: Option<R -> bool>, cancelled: bool): (r: Manager<R>)
    requires k < |m.running|
    ensures Settled(r) + r.countdown == Settled(m) + m.countdown
    ensures |r.queue| + |r.running| + (if Dispose(m.running[k].retry, c, onError, onResult).Retried? then 0 else 1)
            == |m.queue| + |m.running|
  {
    var item := m.running[k];
    var d := Dispose(item.retry, c, onError, onResult);
    var recorded := Record(m.(running := Without(m.running, k)), item, d);
    var launched := LaunchNext(recorded, cancelled);
    if d.Retried? then launched else launched.(countdown := launched.countdown - 1)
  }

  // ---------------------------------------------------------- remaining work

  /** What an item may still cost: one run per retry it has left, plus one. */
  function Left(item: Item): nat {
    if item.retry >= MaxRetry then 1 else MaxRetry + 1 - item.retry
  }

  function Cost(items: seq<Item>): nat
    decreases |items|
  {
    if items == [] then 0 else Left(items[0]) + Cost(items[1..])
  }

  lemma {:induction false} CostAppend(a: seq<Item>, b: seq<Item>)
    ensures Cost(a + b) == Cost(a) + Cost(b)
    decreases |a|
  {
    if a != [] {
      assert (a + b)[0] == a[0];
      assert (a + b)[1..] == a[1..] + b;
      CostAppend(a[1..], b);
    } else {
      assert a + b == b;
    }
  }

  lemma CostWithout(running: seq<Item>, k: nat)
    requires k < |running|
    ensures Cost(running) == Cost(Without(running, k)) + Left(running[k])
  {
    var before, x, after := running[..k], running[k], running[k + 1..];
    assert running == before + ([x] + after);
    CostAppend(before, [x] + after);
    assert ([x] + after)[0] == x && ([x] + after)[1..] == after;
    assert Cost([x] + after) == Left(x) + Cost(after);
    CostAppend(before, after);
  }

  /** Runs the queued and running items may still take. */
  function Work<R>(m: Manager<R>): nat {
    Cost(m.queue) + Cost(m.running)
  }

  lemma LaunchNextKeepsWork<R>(m: Manager<R>, cancelled: bool)
    ensures Work(LaunchNext(m, cancelled)) == Work(m)
  {
    if |m.running| < m.parallel && !cancelled && m.queue != [] {
      CostAppend(m.running, [m.queue[0]]);
      assert Cost([m.queue[0]]) == Left(m.queue[0]);
    }
  }

  /** Every completion strictly lowers the remaining work, retries included,
      so a started batch ends after finitely many completions. */
  lemma CompletionLowersWork<R>(m: Manager<R>, k: nat, c: Completion<R>,
                                onError: Option<Fault -> bool>, onResult: Option<R -> bool>, cancelled: bool)
    requires k < |m.running|
    ensures Work(OnComplete(m, k, c, onError, onResult, cancelled)) < Work(m)
  {
    var item := m.running[k];
    var d := Dispose(item.retry, c, onError, onResult);
    var m1 := m.(running := Without(m.running, k));
    CostWithout(m.running, k);
    var recorded := Record(m1, item, d);
    if d.Retried? {
      CostAppend(m1.queue, [Item(item.id, item.retry + 1)]);
      assert Cost([Item(item.id, item.retry + 1)]) == Left(Item(item.id, item.retry + 1));
    }
    assert Work(recorded) < Work(m);
    LaunchNextKeepsWork(recorded, cancelled);
  }

  /** Completions keep the invariant, and with `parallel` at least one and the
      token not fired they leave the manager busy. */
  lemma CompletionKeepsInv<R>(m: Manager<R>, k: nat, c: Completion<R>,
                              onError: Option<Fault -> bool>, onResult: Option<R -> bool>, cancelled: bool)
    requires Inv(m) && k < |m.running|
    ensures Inv(OnComplete(m, k, c, onError, onResult, cancelled))
    ensures !cancelled && m.parallel >= 1 ==> Busy(OnComplete(m, k, c, onError, onResult, cancelled))
  {
    var item := m.running[k];
    var d := Dispose(item.retry, c, onError, onResult);
    var rest := Without(m.running, k);
    assert m.running == m.running[..k] + ([item] + m.running[k + 1..]);
    BoundedParts(m.running[..k], [item] + m.running[k + 1..]);
    BoundedParts([item], m.running[k + 1..]);
    BoundedParts(m.running[..k], m.running[k + 1..]);
    var recorded := Record(m.(running := rest), item, d);
    if d.Retried? {
      BoundedParts(m.queue, [Item(item.id, item.retry + 1)]);
    }
    assert Bounded(recorded.queue) && Bounded(recorded.running);
    if |recorded.running| < recorded.parallel && !cancelled && recorded.queue != [] {
      var q := recorded.queue;
      assert q == [q[0]] + q[1..];
      BoundedParts([q[0]], q[1..]);
      BoundedParts(recorded.running, [q[0]]);
    }
  }

  // ------------------------------------------------------- runs without handlers

  /** The bookkeeping of a manager built without handlers, for a batch of
      `total` items: one result per success, one error per fault, and every
      item either settled or still owed to the countdown. */
  predicate Tallied<R>(m: Manager<R>, total: nat) {
    |m.results| == m.successes && |m.errors| == m.faulted &&
    Settled(m) + m.countdown == total
  }

  /** Launching a fresh batch of `total` items sets up the tally. */
  lemma StartTallies<R>(m: Manager<R>, cancelled: bool)
    requires m.running == [] && Settled(m) == 0 && m.results == [] && m.errors == []
    requires Start(m, cancelled).Ok? && Start(m, cancelled).value.Launched?
    ensures Tallied(Start(m, cancelled).value.m, |m.queue|)
  {
  }

  /** A completion without handlers keeps the tally. */
  lemma CompletionKeepsTally<R>(m: Manager<R>, k: nat, c: Completion<R>, total: nat, cancelled: bool)
    requires k < |m.running| && Tallied(m, total)
    ensures Tallied(OnComplete(m, k, c, None, None, cancelled), total)
  {
    NoHandlersNoRetry(m.running[k].retry, c);
  }

  /** Once a batch without handlers has finished, every item was counted
      exactly once as a success, a fault or a timeout. */
  lemma FinishedTallyCountsAll<R>(m: Manager<R>, total: nat)
    requires Tallied(m, total) && Finished(m)
    ensures m.successes + m.faulted + m.timedout == total
    ensures |m.results| == m.successes && |m.errors| == m.faulted
  {
  }

  // ------------------------------------------------------------- TaskManager

  /** `TaskManager.OnComplete`: the same, except that the tasks return nothing,
      there is no result handler, and everything that is not a handled
      exception is decided in one branch. */
  function PlainOnComplete(m: Manager<()>, k: nat, c: Completion<()>, onError: Option<Fault -> bool>, cancelled: bool): (r: Manager<()>)
    requires k < |m.running|
    ensures r.results == m.results
  {
    var item := m.running[k];
    var rest := m.(running := Without(m.running, k));
    var (recorded, signal) :=
      if c.Threw? then
        if item.retry >= MaxRetry then (rest.(faulted := rest.faulted + 1, errors := rest.errors + [c.error]), true)
        else if onError.Some? && onError.value(c.error) then
          (rest.(queue := rest.queue + [Item(item.id, item.retry + 1)]), false)
        else (rest.(faulted := rest.faulted + 1, errors := rest.errors + [c.error]), true)
      else if c.Returned? then (rest.(successes := rest.successes + 1), true)
      else (rest.(timedout := rest.timedout + 1), true);
    var launched := LaunchNext(recorded, cancelled);
    if signal then launched.(countdown := launched.countdown - 1) else launched
  }

  /** `TaskManager` behaves as a `ResultTaskManager` without a result handler
      whose collected results are thrown away. */
  lemma PlainIsResultManager(m: Manager<()>, k: nat, c: Completion<()>, onError: Option<Fault -> bool>, cancelled: bool)
    requires k < |m.running|
    ensures PlainOnComplete(m, k, c, onError, cancelled) ==
            OnComplete(m, k, c, onError, None, cancelled).(results := m.results)
  {
  }

  /** The delay before an item's next run. */
  function Delay(retry: nat): (ms: nat)
    ensures retry == 0 <==> ms == 0
    ensures retry <= MaxRetry ==> ms <= MaxRetry * DelayStep
  {
    if retry > 0 then retry * DelayStep else 0
  }
}
