/** What the page, chapter and publish grains share: the guard they start
    with, the rule for dropping completion reports, and what happens after a
    child's result is recorded. */
module Controller {
  import opened Wrappers
  import opened Outcomes
  import opened Validation
  import opened Text

  /** Every operation first builds its own grain key (which throws a
      GrainIdException for invalid ids) and only then runs its validation
      chain. */
  function Guard(key: Result<string>, checks: seq<Check>): (r: Result<()>)
    ensures key.Err? ==> r == Err(key.error)
    ensures key.Ok? ==> r == Validate(checks)
  {
    if key.Err? then Err(key.error) else Validate(checks)
  }

  /** Id checks that the key builder already enforces never decide a guard:
      after them only the rest of the chain matters. */
  lemma GuardAfterIds(key: Result<string>, ids: seq<Check>, rest: seq<Check>)
    requires key.Ok? ==> Validate(ids).Ok?
    ensures Guard(key, ids + rest) == if key.Err? then Err(key.error) else Validate(rest)
  {
    ValidateAppend(ids, rest);
  }

  /** The two early returns of every `On...Complete`: a Success report while the
      grain is not running the operation (`running` is Processing or
      Executing), and any report while it is Cancelled, Timedout or Purged. */
  predicate Skips(result: Outcome, status: GrainStatus, running: GrainStatus) {
    (result == {Success} && status != running) || IsStopped(status)
  }

  /** The three report-back helpers, tried in order after recording: in a
      Cancelled, Timedout or Purged grain they forward a Cancelled, Timedout or
      Cancelled result to the parent and end the operation. */
  function ReportBack(status: GrainStatus): (r: Option<Outcome>)
    ensures r.Some? <==> IsStopped(status)
  {
    if status == GrainStatus.Cancelled then Some({Flag.Cancelled})
    else if status == GrainStatus.Timedout then Some({Flag.Timedout})
    else if status == Purged then Some({Flag.Cancelled})
    else None
  }

  /** The new status and the report to the parent (if any) once a child's
      result has been recorded in `m`. */
  datatype Completion = Completion(status: GrainStatus, report: Option<Outcome>)

  /** After recording: the report-back helpers, then the fan-in once every
      child has reported. A `Fatal` verdict logs and changes nothing. */
  function AfterRecord<K>(m: map<K, Outcome>, status: GrainStatus, done: GrainStatus): (c: Completion)
    ensures !IsStopped(status) ==>
              (c.report.Some? <==> AllReported(m) && FanIn(m, done).Final?)
    ensures !IsStopped(status) && c.report.Some? ==>
              c == Completion(FanIn(m, done).status, Some(FanIn(m, done).result))
    ensures c.report.None? ==> c.status == status
  {
    match ReportBack(status)
    case Some(r) => Completion(status, Some(r))
    case None =>
      if !AllReported(m) then Completion(status, None)
      else
        match FanIn(m, done)
        case Fatal => Completion(status, None)
        case Final(st, r) => Completion(st, Some(r))
  }

  /** The report-back helpers are dead code: the second early return has
      already dropped every report that reaches them in a stopped grain, and
      recording a result does not change the status. */
  lemma ReportBackUnreachable(result: Outcome, status: GrainStatus, running: GrainStatus)
    requires !Skips(result, status, running)
    ensures ReportBack(status).None?
  {
  }

  /** After recording in a grain with at least one child, the grain reports
      exactly when every child has reported, and then with the fan-in
      precedence of `FanInPrecedence`. */
  lemma {:induction false} ReportsWhenAllReported<K>(m: map<K, Outcome>, status: GrainStatus, done: GrainStatus)
    requires !IsStopped(status) && |m| > 0
    ensures AfterRecord(m, status, done).report.Some? <==> AllReported(m)
  {
    if AllReported(m) {
      FanInPrecedence(m, done);
    }
  }

  // ------------------------------------------------------ shared map helpers

  /** The KeyNotFoundException of a dictionary read of an absent integer key. */
  function MissingKey(k: int): Fault {
    KeyNotFound("The given key '" + IntToString(k) + "' was not present in the dictionary.")
  }

  /** A stored result that a `switch` treats as a fault: exactly Faulted,
      Blocked or Timedout (a combination of flags is not one of them). */
  predicate IsFaultResult(o: Outcome) {
    o == {Flag.Faulted} || o == {Blocked} || o == {Flag.Timedout}
  }

  /** The children 0 .. k marked Success in `m`; nothing when k < 0. */
  function Seed(m: map<int, Outcome>, k: int): (r: map<int, Outcome>)
    decreases k
    ensures forall p :: p in r <==> p in m || 0 <= p <= k
    ensures forall p :: 0 <= p <= k ==> r[p] == {Success}
    ensures forall p :: p in m && !(0 <= p <= k) ==> r[p] == m[p]
  {
    if k < 0 then m else Seed(m, k - 1)[k := {Success}]
  }

  /** Seeding an empty map up to child k gives k + 1 children. */
  lemma {:induction false} SeedSize(k: int)
    requires k >= -1
    ensures |Seed(map[], k)| == k + 1
    decreases k + 1
  {
    if k >= 0 {
      SeedSize(k - 1);
      assert k !in Seed(map[], k - 1);
    }
  }

  /** The loop of `BeginExecute` over children `p` .. `n - 1` (`child` names
      them in the messages): the first child that has processed successfully
      and not executed yet, `None` if every child has already executed, or the
      error for a failed or missing child. */
  function FirstToExecute(process: map<int, Outcome>, execute: map<int, Outcome>, p: nat, n: nat, child: string): (r: Result<Option<int>>)
    ensures r.Ok? && r.value.Some? ==>
              var q := r.value.value;
              p <= q < n && q in process && q in execute && process[q] == {Success} && execute[q] == NoResult &&
              forall i :: p <= i < q ==> i in process && i in execute && process[i] == {Success} && execute[i] == {Success}
    ensures r.Ok? && r.value.None? ==>
              forall i :: p <= i < n ==> i in process && i in execute && process[i] == {Success} && execute[i] == {Success}
    ensures (forall i :: p <= i < n ==> i in process && i in execute && process[i] == {Success} &&
                                        (execute[i] == {Success} || execute[i] == NoResult)) ==> r.Ok?
    ensures p < n && p !in process ==> r == Err(MissingKey(p))
    decreases n - p
  {
    if p >= n then Ok(None)
    else if p !in process then Err(MissingKey(p))
    else if process[p] != {Success} then
      Err(GrainOperation(child + " has a failure in processing so execution cannot proceed"))
    else if p !in execute then Err(MissingKey(p))
    else if execute[p] != {Success} && execute[p] != NoResult then
      Err(GrainOperation(child + " has a failure in executing so execution cannot proceed"))
    else if execute[p] == NoResult then Ok(Some(p))
    else FirstToExecute(process, execute, p + 1, n, child)
  }

  /** The loop stops at the first child that has processed successfully and
      not executed, provided every child before it has executed. */
  lemma {:induction false} FirstPendingStarts(process: map<int, Outcome>, execute: map<int, Outcome>, p: nat, n: nat, q: nat, child: string)
    requires p <= q < n
    requires forall i :: p <= i < q ==> i in process && i in execute && process[i] == {Success} && execute[i] == {Success}
    requires q in process && q in execute && process[q] == {Success} && execute[q] == NoResult
    ensures FirstToExecute(process, execute, p, n, child) == Ok(Some(q))
    decreases q - p
  {
    if p < q {
      FirstPendingStarts(process, execute, p + 1, n, q, child);
    }
  }
}
