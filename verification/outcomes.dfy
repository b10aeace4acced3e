/** Result flags, controller statuses, and the fan-in rule every controller
    grain (page, chapter, publish) applies to the results of its children.

    `ProcessResult` and `ExecuteResult` are the same flag enumeration
    (None = 0, Success = 1, Cancelled = 2, Faulted = 4, Timedout = 8,
    Blocked = 16). A value is modelled as the set of flags it has: None is the
    empty set, `a | b` is union and `HasFlag(f)` is membership. */
module Outcomes {
  import opened Wrappers

  datatype Flag = Success | Cancelled | Faulted | Timedout | Blocked

  /** A ProcessResult or ExecuteResult value. */
  type Outcome = set<Flag>

  const NoResult: Outcome := {}

  function Bit(f: Flag): nat {
    match f
    case Success => 1
    case Cancelled => 2
    case Faulted => 4
    case Timedout => 8
    case Blocked => 16
  }

  function BitIf(o: Outcome, f: Flag): nat {
    if f in o then Bit(f) else 0
  }

  /** The numeric value of a flag combination. */
  function Code(o: Outcome): (n: nat)
    ensures n < 32
  {
    BitIf(o, Success) + BitIf(o, Flag.Cancelled) + BitIf(o, Flag.Faulted) + BitIf(o, Flag.Timedout) + BitIf(o, Blocked)
  }

  /** `HasFlag(f)` read off the numeric value: bit `f` of the code is set. */
  lemma CodeHasFlag(o: Outcome, f: Flag)
    ensures f in o <==> (Code(o) / Bit(f)) % 2 == 1
  {
    match f
    case Success =>
    case Cancelled =>
    case Faulted =>
    case Timedout =>
    case Blocked =>
  }

  /** Distinct flag sets have distinct numeric values, and None alone is 0. */
  lemma {:induction false} CodeInjective(a: Outcome, b: Outcome)
    ensures Code(a) == Code(b) ==> a == b
    ensures Code(a) == 0 <==> a == NoResult
  {
    if Code(a) == Code(b) {
      forall f: Flag ensures f in a <==> f in b {
        CodeHasFlag(a, f);
        CodeHasFlag(b, f);
      }
    }
    if a != NoResult {
      var f :| f in a;
      CodeHasFlag(a, f);
    }
  }

  /** `ControllerGrainStatus`: the status of a page, chapter or publish grain. */
  datatype GrainStatus =
    | Idle | Processing | Processed | Executing | Executed
    | Cancelled | Faulted | Timedout | Purged

  /** The numeric value of each status (one bit each, Idle = 0). */
  function StatusCode(s: GrainStatus): nat {
    match s
    case Idle => 0
    case Processing => 1
    case Processed => 2
    case Executing => 4
    case Executed => 8
    case Cancelled => 16
    case Faulted => 32
    case Timedout => 64
    case Purged => 128
  }

  /** The named status with a given numeric value, if any. */
  function StatusOfCode(n: int): (r: Option<GrainStatus>)
    ensures r.Some? ==> StatusCode(r.value) == n
  {
    if n == 0 then Some(Idle)
    else if n == 1 then Some(Processing)
    else if n == 2 then Some(Processed)
    else if n == 4 then Some(Executing)
    else if n == 8 then Some(Executed)
    else if n == 16 then Some(GrainStatus.Cancelled)
    else if n == 32 then Some(GrainStatus.Faulted)
    else if n == 64 then Some(GrainStatus.Timedout)
    else if n == 128 then Some(Purged)
    else None
  }

  lemma StatusCodeRoundTrip(s: GrainStatus)
    ensures StatusOfCode(StatusCode(s)) == Some(s)
  {
  }

  /** The statuses in which completion reports are dropped unrecorded. */
  predicate IsStopped(s: GrainStatus) {
    s == GrainStatus.Cancelled || s == GrainStatus.Timedout || s == Purged
  }

  // ------------------------------------------------------------------ fan-in

  /** `values.Aggregate(None, (a, b) => a | b)` over the values in enumeration order. */
  function FoldOr(values: seq<Outcome>): (r: Outcome)
    ensures forall f :: f in r <==> exists i :: 0 <= i < |values| && f in values[i]
  {
    if |values| == 0 then NoResult
    else
      var rest := FoldOr(values[1..]);
      assert forall i :: 1 <= i < |values| ==> values[i] == values[1..][i - 1];
      values[0] + rest
  }

  /** The flags that some child of a result map has. */
  function Union<K>(m: map<K, Outcome>): (r: Outcome)
    ensures forall f :: f in r <==> exists k :: k in m && f in m[k]
  {
    set k, f | k in m && f in m[k] :: f
  }

  /** `values` lists the values of `m`, each at least once, in some order. */
  ghost predicate Enumerates<K>(values: seq<Outcome>, m: map<K, Outcome>) {
    m.Values == set i | 0 <= i < |values| :: values[i]
  }

  /** The OR-fold does not depend on the order the dictionary enumerates its values in. */
  lemma FoldOrIsUnion<K>(values: seq<Outcome>, m: map<K, Outcome>)
    requires Enumerates(values, m)
    ensures FoldOr(values) == Union(m)
  {
    var l := FoldOr(values);
    var r := Union(m);
    forall f | f in l ensures f in r {
      var i :| 0 <= i < |values| && f in values[i];
      assert values[i] in m.Values;
      var k :| k in m && m[k] == values[i];
    }
    forall f | f in r ensures f in l {
      var k :| k in m && f in m[k];
      assert m[k] in m.Values;
      var i :| 0 <= i < |values| && values[i] == m[k];
    }
  }

  /** `Values.All(x => x != None)`: every child has reported. */
  predicate AllReported<K>(m: map<K, Outcome>) {
    forall k :: k in m ==> m[k] != NoResult
  }

  /** What the grain does once all children have reported: either it logs a
      fatal error and returns (`Fatal`: no status change and no report), or it
      moves to `status` and reports `result` to its parent. */
  datatype Verdict = Fatal | Final(status: GrainStatus, result: Outcome)

  /** The HasFlag precedence chain applied to the OR of the child results;
      `done` is Processed or Executed. */
  function Decide(combined: Outcome, done: GrainStatus): Verdict {
    if Flag.Faulted in combined then Final(GrainStatus.Faulted, {Flag.Faulted})
    else if Flag.Cancelled in combined then Final(GrainStatus.Cancelled, {Flag.Cancelled})
    else if Flag.Timedout in combined || Blocked in combined then Final(GrainStatus.Timedout, {Flag.Timedout})
    else if combined != {Success} then Fatal
    else Final(done, {Success})
  }

  /** The fan-in of a result map. */
  function FanIn<K>(m: map<K, Outcome>, done: GrainStatus): Verdict {
    Decide(Union(m), done)
  }

  predicate SomeChildHas<K>(m: map<K, Outcome>, f: Flag) {
    exists k :: k in m && f in m[k]
  }

  /** Fan-in precedence, stated over the children rather than over the OR:
      any Faulted child gives Faulted; else any Cancelled child gives Cancelled;
      else any Timedout or Blocked child gives Timedout; else every child is
      exactly Success and the grain reaches `done`. Once every child has
      reported and the map is non-empty, the fatal branch cannot be taken. */
  lemma FanInPrecedence<K>(m: map<K, Outcome>, done: GrainStatus)
    requires AllReported(m) && |m| > 0
    ensures FanIn(m, done).Final?
    ensures FanIn(m, done) == Final(GrainStatus.Faulted, {Flag.Faulted}) <==> SomeChildHas(m, Flag.Faulted)
    ensures FanIn(m, done) == Final(GrainStatus.Cancelled, {Flag.Cancelled}) <==>
              !SomeChildHas(m, Flag.Faulted) && SomeChildHas(m, Flag.Cancelled)
    ensures FanIn(m, done) == Final(GrainStatus.Timedout, {Flag.Timedout}) <==>
              !SomeChildHas(m, Flag.Faulted) && !SomeChildHas(m, Flag.Cancelled) &&
              (SomeChildHas(m, Flag.Timedout) || SomeChildHas(m, Blocked))
    ensures done !in {GrainStatus.Faulted, GrainStatus.Cancelled, GrainStatus.Timedout} ==>
              (FanIn(m, done) == Final(done, {Success}) <==> forall k :: k in m ==> m[k] == {Success})
  {
    var u := Union(m);
    var k0 :| k0 in m;
    var f0 :| f0 in m[k0];
    assert f0 in u;
    if Flag.Faulted !in u && Flag.Cancelled !in u && Flag.Timedout !in u && Blocked !in u {
      assert f0 == Success;
      forall g | g in u ensures g == Success {
      }
      assert u == {Success};
    }
    if forall k :: k in m ==> m[k] == {Success} {
      forall g | g in u ensures g == Success {
        var k :| k in m && g in m[k];
      }
      assert u == {Success};
    }
    if u == {Success} {
      forall k | k in m ensures m[k] == {Success} {
        var f :| f in m[k];
        forall g | g in m[k] ensures g == Success {
          assert g in u;
        }
        assert f == Success;
      }
    }
  }
}
