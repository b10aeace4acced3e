/** The fluent guard every grain operation starts with.

    `Validate(...).TaleId(a).Chapter(c).IsHealthy(s, ...)` runs its checks left
    to right; the first one that fails throws a GrainOperationException and the
    operation does nothing else. A passing check returns the same context, so
    a chain passes exactly when every check in it passes. */
module Validation {
  import opened Wrappers
  import opened Guids
  import opened Outcomes
  import opened Text

  datatype Check =
    | TaleIdCheck(id: Guid)
    | VersionIdCheck(id: Guid)
    | ChapterCheck(value: int)
    | PageCheck(value: int)
    | CustomCheck(condition: bool, message: string)
    | HealthCheck(status: GrainStatus, expected: seq<GrainStatus>)
    | NullCheck(present: bool, argName: string)
    | EmptyCheck(text: Option<string>, argName: string)

  /** Whether a single check throws. */
  predicate Fails(c: Check) {
    match c
    case TaleIdCheck(id) => id == Empty
    case VersionIdCheck(id) => id == Empty
    case ChapterCheck(v) => v < 0
    case PageCheck(v) => v < 0
    case CustomCheck(condition, _) => condition
    case HealthCheck(status, expected) => status !in expected
    case NullCheck(present, _) => !present
    case EmptyCheck(value, _) => IsNullOrEmpty(value)
  }

  /** The text of the exception a failing check throws. */
  function Message(c: Check): string {
    match c
    case TaleIdCheck(_) => "got null/empty tale id"
    case VersionIdCheck(_) => "got null/empty tale version id"
    case ChapterCheck(_) => "got negative chapter id"
    case PageCheck(_) => "got negative page id"
    case CustomCheck(_, message) => message
    case HealthCheck(_, _) => "is not in healthy state"
    case NullCheck(_, arg) => NullArgument(arg)
    case EmptyCheck(_, arg) => NullArgument(arg)
  }

  /** The message of a failed null or empty check on argument `arg`. */
  function NullArgument(arg: string): string {
    "got null/empty argument " + arg
  }

  /** `k` is the first failing check of the chain. */
  ghost predicate FirstFailure(checks: seq<Check>, k: int) {
    0 <= k < |checks| && Fails(checks[k]) && forall j :: 0 <= j < k ==> !Fails(checks[j])
  }

  /** Runs a chain of checks. */
  function Validate(checks: seq<Check>): (r: Result<()>)
    ensures r.Ok? <==> forall i :: 0 <= i < |checks| ==> !Fails(checks[i])
    ensures r.Ok? <==> forall c :: c in checks ==> !Fails(c)
    ensures r.Err? ==> exists k :: FirstFailure(checks, k) && r.error == GrainOperation(Message(checks[k]))
  {
    if |checks| == 0 then Ok(())
    else if Fails(checks[0]) then
      assert FirstFailure(checks, 0);
      Err(GrainOperation(Message(checks[0])))
    else
      var r := Validate(checks[1..]);
      assert forall i :: 1 <= i < |checks| ==> checks[i] == checks[1..][i - 1];
      if r.Err? then
        ShiftFailure(checks, r.error);
        r
      else r
  }

  lemma ShiftFailure(checks: seq<Check>, e: Fault)
    requires |checks| > 0 && !Fails(checks[0])
    requires exists k :: FirstFailure(checks[1..], k) && e == GrainOperation(Message(checks[1..][k]))
    ensures exists k :: FirstFailure(checks, k) && e == GrainOperation(Message(checks[k]))
  {
    var k :| FirstFailure(checks[1..], k) && e == GrainOperation(Message(checks[1..][k]));
    assert FirstFailure(checks, k + 1);
  }

  /** Extending a chain: the prefix decides if it fails, otherwise the suffix does. */
  lemma {:induction false} ValidateAppend(a: seq<Check>, b: seq<Check>)
    ensures Validate(a + b) == if Validate(a).Err? then Validate(a) else Validate(b)
    decreases |a|
  {
    if |a| == 0 {
      assert a + b == b;
    } else {
      assert (a + b)[1..] == a[1..] + b;
      ValidateAppend(a[1..], b);
    }
  }

  /** Appending one check: it runs only when the chain so far has passed. */
  lemma ValidateSnoc(a: seq<Check>, c: Check)
    ensures Validate(a + [c]) ==
            if Validate(a).Err? then Validate(a)
            else if Fails(c) then Err(GrainOperation(Message(c)))
            else Ok(())
  {
    ValidateAppend(a, [c]);
  }

  /** A chain of one, two, three or four checks, written out. */
  lemma ValidateOne(a: Check)
    ensures Validate([a]) == if Fails(a) then Err(GrainOperation(Message(a))) else Ok(())
  {
    assert [a][1..] == [];
  }

  lemma ValidateTwo(a: Check, b: Check)
    ensures Validate([a, b]) ==
            if Fails(a) then Err(GrainOperation(Message(a)))
            else if Fails(b) then Err(GrainOperation(Message(b)))
            else Ok(())
  {
    assert [a, b][1..] == [b];
    ValidateOne(b);
  }

  lemma ValidateThree(a: Check, b: Check, c: Check)
    ensures Validate([a, b, c]) ==
            if Fails(a) then Err(GrainOperation(Message(a)))
            else if Fails(b) then Err(GrainOperation(Message(b)))
            else if Fails(c) then Err(GrainOperation(Message(c)))
            else Ok(())
  {
    assert [a, b, c][1..] == [b, c];
    ValidateTwo(b, c);
  }

  lemma ValidateFour(a: Check, b: Check, c: Check, d: Check)
    ensures Validate([a, b, c, d]) ==
            if Fails(a) then Err(GrainOperation(Message(a)))
            else if Fails(b) then Err(GrainOperation(Message(b)))
            else if Fails(c) then Err(GrainOperation(Message(c)))
            else if Fails(d) then Err(GrainOperation(Message(d)))
            else Ok(())
  {
    assert [a, b, c, d][1..] == [b, c, d];
    ValidateThree(b, c, d);
  }

  /** The chain throws the message of its first failing check. */
  lemma {:induction false} FirstFailureThrows(checks: seq<Check>, k: nat)
    requires k < |checks| && Fails(checks[k])
    requires forall j :: 0 <= j < k ==> !Fails(checks[j])
    ensures Validate(checks) == Err(GrainOperation(Message(checks[k])))
    decreases k
  {
    if k > 0 {
      FirstFailureThrows(checks[1..], k - 1);
    }
  }

  /** `IsHealthy` with no expected status always throws. */
  lemma HealthCheckEmptyFails(status: GrainStatus)
    ensures Validate([HealthCheck(status, [])]).Err?
  {
  }
}
