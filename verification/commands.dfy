/** Commands as they travel between the API, the controller grains, the
    workers and the entity grains.

    The repository has one command class per layer (the API command, the
    Orleans `RawCommand`/`ProcessCommand`, the messaging command and the
    stored `CommandData`). Every mapper between them copies the fields one by
    one and maps the four named-parameter types one to one, so one record
    stands for all of them here. */
module Commands {
  import opened Wrappers

  /** `NamedParameterType` (Set = 0, Add = 1, Remove = 2, Reset = 3), the same in every layer. */
  datatype ParamType = Set | Add | Remove | Reset

  function ParamTypeCode(t: ParamType): nat {
    match t
    case Set => 0
    case Add => 1
    case Remove => 2
    case Reset => 3
  }

  /** A `switch` over the enumeration value: the four named values map to
      themselves and anything else has no mapper. */
  function ParamTypeOfCode(n: int): (r: Result<ParamType>)
    ensures r.Ok? <==> 0 <= n < 4
    ensures r.Ok? ==> ParamTypeCode(r.value) == n
    ensures r.Err? ==> r.error.MissingMapper?
  {
    if n == 0 then Ok(Set)
    else if n == 1 then Ok(Add)
    else if n == 2 then Ok(Remove)
    else if n == 3 then Ok(Reset)
    else Err(MissingMapper("NamedParameterType"))
  }

  lemma ParamTypeRoundTrip(t: ParamType)
    ensures ParamTypeOfCode(ParamTypeCode(t)) == Ok(t)
  {
  }

  datatype NamedParameter = NamedParameter(paramType: ParamType, name: string, value: string)

  /** `FirstOrDefault(x => x.Name == name)` over named parameters: the
      first parameter with that name, if any. */
  function FirstNamed(ps: seq<NamedParameter>, name: string): (r: Option<NamedParameter>)
    ensures r.Some? <==> exists i :: 0 <= i < |ps| && ps[i].name == name
    ensures r.Some? ==> r.value.name == name
    ensures r.Some? ==> exists i :: 0 <= i < |ps| && ps[i] == r.value && ps[i].name == name &&
                          forall j :: 0 <= j < i ==> ps[j].name != name
    decreases |ps|
  {
    if ps == [] then None
    else if ps[0].name == name then Some(ps[0])
    else
      var r := FirstNamed(ps[1..], name);
      assert forall i :: 1 <= i < |ps| ==> ps[i] == ps[1..][i - 1];
      r
  }

  /** The parameter at `k` is the one found when no earlier one has its name. */
  lemma {:induction false} FirstNamedAt(ps: seq<NamedParameter>, name: string, k: nat)
    requires k < |ps| && ps[k].name == name
    requires forall j :: 0 <= j < k ==> ps[j].name != name
    ensures FirstNamed(ps, name) == Some(ps[k])
    decreases k
  {
    if k > 0 {
      FirstNamedAt(ps[1..], name, k - 1);
    }
  }

  /** A lookup is answered by the first parameter when it has the name, and
      by the rest otherwise. */
  lemma FirstNamedCons(p: NamedParameter, rest: seq<NamedParameter>, name: string)
    ensures FirstNamed([p] + rest, name) == if p.name == name then Some(p) else FirstNamed(rest, name)
  {
    assert ([p] + rest)[1..] == rest;
  }

  /** Looking up a name in two lists joined looks in the first, then in the
      second. */
  lemma {:induction false} FirstNamedConcat(a: seq<NamedParameter>, b: seq<NamedParameter>, name: string)
    ensures FirstNamed(a + b, name) == if FirstNamed(a, name).Some? then FirstNamed(a, name) else FirstNamed(b, name)
    decreases |a|
  {
    if a != [] {
      assert (a + b)[1..] == a[1..] + b;
      FirstNamedConcat(a[1..], b, name);
    } else {
      assert a + b == b;
    }
  }

  /** `RawCommand` / `CommandData`: what the author wrote for one command. */
  datatype RawCommand = RawCommand(
    tag: string,
    target: string,
    parent: Option<string>,
    named: seq<NamedParameter>,
    arrayParams: seq<string>,
    comment: Option<string>)

  /** `ProcessCommand` and the messaging command: a raw command placed in its page. */
  datatype PageCommand = PageCommand(phase: int, index: int, raw: RawCommand)
}
