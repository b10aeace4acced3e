/** The tale grain: the root of the controller hierarchy.

    It keeps the list of the tale's versions (the version tracker), forwards
    each request to the publish grain of a tracked version, and turns the
    completion reports of its versions into status events on the broker. Its
    tale id is read back from its own grain key ("TALE:" and the id's N form,
    see `GrainKeys.TaleKeyRoundTrip`), so the state carries it directly. */
module TaleGrain {
  import opened Wrappers
  import opened Guids
  import opened Outcomes
  import opened Validation
  import opened Commands
  import opened Calls
  import opened Parallel
  import Topology

  datatype TaleState = TaleState(taleId: Guid, versions: seq<Guid>)

  /** A tale grain nobody has written to yet: the tracker is empty. */
  function NewState(taleId: Guid): (s: TaleState)
    ensures s.taleId == taleId && |s.versions| == 0
  {
    TaleState(taleId, [])
  }

  /** No version is tracked twice. */
  predicate Distinct(versions: seq<Guid>) {
    forall i, j :: 0 <= i < j < |versions| ==> versions[i] != versions[j]
  }

  const UnknownVersion: string := "Tale publish does not exist"

  /** `List.Remove`: drops the first occurrence of `v`, if any. */
  function RemoveFirst(versions: seq<Guid>, v: Guid): (r: seq<Guid>)
    ensures v !in versions ==> r == versions
    ensures v in versions ==> |r| == |versions| - 1
    ensures forall x :: x != v ==> (x in r <==> x in versions)
  {
    if |versions| == 0 then []
    else if versions[0] == v then versions[1..]
    else
      assert versions == [versions[0]] + versions[1..];
      [versions[0]] + RemoveFirst(versions[1..], v)
  }

  /** In a tracker without duplicates the removed version leaves no trace, and
      no duplicate appears. */
  lemma {:induction false} RemoveFirstFromDistinct(versions: seq<Guid>, v: Guid)
    ensures Distinct(versions) ==> Distinct(RemoveFirst(versions, v)) && v !in RemoveFirst(versions, v)
  {
    if Distinct(versions) && |versions| > 0 {
      var x, tail := versions[0], versions[1..];
      assert Distinct(tail) by {
        forall i, j | 0 <= i < j < |tail| ensures tail[i] != tail[j] {
          assert tail[i] == versions[i + 1] && tail[j] == versions[j + 1];
        }
      }
      assert x !in tail by {
        forall i | 0 <= i < |tail| ensures tail[i] != x {
          assert tail[i] == versions[i + 1];
        }
      }
      if x != v {
        RemoveFirstFromDistinct(tail, v);
        var rest := RemoveFirst(tail, v);
        var r := [x] + rest;
        assert x !in rest;
        forall i, j | 0 <= i < j < |r| ensures r[i] != r[j] {
          if i > 0 {
            assert r[i] == rest[i - 1] && r[j] == rest[j - 1];
          } else {
            assert r[j] == rest[j - 1];
          }
        }
      }
    }
  }

  // ------------------------------------------------------------------ guards

  /** Every operation on a version starts with these two checks. */
  function IdChecks(s: TaleState, v: Guid): seq<Check> {
    [TaleIdCheck(s.taleId), VersionIdCheck(v)]
  }

  /** The check that the version is in the tracker. */
  function TrackedCheck(s: TaleState, v: Guid): Check {
    CustomCheck(v !in s.versions, UnknownVersion)
  }

  /** Both ids present: the rest of the chain decides. */
  predicate IdsPresent(s: TaleState, v: Guid) {
    s.taleId != Empty && v != Empty
  }

  /** The id checks decide first; after them only the rest of the chain matters. */
  lemma IdsFirst(s: TaleState, v: Guid, rest: seq<Check>)
    ensures IdsPresent(s, v) ==> Validate(IdChecks(s, v) + rest) == Validate(rest)
    ensures !IdsPresent(s, v) ==> Validate(IdChecks(s, v) + rest).Err?
  {
    ValidateAppend(IdChecks(s, v), rest);
    ValidateTwo(TaleIdCheck(s.taleId), VersionIdCheck(v));
  }

  // -------------------------------------------------------------- initialize

  function InitializeChecks(s: TaleState, v: Guid, backupOf: Option<Guid>): seq<Check> {
    [CustomCheck(backupOf == Some(Empty), "Null/Empty argument backupOfVersionId"),
     CustomCheck(v in s.versions, "Tale publish id already exists")]
  }

  lemma InitializeChecksPass(s: TaleState, v: Guid, backupOf: Option<Guid>)
    ensures Validate(InitializeChecks(s, v, backupOf)).Ok? <==> backupOf != Some(Empty) && v !in s.versions
    ensures backupOf != Some(Empty) && v in s.versions ==>
            Validate(InitializeChecks(s, v, backupOf)) == Err(GrainOperation("Tale publish id already exists"))
  {
    var checks := InitializeChecks(s, v, backupOf);
    ValidateTwo(checks[0], checks[1]);
    assert checks == [checks[0], checks[1]];
  }

  const FaultyBackup: string := "Backup publish is faulty, using that version as backup source is not accepted"

  /** `Initialize(taleVersionId, backupOfVersionId)`. Without a backup source the
      new version's publish grain is initialized (`reply` is its answer); with
      one, the source's status (`backupStatus`) must be Executed and the source
      is asked to back up into the new version (`reply`). Either way the new
      version is then added to the tracker. */
  function Initialize(s: TaleState, v: Guid, backupOf: Option<Guid>, backupStatus: GrainStatus, reply: Result<()>): (r: Result<Step<TaleState>>)
    ensures r.Ok? <==> IdsPresent(s, v) && backupOf != Some(Empty) && v !in s.versions &&
                       (backupOf.Some? ==> backupStatus == Executed) && reply.Ok?
    ensures IdsPresent(s, v) && backupOf != Some(Empty) && v in s.versions ==>
              r == Err(GrainOperation("Tale publish id already exists"))
    ensures IdsPresent(s, v) && backupOf.Some? && backupOf.value != Empty && v !in s.versions && backupStatus != Executed ==>
              r == Err(GrainOperation(FaultyBackup))
    ensures r.Ok? ==> r.value.state == s.(versions := s.versions + [v])
    ensures r.Ok? && backupOf.None? ==> r.value.calls == [PublishInitialize(s.taleId, v)]
    ensures r.Ok? && backupOf.Some? ==> r.value.calls == [PublishBackupTo(s.taleId, backupOf.value, v)]
    ensures Distinct(s.versions) && r.Ok? ==> Distinct(r.value.state.versions)
  {
    IdsFirst(s, v, InitializeChecks(s, v, backupOf));
    InitializeChecksPass(s, v, backupOf);
    var g := Validate(IdChecks(s, v) + InitializeChecks(s, v, backupOf));
    if g.Err? then Err(g.error)
    else if backupOf.Some? && backupStatus != Executed then Err(GrainOperation(FaultyBackup))
    else if reply.Err? then Err(reply.error)
    else
      var call := if backupOf.Some? then PublishBackupTo(s.taleId, backupOf.value, v) else PublishInitialize(s.taleId, v);
      Ok(Step(s.(versions := s.versions + [v]), [call]))
  }

  // ---------------------------------------------------------------- forwards

  function AddChapterPageChecks(s: TaleState, v: Guid, chapter: int, page: int): seq<Check> {
    [ChapterCheck(chapter), PageCheck(page), TrackedCheck(s, v)]
  }

  lemma AddChapterPageChecksPass(s: TaleState, v: Guid, chapter: int, page: int)
    ensures Validate(AddChapterPageChecks(s, v, chapter, page)).Ok? <==> chapter >= 0 && page >= 0 && v in s.versions
    ensures chapter >= 0 && page >= 0 && v !in s.versions ==>
            Validate(AddChapterPageChecks(s, v, chapter, page)) == Err(GrainOperation(UnknownVersion))
  {
    var checks := AddChapterPageChecks(s, v, chapter, page);
    ValidateThree(checks[0], checks[1], checks[2]);
    assert checks == [checks[0], checks[1], checks[2]];
  }

  /** `AddChapterPage(taleVersionId, chapter, page)`: forwarded to a tracked
      version; `reply` is the publish grain's answer, returned as is. */
  function AddChapterPage(s: TaleState, v: Guid, chapter: int, page: int, reply: Result<bool>): (r: Result<(Step<TaleState>, bool)>)
    ensures r.Ok? <==> IdsPresent(s, v) && chapter >= 0 && page >= 0 && v in s.versions && reply.Ok?
    ensures IdsPresent(s, v) && chapter >= 0 && page >= 0 && v !in s.versions ==> r == Err(GrainOperation(UnknownVersion))
    ensures r.Ok? ==> r.value.0 == Step(s, [PublishAddChapterPage(s.taleId, v, chapter, page)]) && r.value.1 == reply.value
  {
    IdsFirst(s, v, AddChapterPageChecks(s, v, chapter, page));
    AddChapterPageChecksPass(s, v, chapter, page);
    var g := Validate(IdChecks(s, v) + AddChapterPageChecks(s, v, chapter, page));
    if g.Err? then Err(g.error)
    else if reply.Err? then Err(reply.error)
    else Ok((Step(s, [PublishAddChapterPage(s.taleId, v, chapter, page)]), reply.value))
  }

  function BeginProcessChecks(s: TaleState, v: Guid, chapter: int, page: int, commands: Option<seq<PageCommand>>): seq<Check> {
    [ChapterCheck(chapter), PageCheck(page), TrackedCheck(s, v), NullCheck(commands.Some?, "pageCommands")]
  }

  lemma BeginProcessChecksPass(s: TaleState, v: Guid, chapter: int, page: int, commands: Option<seq<PageCommand>>)
    ensures Validate(BeginProcessChecks(s, v, chapter, page, commands)).Ok? <==>
            chapter >= 0 && page >= 0 && v in s.versions && commands.Some?
    ensures chapter >= 0 && page >= 0 && v !in s.versions ==>
            Validate(BeginProcessChecks(s, v, chapter, page, commands)) == Err(GrainOperation(UnknownVersion))
  {
    var checks := BeginProcessChecks(s, v, chapter, page, commands);
    ValidateFour(checks[0], checks[1], checks[2], checks[3]);
    assert checks == [checks[0], checks[1], checks[2], checks[3]];
  }

  /** `BeginProcess(taleVersionId, chapter, page, pageCommands)`: forwarded to a tracked version. */
  function BeginProcess(s: TaleState, v: Guid, chapter: int, page: int, commands: Option<seq<PageCommand>>, reply: Result<()>): (r: Result<Step<TaleState>>)
    ensures r.Ok? <==> IdsPresent(s, v) && chapter >= 0 && page >= 0 && v in s.versions && commands.Some? && reply.Ok?
    ensures IdsPresent(s, v) && chapter >= 0 && page >= 0 && v !in s.versions ==> r == Err(GrainOperation(UnknownVersion))
    ensures r.Ok? ==> r.value == Step(s, [PublishBeginProcess(s.taleId, v, chapter, page, commands.value)])
  {
    IdsFirst(s, v, BeginProcessChecks(s, v, chapter, page, commands));
    BeginProcessChecksPass(s, v, chapter, page, commands);
    var g := Validate(IdChecks(s, v) + BeginProcessChecks(s, v, chapter, page, commands));
    if g.Err? then Err(g.error)
    else if reply.Err? then Err(reply.error)
    else Ok(Step(s, [PublishBeginProcess(s.taleId, v, chapter, page, commands.value)]))
  }

  /** The tracker check alone passes exactly for a tracked version. */
  lemma TrackedPass(s: TaleState, v: Guid)
    ensures Validate([TrackedCheck(s, v)]) == if v in s.versions then Ok(()) else Err(GrainOperation(UnknownVersion))
  {
    ValidateOne(TrackedCheck(s, v));
  }

  /** The shape of `BeginExecute`, `PurgePublish` and `Stop`: the id checks and
      the tracker check, then one call to the version's publish grain whose
      answer is `reply`. */
  function ForwardTracked(s: TaleState, v: Guid, call: Call, reply: Result<()>): (r: Result<Step<TaleState>>)
    ensures r.Ok? <==> IdsPresent(s, v) && v in s.versions && reply.Ok?
    ensures IdsPresent(s, v) && v !in s.versions ==> r == Err(GrainOperation(UnknownVersion))
    ensures r.Ok? ==> r.value == Step(s, [call])
  {
    IdsFirst(s, v, [TrackedCheck(s, v)]);
    TrackedPass(s, v);
    var g := Validate(IdChecks(s, v) + [TrackedCheck(s, v)]);
    if g.Err? then Err(g.error)
    else if reply.Err? then Err(reply.error)
    else Ok(Step(s, [call]))
  }

  /** `BeginExecute(taleVersionId)`: forwarded to a tracked version. */
  function BeginExecute(s: TaleState, v: Guid, reply: Result<()>): (r: Result<Step<TaleState>>)
    ensures r.Ok? <==> IdsPresent(s, v) && v in s.versions && reply.Ok?
    ensures IdsPresent(s, v) && v !in s.versions ==> r == Err(GrainOperation(UnknownVersion))
    ensures r.Ok? ==> r.value == Step(s, [PublishBeginExecute(s.taleId, v)])
  {
    ForwardTracked(s, v, PublishBeginExecute(s.taleId, v), reply)
  }

  /** `Stop(taleVersionId)`: forwarded to a tracked version; the tracker is kept. */
  function Stop(s: TaleState, v: Guid, reply: Result<()>): (r: Result<Step<TaleState>>)
    ensures r.Ok? <==> IdsPresent(s, v) && v in s.versions && reply.Ok?
    ensures IdsPresent(s, v) && v !in s.versions ==> r == Err(GrainOperation(UnknownVersion))
    ensures r.Ok? ==> r.value == Step(s, [PublishStop(s.taleId, v)])
  {
    ForwardTracked(s, v, PublishStop(s.taleId, v), reply)
  }

  // ------------------------------------------------------------------- purge

  /** `PurgePublish(taleVersionId)`: purges a tracked version and, once that
      has succeeded, removes it from the tracker. */
  function PurgePublish(s: TaleState, v: Guid, reply: Result<()>): (r: Result<Step<TaleState>>)
    ensures r.Ok? <==> IdsPresent(s, v) && v in s.versions && reply.Ok?
    ensures IdsPresent(s, v) && v !in s.versions ==> r == Err(GrainOperation(UnknownVersion))
    ensures r.Ok? ==> r.value.calls == [PublishPurge(s.taleId, v)] && r.value.state.taleId == s.taleId &&
                      |r.value.state.versions| == |s.versions| - 1 &&
                      forall x :: x != v ==> (x in r.value.state.versions <==> x in s.versions)
    ensures r.Ok? && Distinct(s.versions) ==> Distinct(r.value.state.versions) && v !in r.value.state.versions
  {
    var f := ForwardTracked(s, v, PublishPurge(s.taleId, v), reply);
    if f.Err? then Err(f.error)
    else
      RemoveFirstFromDistinct(s.versions, v);
      Ok(Step(s.(versions := RemoveFirst(s.versions, v)), f.value.calls))
  }

  /** The purge calls, one per tracked version, in tracker order. */
  function PurgeCalls(s: TaleState): (r: seq<Call>)
    ensures |r| == |s.versions|
    ensures forall i :: 0 <= i < |r| ==> r[i] == PublishPurge(s.taleId, s.versions[i])
  {
    seq(|s.versions|, i requires 0 <= i < |s.versions| => PublishPurge(s.taleId, s.versions[i]))
  }

  /** `Purge()`: purges every tracked version in parallel (`outcomes[i]` is how
      the i-th version's purge ended) and clears the tracker only if all of
      them succeeded. */
  function Purge(s: TaleState, outcomes: seq<TaskOutcome>): (r: Result<Step<TaleState>>)
    requires |outcomes| == |s.versions|
    ensures s.taleId == Empty ==> r == Err(GrainOperation("got null/empty tale id"))
    ensures r.Ok? <==> s.taleId != Empty && forall i :: 0 <= i < |outcomes| ==> outcomes[i].None?
    ensures s.taleId != Empty && r.Err? ==>
              exists i :: FirstThrown(outcomes, i) && r.error == GrainOperation("Purging tale failed: " + outcomes[i].value.Text())
    ensures r.Ok? ==> r.value.state == NewState(s.taleId) && r.value.calls == PurgeCalls(s)
  {
    ValidateOne(TaleIdCheck(s.taleId));
    var g := Validate([TaleIdCheck(s.taleId)]);
    if g.Err? then Err(g.error)
    else
      var done := FailIfAny("Purging tale failed: ", outcomes);
      if done.Err? then Err(done.error)
      else Ok(Step(NewState(s.taleId), PurgeCalls(s)))
  }

  /** Initializing a new version and then purging it gives the tracker back. */
  lemma InitializeThenPurgeRestores(s: TaleState, v: Guid, backupOf: Option<Guid>, reply: Result<()>)
    requires Initialize(s, v, backupOf, Executed, reply).Ok?
    ensures var s1 := Initialize(s, v, backupOf, Executed, reply).value.state;
            PurgePublish(s1, v, Ok(())).Ok? && PurgePublish(s1, v, Ok(())).value.state == s
  {
    var s1 := Initialize(s, v, backupOf, Executed, reply).value.state;
    RemoveAppended(s.versions, v);
  }

  /** Removing a version that was just appended, and was not there before, undoes the append. */
  lemma {:induction false} RemoveAppended(versions: seq<Guid>, v: Guid)
    requires v !in versions
    ensures RemoveFirst(versions + [v], v) == versions
    decreases |versions|
  {
    if |versions| > 0 {
      assert (versions + [v])[1..] == versions[1..] + [v];
      RemoveAppended(versions[1..], v);
      assert versions == [versions[0]] + versions[1..];
    }
  }

  // ------------------------------------------------------- completion reports

  /** The event status a completion result maps to: any Faulted, Cancelled or
      Blocked flag is Faulted; otherwise a Timedout flag is Timeout; otherwise
      exactly Success is Success; anything else (only None is left) is not
      recognized. */
  function EventStatusOf(result: Outcome): (r: Option<EventStatus>)
    ensures r == Some(EventFaulted) <==> Flag.Faulted in result || Flag.Cancelled in result || Blocked in result
    ensures r == Some(EventTimeout) <==>
              Flag.Timedout in result && !(Flag.Faulted in result || Flag.Cancelled in result || Blocked in result)
    ensures r == Some(EventSuccess) <==> result == {Success}
    ensures r.None? <==> result == NoResult
  {
    if Flag.Faulted in result || Flag.Cancelled in result || Blocked in result then Some(EventFaulted)
    else if Flag.Timedout in result then Some(EventTimeout)
    else if result == {Success} then Some(EventSuccess)
    else
      OnlySuccessLeft(result);
      None
  }

  /** A result with none of the four failure flags has at most the Success flag. */
  lemma OnlySuccessLeft(result: Outcome)
    requires Flag.Faulted !in result && Flag.Cancelled !in result && Blocked !in result && Flag.Timedout !in result
    ensures result == {Success} || result == NoResult
  {
    if Success in result {
      forall f | f in result ensures f == Success {
        match f
        case Success =>
        case Cancelled =>
        case Faulted =>
        case Timedout =>
        case Blocked =>
      }
    } else {
      forall f | f in result ensures false {
        match f
        case Success =>
        case Cancelled =>
        case Faulted =>
        case Timedout =>
        case Blocked =>
      }
    }
  }

  function ReportChecks(chapter: int, page: int): seq<Check> {
    [ChapterCheck(chapter), PageCheck(page)]
  }

  /** `OnProcessComplete` (`execute` false) and `OnExecuteComplete` (`execute`
      true) from a publish grain: a report for an untracked version is
      ignored; otherwise the result is mapped to an event status and published
      on the event exchange under the tale's status-update routing key. */
  function OnComplete(s: TaleState, v: Guid, chapter: int, page: int, result: Outcome, execute: bool): (r: Result<Step<TaleState>>)
    ensures r.Ok? ==> r.value.state == s
    ensures IdsPresent(s, v) && chapter >= 0 && page >= 0 && v !in s.versions ==> r == Ok(Step(s, []))
    ensures IdsPresent(s, v) && chapter >= 0 && page >= 0 && v in s.versions ==> (r.Ok? <==> result != NoResult)
    ensures IdsPresent(s, v) && chapter >= 0 && page >= 0 && v in s.versions && result == NoResult ==>
              r == Err(GrainOperation("Operation result None is not recognized"))
    ensures r.Ok? && v in s.versions ==>
              EventStatusOf(result).Some? &&
              r.value.calls == [PublishStatus(Topology.EventExchange, Topology.TaleRoutingKey(Topology.StatusUpdate, s.taleId),
                                              execute, s.taleId, v, chapter, page, EventStatusOf(result).value)]
    ensures !IdsPresent(s, v) || chapter < 0 || page < 0 ==> r.Err?
  {
    IdsFirst(s, v, ReportChecks(chapter, page));
    ValidateTwo(ChapterCheck(chapter), PageCheck(page));
    var g := Validate(IdChecks(s, v) + ReportChecks(chapter, page));
    if g.Err? then Err(g.error)
    else if v !in s.versions then Ok(Step(s, []))
    else
      match EventStatusOf(result)
      case None => Err(GrainOperation("Operation result None is not recognized"))
      case Some(status) =>
        Ok(Step(s, [PublishStatus(Topology.EventExchange, Topology.TaleRoutingKey(Topology.StatusUpdate, s.taleId),
                                  execute, s.taleId, v, chapter, page, status)]))
  }

  /** Every result a publish grain reports after its fan-in is recognized: a
      faulted or cancelled version becomes a Faulted event, a timed-out one a
      Timeout event, and a successful one a Success event. */
  lemma FanInReportsAreRecognized<K>(m: map<K, Outcome>, done: GrainStatus)
    requires AllReported(m) && |m| > 0
    requires done == Processed || done == Executed
    ensures FanIn(m, done).Final?
    ensures EventStatusOf(FanIn(m, done).result).Some?
    ensures EventStatusOf(FanIn(m, done).result) == Some(EventFaulted) <==>
            SomeChildHas(m, Flag.Faulted) || SomeChildHas(m, Flag.Cancelled)
    ensures EventStatusOf(FanIn(m, done).result) == Some(EventSuccess) <==> forall k :: k in m ==> m[k] == {Success}
  {
    FanInPrecedence(m, done);
  }
}
