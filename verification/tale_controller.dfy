/** `TaleController`: the HTTP front of the tale service. Every endpoint
    checks its route values in a fixed order and answers the first one that
    is wrong with a bad request naming it; only then does it ask one grain
    (two for the summary) and turn the answer into the reply. Anything that
    throws after the checks, in the grain or while mapping, is a bad request
    as well, without a message except on the page status endpoint.

    The grains are not called here: each endpoint names the request it makes
    and takes the grain's answer as a parameter. Logging and timing are left
    out. */
module TaleController {
  import opened Wrappers
  import opened Text
  import opened Guids
  import opened Commands
  import Outcomes
  import Calls
  import CommandIds
  import Timelines
  import CommandText

  // ------------------------------------------------------------------ replies

  /** The action results the endpoints return. */
  datatype Reply<T> = Ok200(body: T) | Accepted202 | BadRequest400(message: Option<string>)

  /** The grain methods the endpoints call, with the arguments they pass. */
  datatype GrainRequest =
    | PublishStatusRequest(taleId: Guid, versionId: Guid)
    | ChapterStatusRequest(taleId: Guid, versionId: Guid, chapter: int)
    | PageStatusRequest(taleId: Guid, versionId: Guid, chapter: int, page: int)
    | StopRequest(taleId: Guid, versionId: Guid)
    | PurgePublishRequest(taleId: Guid, versionId: Guid)
    | PurgeTaleRequest(taleId: Guid)
    | AddPageRequest(taleId: Guid, versionId: Guid, chapter: int, page: int)
    | ExecuteRequest(taleId: Guid, versionId: Guid)
    | ProcessRequest(taleId: Guid, versionId: Guid, chapter: int, page: int, commands: seq<PageCommand>)
    | InitializeRequest(taleId: Guid, versionId: Guid, backupOf: Option<Guid>)
    | VersionsRequest(taleId: Guid)
    | LastExecutedRequest(taleId: Guid, versionId: Guid)

  /** What an endpoint answered and the grain requests it made, in order. */
  datatype Handled<T> = Handled(reply: Reply<T>, sent: seq<GrainRequest>)

  /** The bad request an exception caught by an endpoint becomes. */
  function Caught<T>(e: Fault, detailed: bool): Reply<T> {
    BadRequest400(if detailed then Some(e.Text()) else None)
  }

  // ------------------------------------------------------------------- guards

  /** One route check: a condition and the message of the bad request it
      gives when the condition does not hold. */
  datatype Rule = Rule(holds: bool, message: string)

  /** The message of the first rule that does not hold, if any. */
  function FirstBroken(rules: seq<Rule>): (r: Option<string>)
    ensures r.None? <==> forall i :: 0 <= i < |rules| ==> rules[i].holds
  {
    if |rules| == 0 then None
    else if !rules[0].holds then Some(rules[0].message)
    else FirstBroken(rules[1..])
  }

  /** The message reported is that of a broken rule with every rule before
      it holding. */
  lemma {:induction false} FirstBrokenIsFirst(rules: seq<Rule>)
    requires FirstBroken(rules).Some?
    ensures exists i :: 0 <= i < |rules| && !rules[i].holds && rules[i].message == FirstBroken(rules).value &&
                        forall j :: 0 <= j < i ==> rules[j].holds
  {
    if rules[0].holds {
      var rest := rules[1..];
      FirstBrokenIsFirst(rest);
      var i :| 0 <= i < |rest| && !rest[i].holds && rest[i].message == FirstBroken(rest).value &&
               forall j :: 0 <= j < i ==> rest[j].holds;
      assert !rules[i + 1].holds && rules[i + 1].message == FirstBroken(rules).value;
      forall j | 0 <= j < i + 1
        ensures rules[j].holds
      {
        if j > 0 {
          assert rules[j] == rest[j - 1];
        }
      }
    } else {
      assert !rules[0].holds;
    }
  }

  /** Rules are checked in order: the first rule decides when it breaks, and
      otherwise the rest do. */
  lemma {:induction false} FirstBrokenConcat(a: seq<Rule>, b: seq<Rule>)
    ensures FirstBroken(a + b) == if FirstBroken(a).Some? then FirstBroken(a) else FirstBroken(b)
    decreases |a|
  {
    if |a| > 0 {
      assert (a + b)[1..] == a[1..] + b;
      FirstBrokenConcat(a[1..], b);
    } else {
      assert a + b == b;
    }
  }

  const TaleIdEmpty: string := "TaleId is empty"
  const VersionIdEmpty: string := "TaleVersionId is empty"
  const ChapterNegative: string := "Chapter cannot be negative"
  const PageNegative: string := "Page cannot be negative"

  /** The checks of a route naming a tale. */
  function TaleRules(taleId: Guid): seq<Rule> {
    [Rule(taleId != Empty, TaleIdEmpty)]
  }

  /** The checks of a route naming a tale version. */
  function VersionRules(taleId: Guid, versionId: Guid): seq<Rule> {
    TaleRules(taleId) + [Rule(versionId != Empty, VersionIdEmpty)]
  }

  /** The checks of a route naming a chapter. */
  function ChapterRules(taleId: Guid, versionId: Guid, chapter: int): seq<Rule> {
    VersionRules(taleId, versionId) + [Rule(chapter >= 0, ChapterNegative)]
  }

  /** The checks of a route naming a page. */
  function PageRules(taleId: Guid, versionId: Guid, chapter: int, page: int): seq<Rule> {
    ChapterRules(taleId, versionId, chapter) + [Rule(page >= 0, PageNegative)]
  }

  /** A page route is refused exactly when one of its values is wrong, and
      the message names the first wrong one in the order tale, version,
      chapter, page. */
  lemma PageRulesOrder(taleId: Guid, versionId: Guid, chapter: int, page: int)
    ensures FirstBroken(PageRules(taleId, versionId, chapter, page)) ==
      if taleId == Empty then Some(TaleIdEmpty)
      else if versionId == Empty then Some(VersionIdEmpty)
      else if chapter < 0 then Some(ChapterNegative)
      else if page < 0 then Some(PageNegative)
      else None
  {
    VersionRulesOrder(taleId, versionId);
    FirstBrokenConcat(VersionRules(taleId, versionId), [Rule(chapter >= 0, ChapterNegative)]);
    FirstBrokenConcat(ChapterRules(taleId, versionId, chapter), [Rule(page >= 0, PageNegative)]);
    assert [Rule(chapter >= 0, ChapterNegative)][1..] == [];
    assert [Rule(page >= 0, PageNegative)][1..] == [];
  }

  /** The checks of a version route stop at the version. */
  lemma VersionRulesOrder(taleId: Guid, versionId: Guid)
    ensures FirstBroken(VersionRules(taleId, versionId)) ==
      if taleId == Empty then Some(TaleIdEmpty)
      else if versionId == Empty then Some(VersionIdEmpty)
      else None
  {
    var rules := VersionRules(taleId, versionId);
    assert rules[1..] == [Rule(versionId != Empty, VersionIdEmpty)];
    assert rules[1..][1..] == [];
  }

  // ------------------------------------------------------------------- status

  /** The API's `EntityStatus`. */
  datatype EntityStatus =
    | Idle | Processing | Processed | Executing | Executed
    | Cancelled | Faulted | Timedout | Purged

  /** The grain status of the same name. */
  function GrainOf(e: EntityStatus): Outcomes.GrainStatus {
    match e
    case Idle => Outcomes.Idle
    case Processing => Outcomes.Processing
    case Processed => Outcomes.Processed
    case Executing => Outcomes.Executing
    case Executed => Outcomes.Executed
    case Cancelled => Outcomes.GrainStatus.Cancelled
    case Faulted => Outcomes.GrainStatus.Faulted
    case Timedout => Outcomes.GrainStatus.Timedout
    case Purged => Outcomes.Purged
  }

  /** The entity status of the same name. */
  function EntityOf(g: Outcomes.GrainStatus): (r: EntityStatus)
    ensures GrainOf(r) == g
  {
    match g
    case Idle => Idle
    case Processing => Processing
    case Processed => Processed
    case Executing => Executing
    case Executed => Executed
    case Cancelled => Cancelled
    case Faulted => Faulted
    case Timedout => Timedout
    case Purged => Purged
  }

  /** `Map(ControllerGrainStatus)` over the value the grain returns: each of
      the nine named statuses maps to the entity status of the same name,
      and any other value of the enumeration has no mapper. */
  function MapStatus(code: int): (r: Result<EntityStatus>)
    ensures r.Ok? <==> Outcomes.StatusOfCode(code).Some?
    ensures r.Ok? ==> Outcomes.StatusCode(GrainOf(r.value)) == code
    ensures r.Err? ==> r.error.MissingMapper?
  {
    match Outcomes.StatusOfCode(code)
    case None => Err(MissingMapper("ControllerGrainStatus to EntityStatus"))
    case Some(g) => Ok(EntityOf(g))
  }

  /** Every grain status is mapped, to the entity status of its own name,
      and no two values map to the same entity status. */
  lemma MapStatusOneToOne(g: Outcomes.GrainStatus, code: int)
    ensures MapStatus(Outcomes.StatusCode(g)) == Ok(EntityOf(g))
    ensures MapStatus(code).Ok? && MapStatus(code) == MapStatus(Outcomes.StatusCode(g)) ==> code == Outcomes.StatusCode(g)
  {
    Outcomes.StatusCodeRoundTrip(g);
  }

  /** The status reply: the mapped status, or the mapper's exception. */
  function StatusReply(code: int): Result<Reply<EntityStatus>> {
    match MapStatus(code)
    case Ok(e) => Ok(Ok200(e))
    case Err(x) => Err(x)
  }

  // ---------------------------------------------------------------- endpoints

  /** The course every endpoint follows: a broken rule is answered with its
      message and no grain is asked; otherwise the grain is asked once and
      an exception, the grain's or one raised while building the reply from
      its answer, is caught. */
  function Serve<A, T>(rules: seq<Rule>, request: GrainRequest, answer: Result<A>,
                       respond: A -> Result<Reply<T>>, detailed: bool): (r: Handled<T>)
    ensures FirstBroken(rules).Some? ==> r == Handled(BadRequest400(FirstBroken(rules)), [])
    ensures FirstBroken(rules).None? ==> r.sent == [request]
    ensures FirstBroken(rules).None? && answer.Err? ==> r.reply == Caught(answer.error, detailed)
  {
    var broken := FirstBroken(rules);
    if broken.Some? then Handled(BadRequest400(broken), [])
    else
      var reply := match answer
        case Err(e) => Caught(e, detailed)
        case Ok(a) => (match respond(a) case Ok(reply) => reply case Err(e) => Caught(e, detailed));
      Handled(reply, [request])
  }

  /** `GetPublishStatus`: the status of a tale version. */
  function GetPublishStatus(taleId: Guid, versionId: Guid, answer: Result<int>): (r: Handled<EntityStatus>)
    ensures r.sent != [] <==> taleId != Empty && versionId != Empty
    ensures r.sent != [] ==> r.sent == [PublishStatusRequest(taleId, versionId)]
    ensures r.sent == [] ==> r.reply == BadRequest400(Some(if taleId == Empty then TaleIdEmpty else VersionIdEmpty))
    ensures r.reply.Ok200? <==> r.sent != [] && answer.Ok? && MapStatus(answer.value).Ok?
    ensures r.reply.Ok200? ==> Outcomes.StatusCode(GrainOf(r.reply.body)) == answer.value
    ensures r.sent != [] && !r.reply.Ok200? ==> r.reply == BadRequest400(None)
  {
    VersionRulesOrder(taleId, versionId);
    Serve(VersionRules(taleId, versionId), PublishStatusRequest(taleId, versionId), answer, StatusReply, false)
  }

  /** `GetChapterStatus`: the status of a chapter. */
  function GetChapterStatus(taleId: Guid, versionId: Guid, chapter: int, answer: Result<int>): (r: Handled<EntityStatus>)
    ensures r.sent != [] <==> taleId != Empty && versionId != Empty && chapter >= 0
    ensures r.sent != [] ==> r.sent == [ChapterStatusRequest(taleId, versionId, chapter)]
    ensures r.sent == [] ==> r.reply == BadRequest400(Some(
      if taleId == Empty then TaleIdEmpty else if versionId == Empty then VersionIdEmpty else ChapterNegative))
    ensures r.reply.Ok200? <==> r.sent != [] && answer.Ok? && MapStatus(answer.value).Ok?
    ensures r.reply.Ok200? ==> Outcomes.StatusCode(GrainOf(r.reply.body)) == answer.value
    ensures r.sent != [] && !r.reply.Ok200? ==> r.reply == BadRequest400(None)
  {
    VersionRulesOrder(taleId, versionId);
    FirstBrokenConcat(VersionRules(taleId, versionId), [Rule(chapter >= 0, ChapterNegative)]);
    Serve(ChapterRules(taleId, versionId, chapter), ChapterStatusRequest(taleId, versionId, chapter), answer, StatusReply, false)
  }

  /** `GetPageStatus`: the status of a page. Unlike the other endpoints, the
      bad request for an exception carries the exception's message. */
  function GetPageStatus(taleId: Guid, versionId: Guid, chapter: int, page: int, answer: Result<int>): (r: Handled<EntityStatus>)
    ensures r.sent != [] <==> taleId != Empty && versionId != Empty && chapter >= 0 && page >= 0
    ensures r.sent != [] ==> r.sent == [PageStatusRequest(taleId, versionId, chapter, page)]
    ensures r.sent == [] ==> r.reply == BadRequest400(FirstBroken(PageRules(taleId, versionId, chapter, page)))
    ensures r.reply.Ok200? <==> r.sent != [] && answer.Ok? && MapStatus(answer.value).Ok?
    ensures r.reply.Ok200? ==> Outcomes.StatusCode(GrainOf(r.reply.body)) == answer.value
    ensures r.sent != [] && answer.Err? ==> r.reply == BadRequest400(Some(answer.error.Text()))
    ensures r.sent != [] && answer.Ok? && !r.reply.Ok200? ==> r.reply == BadRequest400(Some(MapStatus(answer.value).error.Text()))
  {
    PageRulesOrder(taleId, versionId, chapter, page);
    Serve(PageRules(taleId, versionId, chapter, page), PageStatusRequest(taleId, versionId, chapter, page), answer, StatusReply, true)
  }

  /** `Stop`: asks the publish grain to stop; accepted once it has. */
  function Stop(taleId: Guid, versionId: Guid, answer: Result<()>): (r: Handled<()>)
    ensures r.sent != [] <==> taleId != Empty && versionId != Empty
    ensures r.sent != [] ==> r.sent == [StopRequest(taleId, versionId)]
    ensures r.reply == Accepted202 <==> r.sent != [] && answer.Ok?
    ensures r.reply != Accepted202 ==> r.reply.BadRequest400?
  {
    VersionRulesOrder(taleId, versionId);
    Serve(VersionRules(taleId, versionId), StopRequest(taleId, versionId), answer, (_: ()) => Ok(Accepted202), false)
  }

  /** `PurgePublish`: asks the tale grain to purge one version. */
  function PurgePublish(taleId: Guid, versionId: Guid, answer: Result<()>): (r: Handled<()>)
    ensures r.sent != [] <==> taleId != Empty && versionId != Empty
    ensures r.sent != [] ==> r.sent == [PurgePublishRequest(taleId, versionId)]
    ensures r.reply == Ok200(()) <==> r.sent != [] && answer.Ok?
    ensures r.reply != Ok200(()) ==> r.reply.BadRequest400?
  {
    VersionRulesOrder(taleId, versionId);
    Serve(VersionRules(taleId, versionId), PurgePublishRequest(taleId, versionId), answer, (_: ()) => Ok(Ok200(())), false)
  }

  /** `PurgeTale`: asks the tale grain to purge the whole tale; only the tale
      id is checked. */
  function PurgeTale(taleId: Guid, answer: Result<()>): (r: Handled<()>)
    ensures r.sent != [] <==> taleId != Empty
    ensures r.sent != [] ==> r.sent == [PurgeTaleRequest(taleId)]
    ensures r.sent == [] ==> r.reply == BadRequest400(Some(TaleIdEmpty))
    ensures r.reply == Ok200(()) <==> r.sent != [] && answer.Ok?
    ensures r.reply != Ok200(()) ==> r.reply.BadRequest400?
  {
    assert TaleRules(taleId)[1..] == [];
    Serve(TaleRules(taleId), PurgeTaleRequest(taleId), answer, (_: ()) => Ok(Ok200(())), false)
  }

  const PageNotAdded: string := "New page is not added"

  /** `AddPage`: asks the tale grain to add a page; a page the grain does
      not add is a bad request saying so. */
  function AddPage(taleId: Guid, versionId: Guid, chapter: int, page: int, answer: Result<bool>): (r: Handled<()>)
    ensures r.sent != [] <==> taleId != Empty && versionId != Empty && chapter >= 0 && page >= 0
    ensures r.sent != [] ==> r.sent == [AddPageRequest(taleId, versionId, chapter, page)]
    ensures r.sent == [] ==> r.reply == BadRequest400(FirstBroken(PageRules(taleId, versionId, chapter, page)))
    ensures r.reply == Ok200(()) <==> r.sent != [] && answer == Ok(true)
    ensures r.sent != [] && answer == Ok(false) ==> r.reply == BadRequest400(Some(PageNotAdded))
    ensures r.sent != [] && answer.Err? ==> r.reply == BadRequest400(None)
  {
    PageRulesOrder(taleId, versionId, chapter, page);
    Serve(PageRules(taleId, versionId, chapter, page), AddPageRequest(taleId, versionId, chapter, page), answer,
          (added: bool) => Ok(if added then Ok200(()) else BadRequest400(Some(PageNotAdded))), false)
  }

  /** `Execute`: asks the tale grain to begin executing a version. */
  function Execute(taleId: Guid, versionId: Guid, answer: Result<()>): (r: Handled<()>)
    ensures r.sent != [] <==> taleId != Empty && versionId != Empty
    ensures r.sent != [] ==> r.sent == [ExecuteRequest(taleId, versionId)]
    ensures r.reply == Accepted202 <==> r.sent != [] && answer.Ok?
    ensures r.reply != Accepted202 ==> r.reply.BadRequest400?
  {
    VersionRulesOrder(taleId, versionId);
    Serve(VersionRules(taleId, versionId), ExecuteRequest(taleId, versionId), answer, (_: ()) => Ok(Accepted202), false)
  }

  /** `InitializePublishRequestData`: the version to back up from, if any. */
  datatype InitializeData = InitializeData(backupOf: Option<Guid>)

  const InitializeMissing: string := "Initialize data is empty or invalid"

  /** `Initialize`: asks the tale grain to start a version, passing on the
      version to back up from; a missing body is refused after the ids. */
  function Initialize(taleId: Guid, versionId: Guid, data: Option<InitializeData>, answer: Result<()>): (r: Handled<()>)
    ensures r.sent != [] <==> taleId != Empty && versionId != Empty && data.Some?
    ensures r.sent != [] ==> r.sent == [InitializeRequest(taleId, versionId, data.value.backupOf)]
    ensures r.sent == [] ==> r.reply == BadRequest400(Some(
      if taleId == Empty then TaleIdEmpty else if versionId == Empty then VersionIdEmpty else InitializeMissing))
    ensures r.reply == Ok200(()) <==> r.sent != [] && answer.Ok?
    ensures r.reply != Ok200(()) ==> r.reply.BadRequest400?
  {
    VersionRulesOrder(taleId, versionId);
    FirstBrokenConcat(VersionRules(taleId, versionId), [Rule(data.Some?, InitializeMissing)]);
    assert [Rule(data.Some?, InitializeMissing)][1..] == [];
    var backupOf := if data.Some? then data.value.backupOf else None;
    Serve(VersionRules(taleId, versionId) + [Rule(data.Some?, InitializeMissing)], InitializeRequest(taleId, versionId, backupOf),
          answer, (_: ()) => Ok(Ok200(())), false)
  }

  /** `Versions`: the versions of a tale, none when the grain answers
      null. */
  function Versions(taleId: Guid, answer: Result<Option<seq<Guid>>>): (r: Handled<seq<Guid>>)
    ensures r.sent != [] <==> taleId != Empty
    ensures r.sent != [] ==> r.sent == [VersionsRequest(taleId)]
    ensures r.reply.Ok200? <==> r.sent != [] && answer.Ok?
    ensures r.reply.Ok200? ==> r.reply.body == (if answer.value.Some? then answer.value.value else [])
    ensures !r.reply.Ok200? ==> r.reply.BadRequest400?
  {
    assert TaleRules(taleId)[1..] == [];
    Serve(TaleRules(taleId), VersionsRequest(taleId), answer, (vs: Option<seq<Guid>>) => Ok(Ok200(vs.GetOr([]))), false)
  }

  /** `LastExecutedPage` as the API reports it: -1 for a part that is not
      known. */
  datatype Position = Position(chapter: int, page: int)

  /** The reported position of the publish grain's last executed page. */
  function PositionOf(p: Option<Calls.ChapterPage>): (r: Position)
    ensures p.Some? && p.value.chapter.Some? ==> r.chapter == p.value.chapter.value
    ensures p.Some? && p.value.page.Some? ==> r.page == p.value.page.value
    ensures p.None? ==> r == Position(-1, -1)
    ensures p.Some? && p.value.chapter.None? ==> r.chapter == -1
    ensures p.Some? && p.value.page.None? ==> r.page == -1
  {
    if p.None? then Position(-1, -1)
    else Position(p.value.chapter.GetOr(-1), p.value.page.GetOr(-1))
  }

  /** A position read back from a report, when it reports a page at all. */
  function Reported(r: Position): Calls.ChapterPage {
    Calls.ChapterPage(if r.chapter == -1 then None else Some(r.chapter), if r.page == -1 then None else Some(r.page))
  }

  /** No information is lost in the report as long as the grain's chapter
      and page are not negative, which they never are once set. */
  lemma PositionOfRoundTrip(p: Calls.ChapterPage)
    requires p.chapter.Some? ==> p.chapter.value >= 0
    requires p.page.Some? ==> p.page.value >= 0
    ensures Reported(PositionOf(Some(p))) == p
    ensures PositionOf(None) == PositionOf(Some(Calls.ChapterPage(None, None)))
  {
  }

  /** `LastExecutedPage` endpoint. */
  function LastExecutedPage(taleId: Guid, versionId: Guid, answer: Result<Option<Calls.ChapterPage>>): (r: Handled<Position>)
    ensures r.sent != [] <==> taleId != Empty && versionId != Empty
    ensures r.sent != [] ==> r.sent == [LastExecutedRequest(taleId, versionId)]
    ensures r.reply.Ok200? <==> r.sent != [] && answer.Ok?
    ensures r.reply.Ok200? ==> r.reply.body == PositionOf(answer.value)
    ensures !r.reply.Ok200? ==> r.reply.BadRequest400?
  {
    VersionRulesOrder(taleId, versionId);
    Serve(VersionRules(taleId, versionId), LastExecutedRequest(taleId, versionId), answer,
          (p: Option<Calls.ChapterPage>) => Ok(Ok200(PositionOf(p))), false)
  }

  /** `GetVersionSummaryResponseData`. */
  datatype Summary = Summary(lastPage: Position, status: EntityStatus, versionId: Guid)

  /** `GetSummary`: the last executed page, then the status, of a version.
      The status is asked for only once the last page has been answered. */
  function GetSummary(taleId: Guid, versionId: Guid, last: Result<Option<Calls.ChapterPage>>, status: Result<int>): (r: Handled<Summary>)
    ensures r.sent != [] <==> taleId != Empty && versionId != Empty
    ensures r.sent != [] ==> r.sent == [LastExecutedRequest(taleId, versionId)] +
                                       (if last.Ok? then [PublishStatusRequest(taleId, versionId)] else [])
    ensures r.reply.Ok200? <==> r.sent != [] && last.Ok? && status.Ok? && MapStatus(status.value).Ok?
    ensures r.reply.Ok200? ==>
      r.reply.body.lastPage == PositionOf(last.value) && r.reply.body.versionId == versionId &&
      Outcomes.StatusCode(GrainOf(r.reply.body.status)) == status.value
    ensures r.sent != [] && !r.reply.Ok200? ==> r.reply == BadRequest400(None)
  {
    if taleId == Empty then Handled(BadRequest400(Some(TaleIdEmpty)), [])
    else if versionId == Empty then Handled(BadRequest400(Some(VersionIdEmpty)), [])
    else
      match last
      case Err(_) => Handled(BadRequest400(None), [LastExecutedRequest(taleId, versionId)])
      case Ok(p) =>
        var sent := [LastExecutedRequest(taleId, versionId), PublishStatusRequest(taleId, versionId)];
        match status
        case Err(_) => Handled(BadRequest400(None), sent)
        case Ok(code) =>
          match MapStatus(code)
          case Err(_) => Handled(BadRequest400(None), sent)
          case Ok(e) => Handled(Ok200(Summary(PositionOf(p), e, versionId)), sent)
  }

  // ------------------------------------------------------------------ process

  /** The API's named parameter; its type is one of the four parameter
      types, or `None` for any other value of the enumeration. */
  datatype ApiParameter = ApiParameter(kind: Option<ParamType>, name: string, value: string)

  /** The API's command; null named parameters are `None`. */
  datatype ApiCommand = ApiCommand(phase: int, index: int, tag: string, target: string, parent: Option<string>,
                                   named: Option<seq<ApiParameter>>, arrayParams: seq<string>, comment: Option<string>)

  /** `PageBlock`: where and when the page happens. A null location is
      `None`. */
  datatype PageBlock = PageBlock(date: int, stay: int, location: Option<Timelines.Location>,
                                 travel: Option<Timelines.Location>, voyage: Option<int>)

  /** `BeginProcessRequestData`; null parts are `None`. */
  datatype ProcessData = ProcessData(commands: Option<seq<ApiCommand>>, pageInfo: Option<PageBlock>)

  /** The exception a member access on null raises. */
  const NullReference: Fault := Unexpected("Object reference not set to an instance of an object.")

  /** The switch over an API parameter's type: the four types map to their
      namesakes and any other value has no mapper. */
  function MapParameter(p: ApiParameter): (r: Result<NamedParameter>)
    ensures r.Ok? <==> p.kind.Some?
    ensures r.Ok? ==> r.value.paramType == p.kind.value && r.value.name == p.name && r.value.value == p.value
    ensures r.Err? ==> r.error.MissingMapper?
  {
    match p.kind
    case None => Err(MissingMapper("NamedParameterType to NamedParameterType"))
    case Some(t) => Ok(NamedParameter(t, p.name, p.value))
  }

  /** The API parameter a named parameter came from. */
  function AsApi(p: NamedParameter): ApiParameter {
    ApiParameter(Some(p.paramType), p.name, p.value)
  }

  /** The author's parameters in order; the first whose type has no mapper
      ends the mapping. */
  function MapAll(ps: seq<ApiParameter>): (r: Result<seq<NamedParameter>>)
    ensures r.Ok? <==> forall i :: 0 <= i < |ps| ==> ps[i].kind.Some?
    ensures r.Ok? ==> |r.value| == |ps| && forall i :: 0 <= i < |ps| ==> AsApi(r.value[i]) == ps[i]
    ensures r.Err? ==> r.error.MissingMapper?
  {
    if |ps| == 0 then Ok([])
    else
      var head :- MapParameter(ps[0]);
      var tail :- MapAll(ps[1..]);
      assert forall i :: 1 <= i < |ps| ==> ps[i] == ps[1..][i - 1];
      Ok([head] + tail)
  }

  /** Mapping the API form of named parameters gives them back. */
  lemma {:induction false} MapAllRoundTrip(ps: seq<NamedParameter>)
    ensures MapAll(seq(|ps|, i requires 0 <= i < |ps| => AsApi(ps[i]))) == Ok(ps)
  {
    var api := seq(|ps|, i requires 0 <= i < |ps| => AsApi(ps[i]));
    var r := MapAll(api);
    assert r.Ok?;
    assert |r.value| == |ps|;
    forall i | 0 <= i < |ps|
      ensures r.value[i] == ps[i]
    {
      assert AsApi(r.value[i]) == AsApi(ps[i]);
    }
    assert r.value == ps;
  }

  /** The page's timeline as system parameters, all of type Set: start,
      start location and stay, then the voyage when there is one and the
      travel target when there is one. */
  function SystemParameters(info: PageBlock): (r: Result<seq<NamedParameter>>)
    ensures r.Ok? <==> info.location.Some?
    ensures r.Err? ==> r.error == NullReference
    ensures r.Ok? ==> 3 <= |r.value| <= 5 && forall i :: 0 <= i < |r.value| ==> r.value[i].paramType == Set
  {
    if info.location.None? then Err(NullReference)
    else
      Ok([NamedParameter(Set, CommandIds.Start, IntToString(info.date)),
          NamedParameter(Set, CommandIds.StartLocation, Timelines.LocationText(info.location.value)),
          NamedParameter(Set, CommandIds.Stay, IntToString(info.stay))] +
         (if info.voyage.Some? then [NamedParameter(Set, CommandIds.Voyage, IntToString(info.voyage.value))] else []) +
         (if info.travel.Some? then [NamedParameter(Set, CommandIds.TravelTo, Timelines.LocationText(info.travel.value))] else []))
  }

  /** `Map(arr, pageInfo)`: the system parameters followed by the author's
      own. A null parameter array throws once the system parameters are
      built. */
  function MapParameters(arr: Option<seq<ApiParameter>>, info: PageBlock): (r: Result<seq<NamedParameter>>)
    ensures r.Ok? <==> info.location.Some? && arr.Some? && forall i :: 0 <= i < |arr.value| ==> arr.value[i].kind.Some?
    ensures r.Ok? ==> r.value == SystemParameters(info).value + MapAll(arr.value).value
    ensures r.Err? ==> r.error == NullReference || r.error.MissingMapper?
  {
    var system :- SystemParameters(info);
    if arr.None? then Err(NullReference)
    else
      var user :- MapAll(arr.value);
      Ok(system + user)
  }

  /** `Map(data)` for one command: everything copied, the named parameters
      mapped. */
  function MapCommand(c: ApiCommand, info: PageBlock): (r: Result<PageCommand>)
    ensures r.Ok? <==> MapParameters(c.named, info).Ok?
    ensures r.Ok? ==> (r.value.phase == c.phase && r.value.index == c.index &&
      r.value.raw == RawCommand(c.tag, c.target, c.parent, MapParameters(c.named, info).value, c.arrayParams, c.comment))
  {
    var named :- MapParameters(c.named, info);
    Ok(PageCommand(c.phase, c.index, RawCommand(c.tag, c.target, c.parent, named, c.arrayParams, c.comment)))
  }

  /** `Map(data)`: the commands in order; the first that cannot be mapped
      ends the mapping. */
  function MapCommands(cs: seq<ApiCommand>, info: PageBlock): (r: Result<seq<PageCommand>>)
    ensures r.Ok? <==> forall k :: 0 <= k < |cs| ==> MapCommand(cs[k], info).Ok?
    ensures r.Ok? ==> |r.value| == |cs| && forall k :: 0 <= k < |cs| ==> r.value[k] == MapCommand(cs[k], info).value
  {
    if |cs| == 0 then Ok([])
    else
      var head :- MapCommand(cs[0], info);
      var tail :- MapCommands(cs[1..], info);
      assert forall k :: 1 <= k < |cs| ==> cs[k] == cs[1..][k - 1];
      Ok([head] + tail)
  }

  const DataMissing: string := "Command data is empty or invalid"
  const PageInfoMissing: string := "Page info is empty or invalid"
  const NoCommands: string := "Command list is empty, at least one command must exist"

  /** The checks of `Process`: the page route, then the body, its page
      block and its commands. */
  function ProcessRules(taleId: Guid, versionId: Guid, chapter: int, page: int, data: Option<ProcessData>): seq<Rule> {
    PageRules(taleId, versionId, chapter, page) +
    [Rule(data.Some?, DataMissing),
     Rule(data.Some? && data.value.pageInfo.Some?, PageInfoMissing),
     Rule(data.Some? && data.value.commands.Some? && |data.value.commands.value| > 0, NoCommands)]
  }

  /** A well-formed process request: every check passes. */
  predicate Admitted(taleId: Guid, versionId: Guid, chapter: int, page: int, data: Option<ProcessData>) {
    taleId != Empty && versionId != Empty && chapter >= 0 && page >= 0 &&
    data.Some? && data.value.pageInfo.Some? && data.value.commands.Some? && |data.value.commands.value| > 0
  }

  /** `Process`: the commands are mapped before the tale grain is asked to
      process them, so a command that cannot be mapped is a bad request and
      no grain hears of the page. */
  function Process(taleId: Guid, versionId: Guid, chapter: int, page: int, data: Option<ProcessData>, answer: Result<()>): (r: Handled<()>)
    ensures r.sent != [] <==> Admitted(taleId, versionId, chapter, page, data) &&
                              MapCommands(data.value.commands.value, data.value.pageInfo.value).Ok?
    ensures r.sent != [] ==>
      (r.sent == [ProcessRequest(taleId, versionId, chapter, page, MapCommands(data.value.commands.value, data.value.pageInfo.value).value)])
    ensures !Admitted(taleId, versionId, chapter, page, data) ==> r.reply == BadRequest400(FirstBroken(ProcessRules(taleId, versionId, chapter, page, data)))
    ensures r.reply == Accepted202 <==> r.sent != [] && answer.Ok?
    ensures r.reply != Accepted202 ==> r.reply.BadRequest400?
  {
    var rules := ProcessRules(taleId, versionId, chapter, page, data);
    PageRulesOrder(taleId, versionId, chapter, page);
    FirstBrokenConcat(PageRules(taleId, versionId, chapter, page), rules[|PageRules(taleId, versionId, chapter, page)|..]);
    assert rules == PageRules(taleId, versionId, chapter, page) + rules[|PageRules(taleId, versionId, chapter, page)|..];
    var broken := FirstBroken(rules);
    if broken.Some? then Handled(BadRequest400(broken), [])
    else
      assert Admitted(taleId, versionId, chapter, page, data) by {
        assert rules[|rules| - 3].holds && rules[|rules| - 2].holds && rules[|rules| - 1].holds;
      }
      match MapCommands(data.value.commands.value, data.value.pageInfo.value)
      case Err(_) => Handled(BadRequest400(None), [])
      case Ok(commands) =>
        Handled(if answer.Ok? then Accepted202 else BadRequest400(None), [ProcessRequest(taleId, versionId, chapter, page, commands)])
  }

  // ----------------------------------------------------- the page's timeline

  /** A location as its text is read back: an empty extension is no
      extension. */
  function Plain(l: Timelines.Location): Timelines.Location {
    Timelines.Location(l.settlement, if IsNullOrEmpty(l.extension) then None else l.extension)
  }

  /** A location whose text reads back as itself, up to an empty
      extension: its parts are non-empty, trimmed and free of commas. */
  predicate Readable(l: Timelines.Location) {
    Timelines.CleanPart(l.settlement) && (IsNullOrEmpty(l.extension) || Timelines.CleanPart(l.extension.value))
  }

  /** A page block the timeline can be read back from: it has a location,
      its numbers are `long`s and its locations are readable. */
  predicate Legible(info: PageBlock) {
    info.location.Some? && Readable(info.location.value) && (info.travel.Some? ==> Readable(info.travel.value)) &&
    IsLong(info.date) && IsLong(info.stay) && (info.voyage.Some? ==> IsLong(info.voyage.value))
  }

  /** The timeline a page block describes, a missing voyage counting as 0. */
  function PageTimeline(info: PageBlock): Timelines.TimelineInfo
    requires info.location.Some?
  {
    Timelines.TimelineInfo(info.date, Plain(info.location.value),
                           if info.travel.Some? then Some(Plain(info.travel.value)) else None,
                           Some(info.voyage.GetOr(0)), info.stay)
  }

  /** The author's parameters do not stand in for a voyage or travel target
      the page block leaves out. */
  predicate NoStandIns(arr: seq<ApiParameter>, info: PageBlock) {
    (info.voyage.None? ==> forall i :: 0 <= i < |arr| ==> arr[i].name != CommandIds.Voyage) &&
    (info.travel.None? ==> forall i :: 0 <= i < |arr| ==> arr[i].name != CommandIds.TravelTo)
  }

  /** Every command a process request sends carries the page block's
      timeline: the worker reads back the date, stay and start location the
      request gave, whatever the author's own parameters say about them, and
      the voyage and travel target too unless the page block leaves them out
      and the author supplies them instead. */
  lemma MappedTimeline(arr: seq<ApiParameter>, info: PageBlock, text: string)
    requires Legible(info)
    requires MapParameters(Some(arr), info).Ok?
    requires NoStandIns(arr, info)
    ensures Timelines.TimelineWith(MapParameters(Some(arr), info).value, text) == Ok(PageTimeline(info))
  {
    var loc := info.location.value;
    var ps := MapParameters(Some(arr), info).value;
    MappedLookups(arr, info);
    LongText(ps, CommandIds.Start, info.date);
    LongText(ps, CommandIds.Stay, info.stay);
    if info.voyage.Some? {
      LongText(ps, CommandIds.Voyage, info.voyage.value);
    }
    PlaceText(ps, CommandIds.StartLocation, loc);
    if info.travel.Some? {
      PlaceText(ps, CommandIds.TravelTo, info.travel.value);
    }
    Timelines.TimelineFound(ps, text, PageTimeline(info));
  }

  /** Every command an admitted process request hands to the tale grain
      keeps its place in the page and carries the page block's timeline. */
  lemma ProcessCarriesPageTimeline(taleId: Guid, versionId: Guid, chapter: int, page: int, data: Option<ProcessData>,
                                   answer: Result<()>, k: int)
    requires Process(taleId, versionId, chapter, page, data, answer).sent != []
    requires Legible(data.value.pageInfo.value)
    requires forall c :: c in data.value.commands.value ==> NoStandIns(c.named.GetOr([]), data.value.pageInfo.value)
    requires 0 <= k < |data.value.commands.value|
    ensures var sent := Process(taleId, versionId, chapter, page, data, answer).sent[0].commands;
      k < |sent| &&
      sent[k].phase == data.value.commands.value[k].phase && sent[k].index == data.value.commands.value[k].index &&
      Timelines.Timeline(sent[k].raw) == Ok(PageTimeline(data.value.pageInfo.value))
  {
    var info := data.value.pageInfo.value;
    var c := data.value.commands.value[k];
    var mapped := MapCommand(c, info).value;
    assert c in data.value.commands.value;
    MappedTimeline(c.named.value, info, CommandText.Render(mapped.raw));
  }

  /** A `long` written as text is read back. */
  lemma LongText(ps: seq<NamedParameter>, name: string, v: int)
    requires IsLong(v)
    requires FirstNamed(ps, name) == Some(NamedParameter(Set, name, IntToString(v)))
    ensures Timelines.LongParam(ps, name) == Some(Ok(v))
  {
    LongStringRoundTrip(v);
  }

  /** A readable location written as text is read back, plain. */
  lemma PlaceText(ps: seq<NamedParameter>, name: string, l: Timelines.Location)
    requires Readable(l)
    requires FirstNamed(ps, name) == Some(NamedParameter(Set, name, Timelines.LocationText(l)))
    ensures Timelines.ParseLocation(FirstNamed(ps, name)) == Some(Plain(l))
  {
    assert Timelines.LocationText(Plain(l)) == Timelines.LocationText(l);
    Timelines.LocationRoundTrip(Plain(l), Set, name);
  }

  /** What each timeline lookup finds among the mapped parameters. */
  lemma MappedLookups(arr: seq<ApiParameter>, info: PageBlock)
    requires MapParameters(Some(arr), info).Ok?
    requires NoStandIns(arr, info)
    ensures var ps := MapParameters(Some(arr), info).value;
      FirstNamed(ps, CommandIds.Start) == Some(NamedParameter(Set, CommandIds.Start, IntToString(info.date))) &&
      FirstNamed(ps, CommandIds.StartLocation) ==
        Some(NamedParameter(Set, CommandIds.StartLocation, Timelines.LocationText(info.location.value))) &&
      FirstNamed(ps, CommandIds.Stay) == Some(NamedParameter(Set, CommandIds.Stay, IntToString(info.stay))) &&
      FirstNamed(ps, CommandIds.Voyage) ==
        (if info.voyage.Some? then Some(NamedParameter(Set, CommandIds.Voyage, IntToString(info.voyage.value))) else None) &&
      FirstNamed(ps, CommandIds.TravelTo) ==
        (if info.travel.Some? then Some(NamedParameter(Set, CommandIds.TravelTo, Timelines.LocationText(info.travel.value))) else None)
  {
    var user := MapAll(arr).value;
    var start := NamedParameter(Set, CommandIds.Start, IntToString(info.date));
    var location := NamedParameter(Set, CommandIds.StartLocation, Timelines.LocationText(info.location.value));
    var stay := NamedParameter(Set, CommandIds.Stay, IntToString(info.stay));
    var voyage := if info.voyage.Some? then [NamedParameter(Set, CommandIds.Voyage, IntToString(info.voyage.value))] else [];
    var travel := if info.travel.Some? then [NamedParameter(Set, CommandIds.TravelTo, Timelines.LocationText(info.travel.value))] else [];
    assert SystemParameters(info).value == [start, location, stay] + voyage + travel;
    Grouped([start, location, stay] + voyage, travel, user);
    Grouped([start, location, stay], voyage, travel + user);
    Grouped(voyage, travel, user);
    UserNames(arr, info);
    Timelines.LeadingLookups(start, location, stay, voyage + travel + user);
    OptionalLookups(info, voyage, travel, user);
  }

  /** The author's parameters keep their names through the mapping. */
  lemma UserNames(arr: seq<ApiParameter>, info: PageBlock)
    requires MapAll(arr).Ok? && NoStandIns(arr, info)
    ensures var user := MapAll(arr).value;
      (info.voyage.None? ==> forall i :: 0 <= i < |user| ==> user[i].name != CommandIds.Voyage) &&
      (info.travel.None? ==> forall i :: 0 <= i < |user| ==> user[i].name != CommandIds.TravelTo)
  {
    var user := MapAll(arr).value;
    forall i | 0 <= i < |user|
      ensures user[i].name == arr[i].name
    {
      assert AsApi(user[i]) == arr[i];
    }
  }

  /** After the three leading system parameters, the voyage and travel
      target are found among the optional ones when the page block has them,
      and nowhere otherwise. */
  lemma OptionalLookups(info: PageBlock, voyage: seq<NamedParameter>, travel: seq<NamedParameter>, user: seq<NamedParameter>)
    requires voyage == if info.voyage.Some? then [NamedParameter(Set, CommandIds.Voyage, IntToString(info.voyage.value))] else []
    requires travel == if info.travel.Some? then [NamedParameter(Set, CommandIds.TravelTo, Timelines.LocationText(info.travel.value))] else []
    requires info.voyage.None? ==> forall i :: 0 <= i < |user| ==> user[i].name != CommandIds.Voyage
    requires info.travel.None? ==> forall i :: 0 <= i < |user| ==> user[i].name != CommandIds.TravelTo
    ensures FirstNamed(voyage + travel + user, CommandIds.Voyage) == if info.voyage.Some? then Some(voyage[0]) else None
    ensures FirstNamed(voyage + travel + user, CommandIds.TravelTo) == if info.travel.Some? then Some(travel[0]) else None
  {
    CommandIds.TimelineNamesDistinct();
    FirstNamedConcat(voyage + travel, user, CommandIds.Voyage);
    FirstNamedConcat(voyage + travel, user, CommandIds.TravelTo);
    FirstNamedConcat(voyage, travel, CommandIds.Voyage);
    FirstNamedConcat(voyage, travel, CommandIds.TravelTo);
  }
}
