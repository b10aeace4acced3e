/** The publish grain: one version of a tale, made of chapters.

    Its two result maps are keyed by chapter number. It forwards pages to the
    chapter grains, processes them together, executes the chapters one at a
    time (lowest first), and reports the fan-in of its chapters to the tale
    grain. It also owns the version's data in the four entity containers and
    the document store: it creates, purges and copies (backs up) that data. */
module PublishGrain {
  import opened Wrappers
  import opened Guids
  import opened Outcomes
  import opened Validation
  import opened Controller
  import opened Commands
  import opened Calls
  import opened GrainKeys
  import opened Parallel
  import Topology
  import Text
  import Ordering
  import ChapterGrain
  import PageGrain

  datatype PublishState = PublishState(
    taleId: Guid,
    versionId: Guid,
    status: GrainStatus,
    process: map<int, Outcome>,
    execute: map<int, Outcome>,
    lastExecuted: ChapterPage)

  /** The state of a publish grain nobody has written to yet. */
  function NewState(): (s: PublishState)
    ensures s.taleId == Empty && s.versionId == Empty && s.status == Idle
    ensures |s.process| == 0 && |s.execute| == 0
    ensures s.lastExecuted == ChapterPage(None, None)
  {
    PublishState(Empty, Empty, Idle, map[], map[], ChapterPage(None, None))
  }

  /** Both maps know the same chapters. */
  predicate Valid(s: PublishState) {
    s.process.Keys == s.execute.Keys
  }

  /** The chapters are exactly 0 .. ChapterCount - 1, as `BeginExecute` assumes. */
  predicate Contiguous(s: PublishState) {
    Valid(s) && Ordering.Dense(s.execute.Keys)
  }

  /** `ChapterCount()`: the size of the execute map only. */
  function ChapterCount(s: PublishState): nat {
    |s.execute|
  }

  function Key(s: PublishState): Result<string> {
    FetchPublish(s.taleId, s.versionId)
  }

  function StateIdChecks(s: PublishState): seq<Check> {
    [TaleIdCheck(s.taleId), VersionIdCheck(s.versionId)]
  }

  /** The id checks pass exactly when the key could be built. */
  lemma StateIdsPass(s: PublishState)
    ensures Validate(StateIdChecks(s)).Ok? <==> Key(s).Ok?
  {
    ValidateTwo(TaleIdCheck(s.taleId), VersionIdCheck(s.versionId));
  }

  /** A guard that starts with the state's id checks: the key decides first,
      then only the remaining checks matter. */
  lemma GuardSplits(s: PublishState, extra: seq<Check>)
    ensures Guard(Key(s), StateIdChecks(s) + extra) == if Key(s).Err? then Err(Key(s).error) else Validate(extra)
  {
    StateIdsPass(s);
    GuardAfterIds(Key(s), StateIdChecks(s), extra);
  }

  /** The cancel request both `Stop` and `Purge` publish first. */
  function CancelWork(s: PublishState): Call {
    PublishWork(Topology.WorkExchange, Topology.CancelWorkRoutingKey, CancelPageOperationRequest(s.taleId, s.versionId))
  }

  // ----------------------------------------------------------- last executed

  /** `LastExecutedPage()`: a copy of the stored pair, once the ids are set. */
  function LastExecutedPage(s: PublishState): (r: Result<ChapterPage>)
    ensures r.Ok? <==> s.taleId != Empty && s.versionId != Empty
    ensures r.Err? ==> r == Err(Key(s).error)
    ensures r.Ok? ==> r.value == s.lastExecuted
  {
    var g := Guard(Key(s), StateIdChecks(s));
    if g.Err? then Err(g.error) else Ok(s.lastExecuted)
  }

  // --------------------------------------------------------------- initialize

  /** The checks `Initialize` runs on its arguments. */
  function InitializeChecks(s: PublishState, taleId: Guid, versionId: Guid): seq<Check> {
    [TaleIdCheck(taleId), VersionIdCheck(versionId), HealthCheck(s.status, [Idle])]
  }

  lemma InitializeGuard(s: PublishState, taleId: Guid, versionId: Guid)
    ensures Guard(FetchPublish(taleId, versionId), InitializeChecks(s, taleId, versionId)).Ok? <==>
            taleId != Empty && versionId != Empty && s.status == Idle
    ensures FetchPublish(taleId, versionId).Err? ==>
            Guard(FetchPublish(taleId, versionId), InitializeChecks(s, taleId, versionId)) == Err(FetchPublish(taleId, versionId).error)
    ensures taleId != Empty && versionId != Empty && s.status != Idle ==>
            Guard(FetchPublish(taleId, versionId), InitializeChecks(s, taleId, versionId)) == Err(GrainOperation("is not in healthy state"))
  {
    if FetchPublish(taleId, versionId).Ok? {
      ValidateThree(TaleIdCheck(taleId), VersionIdCheck(versionId), HealthCheck(s.status, [Idle]));
    }
  }

  /** `Initialize(taleId, versionId)`: creates the version in the four
      containers and the document store in parallel; `outcomes[i]` is how the
      i-th of those five calls ended. Any failure throws and nothing is stored. */
  function Initialize(s: PublishState, taleId: Guid, versionId: Guid, outcomes: seq<TaskOutcome>): (r: Result<Step<PublishState>>)
    requires |outcomes| == 5
    ensures r.Ok? <==> taleId != Empty && versionId != Empty && s.status == Idle &&
                       forall i :: 0 <= i < 5 ==> outcomes[i].None?
    ensures FetchPublish(taleId, versionId).Err? ==> r == Err(FetchPublish(taleId, versionId).error)
    ensures taleId != Empty && versionId != Empty && s.status != Idle ==> r == Err(GrainOperation("is not in healthy state"))
    ensures taleId != Empty && versionId != Empty && s.status == Idle && r.Err? ==>
              exists i :: FirstThrown(outcomes, i) &&
                          r.error == GrainOperation("Initializing tale version " + D(versionId) + " failed: " + outcomes[i].value.Text())
    ensures r.Ok? ==> r.value.state == s.(taleId := taleId, versionId := versionId) &&
                      Key(r.value.state) == FetchPublish(taleId, versionId) &&
                      r.value.calls == StoreCalls(InitializeVersion(taleId, versionId))
  {
    InitializeGuard(s, taleId, versionId);
    var g := Guard(FetchPublish(taleId, versionId), InitializeChecks(s, taleId, versionId));
    if g.Err? then Err(g.error)
    else
      var done := FailIfAny("Initializing tale version " + D(versionId) + " failed: ", outcomes);
      if done.Err? then Err(done.error)
      else Ok(Step(s.(taleId := taleId, versionId := versionId), StoreCalls(InitializeVersion(taleId, versionId))))
  }

  // --------------------------------------------------------- add chapter page

  /** Whether the publish grain already knows the chapter (in either map). */
  predicate KnowsChapter(s: PublishState, chapter: int) {
    chapter in s.execute || chapter in s.process
  }

  /** The checks `AddChapterPage` runs after the ids. */
  function AddChapterPageChecks(s: PublishState, chapter: int, page: int): seq<Check> {
    [ChapterCheck(chapter), PageCheck(page), HealthCheck(s.status, [Idle, Executed])]
  }

  lemma AddChapterPageGuard(s: PublishState, chapter: int, page: int)
    ensures Key(s).Err? ==> Guard(Key(s), StateIdChecks(s) + AddChapterPageChecks(s, chapter, page)) == Err(Key(s).error)
    ensures Guard(Key(s), StateIdChecks(s) + AddChapterPageChecks(s, chapter, page)).Ok? <==>
            Key(s).Ok? && chapter >= 0 && page >= 0 && (s.status == Idle || s.status == Executed)
  {
    GuardSplits(s, AddChapterPageChecks(s, chapter, page));
    AddChapterPageChecksPass(s, chapter, page);
  }

  lemma AddChapterPageChecksPass(s: PublishState, chapter: int, page: int)
    ensures Validate(AddChapterPageChecks(s, chapter, page)).Ok? <==>
            chapter >= 0 && page >= 0 && (s.status == Idle || s.status == Executed)
  {
    ValidateThree(ChapterCheck(chapter), PageCheck(page), HealthCheck(s.status, [Idle, Executed]));
  }

  /** The chapter grain's part of `AddChapterPage`: a chapter the publish grain
      does not know is initialized first (without a backup page); then the
      chapter is asked to add the page. The answer is whether it did. */
  function ChapterAccepts(s: PublishState, chapter: int, page: int, ch: ChapterGrain.ChapterState, pg: PageGrain.PageState): (r: Result<bool>)
    ensures ChapterGrain.Valid(ch) && r.Ok? ==> r.value
    ensures !KnowsChapter(s, chapter) && ChapterGrain.Initialize(ch, s.taleId, s.versionId, chapter, None).Err? ==>
              r == Err(ChapterGrain.Initialize(ch, s.taleId, s.versionId, chapter, None).error)
    ensures KnowsChapter(s, chapter) && ChapterGrain.AddPage(ch, page, pg).Err? ==> r == Err(ChapterGrain.AddPage(ch, page, pg).error)
  {
    var init := if KnowsChapter(s, chapter) then Ok(ch) else ChapterGrain.Initialize(ch, s.taleId, s.versionId, chapter, None);
    match init
    case Err(e) => Err(e)
    case Ok(ch') =>
      match ChapterGrain.AddPage(ch', page, pg)
      case Err(e) => Err(e)
      case Ok((_, added)) => Ok(added)
  }

  /** `AddChapterPage(chapter, page)`: `ch` and `pg` are the states of the
      chapter and page grains. A new chapter is initialized first (without a
      backup page); then the chapter is asked to add the page. The result says
      whether the page was added. */
  function AddChapterPage(s: PublishState, chapter: int, page: int, ch: ChapterGrain.ChapterState, pg: PageGrain.PageState): (r: Result<(Step<PublishState>, bool)>)
    ensures Key(s).Err? ==> r == Err(Key(s).error)
    ensures r.Ok? ==> chapter >= 0 && page >= 0 && (s.status == Idle || s.status == Executed)
    ensures r.Ok? ==> !(chapter in s.execute && IsFaultResult(s.execute[chapter])) &&
                      !(chapter !in s.execute && chapter in s.process && IsFaultResult(s.process[chapter]))
    ensures Key(s).Ok? && chapter >= 0 && page >= 0 && (s.status == Idle || s.status == Executed) ==>
              (chapter in s.execute && IsFaultResult(s.execute[chapter]) ==>
                 r == Err(GrainOperation("Publish grain already has chapter in fault execute state"))) &&
              (chapter !in s.execute && chapter in s.process && IsFaultResult(s.process[chapter]) ==>
                 r == Err(GrainOperation("Publish grain already has chapter in fault process state")))
    ensures r.Ok? ==> var calls := r.value.0.calls;
              |calls| >= 1 && calls[|calls| - 1] == ChapterAddPage(s.taleId, s.versionId, chapter, page) &&
              (|calls| == 2 <==> !KnowsChapter(s, chapter)) &&
              (|calls| == 2 ==> calls[0] == ChapterInitialize(s.taleId, s.versionId, chapter, None))
    ensures r.Ok? && r.value.1 ==>
              r.value.0.state == s.(process := s.process[chapter := NoResult], execute := s.execute[chapter := NoResult], status := Idle)
    ensures r.Ok? && !r.value.1 ==> r.value.0.state == s
  {
    AddChapterPageGuard(s, chapter, page);
    var g := Guard(Key(s), StateIdChecks(s) + AddChapterPageChecks(s, chapter, page));
    if g.Err? then Err(g.error)
    else if chapter in s.execute && IsFaultResult(s.execute[chapter]) then
      Err(GrainOperation("Publish grain already has chapter in fault execute state"))
    else if chapter !in s.execute && chapter in s.process && IsFaultResult(s.process[chapter]) then
      Err(GrainOperation("Publish grain already has chapter in fault process state"))
    else AddToChapter(s, chapter, page, ch, pg)
  }

  /** The part of `AddChapterPage` after its checks: the calls to the chapter
      grain, and the chapter's results cleared when the page was added. */
  function AddToChapter(s: PublishState, chapter: int, page: int, ch: ChapterGrain.ChapterState, pg: PageGrain.PageState): (r: Result<(Step<PublishState>, bool)>)
    ensures r.Ok? ==> var calls := r.value.0.calls;
              |calls| >= 1 && calls[|calls| - 1] == ChapterAddPage(s.taleId, s.versionId, chapter, page) &&
              (|calls| == 2 <==> !KnowsChapter(s, chapter)) &&
              (|calls| == 2 ==> calls[0] == ChapterInitialize(s.taleId, s.versionId, chapter, None))
    ensures r.Ok? && r.value.1 ==>
              r.value.0.state == s.(process := s.process[chapter := NoResult], execute := s.execute[chapter := NoResult], status := Idle)
    ensures r.Ok? && !r.value.1 ==> r.value.0.state == s
    ensures r.Ok? <==> ChapterAccepts(s, chapter, page, ch, pg).Ok?
    ensures r.Ok? ==> r.value.1 == ChapterAccepts(s, chapter, page, ch, pg).value
  {
    var known := KnowsChapter(s, chapter);
    var initCalls := if known then [] else [ChapterInitialize(s.taleId, s.versionId, chapter, None)];
    var calls := initCalls + [ChapterAddPage(s.taleId, s.versionId, chapter, page)];
    match ChapterAccepts(s, chapter, page, ch, pg)
    case Err(e) => Err(e)
    case Ok(added) =>
      if !added then Ok((Step(s, calls), false))
      else
        Ok((Step(s.(process := s.process[chapter := NoResult], execute := s.execute[chapter := NoResult], status := Idle),
                 calls), true))
  }

  /** With a chapter grain whose maps agree, `AddChapterPage` adds the page or
      throws: both "page already exists" answers are unreachable. */
  lemma AddChapterPageAddsOrThrows(s: PublishState, chapter: int, page: int, ch: ChapterGrain.ChapterState, pg: PageGrain.PageState)
    requires ChapterGrain.Valid(ch) && AddChapterPage(s, chapter, page, ch, pg).Ok?
    ensures AddChapterPage(s, chapter, page, ch, pg).value.1
  {
  }

  /** Recording a known chapter or the next new one keeps the chapters
      contiguous; only a new chapter adds one to the count. */
  lemma RecordChapterKeepsContiguous(s: PublishState, t: PublishState, chapter: int)
    requires Contiguous(s) && 0 <= chapter <= ChapterCount(s)
    requires t == s.(process := s.process[chapter := NoResult], execute := s.execute[chapter := NoResult], status := Idle)
    ensures Contiguous(t)
    ensures ChapterCount(t) == ChapterCount(s) + (if KnowsChapter(s, chapter) then 0 else 1)
  {
    if KnowsChapter(s, chapter) {
      assert t.execute.Keys == s.execute.Keys;
    } else {
      assert chapter == |s.execute.Keys|;
      Ordering.DenseAddNext(s.execute.Keys);
      assert t.execute.Keys == s.execute.Keys + {chapter};
    }
  }

  /** With a chapter grain whose maps agree, adding a page to a known chapter
      or to the next new one keeps the chapters contiguous; only a new chapter
      adds one to the count. */
  lemma AddChapterPageKeepsContiguous(s: PublishState, chapter: int, page: int, ch: ChapterGrain.ChapterState, pg: PageGrain.PageState)
    requires Contiguous(s) && chapter <= ChapterCount(s) && ChapterGrain.Valid(ch)
    ensures var r := AddChapterPage(s, chapter, page, ch, pg);
            r.Ok? ==> Contiguous(r.value.0.state) &&
                      ChapterCount(r.value.0.state) == ChapterCount(s) + (if KnowsChapter(s, chapter) then 0 else 1)
  {
    var r := AddChapterPage(s, chapter, page, ch, pg);
    if r.Ok? {
      AddChapterPageAddsOrThrows(s, chapter, page, ch, pg);
      RecordChapterKeepsContiguous(s, r.value.0.state, chapter);
    }
  }

  /** The first page of a tale: a fresh chapter and page grain accept it, the
      chapter is initialized and then asked to add the page. */
  lemma FirstPageIsAdded(s: PublishState)
    requires Key(s).Ok? && s.status == Idle && |s.process| == 0 && |s.execute| == 0
    ensures var r := AddChapterPage(s, 0, 0, ChapterGrain.NewState(), PageGrain.NewState());
            r.Ok? && r.value.1 &&
            r.value.0.calls == [ChapterInitialize(s.taleId, s.versionId, 0, None), ChapterAddPage(s.taleId, s.versionId, 0, 0)] &&
            r.value.0.state.process == map[0 := NoResult] && r.value.0.state.execute == map[0 := NoResult]
  {
    AddChapterPageGuard(s, 0, 0);
    var ch := ChapterGrain.Initialize(ChapterGrain.NewState(), s.taleId, s.versionId, 0, None);
    assert ch.Ok?;
    ChapterGrain.AddPageToRestingChapter(ch.value, 0);
  }

  // ------------------------------------------------------------------ process

  /** The checks `BeginProcess` runs after the ids. */
  function BeginProcessChecks(s: PublishState, chapter: int, page: int, commands: Option<seq<PageCommand>>): seq<Check> {
    [ChapterCheck(chapter), PageCheck(page), HealthCheck(s.status, [Idle]), NullCheck(commands.Some?, "pageCommands")]
  }

  lemma BeginProcessGuard(s: PublishState, chapter: int, page: int, commands: Option<seq<PageCommand>>)
    ensures Key(s).Err? ==> Guard(Key(s), StateIdChecks(s) + BeginProcessChecks(s, chapter, page, commands)) == Err(Key(s).error)
    ensures Guard(Key(s), StateIdChecks(s) + BeginProcessChecks(s, chapter, page, commands)).Ok? <==>
            Key(s).Ok? && chapter >= 0 && page >= 0 && s.status == Idle && commands.Some?
    ensures Key(s).Ok? && chapter >= 0 && page >= 0 && s.status != Idle ==>
            Guard(Key(s), StateIdChecks(s) + BeginProcessChecks(s, chapter, page, commands)) == Err(GrainOperation("is not in healthy state"))
  {
    GuardSplits(s, BeginProcessChecks(s, chapter, page, commands));
    BeginProcessChecksPass(s, chapter, page, commands);
  }

  lemma BeginProcessChecksPass(s: PublishState, chapter: int, page: int, commands: Option<seq<PageCommand>>)
    ensures Validate(BeginProcessChecks(s, chapter, page, commands)).Ok? <==>
            chapter >= 0 && page >= 0 && s.status == Idle && commands.Some?
    ensures chapter >= 0 && page >= 0 && s.status != Idle ==>
            Validate(BeginProcessChecks(s, chapter, page, commands)) == Err(GrainOperation("is not in healthy state"))
  {
    var checks := BeginProcessChecks(s, chapter, page, commands);
    ValidateFour(checks[0], checks[1], checks[2], checks[3]);
    assert checks == [checks[0], checks[1], checks[2], checks[3]];
  }

  /** `BeginProcess(chapter, page, pageCommands)`: only from Idle; starts the
      chapter and moves to Processing. `reply` is the chapter's answer. */
  function BeginProcess(s: PublishState, chapter: int, page: int, commands: Option<seq<PageCommand>>, reply: Result<()>): (r: Result<Step<PublishState>>)
    ensures r.Ok? <==> Key(s).Ok? && chapter >= 0 && page >= 0 && s.status == Idle && commands.Some? && reply.Ok?
    ensures Key(s).Err? ==> r == Err(Key(s).error)
    ensures Key(s).Ok? && chapter >= 0 && page >= 0 && s.status != Idle ==> r == Err(GrainOperation("is not in healthy state"))
    ensures r.Ok? ==> r.value.state == s.(status := Processing) &&
                      r.value.calls == [ChapterBeginProcess(s.taleId, s.versionId, chapter, page, commands.value)]
  {
    BeginProcessGuard(s, chapter, page, commands);
    var g := Guard(Key(s), StateIdChecks(s) + BeginProcessChecks(s, chapter, page, commands));
    if g.Err? then Err(g.error)
    else if reply.Err? then Err(reply.error)
    else Ok(Step(s.(status := Processing), [ChapterBeginProcess(s.taleId, s.versionId, chapter, page, commands.value)]))
  }

  /** The report to the tale grain, which names the version and the page that completed last. */
  function ReportToTale(s: PublishState, execute: bool, chapter: int, page: int, result: Outcome): Call {
    if execute then TaleExecuteComplete(s.taleId, s.versionId, chapter, page, result)
    else TaleProcessComplete(s.taleId, s.versionId, chapter, page, result)
  }

  /** Saving after a completion; the tale grain's call is awaited inside the save. */
  function Save(s: PublishState, c: Completion, execute: bool, chapter: int, page: int, reply: Result<()>): (r: Result<Step<PublishState>>)
    ensures c.report.None? ==> r == Ok(Step(s.(status := c.status), []))
    ensures c.report.Some? && reply.Err? ==> r == Err(reply.error)
    ensures c.report.Some? && reply.Ok? ==>
              r == Ok(Step(s.(status := c.status), [ReportToTale(s, execute, chapter, page, c.report.value)]))
  {
    if c.report.None? then Ok(Step(s.(status := c.status), []))
    else if reply.Err? then Err(reply.error)
    else Ok(Step(s.(status := c.status), [ReportToTale(s, execute, chapter, page, c.report.value)]))
  }

  function CompletionChecks(s: PublishState, callerChapter: int, callerPage: int): seq<Check> {
    StateIdChecks(s) + [ChapterCheck(callerChapter), PageCheck(callerPage)]
  }

  /** The completion guard passes exactly when the key builds and both numbers are non-negative. */
  lemma CompletionChecksPass(s: PublishState, callerChapter: int, callerPage: int)
    ensures Guard(Key(s), CompletionChecks(s, callerChapter, callerPage)).Ok? <==>
              Key(s).Ok? && callerChapter >= 0 && callerPage >= 0
    ensures Key(s).Ok? && callerChapter < 0 ==>
              Guard(Key(s), CompletionChecks(s, callerChapter, callerPage)) == Err(GrainOperation("got negative chapter id"))
    ensures Key(s).Ok? && callerChapter >= 0 && callerPage < 0 ==>
              Guard(Key(s), CompletionChecks(s, callerChapter, callerPage)) == Err(GrainOperation("got negative page id"))
  {
    GuardSplits(s, [ChapterCheck(callerChapter), PageCheck(callerPage)]);
    ValidateTwo(ChapterCheck(callerChapter), PageCheck(callerPage));
  }

  /** `OnProcessComplete(callerChapter, callerPage, result)`: the skip rules, then
      the unknown-chapter check, then record and fan in. */
  function OnProcessComplete(s: PublishState, callerChapter: int, callerPage: int, result: Outcome, reply: Result<()>): (r: Result<Step<PublishState>>)
    ensures Key(s).Err? ==> r == Err(Key(s).error)
    ensures r.Ok? ==> callerChapter >= 0 && callerPage >= 0
    ensures Key(s).Ok? && callerChapter >= 0 && callerPage >= 0 && Skips(result, s.status, Processing) ==> r == Ok(Step(s, []))
    ensures Key(s).Ok? && callerChapter >= 0 && callerPage >= 0 && !Skips(result, s.status, Processing) && callerChapter !in s.process ==>
              r == Err(GrainOperation("Publish grain does not recognize the chapter"))
    ensures r.Ok? && !Skips(result, s.status, Processing) ==>
              callerChapter in s.process &&
              r.value.state.process == s.process[callerChapter := result] && r.value.state.execute == s.execute &&
              r.value.state.lastExecuted == s.lastExecuted
    ensures r.Ok? ==> |r.value.calls| <= 1
  {
    CompletionChecksPass(s, callerChapter, callerPage);
    var g := Guard(Key(s), CompletionChecks(s, callerChapter, callerPage));
    if g.Err? then Err(g.error)
    else if Skips(result, s.status, Processing) then Ok(Step(s, []))
    else if callerChapter !in s.process then Err(GrainOperation("Publish grain does not recognize the chapter"))
    else
      var m := s.process[callerChapter := result];
      Save(s.(process := m), AfterRecord(m, s.status, Processed), false, callerChapter, callerPage, reply)
  }

  /** Once the publish grain has recorded a chapter's processing result it
      reports to the tale exactly when every chapter has reported, with the
      fan-in's verdict. */
  lemma ProcessReportsOnceAllChaptersReported(s: PublishState, chapter: int, page: int, result: Outcome)
    requires !IsStopped(s.status)
    requires OnProcessComplete(s, chapter, page, result, Ok(())).Ok? && !Skips(result, s.status, Processing)
    ensures var r := OnProcessComplete(s, chapter, page, result, Ok(())).value;
            (|r.calls| == 1 <==> AllReported(r.state.process)) &&
            (|r.calls| == 1 ==>
               r.calls[0] == TaleProcessComplete(s.taleId, s.versionId, chapter, page, FanIn(r.state.process, Processed).result) &&
               r.state.status == FanIn(r.state.process, Processed).status)
  {
    var m := s.process[chapter := result];
    ReportsWhenAllReported(m, s.status, Processed);
  }

  // ------------------------------------------------------------------ execute

  /** `BeginExecute()`: only from Processed; moves to Executing and starts the
      lowest chapter that has not executed. `reply` is that chapter's answer.
      When every chapter has executed nothing is started. */
  function BeginExecute(s: PublishState, reply: Result<()>): (r: Result<Step<PublishState>>)
    ensures Key(s).Err? ==> r == Err(Key(s).error)
    ensures r.Ok? ==> s.status == Processed && r.value.state == s.(status := Executing) && |r.value.calls| <= 1
    ensures r.Ok? && |r.value.calls| == 1 ==>
              r.value.calls[0].ChapterBeginExecute? &&
              var q := r.value.calls[0].chapter;
              r.value.calls[0] == ChapterBeginExecute(s.taleId, s.versionId, q) &&
              q in s.execute && s.execute[q] == NoResult &&
              forall i :: 0 <= i < q ==> i in s.execute && s.execute[i] == {Success}
  {
    GuardSplits(s, [HealthCheck(s.status, [Processed])]);
    ValidateOne(HealthCheck(s.status, [Processed]));
    var g := Guard(Key(s), StateIdChecks(s) + [HealthCheck(s.status, [Processed])]);
    if g.Err? then Err(g.error)
    else
      match FirstToExecute(s.process, s.execute, 0, ChapterCount(s), "Chapter within publish version")
      case Err(e) => Err(e)
      case Ok(None) => Ok(Step(s.(status := Executing), []))
      case Ok(Some(q)) =>
        if reply.Err? then Err(reply.error)
        else Ok(Step(s.(status := Executing), [ChapterBeginExecute(s.taleId, s.versionId, q)]))
  }

  /** A contiguous Processed version whose chapters all processed successfully
      and have no execute failure always starts: the lowest unexecuted chapter
      if there is one, otherwise nothing. */
  lemma ExecuteStartsLowestPending(s: PublishState)
    requires Contiguous(s) && Key(s).Ok? && s.status == Processed
    requires forall c :: c in s.process ==> s.process[c] == {Success}
    requires forall c :: c in s.execute ==> s.execute[c] == {Success} || s.execute[c] == NoResult
    ensures BeginExecute(s, Ok(())).Ok?
    ensures (exists c :: c in s.execute && s.execute[c] == NoResult) <==> |BeginExecute(s, Ok(())).value.calls| == 1
  {
    var n := ChapterCount(s);
    assert s.execute.Keys == Ordering.Range(n);
    assert forall i :: 0 <= i < n ==> i in s.process && i in s.execute && s.process[i] == {Success} &&
                                      (s.execute[i] == {Success} || s.execute[i] == NoResult);
    var first := FirstToExecute(s.process, s.execute, 0, n, "Chapter within publish version");
    assert first.Ok?;
    GuardSplits(s, [HealthCheck(s.status, [Processed])]);
    ValidateOne(HealthCheck(s.status, [Processed]));
    if first.value.None? {
      assert forall c :: c in s.execute ==> s.execute[c] == {Success};
    }
  }

  /** The pair stored after an execute completion: the caller's chapter and page
      when the fan-in reached Executed, the old pair otherwise. */
  function NextLastExecuted(previous: ChapterPage, c: Completion, callerChapter: int, callerPage: int): ChapterPage {
    if c.report == Some({Success}) then ChapterPage(Some(callerChapter), Some(callerPage)) else previous
  }

  /** The checks `OnExecuteComplete` runs after the ids. */
  function ExecuteCompleteChecks(s: PublishState, callerChapter: int, callerPage: int): seq<Check> {
    [ChapterCheck(callerChapter), PageCheck(callerPage),
     CustomCheck(callerChapter !in s.execute, "Publish grain does not have the chapter")]
  }

  lemma ExecuteCompleteChecksPass(s: PublishState, callerChapter: int, callerPage: int)
    ensures Validate(ExecuteCompleteChecks(s, callerChapter, callerPage)).Ok? <==>
            callerChapter >= 0 && callerPage >= 0 && callerChapter in s.execute
    ensures callerChapter >= 0 && callerPage >= 0 && callerChapter !in s.execute ==>
            Validate(ExecuteCompleteChecks(s, callerChapter, callerPage)) == Err(GrainOperation("Publish grain does not have the chapter"))
  {
    var checks := ExecuteCompleteChecks(s, callerChapter, callerPage);
    ValidateThree(checks[0], checks[1], checks[2]);
    assert checks == [checks[0], checks[1], checks[2]];
  }

  lemma ExecuteCompleteGuard(s: PublishState, callerChapter: int, callerPage: int)
    ensures Key(s).Err? ==> Guard(Key(s), StateIdChecks(s) + ExecuteCompleteChecks(s, callerChapter, callerPage)) == Err(Key(s).error)
    ensures Guard(Key(s), StateIdChecks(s) + ExecuteCompleteChecks(s, callerChapter, callerPage)).Ok? <==>
            Key(s).Ok? && callerChapter >= 0 && callerPage >= 0 && callerChapter in s.execute
    ensures Key(s).Ok? && callerChapter >= 0 && callerPage >= 0 && callerChapter !in s.execute ==>
            Guard(Key(s), StateIdChecks(s) + ExecuteCompleteChecks(s, callerChapter, callerPage)) ==
            Err(GrainOperation("Publish grain does not have the chapter"))
  {
    GuardSplits(s, ExecuteCompleteChecks(s, callerChapter, callerPage));
    ExecuteCompleteChecksPass(s, callerChapter, callerPage);
  }

  /** `OnExecuteComplete(callerChapter, callerPage, result)`. The unknown-chapter
      check is part of the guard here, before the skip rules. */
  function OnExecuteComplete(s: PublishState, callerChapter: int, callerPage: int, result: Outcome, reply: Result<()>): (r: Result<Step<PublishState>>)
    ensures Key(s).Err? ==> r == Err(Key(s).error)
    ensures Key(s).Ok? && callerChapter >= 0 && callerPage >= 0 && callerChapter !in s.execute ==>
              r == Err(GrainOperation("Publish grain does not have the chapter"))
    ensures r.Ok? ==> callerChapter in s.execute && callerPage >= 0
    ensures r.Ok? && Skips(result, s.status, Executing) ==> r.value == Step(s, [])
    ensures r.Ok? && !Skips(result, s.status, Executing) ==>
              r.value.state.execute == s.execute[callerChapter := result] && r.value.state.process == s.process
    ensures r.Ok? && r.value.state.lastExecuted != s.lastExecuted ==>
              r.value.state.status == Executed &&
              r.value.state.lastExecuted == ChapterPage(Some(callerChapter), Some(callerPage))
    ensures r.Ok? ==> |r.value.calls| <= 1
  {
    ExecuteCompleteGuard(s, callerChapter, callerPage);
    var g := Guard(Key(s), StateIdChecks(s) + ExecuteCompleteChecks(s, callerChapter, callerPage));
    if g.Err? then Err(g.error)
    else if Skips(result, s.status, Executing) then Ok(Step(s, []))
    else
      var m := s.execute[callerChapter := result];
      var c := AfterRecord(m, s.status, Executed);
      assert c.report == Some({Success}) ==> c.status == Executed by {
        ReportBackUnreachable(result, s.status, Executing);
      }
      Save(s.(execute := m, lastExecuted := NextLastExecuted(s.lastExecuted, c, callerChapter, callerPage)),
           c, true, callerChapter, callerPage, reply)
  }

  /** When the last chapter to report has executed successfully and every
      other chapter had too, the version is Executed, remembers the caller's
      chapter and page as the last executed page, and tells the tale Success;
      any other fan-in leaves the last executed page alone. */
  lemma ExecutedRecordsLastPage(s: PublishState, chapter: int, page: int, result: Outcome)
    requires !IsStopped(s.status)
    requires OnExecuteComplete(s, chapter, page, result, Ok(())).Ok? && !Skips(result, s.status, Executing)
    ensures var r := OnExecuteComplete(s, chapter, page, result, Ok(())).value;
            (forall c :: c in r.state.execute ==> r.state.execute[c] == {Success}) <==>
              (r.state.status == Executed && r.state.lastExecuted == ChapterPage(Some(chapter), Some(page)) &&
               r.calls == [TaleExecuteComplete(s.taleId, s.versionId, chapter, page, {Success})])
  {
    var m := s.execute[chapter := result];
    assert |m| > 0 by { assert chapter in m; }
    var r := OnExecuteComplete(s, chapter, page, result, Ok(())).value;
    if forall c :: c in m ==> m[c] == {Success} {
      FanInPrecedence(m, Executed);
    } else if AllReported(m) {
      FanInPrecedence(m, Executed);
    }
  }

  // ---------------------------------------------------------- purge and stop

  /** `Purge()`: publishes the cancel request, then deletes the version from the
      four containers and the document store in parallel (`outcomes`, in that
      order). Purged only if all five succeeded. */
  function Purge(s: PublishState, outcomes: seq<TaskOutcome>): (r: Result<Step<PublishState>>)
    requires |outcomes| == 5
    ensures Key(s).Err? ==> r == Err(Key(s).error)
    ensures Key(s).Ok? ==> (r.Ok? <==> forall i :: 0 <= i < 5 ==> outcomes[i].None?)
    ensures Key(s).Ok? && r.Err? ==>
              exists i :: FirstThrown(outcomes, i) &&
                          r.error == GrainOperation("Purge tale version " + D(s.versionId) + " failed: " + outcomes[i].value.Text())
    ensures r.Ok? ==> r.value.state == s.(status := Purged) &&
                      r.value.calls == [CancelWork(s)] + StoreCalls(PurgeVersion(s.taleId, s.versionId))
  {
    var g := Guard(Key(s), StateIdChecks(s));
    StateIdsPass(s);
    if g.Err? then Err(g.error)
    else
      var done := FailIfAny("Purge tale version " + D(s.versionId) + " failed: ", outcomes);
      if done.Err? then Err(done.error)
      else Ok(Step(s.(status := Purged), [CancelWork(s)] + StoreCalls(PurgeVersion(s.taleId, s.versionId))))
  }

  /** The chapters in the order their stops are started. */
  function Chapters(s: PublishState): (r: seq<int>)
    ensures |r| == |s.process| && forall c :: c in r <==> c in s.process
  {
    Ordering.Ascending(s.process.Keys)
  }

  /** `Stop()`: publishes the cancel request and stops every chapter of the
      process map in parallel; `stops[i]` is how the i-th chapter's stop
      (ascending) ended. Cancelled only if every stop succeeded. */
  function Stop(s: PublishState, stops: seq<TaskOutcome>): (r: Result<Step<PublishState>>)
    requires |stops| == |s.process|
    ensures Key(s).Err? ==> r == Err(Key(s).error)
    ensures Key(s).Ok? ==> (r.Ok? <==> forall i :: 0 <= i < |stops| ==> stops[i].None?)
    ensures Key(s).Ok? && r.Err? ==>
              exists i :: FirstThrown(stops, i) &&
                          r.error == GrainOperation("Stopping tale version " + D(s.versionId) + " failed: " + stops[i].value.Text())
    ensures r.Ok? ==> r.value.state == s.(status := GrainStatus.Cancelled)
    ensures r.Ok? ==> |r.value.calls| == |s.process| + 1 && r.value.calls[0] == CancelWork(s) &&
                      forall i :: 1 <= i < |r.value.calls| ==>
                        r.value.calls[i].ChapterStop? && r.value.calls[i].chapter in s.process &&
                        r.value.calls[i] == ChapterStop(s.taleId, s.versionId, r.value.calls[i].chapter)
  {
    var g := Guard(Key(s), StateIdChecks(s));
    StateIdsPass(s);
    if g.Err? then Err(g.error)
    else
      var done := FailIfAny("Stopping tale version " + D(s.versionId) + " failed: ", stops);
      if done.Err? then Err(done.error)
      else Ok(Step(s.(status := GrainStatus.Cancelled), [CancelWork(s)] + StopCalls(s)))
  }

  /** One stop call per chapter, in ascending chapter order. */
  function StopCalls(s: PublishState): (r: seq<Call>)
    ensures |r| == |s.process|
    ensures forall i :: 0 <= i < |r| ==>
              r[i].ChapterStop? && r[i].chapter in s.process && r[i] == ChapterStop(s.taleId, s.versionId, r[i].chapter)
  {
    var chapters := Chapters(s);
    seq(|chapters|, i requires 0 <= i < |chapters| => ChapterStop(s.taleId, s.versionId, chapters[i]))
  }

  // ------------------------------------------------------------------ backup

  /** The checks `BackupTo` runs after the ids. */
  function BackupToChecks(s: PublishState, newVersionId: Guid): seq<Check> {
    [CustomCheck(newVersionId == Empty, "Publish grain got empty new version id"), HealthCheck(s.status, [Executed])]
  }

  lemma BackupToGuard(s: PublishState, newVersionId: Guid)
    ensures Key(s).Err? ==> Guard(Key(s), StateIdChecks(s) + BackupToChecks(s, newVersionId)) == Err(Key(s).error)
    ensures Guard(Key(s), StateIdChecks(s) + BackupToChecks(s, newVersionId)).Ok? <==>
            Key(s).Ok? && newVersionId != Empty && s.status == Executed
    ensures Key(s).Ok? && newVersionId == Empty ==>
            Guard(Key(s), StateIdChecks(s) + BackupToChecks(s, newVersionId)) == Err(GrainOperation("Publish grain got empty new version id"))
  {
    GuardSplits(s, BackupToChecks(s, newVersionId));
    ValidateTwo(CustomCheck(newVersionId == Empty, "Publish grain got empty new version id"), HealthCheck(s.status, [Executed]));
  }

  /** `BackupTo(newVersionId)`: only from Executed and with a non-empty new id;
      copies the version's data in the four containers and the document store
      and asks the new version's publish grain to restore from this version's
      last executed page, all in parallel (`outcomes`, in that order). Nothing
      is stored here. */
  function BackupTo(s: PublishState, newVersionId: Guid, outcomes: seq<TaskOutcome>): (r: Result<Step<PublishState>>)
    requires |outcomes| == 6
    ensures r.Ok? <==> Key(s).Ok? && newVersionId != Empty && s.status == Executed &&
                       forall i :: 0 <= i < 6 ==> outcomes[i].None?
    ensures Key(s).Err? ==> r == Err(Key(s).error)
    ensures Key(s).Ok? && newVersionId == Empty ==> r == Err(GrainOperation("Publish grain got empty new version id"))
    ensures Key(s).Ok? && newVersionId != Empty && s.status == Executed && r.Err? ==>
              exists i :: FirstThrown(outcomes, i) &&
                          r.error == GrainOperation("Backup tale version " + D(s.versionId) + " to " + D(newVersionId) +
                                                    " failed: " + outcomes[i].value.Text())
    ensures r.Ok? ==> r.value.state == s &&
                      r.value.calls == StoreCalls(BackupVersion(s.taleId, s.versionId, newVersionId)) +
                                       [PublishBackupFrom(s.taleId, newVersionId, s.lastExecuted)]
  {
    BackupToGuard(s, newVersionId);
    var g := Guard(Key(s), StateIdChecks(s) + BackupToChecks(s, newVersionId));
    if g.Err? then Err(g.error)
    else
      var done := FailIfAny("Backup tale version " + D(s.versionId) + " to " + D(newVersionId) + " failed: ", outcomes);
      if done.Err? then Err(done.error)
      else Ok(Step(s, StoreCalls(BackupVersion(s.taleId, s.versionId, newVersionId)) +
                      [PublishBackupFrom(s.taleId, newVersionId, s.lastExecuted)]))
  }

  /** The chapter `BackupFrom` initializes: the last executed one, or 0. */
  function RestoredChapter(lastExecuted: ChapterPage): int {
    lastExecuted.chapter.GetOr(0)
  }

  /** The checks `BackupFrom` runs on its arguments. */
  function RestoreChecks(taleId: Guid, versionId: Guid, lastExecuted: Option<ChapterPage>): seq<Check> {
    [TaleIdCheck(taleId), VersionIdCheck(versionId), NullCheck(lastExecuted.Some?, "lastExecuted")]
  }

  lemma RestoreGuard(taleId: Guid, versionId: Guid, lastExecuted: Option<ChapterPage>)
    ensures Guard(FetchPublish(taleId, versionId), RestoreChecks(taleId, versionId, lastExecuted)).Ok? <==>
            taleId != Empty && versionId != Empty && lastExecuted.Some?
    ensures FetchPublish(taleId, versionId).Err? ==>
            Guard(FetchPublish(taleId, versionId), RestoreChecks(taleId, versionId, lastExecuted)) == Err(FetchPublish(taleId, versionId).error)
    ensures taleId != Empty && versionId != Empty && lastExecuted.None? ==>
            Guard(FetchPublish(taleId, versionId), RestoreChecks(taleId, versionId, lastExecuted)) ==
            Err(GrainOperation(NullArgument("lastExecuted")))
  {
    if FetchPublish(taleId, versionId).Ok? {
      ValidateThree(TaleIdCheck(taleId), VersionIdCheck(versionId), NullCheck(lastExecuted.Some?, "lastExecuted"));
    }
  }

  /** `BackupFrom(taleId, versionId, lastExecuted)` with the chapter grain told
      which page to resume after (`pageFromBackup`); no prior status is
      required. Chapters 0 .. lastExecuted.Chapter become Success in both maps
      (none when the chapter is missing), the chapter grain of the last
      executed chapter is initialized (`reply` is its answer), and the version
      is Executed with a copy of the pair. */
  function Restore(s: PublishState, taleId: Guid, versionId: Guid, lastExecuted: Option<ChapterPage>,
                   pageFromBackup: Option<int>, reply: Result<()>): (r: Result<Step<PublishState>>)
    ensures r.Ok? <==> taleId != Empty && versionId != Empty && lastExecuted.Some? &&
                       RestoredChapter(lastExecuted.value) >= 0 && reply.Ok?
    ensures FetchPublish(taleId, versionId).Err? ==> r == Err(FetchPublish(taleId, versionId).error)
    ensures taleId != Empty && versionId != Empty && lastExecuted.None? ==>
              r == Err(GrainOperation(NullArgument("lastExecuted")))
    ensures r.Ok? ==>
              var k := lastExecuted.value.chapter.GetOr(-1);
              r.value.state == PublishState(taleId, versionId, Executed, Seed(s.process, k), Seed(s.execute, k), lastExecuted.value) &&
              r.value.calls == [ChapterInitialize(taleId, versionId, RestoredChapter(lastExecuted.value), pageFromBackup)]
  {
    RestoreGuard(taleId, versionId, lastExecuted);
    var g := Guard(FetchPublish(taleId, versionId), RestoreChecks(taleId, versionId, lastExecuted));
    if g.Err? then Err(g.error)
    else
      var last := lastExecuted.value;
      var k := last.chapter.GetOr(-1);
      var chapter := RestoredChapter(last);
      var key := FetchChapter(taleId, versionId, chapter);
      if key.Err? then Err(key.error)
      else if reply.Err? then Err(reply.error)
      else
        Ok(Step(PublishState(taleId, versionId, Executed, Seed(s.process, k), Seed(s.execute, k), last),
                [ChapterInitialize(taleId, versionId, chapter, pageFromBackup)]))
  }

  /** `BackupFrom` as the source writes it: the chapter grain is initialized
      without a backup page, so it starts with no pages at all. */
  function BackupFromAsWritten(s: PublishState, taleId: Guid, versionId: Guid, lastExecuted: Option<ChapterPage>, reply: Result<()>): (r: Result<Step<PublishState>>)
    ensures r.Ok? <==> Restore(s, taleId, versionId, lastExecuted, None, reply).Ok?
    ensures r.Ok? ==> lastExecuted.Some? &&
                      r.value.calls == [ChapterInitialize(taleId, versionId, RestoredChapter(lastExecuted.value), None)]
  {
    Restore(s, taleId, versionId, lastExecuted, None, reply)
  }

  /** `BackupFrom` as intended: the chapter grain is also told the last
      executed page, so it is restored with pages 0 .. that page. */
  function BackupFrom(s: PublishState, taleId: Guid, versionId: Guid, lastExecuted: Option<ChapterPage>, reply: Result<()>): (r: Result<Step<PublishState>>)
    ensures r.Ok? <==> taleId != Empty && versionId != Empty && lastExecuted.Some? &&
                       RestoredChapter(lastExecuted.value) >= 0 && reply.Ok?
    ensures r.Ok? ==> r.value.state.status == Executed && r.value.state.lastExecuted == lastExecuted.value &&
                      Key(r.value.state) == FetchPublish(taleId, versionId)
    ensures r.Ok? ==> r.value.calls == [ChapterInitialize(taleId, versionId, RestoredChapter(lastExecuted.value), lastExecuted.value.page)]
  {
    Restore(s, taleId, versionId, lastExecuted, if lastExecuted.Some? then lastExecuted.value.page else None, reply)
  }

  /** A version restored into a fresh grain up to chapter `c` has chapters
      0 .. c, all executed successfully, so it is contiguous and its chapter
      count is c + 1. */
  lemma RestoredVersionIsContiguous(t: Guid, v: Guid, c: nat, page: Option<int>)
    requires t != Empty && v != Empty
    ensures var r := BackupFrom(NewState(), t, v, Some(ChapterPage(Some(c), page)), Ok(()));
            r.Ok? && Contiguous(r.value.state) && ChapterCount(r.value.state) == c + 1 &&
            forall i :: 0 <= i <= c ==> r.value.state.process[i] == {Success} && r.value.state.execute[i] == {Success}
  {
    var last := ChapterPage(Some(c), page);
    var r := Restore(NewState(), t, v, Some(last), page, Ok(()));
    assert BackupFrom(NewState(), t, v, Some(last), Ok(())) == r;
    assert r.value.state == PublishState(t, v, Executed, Seed(map[], c), Seed(map[], c), last);
    SeedDense(c);
  }

  /** Seeding an empty map up to chapter c gives the dense chapters 0 .. c. */
  lemma SeedDense(c: nat)
    ensures Ordering.Dense(Seed(map[], c).Keys) && |Seed(map[], c)| == c + 1
  {
    SeedSize(c);
    var m := Seed(map[], c);
    forall p ensures p in m.Keys <==> p in Ordering.Range(c + 1) {
    }
    assert m.Keys == Ordering.Range(c + 1);
  }

  /** The restore `BackupTo` asks for gives the new version the same last
      executed page, under the new version's key, in state Executed. */
  lemma BackupToRestoresLastPage(s: PublishState, newVersionId: Guid, outcomes: seq<TaskOutcome>, target: PublishState)
    requires |outcomes| == 6 && BackupTo(s, newVersionId, outcomes).Ok?
    requires RestoredChapter(s.lastExecuted) >= 0
    ensures var call := BackupTo(s, newVersionId, outcomes).value.calls[5];
            call.PublishBackupFrom? &&
            var r := BackupFrom(target, call.taleId, call.versionId, Some(call.lastExecuted), Ok(()));
            r.Ok? && r.value.state.lastExecuted == s.lastExecuted && r.value.state.status == Executed &&
            Key(r.value.state) == FetchPublish(s.taleId, newVersionId)
  {
  }

  // ----------------------------------------------------------------- finding

  /** As written, a version restored up to page `p` of chapter `c` cannot
      execute the next page of that chapter: the chapter grain is initialized
      without its pages, knows only page p + 1 after adding it, and its
      BeginExecute reads page 0 and throws KeyNotFound. */
  lemma BackupFromAsWrittenLosesPages(t: Guid, v: Guid, c: nat, p: nat)
    requires t != Empty && v != Empty
    ensures var r := BackupFromAsWritten(NewState(), t, v, Some(ChapterPage(Some(c), Some(p))), Ok(()));
            r.Ok? && r.value.calls[0].ChapterInitialize? &&
            var call := r.value.calls[0];
            var ch := ChapterGrain.Initialize(ChapterGrain.NewState(), call.taleId, call.versionId, call.chapter, call.pageFromBackup);
            ch.Ok? && ChapterGrain.ContinueChapter(ch.value, p + 1) == Err(MissingKey(0))
  {
    ChapterGrain.EmptyChapterCannotContinue(t, v, c, p);
  }

  /** Corrected, the same continuation starts executing page p + 1. */
  lemma BackupFromResumesNextPage(t: Guid, v: Guid, c: nat, p: nat)
    requires t != Empty && v != Empty
    ensures var r := BackupFrom(NewState(), t, v, Some(ChapterPage(Some(c), Some(p))), Ok(()));
            r.Ok? && r.value.calls[0].ChapterInitialize? &&
            var call := r.value.calls[0];
            var ch := ChapterGrain.Initialize(ChapterGrain.NewState(), call.taleId, call.versionId, call.chapter, call.pageFromBackup);
            ch.Ok? && ChapterGrain.ContinueChapter(ch.value, p + 1).Ok? &&
            ChapterGrain.ContinueChapter(ch.value, p + 1).value.calls == [PageBeginExecute(t, v, c, p + 1)]
  {
    ChapterGrain.RestoredChapterContinues(t, v, c, p);
  }
}
