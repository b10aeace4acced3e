/** The chapter grain: the pages of one chapter of one tale version.

    Its two result maps are keyed by page number. Pages are added one at a
    time. All of them are processed together, but they are executed one at a
    time, lowest page first. The chapter reports to the publish grain once
    every page has reported. */
module ChapterGrain {
  import opened Wrappers
  import opened Guids
  import opened Text
  import opened Outcomes
  import opened Validation
  import opened Controller
  import opened Commands
  import opened Calls
  import opened GrainKeys
  import opened Parallel
  import Ordering
  import PageGrain

  datatype ChapterState = ChapterState(
    taleId: Guid,
    versionId: Guid,
    chapter: int,
    status: GrainStatus,
    process: map<int, Outcome>,
    execute: map<int, Outcome>)

  /** The state of a chapter grain nobody has written to yet. */
  function NewState(): (s: ChapterState)
    ensures s.taleId == Empty && s.status == Idle && |s.process| == 0 && |s.execute| == 0
  {
    ChapterState(Empty, Empty, 0, Idle, map[], map[])
  }

  /** Both maps know the same pages. */
  predicate Valid(s: ChapterState) {
    s.process.Keys == s.execute.Keys
  }

  /** The pages are exactly 0 .. PageCount - 1, as the loops over page numbers assume. */
  predicate Contiguous(s: ChapterState) {
    Valid(s) && Ordering.Dense(s.execute.Keys)
  }

  /** `PageCount()`: the size of the execute map. */
  function PageCount(s: ChapterState): nat {
    |s.execute|
  }

  function Key(s: ChapterState): Result<string> {
    FetchChapter(s.taleId, s.versionId, s.chapter)
  }

  function StateIdChecks(s: ChapterState): seq<Check> {
    [TaleIdCheck(s.taleId), VersionIdCheck(s.versionId), ChapterCheck(s.chapter)]
  }

  /** The id checks pass exactly when the key could be built. */
  lemma StateIdsPass(s: ChapterState)
    ensures Validate(StateIdChecks(s)).Ok? <==> Key(s).Ok?
  {
    ValidateThree(TaleIdCheck(s.taleId), VersionIdCheck(s.versionId), ChapterCheck(s.chapter));
  }

  /** A guard that starts with the state's id checks: the key decides first,
      then only the remaining checks matter. */
  lemma GuardSplits(s: ChapterState, extra: seq<Check>)
    ensures Guard(Key(s), StateIdChecks(s) + extra) == if Key(s).Err? then Err(Key(s).error) else Validate(extra)
  {
    StateIdsPass(s);
    GuardAfterIds(Key(s), StateIdChecks(s), extra);
  }

  // -------------------------------------------------------- last executed page

  /** The loop of `LastExecutedPage` from page `p` down to 0: the first page with
      an execute result of Success, -1 if there is none, and a KeyNotFound
      error at a page number the map does not have. */
  function ScanBack(m: map<int, Outcome>, p: int): (r: Result<int>)
    requires p >= -1
    ensures r.Ok? ==> -1 <= r.value <= p
    ensures r.Ok? && r.value >= 0 ==> r.value in m && m[r.value] == {Success}
    ensures r.Ok? ==> forall q :: r.value < q <= p ==> q in m && m[q] != {Success}
    ensures (forall q :: 0 <= q <= p ==> q in m) ==> r.Ok?
    ensures r.Err? ==> r.error.KeyNotFound? && exists q :: 0 <= q <= p && q !in m
    decreases p + 1
  {
    if p < 0 then Ok(-1)
    else if p !in m then Err(MissingKey(p))
    else if m[p] == {Success} then Ok(p)
    else ScanBack(m, p - 1)
  }

  /** `LastExecutedPage()`: -1 unless the chapter is Executed or Idle; else the
      highest page whose execution succeeded, or -1. */
  function LastExecutedPage(s: ChapterState): (r: Result<int>)
    ensures Key(s).Err? ==> r == Err(Key(s).error)
    ensures Key(s).Ok? && s.status != Executed && s.status != Idle ==> r == Ok(-1)
    ensures r.Ok? && r.value >= 0 ==> r.value in s.execute && s.execute[r.value] == {Success}
  {
    var g := Guard(Key(s), StateIdChecks(s)[..2]);
    if g.Err? then Err(g.error)
    else if s.status != Executed && s.status != Idle then Ok(-1)
    else ScanBack(s.execute, |s.execute| - 1)
  }

  /** On a contiguous chapter at rest, `LastExecutedPage` is the highest page
      whose execution succeeded, and -1 exactly when there is none. */
  lemma LastExecutedIsHighestSuccess(s: ChapterState)
    requires Contiguous(s) && Key(s).Ok? && (s.status == Executed || s.status == Idle)
    ensures LastExecutedPage(s).Ok?
    ensures var p := LastExecutedPage(s).value;
            (p == -1 <==> forall q :: q in s.execute ==> s.execute[q] != {Success}) &&
            (p >= 0 ==> s.execute[p] == {Success} && forall q :: q in s.execute && q > p ==> s.execute[q] != {Success})
  {
    var n := |s.execute|;
    assert s.execute.Keys == Ordering.Range(n);
    assert StateIdChecks(s)[..2] == [TaleIdCheck(s.taleId), VersionIdCheck(s.versionId)];
  }

  // --------------------------------------------------------------- initialize

  /** The checks `Initialize` runs on its arguments. */
  function InitializeChecks(s: ChapterState, taleId: Guid, versionId: Guid, chapter: int): seq<Check> {
    [TaleIdCheck(taleId), VersionIdCheck(versionId), ChapterCheck(chapter), HealthCheck(s.status, [Idle])]
  }

  lemma InitializeGuard(s: ChapterState, taleId: Guid, versionId: Guid, chapter: int)
    ensures Guard(FetchChapter(taleId, versionId, chapter), InitializeChecks(s, taleId, versionId, chapter)).Ok? <==>
            taleId != Empty && versionId != Empty && chapter >= 0 && s.status == Idle
    ensures FetchChapter(taleId, versionId, chapter).Err? ==>
            Guard(FetchChapter(taleId, versionId, chapter), InitializeChecks(s, taleId, versionId, chapter)) ==
            Err(FetchChapter(taleId, versionId, chapter).error)
  {
    if FetchChapter(taleId, versionId, chapter).Ok? {
      ValidateFour(TaleIdCheck(taleId), VersionIdCheck(versionId), ChapterCheck(chapter), HealthCheck(s.status, [Idle]));
      assert !Fails(TaleIdCheck(taleId)) && !Fails(VersionIdCheck(versionId)) && !Fails(ChapterCheck(chapter));
    }
  }

  /** `Initialize(taleId, versionId, chapter, pageFromBackup)`: stores the ids;
      a restored chapter also gets pages 0 .. pageFromBackup, all Success. */
  function Initialize(s: ChapterState, taleId: Guid, versionId: Guid, chapter: int, pageFromBackup: Option<int>): (r: Result<ChapterState>)
    ensures r.Ok? <==> taleId != Empty && versionId != Empty && chapter >= 0 && s.status == Idle
    ensures FetchChapter(taleId, versionId, chapter).Err? ==> r == Err(FetchChapter(taleId, versionId, chapter).error)
    ensures r.Ok? ==> Key(r.value) == FetchChapter(taleId, versionId, chapter) && r.value.status == Idle
    ensures r.Ok? && pageFromBackup.None? ==> r.value.process == s.process && r.value.execute == s.execute
    ensures r.Ok? && pageFromBackup.Some? ==>
              r.value.process == Seed(s.process, pageFromBackup.value) &&
              r.value.execute == Seed(s.execute, pageFromBackup.value)
  {
    InitializeGuard(s, taleId, versionId, chapter);
    var g := Guard(FetchChapter(taleId, versionId, chapter), InitializeChecks(s, taleId, versionId, chapter));
    if g.Err? then Err(g.error)
    else
      var process := if pageFromBackup.Some? then Seed(s.process, pageFromBackup.value) else s.process;
      var execute := if pageFromBackup.Some? then Seed(s.execute, pageFromBackup.value) else s.execute;
      Ok(s.(taleId := taleId, versionId := versionId, chapter := chapter, process := process, execute := execute))
  }

  /** A chapter restored from a backup up to page k resumes after page k: its
      pages are 0 .. k and `LastExecutedPage` answers k. Without a backup page
      it starts empty and answers -1. */
  lemma RestoredChapterResumes(t: Guid, v: Guid, c: nat, backup: Option<int>)
    requires t != Empty && v != Empty
    ensures Initialize(NewState(), t, v, c, backup).Ok?
    ensures var s := Initialize(NewState(), t, v, c, backup).value;
            Contiguous(s) &&
            (backup.Some? && backup.value >= 0 ==> PageCount(s) == backup.value + 1 && LastExecutedPage(s) == Ok(backup.value)) &&
            (backup.None? ==> PageCount(s) == 0 && LastExecutedPage(s) == Ok(-1))
  {
    var s := Initialize(NewState(), t, v, c, backup).value;
    if backup.Some? {
      var k := backup.value;
      var n := if k >= 0 then k + 1 else 0;
      assert s.execute.Keys == Ordering.Range(n);
      Ordering.RangeSize(n);
      if k >= 0 {
        assert s.execute[k] == {Success};
        assert StateIdChecks(s)[..2] == [TaleIdCheck(t), VersionIdCheck(v)];
      }
    } else {
      assert s.execute.Keys == Ordering.Range(0);
      assert StateIdChecks(s)[..2] == [TaleIdCheck(t), VersionIdCheck(v)];
    }
  }

  // ----------------------------------------------------------------- add page

  /** The checks `AddPage` runs after the ids. */
  function AddPageChecks(s: ChapterState, page: int): seq<Check> {
    [HealthCheck(s.status, [Idle, Executed]), PageCheck(page),
     CustomCheck(page in s.process, "Chapter already has page " + IntToString(page))]
  }

  lemma AddPageChecksPass(s: ChapterState, page: int)
    ensures Validate(AddPageChecks(s, page)).Ok? <==> (s.status == Idle || s.status == Executed) && page >= 0 && page !in s.process
  {
    ValidateThree(HealthCheck(s.status, [Idle, Executed]), PageCheck(page),
                  CustomCheck(page in s.process, "Chapter already has page " + IntToString(page)));
  }

  /** The guard of `AddPage` passes exactly for a chapter at rest and a page
      number it does not know. */
  lemma AddPageGuard(s: ChapterState, page: int)
    ensures Guard(Key(s), StateIdChecks(s) + AddPageChecks(s, page)).Ok? <==>
            Key(s).Ok? && (s.status == Idle || s.status == Executed) && page >= 0 && page !in s.process
  {
    GuardSplits(s, AddPageChecks(s, page));
    AddPageChecksPass(s, page);
  }

  /** `AddPage(page)`: `pg` is the state of the page grain for this page. The
      chapter checks the page's status and asks it to initialize; the result
      says whether the page was added. */
  function AddPage(s: ChapterState, page: int, pg: PageGrain.PageState): (r: Result<(Step<ChapterState>, bool)>)
    ensures Key(s).Err? ==> r == Err(Key(s).error)
    ensures r.Ok? ==> page >= 0 && (s.status == Idle || s.status == Executed) && page !in s.process
    ensures r.Ok? && r.value.1 ==>
              pg.status == Idle &&
              r.value.0.state == s.(process := s.process[page := NoResult], execute := s.execute[page := NoResult]) &&
              r.value.0.calls == [PageInitialize(s.taleId, s.versionId, s.chapter, page)]
    ensures r.Ok? && !r.value.1 ==> r.value.0 == Step(s, [])
  {
    AddPageGuard(s, page);
    var g := Guard(Key(s), StateIdChecks(s) + AddPageChecks(s, page));
    if g.Err? then Err(g.error)
    else
      // The source goes on to look the page up in the process map when the
      // execute map lacks it; the guard has just thrown for every page the
      // process map knows, so that lookup never finds one.
      if page in s.execute && IsFaultResult(s.execute[page]) then
        Err(GrainOperation("Chapter grain already has page in fault execute state"))
      else if pg.status != Idle && pg.status != Executed then
        Err(GrainOperation("Page grain exists and is in a fault state"))
      else if page in s.execute then Ok((Step(s, []), false))
      else
        match PageGrain.Initialize(pg, s.taleId, s.versionId, s.chapter, page)
        case Err(e) => Err(e)
        case Ok(_) =>
          Ok((Step(s.(process := s.process[page := NoResult], execute := s.execute[page := NoResult]),
                   [PageInitialize(s.taleId, s.versionId, s.chapter, page)]), true))
  }

  /** In a chapter whose maps agree, `AddPage` either adds the page or throws:
      the "page already exists" answer is unreachable, because the guard has
      already thrown for a known page. */
  lemma AddPageAddsOrThrows(s: ChapterState, page: int, pg: PageGrain.PageState)
    requires Valid(s) && AddPage(s, page, pg).Ok?
    ensures AddPage(s, page, pg).value.1
  {
  }

  /** A page grain that has already executed passes the chapter's own status
      check but is refused by the page's Initialize. */
  lemma ExecutedPageIsRefused(s: ChapterState, page: int, pg: PageGrain.PageState)
    requires Valid(s) && Key(s).Ok? && (s.status == Idle || s.status == Executed)
    requires page >= 0 && page !in s.process && pg.status == Executed
    ensures AddPage(s, page, pg) == Err(GrainOperation("is not in healthy state"))
  {
    AddPageGuard(s, page);
  }

  /** Adding the next page keeps the pages contiguous. */
  lemma AddNextPageKeepsContiguous(s: ChapterState, pg: PageGrain.PageState)
    requires Contiguous(s)
    ensures var r := AddPage(s, PageCount(s), pg);
            r.Ok? ==> Contiguous(r.value.0.state) && PageCount(r.value.0.state) == PageCount(s) + 1
  {
    var r := AddPage(s, PageCount(s), pg);
    if r.Ok? {
      AddPageAddsOrThrows(s, PageCount(s), pg);
      RecordNextPageKeepsContiguous(s, r.value.0.state);
    }
  }

  /** Recording page PageCount in both maps keeps the pages contiguous. */
  lemma RecordNextPageKeepsContiguous(s: ChapterState, t: ChapterState)
    requires Contiguous(s)
    requires t == s.(process := s.process[PageCount(s) := NoResult], execute := s.execute[PageCount(s) := NoResult])
    ensures Contiguous(t) && PageCount(t) == PageCount(s) + 1
  {
    var n := PageCount(s);
    var keys := Ordering.Range(n + 1);
    assert s.execute.Keys == Ordering.Range(n);
    assert t.execute.Keys == keys && t.process.Keys == keys;
    Ordering.RangeSize(n + 1);
    assert |t.execute.Keys| == n + 1;
  }

  // ------------------------------------------------------------------ process

  /** The checks `BeginProcess` runs after the ids. */
  function BeginProcessChecks(s: ChapterState, chapter: int, page: int, commands: Option<seq<PageCommand>>): seq<Check> {
    [ChapterCheck(chapter), PageCheck(page), HealthCheck(s.status, [Idle, Executed]), NullCheck(commands.Some?, "pageCommands")]
  }

  lemma BeginProcessGuard(s: ChapterState, chapter: int, page: int, commands: Option<seq<PageCommand>>)
    ensures Guard(Key(s), StateIdChecks(s) + BeginProcessChecks(s, chapter, page, commands)).Ok? <==>
            Key(s).Ok? && chapter >= 0 && page >= 0 && (s.status == Idle || s.status == Executed) && commands.Some?
  {
    GuardSplits(s, BeginProcessChecks(s, chapter, page, commands));
    BeginProcessChecksPass(s, chapter, page, commands);
  }

  lemma BeginProcessChecksPass(s: ChapterState, chapter: int, page: int, commands: Option<seq<PageCommand>>)
    ensures Validate(BeginProcessChecks(s, chapter, page, commands)).Ok? <==>
            chapter >= 0 && page >= 0 && (s.status == Idle || s.status == Executed) && commands.Some?
  {
    ValidateFour(ChapterCheck(chapter), PageCheck(page), HealthCheck(s.status, [Idle, Executed]),
                 NullCheck(commands.Some?, "pageCommands"));
  }

  /** `BeginProcess(chapter, page, pageCommands)`: moves to Processing and starts
      the page. `reply` is the outcome of the page's BeginProcess. */
  function BeginProcess(s: ChapterState, chapter: int, page: int, commands: Option<seq<PageCommand>>, reply: Result<()>): (r: Result<Step<ChapterState>>)
    ensures r.Ok? <==> Key(s).Ok? && chapter >= 0 && page >= 0 && (s.status == Idle || s.status == Executed) &&
                       commands.Some? && reply.Ok?
    ensures Key(s).Err? ==> r == Err(Key(s).error)
    ensures r.Ok? ==> r.value.state == s.(status := Processing)
    ensures r.Ok? ==> (r.value.calls == [PageBeginProcess(s.taleId, s.versionId, chapter, page, commands.value)])
  {
    BeginProcessGuard(s, chapter, page, commands);
    var g := Guard(Key(s), StateIdChecks(s) + BeginProcessChecks(s, chapter, page, commands));
    if g.Err? then Err(g.error)
    else if reply.Err? then Err(reply.error)
    else Ok(Step(s.(status := Processing), [PageBeginProcess(s.taleId, s.versionId, chapter, page, commands.value)]))
  }

  /** The report to the publish grain for page `page`. */
  function ReportToPublish(s: ChapterState, execute: bool, page: int, result: Outcome): Call {
    if execute then PublishExecuteComplete(s.taleId, s.versionId, s.chapter, page, result)
    else PublishProcessComplete(s.taleId, s.versionId, s.chapter, page, result)
  }

  /** Saving after a completion; the publish grain's call is awaited inside the save. */
  function Save(s: ChapterState, c: Completion, execute: bool, page: int, reply: Result<()>): (r: Result<Step<ChapterState>>)
    ensures c.report.None? ==> r == Ok(Step(s.(status := c.status), []))
    ensures c.report.Some? && reply.Err? ==> r == Err(reply.error)
    ensures c.report.Some? && reply.Ok? ==>
              r == Ok(Step(s.(status := c.status), [ReportToPublish(s, execute, page, c.report.value)]))
  {
    if c.report.None? then Ok(Step(s.(status := c.status), []))
    else if reply.Err? then Err(reply.error)
    else Ok(Step(s.(status := c.status), [ReportToPublish(s, execute, page, c.report.value)]))
  }

  /** `OnProcessComplete(callerPage, result)`. The unknown-page check comes after
      the skip rules, so a dropped report is never checked. */
  function OnProcessComplete(s: ChapterState, callerPage: int, result: Outcome, reply: Result<()>): (r: Result<Step<ChapterState>>)
    ensures Key(s).Err? ==> r == Err(Key(s).error)
    ensures Key(s).Ok? && callerPage < 0 ==> r == Err(GrainOperation("got negative page id"))
    ensures Key(s).Ok? && callerPage >= 0 && Skips(result, s.status, Processing) ==> r == Ok(Step(s, []))
    ensures Key(s).Ok? && callerPage >= 0 && !Skips(result, s.status, Processing) && callerPage !in s.process ==>
              r == Err(GrainOperation("Chapter grain does not recognize the page"))
    ensures r.Ok? && !Skips(result, s.status, Processing) ==>
              callerPage in s.process &&
              r.value.state.process == s.process[callerPage := result] && r.value.state.execute == s.execute
    ensures r.Ok? ==> |r.value.calls| <= 1
  {
    GuardSplits(s, [PageCheck(callerPage)]);
    ValidateOne(PageCheck(callerPage));
    var g := Guard(Key(s), StateIdChecks(s) + [PageCheck(callerPage)]);
    if g.Err? then Err(g.error)
    else if Skips(result, s.status, Processing) then Ok(Step(s, []))
    else if callerPage !in s.process then Err(GrainOperation("Chapter grain does not recognize the page"))
    else
      var m := s.process[callerPage := result];
      Save(s.(process := m), AfterRecord(m, s.status, Processed), false, callerPage, reply)
  }

  // ------------------------------------------------------------------ execute

  /** `BeginExecute()`: moves to Executing and starts the lowest page that has
      not executed; `reply` is the outcome of that page's BeginExecute. When
      every page has already executed nothing is started. */
  function BeginExecute(s: ChapterState, reply: Result<()>): (r: Result<Step<ChapterState>>)
    ensures Key(s).Err? ==> r == Err(Key(s).error)
    ensures r.Ok? ==> s.status == Processed && r.value.state == s.(status := Executing) && |r.value.calls| <= 1
    ensures r.Ok? && |r.value.calls| == 1 ==>
              r.value.calls[0].PageBeginExecute? &&
              var q := r.value.calls[0].page;
              r.value.calls[0] == PageBeginExecute(s.taleId, s.versionId, s.chapter, q) &&
              q in s.execute && s.execute[q] == NoResult &&
              forall i :: 0 <= i < q ==> i in s.execute && s.execute[i] == {Success}
  {
    GuardSplits(s, [HealthCheck(s.status, [Processed])]);
    ValidateOne(HealthCheck(s.status, [Processed]));
    var g := Guard(Key(s), StateIdChecks(s) + [HealthCheck(s.status, [Processed])]);
    if g.Err? then Err(g.error)
    else
      match FirstToExecute(s.process, s.execute, 0, PageCount(s), "Page within chapter")
      case Err(e) => Err(e)
      case Ok(None) => Ok(Step(s.(status := Executing), []))
      case Ok(Some(q)) =>
        if reply.Err? then Err(reply.error)
        else Ok(Step(s.(status := Executing), [PageBeginExecute(s.taleId, s.versionId, s.chapter, q)]))
  }

  /** A contiguous Processed chapter whose pages all processed successfully
      and have no execute failure always starts: the lowest unexecuted page if
      there is one; otherwise nothing, and then no page will ever report and
      the chapter stays Executing. */
  lemma ExecuteStartsLowestPending(s: ChapterState)
    requires Contiguous(s) && Key(s).Ok? && s.status == Processed
    requires forall p :: p in s.process ==> s.process[p] == {Success}
    requires forall p :: p in s.execute ==> s.execute[p] == {Success} || s.execute[p] == NoResult
    ensures BeginExecute(s, Ok(())).Ok?
    ensures (exists p :: p in s.execute && s.execute[p] == NoResult) <==> |BeginExecute(s, Ok(())).value.calls| == 1
  {
    var n := PageCount(s);
    assert s.execute.Keys == Ordering.Range(n);
    assert forall i :: 0 <= i < n ==> i in s.process && i in s.execute && s.process[i] == {Success} &&
                                      (s.execute[i] == {Success} || s.execute[i] == NoResult);
    var first := FirstToExecute(s.process, s.execute, 0, n, "Page within chapter");
    assert first.Ok?;
    BeginExecuteFollowsLoop(s);
    if first.value.None? {
      assert forall p :: p in s.execute ==> s.execute[p] == {Success};
    }
  }

  /** The checks `OnExecuteComplete` runs after the ids. */
  function ExecuteCompleteChecks(s: ChapterState, callerPage: int): seq<Check> {
    [PageCheck(callerPage), CustomCheck(callerPage !in s.execute, "Chapter grain does not have the page")]
  }

  lemma ExecuteCompleteChecksPass(s: ChapterState, callerPage: int)
    ensures Validate(ExecuteCompleteChecks(s, callerPage)).Ok? <==> callerPage >= 0 && callerPage in s.execute
    ensures callerPage >= 0 && callerPage !in s.execute ==>
            Validate(ExecuteCompleteChecks(s, callerPage)) == Err(GrainOperation("Chapter grain does not have the page"))
  {
    var checks := ExecuteCompleteChecks(s, callerPage);
    ValidateTwo(checks[0], checks[1]);
    assert checks == [checks[0], checks[1]];
  }

  lemma ExecuteCompleteGuard(s: ChapterState, callerPage: int)
    ensures Key(s).Err? ==> Guard(Key(s), StateIdChecks(s) + ExecuteCompleteChecks(s, callerPage)) == Err(Key(s).error)
    ensures Guard(Key(s), StateIdChecks(s) + ExecuteCompleteChecks(s, callerPage)).Ok? <==>
            Key(s).Ok? && callerPage >= 0 && callerPage in s.execute
    ensures Key(s).Ok? && callerPage >= 0 && callerPage !in s.execute ==>
            Guard(Key(s), StateIdChecks(s) + ExecuteCompleteChecks(s, callerPage)) == Err(GrainOperation("Chapter grain does not have the page"))
  {
    GuardSplits(s, ExecuteCompleteChecks(s, callerPage));
    ExecuteCompleteChecksPass(s, callerPage);
  }

  /** `OnExecuteComplete(callerPage, result)`. Here the unknown-page check is
      part of the guard, before the skip rules. */
  function OnExecuteComplete(s: ChapterState, callerPage: int, result: Outcome, reply: Result<()>): (r: Result<Step<ChapterState>>)
    ensures Key(s).Err? ==> r == Err(Key(s).error)
    ensures Key(s).Ok? && callerPage >= 0 && callerPage !in s.execute ==>
              r == Err(GrainOperation("Chapter grain does not have the page"))
    ensures r.Ok? ==> callerPage in s.execute
    ensures r.Ok? && Skips(result, s.status, Executing) ==> r.value == Step(s, [])
    ensures r.Ok? && !Skips(result, s.status, Executing) ==>
              r.value.state.execute == s.execute[callerPage := result] && r.value.state.process == s.process
    ensures r.Ok? ==> |r.value.calls| <= 1
  {
    ExecuteCompleteGuard(s, callerPage);
    var g := Guard(Key(s), StateIdChecks(s) + ExecuteCompleteChecks(s, callerPage));
    if g.Err? then Err(g.error)
    else
      if Skips(result, s.status, Executing) then Ok(Step(s, []))
      else
        var m := s.execute[callerPage := result];
        Save(s.(execute := m), AfterRecord(m, s.status, Executed), true, callerPage, reply)
  }

  /** Once the chapter has recorded a page's result it reports exactly when no
      page's result is missing any more, with the fan-in's verdict; a page
      that is still unexecuted keeps the chapter waiting. */
  lemma ReportsOnceAllPagesReported(s: ChapterState, page: int, result: Outcome)
    requires !IsStopped(s.status)
    requires OnExecuteComplete(s, page, result, Ok(())).Ok? && !Skips(result, s.status, Executing)
    ensures var r := OnExecuteComplete(s, page, result, Ok(())).value;
            (|r.calls| == 1 <==> AllReported(r.state.execute)) &&
            (|r.calls| == 1 ==>
               r.calls[0] == PublishExecuteComplete(s.taleId, s.versionId, s.chapter, page, FanIn(r.state.execute, Executed).result))
  {
    var m := s.execute[page := result];
    ReportsWhenAllReported(m, s.status, Executed);
  }

  // --------------------------------------------------------------------- stop

  /** The pages in the order their stops are started. */
  function Pages(s: ChapterState): (r: seq<int>)
    ensures |r| == |s.process| && forall p :: p in r <==> p in s.process
  {
    Ordering.Ascending(s.process.Keys)
  }

  /** `Stop()`: stops every page in parallel; `stops[i]` is how the stop of the
      i-th page (in ascending order) ended. Any failure throws; otherwise the
      chapter is Cancelled. */
  function Stop(s: ChapterState, stops: seq<TaskOutcome>): (r: Result<Step<ChapterState>>)
    requires |stops| == |s.process|
    ensures Key(s).Err? ==> r == Err(Key(s).error)
    ensures Key(s).Ok? ==> (r.Ok? <==> forall i :: 0 <= i < |stops| ==> stops[i].None?)
    ensures Key(s).Ok? && r.Err? ==>
              exists i :: FirstThrown(stops, i) &&
                          r.error == GrainOperation("Stopping tale version " + D(s.versionId) + " failed: " + stops[i].value.Text())
    ensures r.Ok? ==> r.value.state == s.(status := GrainStatus.Cancelled)
    ensures r.Ok? ==> |r.value.calls| == |s.process| &&
                      forall i :: 0 <= i < |r.value.calls| ==>
                        r.value.calls[i].PageStop? && r.value.calls[i].page in s.process &&
                        r.value.calls[i] == PageStop(s.taleId, s.versionId, s.chapter, r.value.calls[i].page)
  {
    StateIdsPass(s);
    var g := Guard(Key(s), StateIdChecks(s));
    if g.Err? then Err(g.error)
    else
      var done := FailIfAny("Stopping tale version " + D(s.versionId) + " failed: ", stops);
      if done.Err? then Err(done.error)
      else Ok(Step(s.(status := GrainStatus.Cancelled), StopCalls(s)))
  }

  /** One stop call per page, in ascending page order. */
  function StopCalls(s: ChapterState): (r: seq<Call>)
    ensures |r| == |s.process|
    ensures forall i :: 0 <= i < |r| ==>
              r[i].PageStop? && r[i].page in s.process && r[i] == PageStop(s.taleId, s.versionId, s.chapter, r[i].page)
  {
    var pages := Pages(s);
    seq(|pages|, i requires 0 <= i < |pages| => PageStop(s.taleId, s.versionId, s.chapter, pages[i]))
  }

  // ------------------------------------------------- going on after a restore

  /** A chapter at rest accepts a page it does not know from a fresh page grain. */
  lemma AddPageToRestingChapter(ch: ChapterState, page: int)
    requires Key(ch).Ok? && (ch.status == Idle || ch.status == Executed)
    requires page >= 0 && page !in ch.process && page !in ch.execute
    ensures AddPage(ch, page, PageGrain.NewState()) ==
            Ok((Step(ch.(process := ch.process[page := NoResult], execute := ch.execute[page := NoResult]),
                     [PageInitialize(ch.taleId, ch.versionId, ch.chapter, page)]), true))
  {
    AddPageGuard(ch, page);
    assert PageGrain.Initialize(PageGrain.NewState(), ch.taleId, ch.versionId, ch.chapter, page).Ok?;
  }

  /** The last page of a processing chapter to report success takes the
      chapter to Processed and the Success goes up to the publish grain. */
  lemma LastPageProcessed(ch: ChapterState, page: int)
    requires Key(ch).Ok? && ch.status == Processing && page >= 0 && page in ch.process
    requires forall q :: q in ch.process && q != page ==> ch.process[q] == {Success}
    ensures OnProcessComplete(ch, page, {Success}, Ok(())) ==
            Ok(Step(ch.(process := ch.process[page := {Success}], status := Processed),
                    [PublishProcessComplete(ch.taleId, ch.versionId, ch.chapter, page, {Success})]))
  {
    var m := ch.process[page := {Success}];
    assert forall q :: q in m ==> m[q] == {Success};
    FanInPrecedence(m, Processed);
  }

  /** The tale goes on in a chapter: page `page` is added (to a fresh page
      grain), processed successfully, and the chapter is asked to execute. */
  function ContinueChapter(ch: ChapterState, page: int): Result<Step<ChapterState>> {
    var added :- AddPage(ch, page, PageGrain.NewState());
    ProcessThenExecute(added.0.state, page)
  }

  function ProcessThenExecute(ch: ChapterState, page: int): Result<Step<ChapterState>> {
    var started :- BeginProcess(ch, ch.chapter, page, Some([]), Ok(()));
    ExecuteAfterProcessed(started.state, page)
  }

  function ExecuteAfterProcessed(ch: ChapterState, page: int): Result<Step<ChapterState>> {
    var processed :- OnProcessComplete(ch, page, {Success}, Ok(()));
    BeginExecute(processed.state, Ok(()))
  }

  lemma ContinueAdds(ch: ChapterState, a: ChapterState, page: int)
    requires Key(ch).Ok? && (ch.status == Idle || ch.status == Executed)
    requires page >= 0 && page !in ch.process && page !in ch.execute
    requires a == ch.(process := ch.process[page := NoResult], execute := ch.execute[page := NoResult])
    ensures ContinueChapter(ch, page) == ProcessThenExecute(a, page)
  {
    AddPageToRestingChapter(ch, page);
  }

  lemma ContinueStartsProcessing(a: ChapterState, b: ChapterState, page: int)
    requires Key(a).Ok? && (a.status == Idle || a.status == Executed) && page >= 0
    requires b == a.(status := Processing)
    ensures ProcessThenExecute(a, page) == ExecuteAfterProcessed(b, page)
  {
    assert BeginProcess(a, a.chapter, page, Some([]), Ok(())) ==
           Ok(Step(b, [PageBeginProcess(a.taleId, a.versionId, a.chapter, page, [])]));
  }

  lemma ContinueProcesses(b: ChapterState, d: ChapterState, page: int)
    requires Key(b).Ok? && b.status == Processing && page >= 0 && page in b.process
    requires forall q :: q in b.process && q != page ==> b.process[q] == {Success}
    requires d == b.(process := b.process[page := {Success}], status := Processed)
    ensures ExecuteAfterProcessed(b, page) == BeginExecute(d, Ok(()))
  {
    LastPageProcessed(b, page);
  }

  /** The states a chapter passes through while going on with `page`. */
  lemma ContinueStates(ch: ChapterState, page: int, a: ChapterState, b: ChapterState, d: ChapterState)
    requires forall q :: q in ch.process ==> ch.process[q] == {Success}
    requires a == ch.(process := ch.process[page := NoResult], execute := ch.execute[page := NoResult])
    requires b == a.(status := Processing)
    requires d == ch.(process := ch.process[page := {Success}], execute := ch.execute[page := NoResult], status := Processed)
    ensures page in b.process && forall q :: q in b.process && q != page ==> b.process[q] == {Success}
    ensures d == b.(process := b.process[page := {Success}], status := Processed)
  {
    assert b.process[page := {Success}] == ch.process[page := {Success}];
  }

  /** Going on in a chapter at rest whose pages all processed successfully
      comes down to `BeginExecute` with the new page processed and not executed. */
  lemma ContinueChapterReachesExecute(ch: ChapterState, page: int)
    requires Key(ch).Ok? && (ch.status == Idle || ch.status == Executed)
    requires page >= 0 && page !in ch.process && page !in ch.execute
    requires forall q :: q in ch.process ==> ch.process[q] == {Success}
    ensures ContinueChapter(ch, page) ==
            BeginExecute(ch.(process := ch.process[page := {Success}], execute := ch.execute[page := NoResult], status := Processed), Ok(()))
  {
    var a := ch.(process := ch.process[page := NoResult], execute := ch.execute[page := NoResult]);
    var b := a.(status := Processing);
    var d := ch.(process := ch.process[page := {Success}], execute := ch.execute[page := NoResult], status := Processed);
    ContinueStates(ch, page, a, b, d);
    ContinueAdds(ch, a, page);
    ContinueStartsProcessing(a, b, page);
    ContinueProcesses(b, d, page);
  }

  /** `BeginExecute` of a Processed chapter does what its loop finds. */
  lemma BeginExecuteFollowsLoop(d: ChapterState)
    requires Key(d).Ok? && d.status == Processed
    ensures var first := FirstToExecute(d.process, d.execute, 0, PageCount(d), "Page within chapter");
            (first.Err? ==> BeginExecute(d, Ok(())) == Err(first.error)) &&
            (first.Ok? && first.value.None? ==> BeginExecute(d, Ok(())) == Ok(Step(d.(status := Executing), []))) &&
            (first.Ok? && first.value.Some? ==>
               BeginExecute(d, Ok(())) == Ok(Step(d.(status := Executing), [PageBeginExecute(d.taleId, d.versionId, d.chapter, first.value.value)])))
  {
    GuardSplits(d, [HealthCheck(d.status, [Processed])]);
    ValidateOne(HealthCheck(d.status, [Processed]));
  }

  /** The state a chapter restored up to page p reaches once page p + 1 has
      been added and processed. */
  lemma RestoredThenProcessed(ch: ChapterState, d: ChapterState, p: nat)
    requires ch.process == Seed(map[], p) && ch.execute == Seed(map[], p)
    requires d == ch.(process := ch.process[p + 1 := {Success}], execute := ch.execute[p + 1 := NoResult], status := Processed)
    ensures PageCount(d) == p + 2
    ensures forall i :: 0 <= i < p + 1 ==> i in d.process && i in d.execute && d.process[i] == {Success} && d.execute[i] == {Success}
    ensures p + 1 in d.process && p + 1 in d.execute && d.process[p + 1] == {Success} && d.execute[p + 1] == NoResult
  {
    SeedSize(p);
    assert p + 1 !in ch.execute;
  }

  /** A chapter that knew no page and was given page `page` > 0 has one
      page, and page 0 is not among them. */
  lemma OnlyPageProcessed(ch: ChapterState, d: ChapterState, page: int)
    requires ch.process == map[] && ch.execute == map[] && page > 0
    requires d == ch.(process := ch.process[page := {Success}], execute := ch.execute[page := NoResult], status := Processed)
    ensures PageCount(d) == 1 && 0 !in d.process
  {
    assert d.execute.Keys == {page};
  }

  /** A chapter initialized without a backup page and then given page p + 1
      knows only that page, so its BeginExecute reads page 0 and throws. */
  lemma EmptyChapterCannotContinue(t: Guid, v: Guid, c: nat, p: nat)
    requires t != Empty && v != Empty
    ensures Initialize(NewState(), t, v, c, None).Ok?
    ensures ContinueChapter(Initialize(NewState(), t, v, c, None).value, p + 1) == Err(MissingKey(0))
  {
    var ch := Initialize(NewState(), t, v, c, None).value;
    ContinueChapterReachesExecute(ch, p + 1);
    var d := ch.(process := ch.process[p + 1 := {Success}], execute := ch.execute[p + 1 := NoResult], status := Processed);
    OnlyPageProcessed(ch, d, p + 1);
    BeginExecuteFollowsLoop(d);
  }

  /** The chapter a restore up to page p initializes. */
  lemma RestoredChapterState(t: Guid, v: Guid, c: nat, p: nat)
    requires t != Empty && v != Empty
    ensures Initialize(NewState(), t, v, c, Some(p)) == Ok(ChapterState(t, v, c, Idle, Seed(map[], p), Seed(map[], p)))
  {
  }

  /** A chapter restored up to page p and then given page p + 1 starts
      executing page p + 1. */
  lemma RestoredChapterContinues(t: Guid, v: Guid, c: nat, p: nat)
    requires t != Empty && v != Empty
    ensures Initialize(NewState(), t, v, c, Some(p)).Ok?
    ensures var r := ContinueChapter(Initialize(NewState(), t, v, c, Some(p)).value, p + 1);
            r.Ok? && r.value.calls == [PageBeginExecute(t, v, c, p + 1)]
  {
    RestoredChapterState(t, v, c, p);
    var ch := ChapterState(t, v, c, Idle, Seed(map[], p), Seed(map[], p));
    assert p + 1 !in ch.process && p + 1 !in ch.execute;
    assert forall q :: q in ch.process ==> ch.process[q] == {Success};
    ContinueChapterReachesExecute(ch, p + 1);
    var d := ch.(process := ch.process[p + 1 := {Success}], execute := ch.execute[p + 1 := NoResult], status := Processed);
    RestoredThenProcessed(ch, d, p);
    FirstPendingStarts(d.process, d.execute, 0, p + 2, p + 1, "Page within chapter");
    BeginExecuteFollowsLoop(d);
  }

  /** A fresh chapter must be initialized first: its key fails on the empty tale id. */
  lemma FreshChapterRejects(page: int, pg: PageGrain.PageState, result: Outcome, reply: Result<()>)
    ensures var e := IdError("IChapterGrain", "Tale id is empty guid");
            AddPage(NewState(), page, pg) == Err(e) &&
            OnProcessComplete(NewState(), page, result, reply) == Err(e) &&
            OnExecuteComplete(NewState(), page, result, reply) == Err(e) &&
            BeginExecute(NewState(), reply) == Err(e) &&
            LastExecutedPage(NewState()) == Err(e)
  {
  }
}
