/** The page grain: one page of one chapter of one tale version.

    It fans a page's work out to the four entity services and waits for each
    of them to report, first for processing and then for execution. The two
    result maps are keyed by service name and always hold the same four keys.
    A page reports to its chapter once all four services have reported. */
module PageGrain {
  import opened Wrappers
  import opened Guids
  import opened Outcomes
  import opened Validation
  import opened Controller
  import opened Services
  import opened Commands
  import opened Calls
  import opened GrainKeys
  import opened Topology

  datatype PageState = PageState(
    taleId: Guid,
    versionId: Guid,
    chapter: int,
    page: int,
    status: GrainStatus,
    process: map<string, Outcome>,
    execute: map<string, Outcome>)

  /** The four entity services a page waits for, by `ServiceId` name. */
  const ServiceKeys: set<string> :=
    {ServiceName(ActorSvc), ServiceName(AnecdoteSvc), ServiceName(PersonSvc), ServiceName(WorldSvc)}

  const UnknownCaller: string := "Page grain does not recognize the caller"

  /** Both result maps are keyed by exactly the four services. */
  predicate Valid(s: PageState) {
    s.process.Keys == ServiceKeys && s.execute.Keys == ServiceKeys
  }

  /** A map that has no result from any of the four services yet. */
  function Pending(): (m: map<string, Outcome>)
    ensures m.Keys == ServiceKeys && forall k :: k in m ==> m[k] == NoResult
  {
    map k | k in ServiceKeys :: NoResult
  }

  /** The state of a page grain nobody has written to yet. */
  function NewState(): (s: PageState)
    ensures Valid(s) && s.status == Idle
    ensures s.taleId == Empty && s.versionId == Empty && s.chapter < 0 && s.page < 0
  {
    PageState(Empty, Empty, -1, -1, Idle, Pending(), Pending())
  }

  /** The grain's own key, built from the ids in its state. */
  function Key(s: PageState): Result<string> {
    FetchPage(s.taleId, s.versionId, s.chapter, s.page)
  }

  /** The id checks at the head of the chains that use the state's ids. */
  function StateIdChecks(s: PageState): seq<Check> {
    [TaleIdCheck(s.taleId), VersionIdCheck(s.versionId), ChapterCheck(s.chapter), PageCheck(s.page)]
  }

  /** `Initialize(taleId, versionId, chapter, page)`: stores the ids; the page must be Idle. */
  function Initialize(s: PageState, taleId: Guid, versionId: Guid, chapter: int, page: int): (r: Result<PageState>)
    ensures r.Ok? <==> taleId != Empty && versionId != Empty && chapter >= 0 && page >= 0 && s.status == Idle
    ensures FetchPage(taleId, versionId, chapter, page).Err? ==> r == Err(FetchPage(taleId, versionId, chapter, page).error)
    ensures FetchPage(taleId, versionId, chapter, page).Ok? && r.Err? ==> r.error == GrainOperation("is not in healthy state")
    ensures r.Ok? ==> Key(r.value) == FetchPage(taleId, versionId, chapter, page)
    ensures r.Ok? ==> r.value.status == Idle && r.value.process == s.process && r.value.execute == s.execute
  {
    var checks := [TaleIdCheck(taleId), VersionIdCheck(versionId), ChapterCheck(chapter), PageCheck(page),
                   HealthCheck(s.status, [Idle])];
    InitializeGuard(s, taleId, versionId, chapter, page);
    var g := Guard(FetchPage(taleId, versionId, chapter, page), checks);
    if g.Err? then Err(g.error)
    else Ok(s.(taleId := taleId, versionId := versionId, chapter := chapter, page := page))
  }

  /** The guard of `Initialize`: once the key builds, only the health check can fail. */
  lemma InitializeGuard(s: PageState, taleId: Guid, versionId: Guid, chapter: int, page: int)
    ensures var checks := [TaleIdCheck(taleId), VersionIdCheck(versionId), ChapterCheck(chapter), PageCheck(page),
                           HealthCheck(s.status, [Idle])];
            FetchPage(taleId, versionId, chapter, page).Ok? ==>
              (Guard(FetchPage(taleId, versionId, chapter, page), checks).Ok? <==> s.status == Idle) &&
              (s.status != Idle ==> Guard(FetchPage(taleId, versionId, chapter, page), checks) == Err(GrainOperation("is not in healthy state")))
  {
    var checks := [TaleIdCheck(taleId), VersionIdCheck(versionId), ChapterCheck(chapter), PageCheck(page),
                   HealthCheck(s.status, [Idle])];
    if FetchPage(taleId, versionId, chapter, page).Ok? {
      if s.status == Idle {
        assert forall c :: c in checks ==> !Fails(c);
      } else {
        FirstFailureThrows(checks, 4);
      }
    }
  }

  /** `BeginProcess(chapter, page, pageCommands)`: publishes one process request
      on the work exchange for every service and moves to Processing. The
      request carries the chapter and page passed in, not the stored ones. */
  function BeginProcess(s: PageState, chapter: int, page: int, commands: Option<seq<PageCommand>>): (r: Result<Step<PageState>>)
    ensures r.Ok? <==> Key(s).Ok? && chapter >= 0 && page >= 0 && commands.Some? && s.status == Idle
    ensures Key(s).Err? ==> r == Err(Key(s).error)
    ensures r.Ok? ==> r.value.state == s.(status := Processing)
    ensures r.Ok? ==> (r.value.calls ==
              [PublishWork(WorkExchange, "*", ProcessPageRequest(s.taleId, s.versionId, chapter, page, commands.value))])
  {
    BeginProcessGuard(s, chapter, page, commands);
    var g := Guard(Key(s), BeginProcessChecks(s, chapter, page, commands));
    if g.Err? then Err(g.error)
    else
      Ok(Step(s.(status := Processing),
              [PublishWork(WorkExchange, "*", ProcessPageRequest(s.taleId, s.versionId, chapter, page, commands.value))]))
  }

  /** The chain of `BeginProcess`: the stored ids, then the chapter and page
      passed in, the commands and the status. */
  function BeginProcessChecks(s: PageState, chapter: int, page: int, commands: Option<seq<PageCommand>>): seq<Check> {
    [TaleIdCheck(s.taleId), VersionIdCheck(s.versionId), ChapterCheck(chapter), PageCheck(page),
     NullCheck(commands.Some?, "pageCommands"), HealthCheck(s.status, [Idle])]
  }

  lemma BeginProcessGuard(s: PageState, chapter: int, page: int, commands: Option<seq<PageCommand>>)
    ensures Guard(Key(s), BeginProcessChecks(s, chapter, page, commands)).Ok? <==>
            Key(s).Ok? && chapter >= 0 && page >= 0 && commands.Some? && s.status == Idle
  {
    var checks := BeginProcessChecks(s, chapter, page, commands);
    if Key(s).Ok? {
      if chapter >= 0 && page >= 0 && commands.Some? && s.status == Idle {
        assert !Fails(checks[0]) && !Fails(checks[1]) && !Fails(checks[2]) && !Fails(checks[3]) && !Fails(checks[4]) && !Fails(checks[5]);
      } else {
        assert Fails(checks[2]) || Fails(checks[3]) || Fails(checks[4]) || Fails(checks[5]);
      }
    }
  }

  /** `BeginExecute()`: publishes one execute request and moves to Executing; only a Processed page may. */
  function BeginExecute(s: PageState): (r: Result<Step<PageState>>)
    ensures r.Ok? <==> Key(s).Ok? && s.status == Processed
    ensures Key(s).Err? ==> r == Err(Key(s).error)
    ensures r.Ok? ==> r.value.state == s.(status := Executing)
    ensures r.Ok? ==> (r.value.calls ==
              [PublishWork(WorkExchange, "*", ExecutePageRequest(s.taleId, s.versionId, s.chapter, s.page))])
  {
    IdChecksAfterKeyAreRedundant(s, [HealthCheck(s.status, [Processed])]);
    var g := Guard(Key(s), StateIdChecks(s) + [HealthCheck(s.status, [Processed])]);
    if g.Err? then Err(g.error)
    else
      Ok(Step(s.(status := Executing),
              [PublishWork(WorkExchange, "*", ExecutePageRequest(s.taleId, s.versionId, s.chapter, s.page))]))
  }

  /** `Stop()`: moves to Cancelled from any status. */
  function Stop(s: PageState): (r: Result<PageState>)
    ensures r.Ok? <==> Key(s).Ok?
    ensures r.Ok? ==> r.value == s.(status := GrainStatus.Cancelled)
  {
    var g := Guard(Key(s), StateIdChecks(s));
    if g.Err? then Err(g.error) else Ok(s.(status := GrainStatus.Cancelled))
  }

  /** The checks of both `On...Complete` operations: the stored ids, then the
      caller, which must be one of the keys of the process map. */
  function CompletionChecks(s: PageState, caller: Option<string>): seq<Check> {
    StateIdChecks(s) +
    [EmptyCheck(caller, "callerContainer"),
     CustomCheck(caller.None? || caller.value !in s.process, UnknownCaller)]
  }

  lemma CompletionChecksPass(s: PageState, caller: Option<string>)
    requires Validate(CompletionChecks(s, caller)).Ok?
    ensures caller.Some? && caller.value in s.process
  {
    var checks := CompletionChecks(s, caller);
    assert checks[4] in checks && checks[5] in checks;
  }

  /** Once the key builds, the completion guard passes exactly for a named
      caller the process map knows, and turns away any other named caller. */
  lemma CompletionGuard(s: PageState, caller: Option<string>)
    requires Key(s).Ok?
    ensures Guard(Key(s), CompletionChecks(s, caller)).Ok? <==>
            caller.Some? && |caller.value| > 0 && caller.value in s.process
    ensures caller.Some? && |caller.value| > 0 && caller.value !in s.process ==>
            Guard(Key(s), CompletionChecks(s, caller)) == Err(GrainOperation(UnknownCaller))
  {
    var rest := [EmptyCheck(caller, "callerContainer"), CustomCheck(caller.None? || caller.value !in s.process, UnknownCaller)];
    IdChecksAfterKeyAreRedundant(s, rest);
    if caller.None? || |caller.value| == 0 {
      FirstFailureThrows(rest, 0);
    } else if caller.value !in s.process {
      FirstFailureThrows(rest, 1);
    } else {
      assert !Fails(rest[0]) && !Fails(rest[1]);
    }
  }

  /** The report to the chapter for the process (`execute` false) or the execute phase. */
  function ReportToChapter(s: PageState, execute: bool, result: Outcome): Call {
    if execute then ChapterExecuteComplete(s.taleId, s.versionId, s.chapter, s.page, result)
    else ChapterProcessComplete(s.taleId, s.versionId, s.chapter, s.page, result)
  }

  /** Saving after a completion: the chapter's call is awaited inside the save,
      so its failure (`reply`) leaves nothing persisted. */
  function Save(s: PageState, c: Completion, execute: bool, reply: Result<()>): (r: Result<Step<PageState>>)
    ensures c.report.None? ==> r == Ok(Step(s.(status := c.status), []))
    ensures c.report.Some? && reply.Err? ==> r == Err(reply.error)
    ensures c.report.Some? && reply.Ok? ==>
              r == Ok(Step(s.(status := c.status), [ReportToChapter(s, execute, c.report.value)]))
  {
    if c.report.None? then Ok(Step(s.(status := c.status), []))
    else if reply.Err? then Err(reply.error)
    else Ok(Step(s.(status := c.status), [ReportToChapter(s, execute, c.report.value)]))
  }

  /** `OnProcessComplete(callerContainer, result)`: a service reports its
      processing result. `reply` is the outcome of the chapter's call, used
      only when the page reports. */
  function OnProcessComplete(s: PageState, caller: Option<string>, result: Outcome, reply: Result<()>): (r: Result<Step<PageState>>)
    ensures Key(s).Err? ==> r == Err(Key(s).error)
    ensures Key(s).Ok? ==> (Validate(CompletionChecks(s, caller)).Err? ==> r == Err(Validate(CompletionChecks(s, caller)).error))
    ensures r.Ok? ==> caller.Some? && caller.value in s.process
    ensures r.Ok? && Skips(result, s.status, Processing) ==> r.value == Step(s, [])
    ensures r.Ok? && !Skips(result, s.status, Processing) ==>
              r.value.state.process == s.process[caller.value := result] &&
              r.value.state.execute == s.execute &&
              r.value.state.taleId == s.taleId && r.value.state.versionId == s.versionId &&
              r.value.state.chapter == s.chapter && r.value.state.page == s.page
    ensures r.Ok? ==> |r.value.calls| <= 1
  {
    var g := Guard(Key(s), CompletionChecks(s, caller));
    if g.Err? then Err(g.error)
    else
      CompletionChecksPass(s, caller);
      if Skips(result, s.status, Processing) then Ok(Step(s, []))
      else
        var m := s.process[caller.value := result];
        Save(s.(process := m), AfterRecord(m, s.status, Processed), false, reply)
  }

  /** `OnExecuteComplete(callerContainer, result)`: as `OnProcessComplete`, but
      the result goes to the execute map. The caller is still looked up in
      the process map. */
  function OnExecuteComplete(s: PageState, caller: Option<string>, result: Outcome, reply: Result<()>): (r: Result<Step<PageState>>)
    ensures Key(s).Err? ==> r == Err(Key(s).error)
    ensures Key(s).Ok? ==> (Validate(CompletionChecks(s, caller)).Err? ==> r == Err(Validate(CompletionChecks(s, caller)).error))
    ensures r.Ok? ==> caller.Some? && caller.value in s.process
    ensures r.Ok? && Skips(result, s.status, Executing) ==> r.value == Step(s, [])
    ensures r.Ok? && !Skips(result, s.status, Executing) ==>
              r.value.state.execute == s.execute[caller.value := result] &&
              r.value.state.process == s.process &&
              r.value.state.taleId == s.taleId && r.value.state.versionId == s.versionId &&
              r.value.state.chapter == s.chapter && r.value.state.page == s.page
    ensures r.Ok? ==> |r.value.calls| <= 1
  {
    var g := Guard(Key(s), CompletionChecks(s, caller));
    if g.Err? then Err(g.error)
    else
      CompletionChecksPass(s, caller);
      if Skips(result, s.status, Executing) then Ok(Step(s, []))
      else
        var m := s.execute[caller.value := result];
        Save(s.(execute := m), AfterRecord(m, s.status, Executed), true, reply)
  }

  // ------------------------------------------------------------------ lemmas

  /** No operation adds or removes a service key: a caller must already be a
      key of the process map, and in a valid page that is also a key of the
      execute map. */
  lemma CompletionsKeepKeys(s: PageState, caller: Option<string>, result: Outcome, reply: Result<()>)
    requires Valid(s)
    ensures OnProcessComplete(s, caller, result, reply).Ok? ==> Valid(OnProcessComplete(s, caller, result, reply).value.state)
    ensures OnExecuteComplete(s, caller, result, reply).Ok? ==> Valid(OnExecuteComplete(s, caller, result, reply).value.state)
  {
  }

  /** A name that is not one of the four services is turned away before the
      skip rules, even a duplicate Success report. */
  lemma UnknownCallerRejected(s: PageState, caller: string, result: Outcome, reply: Result<()>)
    requires Valid(s) && Key(s).Ok? && |caller| > 0 && caller !in ServiceKeys
    ensures OnProcessComplete(s, Some(caller), result, reply) == Err(GrainOperation(UnknownCaller))
    ensures OnExecuteComplete(s, Some(caller), result, reply) == Err(GrainOperation(UnknownCaller))
  {
    CompletionGuard(s, Some(caller));
  }

  /** Once a page has accepted a service's report and recorded it, it reports
      to its chapter exactly when no service's result is missing any more, and
      then with the fan-in's verdict. */
  lemma ReportsOnceAllServicesReported(s: PageState, caller: Option<string>, result: Outcome, reply: Result<()>)
    requires Valid(s) && !IsStopped(s.status) && reply.Ok?
    requires OnProcessComplete(s, caller, result, reply).Ok? && !Skips(result, s.status, Processing)
    ensures var r := OnProcessComplete(s, caller, result, reply).value;
            |r.calls| == 1 <==> AllReported(r.state.process)
    ensures var r := OnProcessComplete(s, caller, result, reply).value;
            |r.calls| == 1 ==>
              r.calls[0] == ChapterProcessComplete(s.taleId, s.versionId, s.chapter, s.page, FanIn(r.state.process, Processed).result) &&
              r.state.status == FanIn(r.state.process, Processed).status
  {
    var m := s.process[caller.value := result];
    ReportsWhenAllReported(m, s.status, Processed);
  }

  /** A stopped page is silent: no report it receives changes its state or
      reaches its chapter. */
  lemma StoppedPageIsSilent(s: PageState, caller: Option<string>, result: Outcome, reply: Result<()>)
    requires Stop(s).Ok?
    ensures var t := Stop(s).value;
            OnProcessComplete(t, caller, result, reply).Ok? ==> OnProcessComplete(t, caller, result, reply).value == Step(t, [])
    ensures var t := Stop(s).value;
            OnExecuteComplete(t, caller, result, reply).Ok? ==> OnExecuteComplete(t, caller, result, reply).value == Step(t, [])
  {
  }

  /** A page must be initialized first: every other operation on a fresh page
      fails on the empty tale id of its own key. */
  lemma FreshPageRejects(chapter: int, page: int, commands: Option<seq<PageCommand>>, caller: Option<string>, result: Outcome, reply: Result<()>)
    ensures var e := Err(IdError("IPageGrain", "Tale id is empty guid"));
            BeginProcess(NewState(), chapter, page, commands) == e &&
            BeginExecute(NewState()) == e &&
            OnProcessComplete(NewState(), caller, result, reply) == e &&
            OnExecuteComplete(NewState(), caller, result, reply) == e &&
            Stop(NewState()) == Err(IdError("IPageGrain", "Tale id is empty guid"))
  {
  }

  /** The id checks after the key can never fail: the key builder has already
      rejected every id they would reject. */
  lemma IdChecksAfterKeyAreRedundant(s: PageState, rest: seq<Check>)
    ensures Guard(Key(s), StateIdChecks(s) + rest) == Guard(Key(s), rest)
  {
    ValidateAppend(StateIdChecks(s), rest);
  }

  /** A Success report from one service while another is still missing is
      recorded and nothing more. */
  lemma SuccessWhileOthersPending(s: PageState, k: string, j: string, reply: Result<()>)
    requires Key(s).Ok? && s.status == Processing && |k| > 0
    requires k in s.process && j in s.process && j != k && s.process[j] == NoResult
    ensures OnProcessComplete(s, Some(k), {Success}, reply) ==
              Ok(Step(s.(process := s.process[k := {Success}]), []))
  {
    var m := s.process[k := {Success}];
    assert m[j] == NoResult;
    CompletionGuard(s, Some(k));
  }

  /** The last Success report, when every other service has succeeded, moves
      the page to Processed and reports Success to the chapter. */
  lemma LastSuccess(s: PageState, k: string)
    requires Key(s).Ok? && s.status == Processing && |k| > 0 && k in s.process
    requires forall j :: j in s.process && j != k ==> s.process[j] == {Success}
    ensures OnProcessComplete(s, Some(k), {Success}, Ok(())) ==
              Ok(Step(s.(process := s.process[k := {Success}], status := Processed),
                      [ChapterProcessComplete(s.taleId, s.versionId, s.chapter, s.page, {Success})]))
  {
    var m := s.process[k := {Success}];
    assert forall j :: j in m ==> m[j] == {Success};
    CompletionGuard(s, Some(k));
    FanInPrecedence(m, Processed);
  }

  /** The four services of a processing page report Success one after
      another: the page stays silent until the last report, then moves to
      Processed and reports Success to its chapter. */
  lemma FourSuccessReports(s1: PageState)
    requires Key(s1).Ok? && s1.status == Processing && s1.process == Pending()
    ensures var r1 := OnProcessComplete(s1, Some(ServiceName(ActorSvc)), {Success}, Ok(()));
            r1.Ok? && r1.value.calls == [] &&
            var r2 := OnProcessComplete(r1.value.state, Some(ServiceName(AnecdoteSvc)), {Success}, Ok(()));
            r2.Ok? && r2.value.calls == [] &&
            var r3 := OnProcessComplete(r2.value.state, Some(ServiceName(PersonSvc)), {Success}, Ok(()));
            r3.Ok? && r3.value.calls == [] &&
            var r4 := OnProcessComplete(r3.value.state, Some(ServiceName(WorldSvc)), {Success}, Ok(()));
            r4.Ok? && r4.value.state.status == Processed &&
            r4.value.calls == [ChapterProcessComplete(s1.taleId, s1.versionId, s1.chapter, s1.page, {Success})]
  {
    var a, n, e, w := ServiceName(ActorSvc), ServiceName(AnecdoteSvc), ServiceName(PersonSvc), ServiceName(WorldSvc);
    SuccessWhileOthersPending(s1, a, w, Ok(()));
    var s2 := s1.(process := s1.process[a := {Success}]);
    SuccessWhileOthersPending(s2, n, w, Ok(()));
    var s3 := s2.(process := s2.process[n := {Success}]);
    SuccessWhileOthersPending(s3, e, w, Ok(()));
    var s4 := s3.(process := s3.process[e := {Success}]);
    LastSuccess(s4, w);
  }

  /** The whole processing round of a page: once initialized and started, the
      four services report Success one after another, and the page reports
      Success to its chapter on the last report and only then. */
  lemma ProcessingRound(t: Guid, v: Guid, c: nat, p: nat, cmds: seq<PageCommand>)
    requires t != Empty && v != Empty
    ensures Initialize(NewState(), t, v, c, p).Ok?
    ensures var s0 := Initialize(NewState(), t, v, c, p).value;
            var b := BeginProcess(s0, c, p, Some(cmds));
            b.Ok? && b.value.state.status == Processing && b.value.state.process == Pending() &&
            Key(b.value.state) == FetchPage(t, v, c, p) &&
            b.value.state.taleId == t && b.value.state.versionId == v && b.value.state.chapter == c && b.value.state.page == p
  {
  }
}
