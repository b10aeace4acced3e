# Talepreter in Dafny

Talepreter turns a tale, written page by page as commands, into the state of
its world: actors, anecdotes, persons, settlements and the world itself. A
tale version is driven through a hierarchy of Orleans grains (tale, publish,
chapter, page). Each page's commands are sent to the four entity services,
which process them and then execute them phase by phase through a task
database, entity grains and executors.

This project models that core as immutable values and pure functions, and
proves what each step promises:

- **Controller grains** (`TaleGrain`, `PublishGrain`, `ChapterGrain`,
  `PageGrain`, with `Controller`, `Outcomes`, `Validation`, `Ordering`,
  `Calls`). Each operation checks a guard chain, changes the grain's state,
  and makes calls and publishes messages in a fixed order. The fan-in rule
  turns the children's results into the parent's result.
- **Keys, names and text** (`GrainKeys`, `Guids`, `Services`, `Topology`,
  `Text`, `Conversion`, `Timelines`, `CommandText`, `CommandIds`). These are
  the grain keys and broker names, the decimal and Guid forms they are built
  from, and the text forms of commands and locations. Each comes with its
  injectivity or round-trip lemma.
- **Workers** (`Workload`, `TaskRunner`, `Parallel`, `ProcessTask`,
  `ExecuteTask`, `TaskStore`). This covers the work-queue consumer and task
  registry (a started task registers itself later, from its own thread),
  the retrying task manager, pre-processing with its phase
  compaction, and execution phase by phase against the task database.
- **Entity side** (`EntityGrains`, `ExecutorBase`, `CommandMapping`,
  `Commands`, `Triggers`). These are the command and trigger grains, the
  executor helpers that read parameters and fetch and save documents, and
  the commands an executor derives.
- **Formatting** (`Formatting`, `Inlines`). These are the delimiter styles
  of tale text and the client's parse of a formatted line into display
  runs.

The environment is given as parameters:

- what other grains answer;
- how the tasks of a batch end;
- whether the cancellation token has fired at a given check;
- what the database holds when a query runs.

An operation that throws in the original returns `Err` here.

## Model

| member | source | states |
|---|---|---|
| Outcomes.Code | Talepreter/Contracts/Talepreter.Contracts.Orleans/Process/ProcessResult.cs:4-12 | the numeric value of any flag combination is below 32: five one-bit flags |
| Outcomes.CodeHasFlag | Talepreter/Contracts/Talepreter.Contracts.Orleans/Process/ProcessResult.cs:4-12 | `HasFlag(f)` on the set model is the same as bit `f` being set in the numeric value |
| Outcomes.CodeInjective | Talepreter/Contracts/Talepreter.Contracts.Orleans/Execute/ExecuteResult.cs:4-12 | distinct flag sets have distinct numeric values, and None is the only combination worth 0 |
| Outcomes.StatusOfCode | Talepreter/Contracts/Talepreter.Contracts.Orleans/System/ControllerGrainStatus.cs:4-15 | a status read from a number carries exactly that number |
| Outcomes.StatusCodeRoundTrip | Talepreter/Contracts/Talepreter.Contracts.Orleans/System/ControllerGrainStatus.cs:6-14 | every status read back from its own numeric value is the same status |
| Outcomes.FoldOr | Talepreter/Services/Talepreter.TaleSvc/Grains/PageGrain.cs:107 | the OR-aggregate of the child results has a flag exactly when some child result has it |
| Outcomes.Union | Talepreter/Services/Talepreter.TaleSvc/Grains/PageGrain.cs:105-107 | the flags of a result map are exactly those some child has (the order-free reference for the OR-fold) |
| Outcomes.FoldOrIsUnion | Talepreter/Services/Talepreter.TaleSvc/Grains/PageGrain.cs:107 | the OR-aggregate does not depend on the order the dictionary lists its values in |
| Outcomes.FanInPrecedence | Talepreter/Services/Talepreter.TaleSvc/Grains/PageGrain.cs:105-130 | once every child reported: any Faulted child gives Faulted; else any Cancelled gives Cancelled; else any Timedout or Blocked gives Timedout; else every child is exactly Success and the grain reaches its done status; the fatal branch is never taken |
| Validation.Validate | Talepreter/Operations/Talepreter.Operations.Grains/ValidationContext.cs:27-73 | a guard chain passes exactly when no check in it fails; a failing chain throws the message of its first failing check |
| Validation.ValidateAppend | Talepreter/Operations/Talepreter.Operations.Grains/ValidationContext.cs:27-73 | a longer chain fails as its prefix does when the prefix fails, and as its suffix does otherwise |
| Validation.ValidateSnoc | Talepreter/Operations/Talepreter.Operations.Grains/ValidationContext.cs:27-73 | one more check runs only once the chain before it has passed |
| Validation.FirstFailureThrows | Talepreter/Operations/Talepreter.Operations.Grains/ValidationContext.cs:27-73 | whichever check fails first decides the thrown message, whatever follows it |
| Validation.HealthCheckEmptyFails | Talepreter/Operations/Talepreter.Operations.Grains/ValidationContext.cs:57-61 | `IsHealthy` with no expected status always throws |
| Controller.Guard | Talepreter/Services/Talepreter.TaleSvc/Grains/ChapterGrain.cs:15 | an operation with an invalid grain key throws the key's error before any check; with a valid key it fails exactly as its validation chain does |
| Controller.GuardAfterIds | Talepreter/Services/Talepreter.TaleSvc/Grains/ChapterGrain.cs:202 | id checks the key builder already enforces never decide a guard: only the checks after them matter |
| Controller.ReportBack | Talepreter/Services/Talepreter.TaleSvc/Grains/ChapterGrain.cs:315-337 | the report-back helpers fire exactly in a Cancelled, Timedout or Purged grain, forwarding Cancelled, Timedout, Cancelled |
| Controller.AfterRecord | Talepreter/Services/Talepreter.TaleSvc/Grains/ChapterGrain.cs:157-195 | after recording a child result in a running grain, the grain reports exactly when every child has reported and the fan-in is final, with the fan-in's status and result; without a report the status is unchanged |
| Controller.ReportBackUnreachable | Talepreter/Services/Talepreter.TaleSvc/Grains/ChapterGrain.cs:141-163 | a report that passes the two early returns never meets a grain in which a report-back helper fires: the helpers are dead code |
| Controller.ReportsWhenAllReported | Talepreter/Services/Talepreter.TaleSvc/Grains/ChapterGrain.cs:165-195 | in a grain with at least one child, a completion is reported upward exactly when every child has reported |
| Controller.Seed | Talepreter/Services/Talepreter.TaleSvc/Grains/ChapterGrain.cs:44-51 | seeding from a backup point k marks children 0..k Success and keeps every other entry |
| Controller.SeedSize | Talepreter/Services/Talepreter.TaleSvc/Grains/ChapterGrain.cs:46-50 | seeding an empty map up to child k yields k + 1 children |
| Controller.FirstToExecute | Talepreter/Services/Talepreter.TaleSvc/Grains/ChapterGrain.cs:210-227 | the execute loop stops at the first child processed successfully and not yet executed, every child before it having executed; it reports none only when all have executed; it never fails when every child processed successfully and has no execute failure; a missing child throws a key-not-found error |
| Controller.FirstPendingStarts | Talepreter/Services/Talepreter.TaleSvc/Grains/ChapterGrain.cs:210-226 | the loop picks child q whenever every child before q has executed and q is processed and pending |
| PageGrain.Pending | Talepreter/Services/Talepreter.TaleSvc/Grains/GrainStates/PageGrainState.cs:11-27 | a fresh result map holds exactly the four entity services, each with no result |
| PageGrain.NewState | Talepreter/Services/Talepreter.TaleSvc/Grains/GrainStates/PageGrainState.cs:11-34 | a page grain nobody has written to is Idle, has empty ids, chapter and page -1, and both maps keyed by the four services |
| PageGrain.Initialize | Talepreter/Services/Talepreter.TaleSvc/Grains/PageGrain.cs:32-47 | initializing succeeds exactly for non-empty ids, non-negative chapter and page and an Idle grain; it stores the ids so that the grain's key is the requested one and leaves status and maps alone; once the key builds, the only failure is "is not in healthy state" |
| PageGrain.InitializeGuard | Talepreter/Services/Talepreter.TaleSvc/Grains/PageGrain.cs:34-35 | once the key builds, the initialize guard fails exactly when the grain is not Idle |
| PageGrain.BeginProcess | Talepreter/Services/Talepreter.TaleSvc/Grains/PageGrain.cs:49-74 | starting succeeds exactly for a valid key, non-negative chapter and page, non-null commands and an Idle grain; the page becomes Processing and publishes one process request on the work exchange with the chapter and page passed in |
| PageGrain.BeginProcessGuard | Talepreter/Services/Talepreter.TaleSvc/Grains/PageGrain.cs:51-53 | the guard of `BeginProcess` passes exactly for a valid key, non-negative chapter and page, non-null commands and an Idle grain |
| PageGrain.BeginExecute | Talepreter/Services/Talepreter.TaleSvc/Grains/PageGrain.cs:140-162 | starting execution succeeds exactly for a valid key and a Processed grain; the page becomes Executing and publishes one execute request for its own chapter and page |
| PageGrain.Stop | Talepreter/Services/Talepreter.TaleSvc/Grains/PageGrain.cs:228-240 | stopping succeeds exactly when the key builds, and then only sets the status to Cancelled |
| PageGrain.CompletionGuard | Talepreter/Services/Talepreter.TaleSvc/Grains/PageGrain.cs:78-80 | once the key builds, the completion guard passes exactly for a non-empty caller the process map knows; any other non-empty caller gets "Page grain does not recognize the caller" |
| PageGrain.Save | Talepreter/Services/Talepreter.TaleSvc/Grains/PageGrain.cs:95-136 | a completion without a report only sets the status; with a report the chapter's answer decides, and on success exactly that report is sent |
| PageGrain.OnProcessComplete | Talepreter/Services/Talepreter.TaleSvc/Grains/PageGrain.cs:76-138 | a failing guard throws its error; a skipped report changes nothing; otherwise only the caller's process result is recorded, ids are kept, and at most one report goes to the chapter |
| PageGrain.OnExecuteComplete | Talepreter/Services/Talepreter.TaleSvc/Grains/PageGrain.cs:164-226 | as for processing, but the result goes to the execute map while the caller is still looked up in the process map |
| PageGrain.CompletionsKeepKeys | Talepreter/Services/Talepreter.TaleSvc/Grains/PageGrain.cs:97 | recording a result never adds or removes a service key: both maps stay keyed by the four services |
| PageGrain.UnknownCallerRejected | Talepreter/Services/Talepreter.TaleSvc/Grains/PageGrain.cs:78-80 | a caller that is not one of the four services is turned away before the skip rules, even with a duplicate Success |
| PageGrain.ReportsOnceAllServicesReported | Talepreter/Services/Talepreter.TaleSvc/Grains/PageGrain.cs:105-135 | after recording, the page reports to its chapter exactly when no service's result is missing, with the fan-in's result and status |
| PageGrain.StoppedPageIsSilent | Talepreter/Services/Talepreter.TaleSvc/Grains/PageGrain.cs:87-93 | a stopped page drops every report: its state does not change and nothing reaches the chapter |
| PageGrain.FreshPageRejects | Talepreter/Services/Talepreter.TaleSvc/Grains/PageGrain.cs:20 | every operation on a page grain that was never initialized throws the key error for the empty tale id |
| PageGrain.IdChecksAfterKeyAreRedundant | Talepreter/Services/Talepreter.TaleSvc/Grains/PageGrain.cs:142-143 | the id checks after a key that builds can never fail, so they never decide a guard |
| PageGrain.SuccessWhileOthersPending | Talepreter/Services/Talepreter.TaleSvc/Grains/PageGrain.cs:95-107 | a Success report while another service is still missing is recorded and nothing more |
| PageGrain.LastSuccess | Talepreter/Services/Talepreter.TaleSvc/Grains/PageGrain.cs:105-133 | the last Success report, all other services having succeeded, moves the page to Processed and reports Success to the chapter |
| PageGrain.FourSuccessReports | Talepreter/Services/Talepreter.TaleSvc/Grains/PageGrain.cs:76-138 | four Success reports in a row leave the page silent until the last, which moves it to Processed and reports Success once |
| PageGrain.ProcessingRound | Talepreter/Services/Talepreter.TaleSvc/Grains/PageGrain.cs:32-74 | a fresh page initialized with valid ids and started is Processing, keyed by its own ids, and waits for all four services |
| ChapterGrain.NewState | Talepreter/Services/Talepreter.TaleSvc/Grains/GrainStates/ChapterGrainState.cs:8-20 | a chapter grain nobody has written to has an empty tale id, is Idle and knows no page |
| ChapterGrain.ScanBack | Talepreter/Services/Talepreter.TaleSvc/Grains/ChapterGrain.cs:30-35 | the backward loop answers the highest page at or below its start whose execute result is Success, -1 when none is, and a key-not-found error only at a page number the map lacks |
| ChapterGrain.LastExecutedPage | Talepreter/Services/Talepreter.TaleSvc/Grains/ChapterGrain.cs:24-36 | outside Executed and Idle the answer is -1; a non-negative answer is a page whose execution succeeded; an invalid key throws its error |
| ChapterGrain.LastExecutedIsHighestSuccess | Talepreter/Services/Talepreter.TaleSvc/Grains/ChapterGrain.cs:24-36 | on a chapter at rest with pages 0..n-1 the answer is the highest page whose execution succeeded, and -1 exactly when none did |
| ChapterGrain.InitializeGuard | Talepreter/Services/Talepreter.TaleSvc/Grains/ChapterGrain.cs:40 | the guard of `Initialize` passes exactly for non-empty ids, a non-negative chapter and an Idle grain; an invalid key throws its own error first |
| ChapterGrain.Initialize | Talepreter/Services/Talepreter.TaleSvc/Grains/ChapterGrain.cs:38-60 | initializing succeeds exactly when the guard passes, stores the ids so that the grain's key is the requested one, and seeds pages 0..pageFromBackup as Success when a backup page is given, leaving the maps alone otherwise |
| ChapterGrain.RestoredChapterResumes | Talepreter/Services/Talepreter.TaleSvc/Grains/ChapterGrain.cs:24-60 | a fresh chapter restored up to page k has pages 0..k and answers k for its last executed page; without a backup page it has no page and answers -1 |
| ChapterGrain.AddPageGuard | Talepreter/Services/Talepreter.TaleSvc/Grains/ChapterGrain.cs:64-68 | the guard of `AddPage` passes exactly for a valid key, a chapter at rest (Idle or Executed) and a non-negative page it does not know |
| ChapterGrain.AddPage | Talepreter/Services/Talepreter.TaleSvc/Grains/ChapterGrain.cs:62-121 | a successful add needs a chapter at rest and a new page; when the page is added, the page grain was Idle, both maps gain the page with no result, and the page grain is initialized; otherwise nothing changes |
| ChapterGrain.AddPageAddsOrThrows | Talepreter/Services/Talepreter.TaleSvc/Grains/ChapterGrain.cs:68-110 | the "page already exists" answer (`return false`) is unreachable: the guard has already thrown for every known page |
| ChapterGrain.ExecutedPageIsRefused | Talepreter/Services/Talepreter.TaleSvc/Grains/ChapterGrain.cs:97-114 | a page grain that already executed passes the chapter's own status switch but is refused by the page's `Initialize` |
| ChapterGrain.AddNextPageKeepsContiguous | Talepreter/Services/Talepreter.TaleSvc/Grains/ChapterGrain.cs:112-118 | adding the next page number keeps the pages exactly 0..n and grows the page count by one |
| ChapterGrain.BeginProcessGuard | Talepreter/Services/Talepreter.TaleSvc/Grains/ChapterGrain.cs:125-126 | the guard of `BeginProcess` passes exactly for a valid key, non-negative chapter and page, a chapter at rest and a non-null command array |
| ChapterGrain.BeginProcess | Talepreter/Services/Talepreter.TaleSvc/Grains/ChapterGrain.cs:123-135 | starting succeeds exactly when the guard passes and the page accepts; the chapter becomes Processing and exactly one BeginProcess goes to that page with the commands |
| ChapterGrain.Save | Talepreter/Services/Talepreter.TaleSvc/Grains/ChapterGrain.cs:155-195 | a completion without a report only sets the status; with a report the publish grain's answer decides, and on success exactly that report is sent |
| ChapterGrain.OnProcessComplete | Talepreter/Services/Talepreter.TaleSvc/Grains/ChapterGrain.cs:137-198 | a negative page throws; a skipped report changes nothing; past the skip rules an unknown page throws; otherwise only the page's process result is recorded and at most one report goes up |
| ChapterGrain.BeginExecute | Talepreter/Services/Talepreter.TaleSvc/Grains/ChapterGrain.cs:200-229 | a successful start needs a Processed chapter, moves it to Executing and starts at most one page, which is unexecuted with every lower page executed |
| ChapterGrain.ExecuteStartsLowestPending | Talepreter/Services/Talepreter.TaleSvc/Grains/ChapterGrain.cs:200-229 | a Processed chapter with pages 0..n-1 all processed successfully and none failed always starts, and starts a page exactly when some page is unexecuted |
| ChapterGrain.BeginExecuteFollowsLoop | Talepreter/Services/Talepreter.TaleSvc/Grains/ChapterGrain.cs:202-228 | past the guard, `BeginExecute` throws what the page loop throws, starts nothing when every page executed, and otherwise starts the page the loop found |
| ChapterGrain.ExecuteCompleteGuard | Talepreter/Services/Talepreter.TaleSvc/Grains/ChapterGrain.cs:233 | the guard of `OnExecuteComplete` passes exactly for a valid key and a known non-negative page, and an unknown page throws "Chapter grain does not have the page" |
| ChapterGrain.OnExecuteComplete | Talepreter/Services/Talepreter.TaleSvc/Grains/ChapterGrain.cs:231-291 | an unknown page throws before the skip rules; a skipped report changes nothing; otherwise only the page's execute result is recorded and at most one report goes up |
| ChapterGrain.ReportsOnceAllPagesReported | Talepreter/Services/Talepreter.TaleSvc/Grains/ChapterGrain.cs:248-288 | after recording, the chapter reports to the publish grain exactly when no page's result is missing, and reports the fan-in's result for the calling page |
| ChapterGrain.Pages | Talepreter/Services/Talepreter.TaleSvc/Grains/ChapterGrain.cs:305 | the pages whose stops are started are each known page exactly once |
| ChapterGrain.Stop | Talepreter/Services/Talepreter.TaleSvc/Grains/ChapterGrain.cs:293-311 | stopping succeeds exactly when every page's stop succeeded, else throws with the first failure's message; on success the chapter is Cancelled and every known page got one stop call |
| ChapterGrain.StopCalls | Talepreter/Services/Talepreter.TaleSvc/Grains/ChapterGrain.cs:299-305 | one stop call per known page, each addressed to that page of this chapter |
| ChapterGrain.AddPageToRestingChapter | Talepreter/Services/Talepreter.TaleSvc/Grains/ChapterGrain.cs:62-121 | a chapter at rest accepts a page it does not know from a fresh page grain |
| ChapterGrain.LastPageProcessed | Talepreter/Services/Talepreter.TaleSvc/Grains/ChapterGrain.cs:155-195 | the last page of a processing chapter to report Success takes it to Processed, and Success goes up to the publish grain |
| ChapterGrain.ContinueChapterReachesExecute | Talepreter/Services/Talepreter.TaleSvc/Grains/ChapterGrain.cs:62-229 | adding, processing and executing a new page in a chapter at rest comes down to `BeginExecute` with the new page processed and not executed |
| ChapterGrain.EmptyChapterCannotContinue | Talepreter/Services/Talepreter.TaleSvc/Grains/ChapterGrain.cs:38-60 | a chapter initialized without a backup page and then given page p + 1 throws a key-not-found error for page 0 when it executes |
| ChapterGrain.RestoredChapterContinues | Talepreter/Services/Talepreter.TaleSvc/Grains/ChapterGrain.cs:44-51 | a chapter initialized with backup page p and given page p + 1 starts executing page p + 1 |
| ChapterGrain.FreshChapterRejects | Talepreter/Services/Talepreter.TaleSvc/Grains/ChapterGrain.cs:15 | a fresh, uninitialized chapter grain throws its key error from every operation that builds its key |
| PublishGrain.NewState | Talepreter/Services/Talepreter.TaleSvc/Grains/GrainStates/PublishGrainState.cs:11-19 | a publish grain nobody has written to has empty ids, is Idle, knows no chapter and has an empty last-executed pair |
| PublishGrain.LastExecutedPage | Talepreter/Services/Talepreter.TaleSvc/Grains/PublishGrain.cs:36-40 | the answer is the stored pair exactly when both ids are set, and the key error otherwise |
| PublishGrain.InitializeGuard | Talepreter/Services/Talepreter.TaleSvc/Grains/PublishGrain.cs:44 | the guard of `Initialize` passes exactly for non-empty ids and an Idle grain; a non-Idle grain with good ids gets "is not in healthy state" |
| PublishGrain.Initialize | Talepreter/Services/Talepreter.TaleSvc/Grains/PublishGrain.cs:42-67 | initializing succeeds exactly when the guard passes and all five creations (four containers and the document store) succeed; a failed creation throws the first failure's message; on success only the ids are stored, so the grain's key is the requested one |
| PublishGrain.AddChapterPageGuard | Talepreter/Services/Talepreter.TaleSvc/Grains/PublishGrain.cs:71-74 | the guard of `AddChapterPage` passes exactly for a valid key, non-negative chapter and page and a grain that is Idle or Executed |
| PublishGrain.ChapterAccepts | Talepreter/Services/Talepreter.TaleSvc/Grains/PublishGrain.cs:103-105 | an unknown chapter is initialized first and its error propagates; a known chapter's AddPage error propagates; with a consistent chapter grain the answer is always "added" |
| PublishGrain.AddChapterPage | Talepreter/Services/Talepreter.TaleSvc/Grains/PublishGrain.cs:69-132 | success needs the guard to pass and a chapter whose stored result is not a fault; an unknown chapter is initialized before the page is added; when the page is added both maps get the chapter with no result and the grain becomes Idle, otherwise nothing changes |
| PublishGrain.AddToChapter | Talepreter/Services/Talepreter.TaleSvc/Grains/PublishGrain.cs:103-129 | the calls are an initialize for an unknown chapter followed by AddPage; the result follows the chapter grain's answer, clearing the chapter's results and setting Idle when the page was added |
| PublishGrain.AddChapterPageAddsOrThrows | Talepreter/Services/Talepreter.TaleSvc/Grains/PublishGrain.cs:106-111 | with a chapter grain whose maps agree, the "page not added" answer is unreachable |
| PublishGrain.RecordChapterKeepsContiguous | Talepreter/Services/Talepreter.TaleSvc/Grains/PublishGrain.cs:113-127 | recording a known chapter or the next new one keeps chapters 0..n-1, and only a new chapter adds one to the count |
| PublishGrain.AddChapterPageKeepsContiguous | Talepreter/Services/Talepreter.TaleSvc/Grains/PublishGrain.cs:69-132 | adding a page to a known chapter or to the next new one keeps the chapters contiguous |
| PublishGrain.FirstPageIsAdded | Talepreter/Services/Talepreter.TaleSvc/Grains/PublishGrain.cs:69-132 | the first page of a fresh version is added: the chapter is initialized, then asked to add the page, and chapter 0 is recorded with no result |
| PublishGrain.BeginProcessGuard | Talepreter/Services/Talepreter.TaleSvc/Grains/PublishGrain.cs:136-137 | the guard of `BeginProcess` passes exactly for a valid key, non-negative chapter and page, an Idle grain and non-null commands |
| PublishGrain.BeginProcess | Talepreter/Services/Talepreter.TaleSvc/Grains/PublishGrain.cs:134-147 | starting succeeds exactly when the guard passes and the chapter accepts; the grain becomes Processing and one BeginProcess goes to that chapter |
| PublishGrain.Save | Talepreter/Services/Talepreter.TaleSvc/Grains/PublishGrain.cs:167-209 | a completion without a report only sets the status; with a report the tale grain's answer decides, and on success exactly that report is sent |
| PublishGrain.CompletionChecksPass | Talepreter/Services/Talepreter.TaleSvc/Grains/PublishGrain.cs:151 | the completion guard passes exactly for a valid key and non-negative chapter and page, with the negative-chapter message before the negative-page one |
| PublishGrain.OnProcessComplete | Talepreter/Services/Talepreter.TaleSvc/Grains/PublishGrain.cs:149-212 | a skipped report changes nothing; past the skip rules an unknown chapter throws; otherwise only the chapter's process result is recorded and at most one report goes up |
| PublishGrain.ProcessReportsOnceAllChaptersReported | Talepreter/Services/Talepreter.TaleSvc/Grains/PublishGrain.cs:178-207 | after recording, the version reports to the tale exactly when every chapter has reported, with the fan-in's result and status |
| PublishGrain.BeginExecute | Talepreter/Services/Talepreter.TaleSvc/Grains/PublishGrain.cs:214-244 | a successful start needs a Processed grain, moves it to Executing and starts at most one chapter, which is unexecuted with every lower chapter executed |
| PublishGrain.ExecuteStartsLowestPending | Talepreter/Services/Talepreter.TaleSvc/Grains/PublishGrain.cs:214-244 | a Processed version with chapters 0..n-1 all processed successfully and none failed always starts, and starts a chapter exactly when some chapter is unexecuted |
| PublishGrain.ExecuteCompleteGuard | Talepreter/Services/Talepreter.TaleSvc/Grains/PublishGrain.cs:248-249 | the guard of `OnExecuteComplete` passes exactly for a valid key, non-negative numbers and a known chapter, and an unknown chapter gets "Publish grain does not have the chapter" |
| PublishGrain.OnExecuteComplete | Talepreter/Services/Talepreter.TaleSvc/Grains/PublishGrain.cs:246-313 | an unknown chapter throws before the skip rules; a skipped report changes nothing; otherwise only the chapter's execute result is recorded; the last executed pair changes only when the version becomes Executed, and then to the caller's chapter and page |
| PublishGrain.ExecutedRecordsLastPage | Talepreter/Services/Talepreter.TaleSvc/Grains/PublishGrain.cs:275-307 | after recording, every chapter being Success is the same as the version becoming Executed, remembering the caller's chapter and page and telling the tale Success |
| PublishGrain.Purge | Talepreter/Services/Talepreter.TaleSvc/Grains/PublishGrain.cs:315-346 | purging succeeds exactly when all five deletions succeed, else throws the first failure's message; on success the cancel request is published first and the grain is Purged |
| PublishGrain.Chapters | Talepreter/Services/Talepreter.TaleSvc/Grains/PublishGrain.cs:366 | the chapters whose stops are started are each known chapter exactly once |
| PublishGrain.Stop | Talepreter/Services/Talepreter.TaleSvc/Grains/PublishGrain.cs:348-373 | stopping succeeds exactly when every chapter's stop succeeded; on success the cancel request goes first, then one stop per known chapter, and the grain is Cancelled |
| PublishGrain.StopCalls | Talepreter/Services/Talepreter.TaleSvc/Grains/PublishGrain.cs:360-366 | one stop call per known chapter, each addressed to that chapter of this version |
| PublishGrain.BackupToGuard | Talepreter/Services/Talepreter.TaleSvc/Grains/PublishGrain.cs:377-378 | the guard of `BackupTo` passes exactly for a valid key, a non-empty new id and an Executed grain, with the empty-id message first |
| PublishGrain.BackupTo | Talepreter/Services/Talepreter.TaleSvc/Grains/PublishGrain.cs:375-403 | backing up succeeds exactly when the guard passes and all six parallel calls succeed; it copies the four containers and the document store and asks the new version to restore from this version's last executed pair; nothing is stored here |
| PublishGrain.RestoreGuard | Talepreter/Services/Talepreter.TaleSvc/Grains/PublishGrain.cs:407 | the guard of `BackupFrom` passes exactly for non-empty ids and a non-null pair |
| PublishGrain.Restore | Talepreter/Services/Talepreter.TaleSvc/Grains/PublishGrain.cs:405-427 | restoring succeeds exactly for good ids, a pair, a valid chapter key and an accepting chapter grain; chapters 0..last become Success in both maps, the last chapter's grain is initialized, and the version is Executed with a copy of the pair |
| PublishGrain.BackupFromAsWritten | Talepreter/Services/Talepreter.TaleSvc/Grains/PublishGrain.cs:417-418 | as written, the restored chapter grain is initialized without a backup page |
| PublishGrain.BackupFrom | Talepreter/Services/Talepreter.TaleSvc/Grains/PublishGrain.cs:405-427 | corrected: the restored chapter grain is also told the last executed page; the version ends Executed under its new key with the copied pair |
| PublishGrain.RestoredVersionIsContiguous | Talepreter/Services/Talepreter.TaleSvc/Grains/PublishGrain.cs:411-415 | a version restored up to chapter c has chapters 0..c, all Success, and chapter count c + 1 |
| PublishGrain.SeedDense | Talepreter/Services/Talepreter.TaleSvc/Grains/PublishGrain.cs:411-415 | seeding an empty map up to chapter c gives exactly chapters 0..c |
| PublishGrain.BackupToRestoresLastPage | Talepreter/Services/Talepreter.TaleSvc/Grains/PublishGrain.cs:385-388 | the restore that `BackupTo` requests leaves the new version Executed, under the new key, with the same last executed pair |
| PublishGrain.BackupFromAsWrittenLosesPages | Talepreter/Services/Talepreter.TaleSvc/Grains/PublishGrain.cs:417-418 | as written, a version restored up to page p of chapter c cannot go on: the chapter knows only page p + 1 and its BeginExecute throws key-not-found for page 0 |
| PublishGrain.BackupFromResumesNextPage | Talepreter/Services/Talepreter.TaleSvc/Grains/PublishGrain.cs:405-427 | corrected, the same continuation starts executing page p + 1 |
| TaleGrain.NewState | Talepreter/Services/Talepreter.TaleSvc/Grains/GrainStates/TaleGrainState.cs:9 | a tale grain nobody has written to tracks no version |
| TaleGrain.RemoveFirst | Talepreter/Services/Talepreter.TaleSvc/Grains/TaleGrain.cs:110 | removing a version from the tracker drops one entry when it is tracked, changes nothing otherwise, and keeps every other version |
| TaleGrain.RemoveFirstFromDistinct | Talepreter/Services/Talepreter.TaleSvc/Grains/TaleGrain.cs:110 | in a tracker without duplicates the removed version is gone afterwards and no duplicate appears |
| TaleGrain.IdsFirst | Talepreter/Services/Talepreter.TaleSvc/Grains/TaleGrain.cs:37 | the tale-id and version-id checks decide first; once both ids are present only the remaining checks matter |
| TaleGrain.Initialize | Talepreter/Services/Talepreter.TaleSvc/Grains/TaleGrain.cs:35-70 | initializing a version succeeds exactly for present ids, a non-empty backup id if one is given, an untracked version, an Executed backup source and a successful reply; a tracked version gets "Tale publish id already exists" and a non-Executed source gets the faulty-backup message; on success the version is appended to the tracker and either the new publish grain is initialized or the source is asked to back up into it; the tracker stays duplicate-free |
| TaleGrain.AddChapterPage | Talepreter/Services/Talepreter.TaleSvc/Grains/TaleGrain.cs:72-81 | forwarding succeeds exactly for present ids, non-negative chapter and page, a tracked version and a successful reply; an untracked version gets "Tale publish does not exist"; the publish grain's answer is returned unchanged and the tracker is not touched |
| TaleGrain.BeginProcess | Talepreter/Services/Talepreter.TaleSvc/Grains/TaleGrain.cs:83-91 | forwarding succeeds exactly for present ids, non-negative chapter and page, a tracked version, non-null commands and a successful reply; an untracked version gets "Tale publish does not exist"; the one call is the publish grain's BeginProcess with the same arguments |
| TaleGrain.TrackedPass | Talepreter/Services/Talepreter.TaleSvc/Grains/TaleGrain.cs:75 | the tracker check alone passes exactly for a tracked version and otherwise gives "Tale publish does not exist" |
| TaleGrain.ForwardTracked | Talepreter/Services/Talepreter.TaleSvc/Grains/TaleGrain.cs:93-149 | a tracked forward succeeds exactly for present ids, a tracked version and a successful reply, and then makes exactly the one call |
| TaleGrain.BeginExecute | Talepreter/Services/Talepreter.TaleSvc/Grains/TaleGrain.cs:93-100 | forwarding succeeds exactly for present ids, a tracked version and a successful reply, and calls only the version's BeginExecute |
| TaleGrain.Stop | Talepreter/Services/Talepreter.TaleSvc/Grains/TaleGrain.cs:138-149 | forwarding succeeds exactly for present ids, a tracked version and a successful reply, calls only the version's Stop and keeps the tracker |
| TaleGrain.PurgePublish | Talepreter/Services/Talepreter.TaleSvc/Grains/TaleGrain.cs:102-114 | purging one version succeeds exactly for present ids, a tracked version and a successful purge; then only that version leaves the tracker, one entry shorter, and a duplicate-free tracker stays duplicate-free without it |
| TaleGrain.PurgeCalls | Talepreter/Services/Talepreter.TaleSvc/Grains/TaleGrain.cs:122-129 | one purge call per tracked version, in tracker order |
| TaleGrain.Purge | Talepreter/Services/Talepreter.TaleSvc/Grains/TaleGrain.cs:116-136 | purging the tale succeeds exactly for a present tale id and no failed version purge; a failure throws "Purging tale failed: " with the first failure's message; on success every tracked version was purged and the tracker is empty |
| TaleGrain.InitializeThenPurgeRestores | Talepreter/Services/Talepreter.TaleSvc/Grains/TaleGrain.cs:35-114 | initializing a new version and then purging it gives back the tracker it started with |
| TaleGrain.RemoveAppended | Talepreter/Services/Talepreter.TaleSvc/Grains/TaleGrain.cs:52-110 | removing a version just appended to a tracker that did not hold it undoes the append |
| TaleGrain.EventStatusOf | Talepreter/Services/Talepreter.TaleSvc/Grains/TaleGrain.cs:162-168 | a result with a Faulted, Cancelled or Blocked flag maps to Faulted; otherwise a Timedout flag maps to Timeout; exactly Success maps to Success; only the empty result is unrecognized |
| TaleGrain.OnComplete | Talepreter/Services/Talepreter.TaleSvc/Grains/TaleGrain.cs:153-213 | a report for an untracked version is ignored; for a tracked one the result is published as a status event on the event exchange under the tale's status-update key, and the empty result throws "Operation result None is not recognized"; bad ids or a negative chapter or page throw; the tracker never changes |
| TaleGrain.FanInReportsAreRecognized | Talepreter/Services/Talepreter.TaleSvc/Grains/TaleGrain.cs:162-168 | every result a publish grain reports after its fan-in is recognized, becomes a Faulted event exactly when some chapter was faulted or cancelled, and a Success event exactly when every chapter succeeded |
| TaleController.FirstBroken | Talepreter/Services/Talepreter.TaleSvc/TaleController.cs:45-46 | no rule is reported exactly when every rule holds |
| TaleController.FirstBrokenIsFirst | Talepreter/Services/Talepreter.TaleSvc/TaleController.cs:106-109 | the message reported belongs to a broken rule with every earlier rule holding |
| TaleController.FirstBrokenConcat | Talepreter/Services/Talepreter.TaleSvc/TaleController.cs:290-296 | rules are checked in order: an earlier group that breaks decides, otherwise the later group does |
| TaleController.PageRulesOrder | Talepreter/Services/Talepreter.TaleSvc/TaleController.cs:106-109 | a page route is refused exactly when one of its values is wrong, naming the first wrong one in the order tale, version, chapter, page |
| TaleController.VersionRulesOrder | Talepreter/Services/Talepreter.TaleSvc/TaleController.cs:45-46 | a version route is refused with the tale-id message first, then the version-id message |
| TaleController.EntityOf | Talepreter/Services/Talepreter.TaleSvc/TaleController.cs:448-458 | each grain status maps to the API status of the same name |
| TaleController.MapStatus | Talepreter/Services/Talepreter.TaleSvc/TaleController.cs:448-460 | a status value maps exactly when it is one of the nine named statuses, to the API status whose grain status has that value; any other value throws the missing-mapper exception |
| TaleController.MapStatusOneToOne | Talepreter/Services/Talepreter.TaleSvc/TaleController.cs:448-460 | every grain status maps to its namesake and no two status values map to the same API status |
| TaleController.Serve | Talepreter/Services/Talepreter.TaleSvc/TaleController.cs:37-62 | a broken route value is answered with its message and no grain is asked; otherwise the grain is asked exactly once and its exception becomes a bad request |
| TaleController.GetPublishStatus | Talepreter/Services/Talepreter.TaleSvc/TaleController.cs:34-62 | the publish grain is asked exactly when both ids are non-empty; an empty id gets its message; the reply is 200 exactly when the grain answers with a mapped status, carrying that status, and a bare bad request otherwise |
| TaleController.GetChapterStatus | Talepreter/Services/Talepreter.TaleSvc/TaleController.cs:64-93 | the chapter grain is asked exactly when both ids are non-empty and the chapter is not negative; the first wrong value is named; 200 exactly for a mapped status, a bare bad request otherwise |
| TaleController.GetPageStatus | Talepreter/Services/Talepreter.TaleSvc/TaleController.cs:95-125 | the page grain is asked exactly for a valid route; 200 exactly for a mapped status; unlike the other endpoints, a caught exception's message is returned in the bad request |
| TaleController.Stop | Talepreter/Services/Talepreter.TaleSvc/TaleController.cs:127-155 | the publish grain's Stop is called exactly for non-empty ids; the reply is Accepted exactly when it succeeds, otherwise a bad request |
| TaleController.PurgePublish | Talepreter/Services/Talepreter.TaleSvc/TaleController.cs:157-185 | the tale grain's PurgePublish is called exactly for non-empty ids; 200 exactly when it succeeds, otherwise a bad request |
| TaleController.PurgeTale | Talepreter/Services/Talepreter.TaleSvc/TaleController.cs:187-214 | only the tale id is checked; the tale grain's Purge is called exactly for a non-empty id; 200 exactly when it succeeds |
| TaleController.AddPage | Talepreter/Services/Talepreter.TaleSvc/TaleController.cs:216-247 | the tale grain is asked to add the page exactly for a valid route; 200 exactly when it answers true, "New page is not added" when it answers false, a bare bad request when it throws |
| TaleController.Execute | Talepreter/Services/Talepreter.TaleSvc/TaleController.cs:249-277 | the tale grain's BeginExecute is called exactly for non-empty ids; Accepted exactly when it succeeds |
| TaleController.Initialize | Talepreter/Services/Talepreter.TaleSvc/TaleController.cs:315-344 | the tale grain's Initialize is called, with the body's backup version, exactly for non-empty ids and a body; a missing body is refused after the ids; 200 exactly when the grain succeeds |
| TaleController.Versions | Talepreter/Services/Talepreter.TaleSvc/TaleController.cs:346-375 | the tale grain is asked exactly for a non-empty tale id; 200 exactly when it answers, with its versions or an empty list for null |
| TaleController.PositionOf | Talepreter/Services/Talepreter.TaleSvc/TaleController.cs:393 | a known chapter or page is reported as is and an unknown one, or a null pair, as -1 |
| TaleController.PositionOfRoundTrip | Talepreter/Services/Talepreter.TaleSvc/TaleController.cs:393 | for non-negative parts the reported position reads back as the grain's pair, and a null pair reads as a pair with both parts unknown |
| TaleController.LastExecutedPage | Talepreter/Services/Talepreter.TaleSvc/TaleController.cs:377-405 | the publish grain is asked exactly for non-empty ids; 200 exactly when it answers, carrying its pair as a position |
| TaleController.GetSummary | Talepreter/Services/Talepreter.TaleSvc/TaleController.cs:407-444 | for non-empty ids the last executed page is asked first and the status only after it answered; 200 exactly when both answer and the status maps, carrying the position, the status and the version id; a bare bad request otherwise |
| TaleController.MapParameter | Talepreter/Services/Talepreter.TaleSvc/TaleController.cs:495-506 | a parameter maps exactly when its type is one of the four named types, keeping type, name and value; otherwise the missing-mapper exception |
| TaleController.MapAll | Talepreter/Services/Talepreter.TaleSvc/TaleController.cs:495-507 | the author's parameters all map exactly when every type is named; then each keeps its place and contents |
| TaleController.MapAllRoundTrip | Talepreter/Services/Talepreter.TaleSvc/TaleController.cs:495-507 | mapping the API form of a list of named parameters gives that list back |
| TaleController.SystemParameters | Talepreter/Services/Talepreter.TaleSvc/TaleController.cs:486-493 | the page block's timeline becomes three to five parameters, all of type Set; a null location throws a null reference |
| TaleController.MapParameters | Talepreter/Services/Talepreter.TaleSvc/TaleController.cs:484-509 | mapping succeeds exactly for a page block with a location, a non-null parameter array and only named types; the result is the system parameters followed by the author's |
| TaleController.MapCommand | Talepreter/Services/Talepreter.TaleSvc/TaleController.cs:467-477 | a command maps exactly when its parameters do; phase, index, tag, target, parent, array parameters and comment are copied |
| TaleController.MapCommands | Talepreter/Services/Talepreter.TaleSvc/TaleController.cs:462-482 | all commands map exactly when each does, keeping their order |
| TaleController.Process | Talepreter/Services/Talepreter.TaleSvc/TaleController.cs:279-313 | the tale grain is asked exactly for a valid route, a body with a page block and at least one command, and commands that all map; the first failing check is named; Accepted exactly when the grain succeeds |
| TaleController.MappedTimeline | Talepreter/Services/Talepreter.TaleSvc/TaleController.cs:486-507 | the worker reads back the page block's date, stay and start location from the mapped parameters, and its voyage and travel target, whatever the author's own parameters say |
| TaleController.ProcessCarriesPageTimeline | Talepreter/Services/Talepreter.TaleSvc/TaleController.cs:279-313 | every command an admitted process request sends keeps its phase and index and carries the page block's timeline |
| TaleController.LongText | Talepreter/Services/Talepreter.TaleSvc/TaleController.cs:488-492 | a number written as text is read back |
| TaleController.PlaceText | Talepreter/Services/Talepreter.TaleSvc/TaleController.cs:489-493 | a readable location written as text is read back |
| TaleController.MappedLookups | Talepreter/Services/Talepreter.TaleSvc/TaleController.cs:486-507 | the start, start location and stay lookups find the system parameters, and the voyage and travel lookups find them when the page block has them and nothing otherwise |
| TaleController.UserNames | Talepreter/Services/Talepreter.TaleSvc/TaleController.cs:495-498 | the author's parameters keep their names through the mapping |
| TaleController.OptionalLookups | Talepreter/Services/Talepreter.TaleSvc/TaleController.cs:492-493 | after the leading system parameters, voyage and travel target are found exactly when the page block has them |
| Guids.N | Talepreter/Contracts/Talepreter.Contracts.Orleans.Grains/GrainFetcher.cs:44 | the N form has 32 lower-case hexadecimal digits, digit i denoting the Guid's nibble i |
| Guids.D | Talepreter/Contracts/Talepreter.Contracts.Orleans.Grains/GrainFetcher.cs:59 | the D form has 36 characters, hyphens at 8, 13, 18 and 23, and the N form's digits in between |
| Guids.ParseN | Talepreter/Services/Talepreter.TaleSvc/Grains/TaleGrain.cs:27 | parsing accepts exactly 32 hexadecimal digits in either case, each giving its nibble |
| Guids.HexRoundTrip | Talepreter/Contracts/Talepreter.Contracts.Orleans.Grains/GrainFetcher.cs:44 | a digit written in lower case reads back as its value |
| Guids.ParseNRoundTrip | Talepreter/Services/Talepreter.TaleSvc/Grains/TaleGrain.cs:27 | parsing the N form of a Guid gives the Guid back |
| Guids.NInjective | Talepreter/Contracts/Talepreter.Contracts.Orleans.Grains/GrainFetcher.cs:51 | different Guids have different N forms |
| Guids.DInjective | Talepreter/Contracts/Talepreter.Contracts.Orleans.Grains/GrainFetcher.cs:59 | different Guids have different D forms |
| GrainKeys.FetchTale | Talepreter/Contracts/Talepreter.Contracts.Orleans.Grains/GrainFetcher.cs:41-45 | the tale key is "TALE:" and the N form of the id; an empty id throws "<ITaleGrain> Tale id is empty guid" |
| GrainKeys.FetchPublish | Talepreter/Contracts/Talepreter.Contracts.Orleans.Grains/GrainFetcher.cs:47-52 | both ids are checked, tale first, each with its own message; the key is "PUBLISH:" and the N form of the version id alone |
| GrainKeys.FetchChapter | Talepreter/Contracts/Talepreter.Contracts.Orleans.Grains/GrainFetcher.cs:54-60 | tale id, version id and chapter are checked in that order with their messages; the key starts with "CHAPTER:" |
| GrainKeys.FetchPage | Talepreter/Contracts/Talepreter.Contracts.Orleans.Grains/GrainFetcher.cs:62-69 | tale id, version id, chapter and page are checked in that order with their messages; the key starts with "PAGE:" |
| GrainKeys.FetchContainer | Talepreter/Contracts/Talepreter.Contracts.Orleans.Grains/GrainFetcher.cs:73-99 | a container key fails exactly for an empty id, naming the container's grain interface; otherwise it is the version's D form, a backslash and the container's name |
| GrainKeys.FetchExtension | Talepreter/Contracts/Talepreter.Contracts.Orleans.Grains/GrainFetcher.cs:103-128 | an extension key fails exactly for an empty id, extension id or type, the extension id being checked before the type; otherwise it is the version's D form, backslash, "!", type, ":" and extension id |
| GrainKeys.FetchEntity | Talepreter/Contracts/Talepreter.Contracts.Orleans.Grains/GrainFetcher.cs:132-210 | an entity key fails exactly for an empty id or target, naming the entity's grain interface; otherwise it is the version's D form, a backslash, the entity's tag, ":" and the target |
| GrainKeys.FetchWorld | Talepreter/Contracts/Talepreter.Contracts.Orleans.Grains/GrainFetcher.cs:212-217 | the world key fails exactly for an empty id and is otherwise the version's D form followed by a backslash and "WORLD" |
| GrainKeys.TaleKeyRoundTrip | Talepreter/Services/Talepreter.TaleSvc/Grains/TaleGrain.cs:27 | the tale grain reads its tale id back from its own key by skipping five characters and parsing the rest |
| GrainKeys.PublishKeyIgnoresTale | Talepreter/Contracts/Talepreter.Contracts.Orleans.Grains/GrainFetcher.cs:47-52 | two tales share the publish key of the same version id |
| GrainKeys.PublishKeyInjective | Talepreter/Contracts/Talepreter.Contracts.Orleans.Grains/GrainFetcher.cs:51 | different version ids give different publish keys |
| GrainKeys.ExtensionKeyIgnoresKind | Talepreter/Contracts/Talepreter.Contracts.Orleans.Grains/GrainFetcher.cs:103-128 | the three extension fetchers fail and succeed together and build the same key |
| GrainKeys.DigitsPrefixUnique | Talepreter/Contracts/Talepreter.Contracts.Orleans.Grains/GrainFetcher.cs:68 | two digit strings followed by a non-digit separator split at the same place |
| GrainKeys.SplitPointIsDigit | Talepreter/Contracts/Talepreter.Contracts.Orleans.Grains/GrainFetcher.cs:68 | where two such splits would differ, the separator would have to be a digit |
| GrainKeys.ChapterKeyInjective | Talepreter/Contracts/Talepreter.Contracts.Orleans.Grains/GrainFetcher.cs:59 | chapter keys of different versions or chapters differ |
| GrainKeys.PageKeyInjective | Talepreter/Contracts/Talepreter.Contracts.Orleans.Grains/GrainFetcher.cs:68 | page keys of different version, chapter and page triples differ |
| GrainKeys.ControllerKeysDisjoint | Talepreter/Contracts/Talepreter.Contracts.Orleans.Grains/GrainFetcher.cs:41-69 | a chapter key is never a page key and a tale key is never a publish key |
| Conversion.Pieces | Talepreter/Common/Talepreter.Common/ConversionExtensions.cs:19 | splitting gives at least one piece and no piece holds the separator |
| Conversion.JoinPieces | Talepreter/Common/Talepreter.Common/ConversionExtensions.cs:19 | joining the pieces with the separator gives the string back |
| Conversion.PiecesWhole | Talepreter/Common/Talepreter.Common/ConversionExtensions.cs:19 | a string without the separator is one piece |
| Conversion.PiecesCons | Talepreter/Common/Talepreter.Common/ConversionExtensions.cs:19 | a separator-free prefix followed by the separator is the first piece and the rest splits on its own |
| Conversion.PiecesOfJoin | Talepreter/Common/Talepreter.Common/ConversionExtensions.cs:19 | splitting a join of separator-free strings gives them back |
| Conversion.Entries | Talepreter/Common/Talepreter.Common/ConversionExtensions.cs:19 | trimming and dropping empty entries keeps no more entries than pieces, each non-empty and without surrounding white space |
| Conversion.TrimKeepsOut | Talepreter/Common/Talepreter.Common/ConversionExtensions.cs:19 | trimming never brings a character into a string |
| Conversion.EntriesKeepOut | Talepreter/Common/Talepreter.Common/ConversionExtensions.cs:19 | entries keep out every character their pieces keep out |
| Conversion.EntriesOfClean | Talepreter/Common/Talepreter.Common/ConversionExtensions.cs:19 | pieces that are already non-empty and trimmed are kept as they are |
| Conversion.SplitInto | Talepreter/Common/Talepreter.Common/ConversionExtensions.cs:18-19 | no entry is empty, has white space at either end or holds the separator |
| Conversion.SplitMap | Talepreter/Common/Talepreter.Common/ConversionExtensions.cs:14-15 | the converter is applied to each entry, in order, one result per entry |
| Conversion.TrimCharStart | Talepreter/Common/Talepreter.Common/ConversionExtensions.cs:21 | stripping leading separators leaves a suffix that does not start with one |
| Conversion.TrimCharEnd | Talepreter/Common/Talepreter.Common/ConversionExtensions.cs:21 | stripping trailing separators leaves a prefix that does not end with one |
| Conversion.MergeInto | Talepreter/Common/Talepreter.Common/ConversionExtensions.cs:20-21 | the merged text neither starts nor ends with the separator, and nothing merges to the empty text |
| Conversion.FoldIsJoin | Talepreter/Common/Talepreter.Common/ConversionExtensions.cs:21 | the aggregate over at least one entry is the separator followed by the entries joined with it |
| Conversion.JoinFirst | Talepreter/Common/Talepreter.Common/ConversionExtensions.cs:21 | a join starts with its first entry's first character |
| Conversion.JoinLast | Talepreter/Common/Talepreter.Common/ConversionExtensions.cs:21 | a join ends with its last entry's last character |
| Conversion.TrimFold | Talepreter/Common/Talepreter.Common/ConversionExtensions.cs:21 | stripping the separator from a fold whose entries do not start or end with it removes only the leading separator |
| Conversion.MergeIsJoin | Talepreter/Common/Talepreter.Common/ConversionExtensions.cs:20-21 | merging non-empty, separator-free entries is joining them with the separator |
| Conversion.MergeRoundTrip | Talepreter/Common/Talepreter.Common/ConversionExtensions.cs:18-21 | splitting what was merged gives back entries that were non-empty, trimmed and free of the separator |
| Conversion.MergeMapRoundTrip | Talepreter/Common/Talepreter.Common/ConversionExtensions.cs:14-17 | with converters that invert each other on clean texts, splitting the merged values gives them back |
| Conversion.SplitJoinRoundTrip | Talepreter/Common/Talepreter.Common/ConversionExtensions.cs:18-19 | splitting a separator join of clean entries gives them back |
| Conversion.TryToInt | Talepreter/Common/Talepreter.Common/ConversionExtensions.cs:7-11 | the text's value when it is a 32-bit number, and the default otherwise |
| Conversion.TryToIntRoundTrip | Talepreter/Common/Talepreter.Common/ConversionExtensions.cs:7-11 | a 32-bit number written and read back is itself, whatever the default |
| Timelines.WrapLong | Talepreter/Operations/Talepreter.Operations/PageTimeline.cs:14-15 | a wrapped sum is a 64-bit value and a sum already in range is unchanged |
| Timelines.WrapAdd | Talepreter/Operations/Talepreter.Operations/PageTimeline.cs:14 | wrapping an intermediate sum does not change the wrapped total |
| Timelines.ModShift | Talepreter/Operations/Talepreter.Operations/PageTimeline.cs:14 | shifting by whole multiples of 2^64 keeps the remainder |
| Timelines.ParseLocation | Talepreter/Operations/Talepreter.Operations/CommandExtensions.cs:160-168 | a location is read exactly when the parameter exists and its value splits on ',' into one or two clean entries: the first is the settlement, the second the extension |
| Timelines.LocationRoundTrip | Talepreter/Contracts/Talepreter.Contracts.Api/PageBlock.cs:17-21 | a location with clean parts is read back from its text, whatever the parameter's name and type |
| Timelines.SumLongWrapsOnce | Talepreter/Operations/Talepreter.Operations/PageTimeline.cs:14 | adding start, stay and voyage left to right in 64 bits wraps like the whole sum once |
| Timelines.TodayIsLastAtLocationPlusVoyage | Talepreter/Operations/Talepreter.Operations/PageTimeline.cs:14-15 | the page ends one voyage after it leaves its start location, in 64-bit arithmetic, and without overflow exactly at start + stay + voyage |
| Timelines.LongParam | Talepreter/Operations/Talepreter.Operations/CommandExtensions.cs:130 | no value without a parameter of that name; otherwise the 64-bit parse of the first such parameter |
| Timelines.RequiredLong | Talepreter/Operations/Talepreter.Operations/CommandExtensions.cs:130-133 | a required number is the parsed value; a missing parameter is a validation error carrying the command's text; a malformed one is the parser's error |
| Timelines.OptionalLong | Talepreter/Operations/Talepreter.Operations/CommandExtensions.cs:134 | a missing number counts as 0; a present one is parsed |
| Timelines.TimelineWith | Talepreter/Operations/Talepreter.Operations/CommandExtensions.cs:128-148 | the timeline is read exactly when start and stay are present numbers, the voyage is absent or a number and the start location parses; it then holds those values and the travel target if it parses; a missing start is "Command misses system parameter" with the start's name |
| Timelines.TimelineFound | Talepreter/Operations/Talepreter.Operations/CommandExtensions.cs:128-148 | the timeline whose parts each lookup reads back is the one returned |
| Timelines.TimelineReadsOnlyLookups | Talepreter/Operations/Talepreter.Operations/CommandExtensions.cs:128-148 | a readable timeline depends only on the first start, stay, voyage, start location and travel target parameters |
| Timelines.LeadingLookups | Talepreter/Operations/Talepreter.Operations/CommandExtensions.cs:12-17 | a list opening with start, start location and stay answers those lookups with them and looks the travel target and voyage up in the rest |
| Timelines.MustExist | Talepreter/Contracts/Talepreter.Contracts.Orleans/Execute/ExecuteCommandContext.cs:15 | a command must exist exactly when it names the "!mustexist" parameter |
| Timelines.TodayWith | Talepreter/Contracts/Talepreter.Contracts.Orleans/Execute/ExecuteCommandContext.cs:17-23 | today is computed exactly when start and stay are present numbers and the voyage is absent or a number; a missing start is "Command has no start date set", a missing stay "Command has no stay duration set" |
| Timelines.TodayAgrees | Talepreter/Contracts/Talepreter.Contracts.Orleans/Execute/ExecuteCommandContext.cs:17-23 | whenever a command's timeline can be read, the execute context's today equals the timeline's |
| CommandMapping.Derived | Talepreter/Operations/Talepreter.Operations/CommandExtensions.cs:26-47 | a derived command keeps the owner, chapter, page and index of the original, takes the given phase and data with matching tag and target columns, and starts with no sub-index, error or result |
| CommandMapping.TimelineParams | Talepreter/Operations/Talepreter.Operations/CommandExtensions.cs:12-22 | the carried-over parameters exist exactly when start, start location and stay are all present, and are those three followed by the travel target and voyage when present; otherwise LINQ's "Sequence contains no matching element" |
| CommandMapping.Present | Talepreter/Operations/Talepreter.Operations/CommandExtensions.cs:19-22 | an optional parameter is added exactly when it is present |
| CommandMapping.NamedOrThrow | Talepreter/Operations/Talepreter.Operations/CommandExtensions.cs:14-16 | the first parameter with the name, or the invalid-operation exception when there is none |
| CommandMapping.Remap | Talepreter/Operations/Talepreter.Operations/CommandExtensions.cs:10-48 | remapping succeeds exactly when the timeline parameters can be carried over; the new command has the new or old tag and target, the new parent and array, the comment dropped, the phase given or kept, and the carried-over parameters before the new ones |
| CommandMapping.RemapKeepsTimeline | Talepreter/Operations/Talepreter.Operations/CommandExtensions.cs:10-48 | every command with a readable timeline can be remapped and the remapped command has the same timeline, as long as the new parameters bring no travel target or voyage of their own |
| CommandMapping.TimelineParamsFound | Talepreter/Operations/Talepreter.Operations/CommandExtensions.cs:12-24 | the five timeline lookups find the same parameters in the remapped list as in the original |
| CommandMapping.KeptAnswers | Talepreter/Operations/Talepreter.Operations/CommandExtensions.cs:12-22 | the carried-over parameters answer each timeline lookup as the full list does |
| CommandMapping.HeadAnswers | Talepreter/Operations/Talepreter.Operations/CommandExtensions.cs:12-22 | lookups in start, start location and stay followed by an optional travel target and voyage find each of them |
| CommandMapping.TailAnswers | Talepreter/Operations/Talepreter.Operations/CommandExtensions.cs:19-22 | lookups in the optional travel target followed by the optional voyage find each of them |
| CommandMapping.MapWith | Talepreter/Operations/Talepreter.Operations/CommandExtensions.cs:50-74 | a mapped command keeps the phase and the comment, has matching tag and target columns and starts with no sub-index, error or result |
| CommandMapping.MapWithTwice | Talepreter/Operations/Talepreter.Operations/CommandExtensions.cs:50-74 | mapping twice is mapping once with the second call's replacements laid over the first's |
| CommandMapping.MapWithNothingCopies | Talepreter/Operations/Talepreter.Operations/CommandExtensions.cs:50-74 | with nothing replaced, a consistent command is copied with only the database-filled columns reset |
| CommandMapping.AsRaw | Talepreter/Operations/Talepreter.Operations/CommandExtensions.cs:97-101 | a stored trigger becomes the raw trigger with the same target, id, type, grain and time, a missing parameter becoming the empty string |
| CommandMapping.MapTrigger | Talepreter/Operations/Talepreter.Operations/CommandExtensions.cs:76-104 | the trigger command runs on phase 0 with the TRIGGER tag and the trigger's target, on the page of the command that set it, carrying the trigger's fields as parameters |
| CommandMapping.MapTriggerRoundTrip | Talepreter/Operations/Talepreter.Operations/CommandExtensions.cs:76-104 | a trigger sent as a command is read back as the same trigger when that command is executed, for a 64-bit trigger time |
| Commands.ParamTypeOfCode | Talepreter/Services/Talepreter.TaleSvc/TaleController.cs:499-505 | a parameter-type value maps exactly when it is one of the four named values, to the type with that value; any other throws the missing-mapper exception |
| Commands.ParamTypeRoundTrip | Talepreter/Services/Talepreter.TaleSvc/TaleController.cs:499-505 | every parameter type maps back to itself |
| Commands.FirstNamed | Talepreter/Operations/Talepreter.Operations/CommandExtensions.cs:130 | a parameter is found exactly when one has the name, and it is the first such parameter |
| Commands.FirstNamedAt | Talepreter/Operations/Talepreter.Operations/CommandExtensions.cs:130 | the parameter at a position is found when no earlier parameter has its name |
| Commands.FirstNamedCons | Talepreter/Operations/Talepreter.Operations/CommandExtensions.cs:130 | the first parameter answers a lookup of its own name, and the rest answer any other |
| Commands.FirstNamedConcat | Talepreter/Operations/Talepreter.Operations/CommandExtensions.cs:130 | a lookup in two lists joined looks in the first, then in the second |
| CommandIds.TimelineNamesDistinct | Talepreter/Operations/Talepreter.Operations/CommandExtensions.cs:14-22 | the five timeline parameter names are pairwise different |
| CommandText.TypePrefix | Talepreter/Contracts/Talepreter.Contracts.Orleans/RawCommand.cs:25-32 | only the Set type has no marker, and every marker is at most one character |
| CommandText.TypePrefixInjective | Talepreter/Contracts/Talepreter.Contracts.Orleans/RawCommand.cs:25-32 | the marker tells the four parameter types apart |
| CommandText.ValueTextCases | Talepreter/Contracts/Talepreter.Contracts.Orleans/RawCommand.cs:35-37 | a value with a brace is written unchanged, because both replacements put back what they take out; a value with a comma and no brace is braced; any other is written as it is |
| CommandText.ParamTexts | Talepreter/Contracts/Talepreter.Contracts.Orleans/RawCommand.cs:22-40 | one text per named parameter, in order |
| CommandText.Render | Talepreter/Contracts/Talepreter.Contracts.Orleans/RawCommand.cs:13-54 | the text starts with the back-quoted tag, a colon and the target |
| CommandText.RenderByLoop | Talepreter/Contracts/Talepreter.Contracts.Orleans/RawCommand.cs:13-54 | the loops as written build exactly the separator-joined text of the clauses |
| CommandText.AppendAll | Talepreter/Contracts/Talepreter.Contracts.Orleans/RawCommand.cs:45-50 | appending each item with ", " after all but the last is joining the items with ", " |
| CommandText.JoinEndsWithLast | Talepreter/Contracts/Talepreter.Contracts.Orleans/RawCommand.cs:49 | no separator follows the last item |
| Formatting.Style | Talepreter/Common/Talepreter.Formatting/Formatter.cs:27-43 | exactly the ten defined enumeration values have a style, each mapped to the style carrying that value; any other value is a missing-mapper fault |
| Formatting.StyleRoundTrip | Talepreter/Common/Talepreter.Formatting/Formatter.cs:27-43 | every style is reached again from its own enumeration value |
| Formatting.FramingOf | Talepreter/Common/Talepreter.Formatting/Formatter.cs:8-16 | each delimiter style's expression opens and closes with the same delimiter, whose first character is one the run may not contain, and only markup characters stop a run |
| Formatting.RunEnd | Talepreter/Common/Talepreter.Formatting/Formatter.cs:8-16 | the greedy run `[^d]+` ends at the first stop character or at the end of the text, and holds no stop character |
| Formatting.FindFrom | Talepreter/Common/Talepreter.Formatting/Formatter.cs:104-114 | the leftmost match at or after a position: it matches, no earlier position does, and none is returned only when no later position matches |
| Formatting.IsMatchIffFramed | Talepreter/Common/Talepreter.Formatting/Formatter.cs:8-16 | a style's expression matches a text exactly when the text holds a non-empty run free of the delimiter with the opening delimiter just before it and the closing one just after it |
| Formatting.RunStopsAtClose | Talepreter/Common/Talepreter.Formatting/Formatter.cs:8-16 | the match of a framed run ends exactly where the closing delimiter starts |
| Formatting.IsInFormat | Talepreter/Common/Talepreter.Formatting/Formatter.cs:104-108 | null is never in format; the unset style takes any text; a delimiter style holds iff its expression matches, and C6 also accepts the legacy underline tags |
| Formatting.Trim | Talepreter/Common/Talepreter.Formatting/Formatter.cs:109-114 | null stays null, a text not in format comes back unchanged, and a matched text becomes its first match trimmed of white space |
| Formatting.Format | Talepreter/Common/Talepreter.Formatting/Formatter.cs:115-124 | null stays null, the unset style leaves the text alone, and C6 renders `_x_` in the new format and `<u>x</u>` in the old |
| Formatting.FormatNumber | Talepreter/Common/Talepreter.Formatting/Formatter.cs:120-124 | a number is formatted as its decimal text, and null stays null |
| Formatting.FormatWithCondition | Talepreter/Common/Talepreter.Formatting/Formatter.cs:19-26 | null stays null; the style is the true style iff the condition holds (see ConditionReadsBack) |
| Formatting.GetFormat | Talepreter/Common/Talepreter.Formatting/Formatter.cs:61-75 | the unset style exactly when no style in the order C3, C4, C5, C1, C2, C6, C7, C8, C9 recognises the text, otherwise a style that does |
| Formatting.FirstHit | Talepreter/Common/Talepreter.Formatting/Formatter.cs:61-75 | the position of the first style in the order that recognises the text, with none before it recognising it |
| Formatting.TrimStep | Talepreter/Common/Talepreter.Formatting/Formatter.cs:49-58 | one step of TrimFormatting: a style the text is not in leaves it alone, and one it is in trims it |
| Formatting.SignedText | Talepreter/Common/Talepreter.Formatting/Formatter.cs:80-81 | the `+0;-#` rendering of a non-zero value: its sign, then digits whose value is the magnitude |
| Formatting.FormatModifier | Talepreter/Common/Talepreter.Formatting/Formatter.cs:77-82 | zero is rendered "**0**" |
| Formatting.WrappedMatch | Talepreter/Common/Talepreter.Formatting/Formatter.cs:115-119 | a value free of the stop characters, wrapped in a style's delimiters, is matched and its match is the value |
| Formatting.MissWithout | Talepreter/Common/Talepreter.Formatting/Formatter.cs:104-108 | text without the opening delimiter's first character is never in the style |
| Formatting.MissDouble | Talepreter/Common/Talepreter.Formatting/Formatter.cs:9-12 | a value between single delimiters is not recognised by the doubled style of the same character |
| Formatting.TrimReadsBack | Talepreter/Common/Talepreter.Formatting/Formatter.cs:109-124 | a bare value (non-empty, trimmed, markup-free) formatted in any style is in that style and trims back to itself |
| Formatting.UnsetReadsBack | Talepreter/Common/Talepreter.Formatting/Formatter.cs:17 | without a style, a bare value is its own first line |
| Formatting.WrappedReadsBack | Talepreter/Common/Talepreter.Formatting/Formatter.cs:109-119 | a bare value wrapped in a delimiter style matches it and trims back to itself |
| Formatting.LegacyReadsBack | Talepreter/Common/Talepreter.Formatting/Formatter.cs:178-194 | a bare value in legacy underline tags is in C6 and trims back to itself |
| Formatting.LegacyHasNoDelimiter | Talepreter/Common/Talepreter.Formatting/Formatter.cs:13 | legacy underline tags around a bare value contain no `_`, so C6's new expression misses it |
| Formatting.Rank | Talepreter/Common/Talepreter.Formatting/Formatter.cs:61-75 | each style's position in the recognition order, the unset style after all others |
| Formatting.MissOutsideDelimiters | Talepreter/Common/Talepreter.Formatting/Formatter.cs:104-108 | a style whose opening character a formatted bare value lacks does not recognise it |
| Formatting.EarlierMiss | Talepreter/Common/Talepreter.Formatting/Formatter.cs:61-75 | no style recognised before a bare value's own style recognises the formatted value |
| Formatting.GetFormatIsFirstHit | Talepreter/Common/Talepreter.Formatting/Formatter.cs:61-75 | GetFormat answers a style exactly when the text is in it and in none of the styles before it |
| Formatting.GetFormatReadsBack | Talepreter/Common/Talepreter.Formatting/Formatter.cs:61-75 | GetFormat recognises the style a bare value was formatted in |
| Formatting.TrimEachSkips | Talepreter/Common/Talepreter.Formatting/Formatter.cs:44-60 | styles the text is in none of leave it unchanged |
| Formatting.TrimEachHit | Talepreter/Common/Talepreter.Formatting/Formatter.cs:44-60 | when only one style of the run recognises the text, and none after it recognises its trimmed form, the run trims exactly as that style does |
| Formatting.BareMisses | Talepreter/Common/Talepreter.Formatting/Formatter.cs:104-108 | no delimiter style recognises a bare value |
| Formatting.TrimFormattingKeepsBare | Talepreter/Common/Talepreter.Formatting/Formatter.cs:44-60 | TrimFormatting leaves a bare value unchanged |
| Formatting.TrimFormattingUnwraps | Talepreter/Common/Talepreter.Formatting/Formatter.cs:44-60 | TrimFormatting turns a bare value formatted in a delimiter style back into the value |
| Formatting.TrimFormattingReadsBack | Talepreter/Common/Talepreter.Formatting/Formatter.cs:44-60 | TrimFormatting undoes Format on a bare value, whatever the style |
| Formatting.SignedTextIsBare | Talepreter/Common/Talepreter.Formatting/Formatter.cs:80-81 | a signed number contains no markup and no white space |
| Formatting.ModifierReadsBack | Talepreter/Common/Talepreter.Formatting/Formatter.cs:77-82 | a formatted modifier is recognised as C3 for zero, C8 when (value > 0) differs from negativeBad, C7 otherwise, and trims back to its signed number |
| Formatting.ConditionReadsBack | Talepreter/Common/Talepreter.Formatting/Formatter.cs:19-22 | FormatWithCondition on a bare value is recognised in the true style iff the condition holds and trims back to the value |
| Formatting.NumberReadsBack | Talepreter/Common/Talepreter.Formatting/Formatter.cs:120-124 | a formatted number is recognised in its style and its trimmed text parses back to the number |
| Inlines.Tag | Talepreter/GUI/Talepreter.GUI.Common/FormattedTextHelper.cs:8-20 | each style's tag is its non-empty opening delimiter; the unset style has none |
| Inlines.Opener | Talepreter/GUI/Talepreter.GUI.Common/FormattedTextHelper.cs:69-108 | a character opens a style only where that style's tag occurs: a star, tilde or equals sign doubled opens C3, C5 or C4, a single star or tilde opens C2 or C8, and a caret, underscore, bar or backtick opens C7, C6, C9 or C1 |
| Inlines.OpenerIsLongestTag | Talepreter/GUI/Talepreter.GUI.Common/FormattedTextHelper.cs:72-95 | where a tag starts, the longest tag there opens, so a doubled star or tilde is never read as two single ones |
| Inlines.PlainOpensNothing | Talepreter/GUI/Talepreter.GUI.Common/FormattedTextHelper.cs:94-107 | any character that is not markup, and a single `=`, opens nothing and is kept as text |
| Inlines.Flush | Talepreter/GUI/Talepreter.GUI.Common/FormattedTextHelper.cs:111-112 | gathered text becomes a run only when it is not empty |
| Inlines.FindInlines | Talepreter/GUI/Talepreter.GUI.Common/FormattedTextHelper.cs:59-135 | a parsed line rendered back with its tags is the line itself, its runs are non-empty and never adjacent, and the empty line gives no elements |
| Inlines.Scan | Talepreter/GUI/Talepreter.GUI.Common/FormattedTextHelper.cs:63-134 | the reading loop keeps every character: the elements it yields render to the gathered text plus the rest of the line |
| Inlines.Tagged | Talepreter/GUI/Talepreter.GUI.Common/FormattedTextHelper.cs:110-123 | a tagged section ends at the next occurrence of its tag; it is an error when there is none or when it is empty, and otherwise a successful reading renders back to the gathered text and the rest of the line and is well formed |
| Inlines.Closed | Talepreter/GUI/Talepreter.GUI.Common/FormattedTextHelper.cs:121-130 | a closed section read recursively, followed by the rest of the line, renders back to the gathered text and the rest of the line and is well formed |
| Inlines.RenderConcat | Talepreter/GUI/Talepreter.GUI.Common/FormattedTextHelper.cs:59-135 | rendering distributes over concatenation of element lists |
| Inlines.RenderPiece | Talepreter/GUI/Talepreter.GUI.Common/FormattedTextHelper.cs:110-130 | the markup of gathered text followed by a span is the text, the tag, the span's content and the tag |
| Inlines.RenderFlush | Talepreter/GUI/Talepreter.GUI.Common/FormattedTextHelper.cs:111 | flushing gathered text loses none of it |
| Inlines.SpanSplit | Talepreter/GUI/Talepreter.GUI.Common/FormattedTextHelper.cs:117-124 | a span found at a position splits the line into opening tag, content, closing tag and the rest |
| Inlines.SpanRenders | Talepreter/GUI/Talepreter.GUI.Common/FormattedTextHelper.cs:110-130 | the elements built for a span render back to the gathered text plus the line from the span onwards |
| Inlines.RenderLength | Talepreter/GUI/Talepreter.GUI.Common/FormattedTextHelper.cs:104-130 | the markup of elements is as long as their plain text plus their tag characters |
| Inlines.RenderOneLength | Talepreter/GUI/Talepreter.GUI.Common/FormattedTextHelper.cs:104-130 | the same for one element |
| Inlines.PlainTextOfLine | Talepreter/GUI/Talepreter.GUI.Common/FormattedTextHelper.cs:104-130 | the plain text of a parsed line is the line less exactly the tag characters the parser consumed |
| Inlines.SoundJoin | Talepreter/GUI/Talepreter.GUI.Common/FormattedTextHelper.cs:110-134 | gathered text, a span and well-formed elements after it are again well formed |
| Inlines.PlainRun | Talepreter/GUI/Talepreter.GUI.Common/FormattedTextHelper.cs:104-107 | plain characters only gather: reading past them is reading from after them with them added to the text |
| Inlines.PlainLine | Talepreter/GUI/Talepreter.GUI.Common/FormattedTextHelper.cs:133-134 | a line without markup is one run of the whole line |
| Inlines.OpenerOfTag | Talepreter/GUI/Talepreter.GUI.Common/FormattedTextHelper.cs:69-108 | a style's tag at a position opens that style, unless a single star or tilde is doubled there |
| Inlines.TagIsMarkup | Talepreter/GUI/Talepreter.GUI.Common/FormattedTextHelper.cs:8-20 | the first character of every tag is a markup character |
| Inlines.ScanUnclosed | Talepreter/GUI/Talepreter.GUI.Common/FormattedTextHelper.cs:117-119 | a tag whose closing tag never follows raises the unclosed-tag error |
| Inlines.UnclosedAt | Talepreter/GUI/Talepreter.GUI.Common/FormattedTextHelper.cs:117-119 | a tag whose first character never comes again raises the unclosed-tag error |
| Inlines.UnclosedFails | Talepreter/GUI/Talepreter.GUI.Common/FormattedTextHelper.cs:117-119 | plain text, then a tag that the rest of the line never closes: the whole line fails with the unclosed-tag error |
| Inlines.EmptySectionFails | Talepreter/GUI/Talepreter.GUI.Common/FormattedTextHelper.cs:122-123 | plain text, then a tag closed straight after it opens: the line fails with the empty-section error |
| Inlines.EmptyLayout | Talepreter/GUI/Talepreter.GUI.Common/FormattedTextHelper.cs:122-123 | where the parts of a line with an empty section lie |
| Inlines.EmptyAt | Talepreter/GUI/Talepreter.GUI.Common/FormattedTextHelper.cs:122-123 | a tag followed at once by the same tag raises the empty-section error |
| Inlines.ClosedAfter | Talepreter/GUI/Talepreter.GUI.Common/FormattedTextHelper.cs:118 | the closing tag of a span around plain text is the first occurrence after its content |
| Inlines.ScanSpan | Talepreter/GUI/Talepreter.GUI.Common/FormattedTextHelper.cs:110-131 | a span whose content and remainder both parse yields the gathered run, the span and the remainder's elements |
| Inlines.Pieces | Talepreter/GUI/Talepreter.GUI.Common/FormattedTextHelper.cs:122-124 | the three parts of a stretch of a line made of three strings |
| Inlines.SpanFacts | Talepreter/GUI/Talepreter.GUI.Common/FormattedTextHelper.cs:117-124 | at a span around plain text the tag opens its style and closes right after the text |
| Inlines.SpanReady | Talepreter/GUI/Talepreter.GUI.Common/FormattedTextHelper.cs:117-129 | at a span around plain text the tag opens its style, the next tag closes it right after the text, and the text reads as one run |
| Inlines.SpanOpens | Talepreter/GUI/Talepreter.GUI.Common/FormattedTextHelper.cs:69-108 | the opening tag of a span around plain text opens that span's style |
| Inlines.SpanParses | Talepreter/GUI/Talepreter.GUI.Common/FormattedTextHelper.cs:110-131 | a span around plain text reads back as that span with one run of the text |
| Inlines.Underlines | Talepreter/GUI/Talepreter.GUI.Common/FormattedTextHelper.cs:38 | the swap of legacy underline tags leaves a line with no '<' unchanged |
| Inlines.FormSpan | Talepreter/GUI/Talepreter.GUI.Common/FormattedTextHelper.cs:44-57 | the elements of a line after the legacy swap render back to the swapped line, and a line with no '<' parses exactly as FindInlines parses it |
| Inlines.Body | Talepreter/GUI/Talepreter.GUI.Common/FormattedTextHelper.cs:28-33 | a line starting with "- " loses exactly that marker, and any other line is kept whole |
| Inlines.FormParagraph | Talepreter/GUI/Talepreter.GUI.Common/FormattedTextHelper.cs:22-42 | the paragraph keeps the original line as its tag, is indented iff the line starts with "- ", and holds the elements of the body after the legacy swap; it fails exactly when those fail |
| Inlines.DashKept | Talepreter/GUI/Talepreter.GUI.Common/FormattedTextHelper.cs:38-40 | the swap leaves the list marker in front, so skipping it before or after the swap is the same |
| Inlines.LegacyUnderline | Talepreter/GUI/Talepreter.GUI.Common/FormattedTextHelper.cs:38 | legacy underline tags around text without a '<' become underline delimiters |
| Inlines.PlainHasNoAngle | Talepreter/GUI/Talepreter.GUI.Common/FormattedTextHelper.cs:38 | plain text holds no '<' |
| Inlines.OneSpanParses | Talepreter/GUI/Talepreter.GUI.Common/FormattedTextHelper.cs:59-135 | a span around plain text, written with its tags, reads back as exactly that span |
| Inlines.OneSpanScans | Talepreter/GUI/Talepreter.GUI.Common/FormattedTextHelper.cs:63-131 | the reading of such a line from its start |
| Inlines.TaggedHasNoAngle | Talepreter/GUI/Talepreter.GUI.Common/FormattedTextHelper.cs:38 | tags hold no '<', so a tagged plain text has none either |
| Inlines.FormattedValueParses | Talepreter/GUI/Talepreter.GUI.Common/FormattedTextHelper.cs:44-57 | whatever the formatter writes around plain text, in either underline format, is read back by FormSpan as one span of that style |
| Text.DigitChar | Talepreter/Contracts/Talepreter.Contracts.Orleans.Grains/GrainFetcher.cs:59 | the character of a decimal digit is a digit |
| Text.DigitValue | Talepreter/Common/Talepreter.Common/ConversionExtensions.cs:9 | a digit character's value is below ten |
| Text.DigitRoundTrip | Talepreter/Common/Talepreter.Common/ConversionExtensions.cs:9 | a digit's character reads back as the digit |
| Text.NatToString | Talepreter/Contracts/Talepreter.Contracts.Orleans.Grains/GrainFetcher.cs:59 | a natural number's decimal text is non-empty, all digits, and has no leading zero |
| Text.IntToString | Talepreter/Contracts/Talepreter.Contracts.Orleans.Grains/GrainFetcher.cs:59 | an integer's decimal text is its digits, led by '-' exactly when it is negative |
| Text.ParseInt | Talepreter/Common/Talepreter.Common/ConversionExtensions.cs:9 | text that parses without a leading '-' gives a non-negative number |
| Text.ParseLong | Talepreter/Common/Talepreter.Common/ConversionExtensions.cs:12 | long.Parse succeeds exactly when the text is a decimal number inside the 64-bit range, and then gives that number |
| Text.NatToStringValue | Talepreter/Contracts/Talepreter.Contracts.Orleans.Grains/GrainFetcher.cs:59 | the digits of a natural number's text are worth the number |
| Text.IntStringRoundTrip | Talepreter/Common/Talepreter.Common/ConversionExtensions.cs:7-11 | an integer's decimal text parses back to the integer |
| Text.LongStringRoundTrip | Talepreter/Common/Talepreter.Common/ConversionExtensions.cs:12 | a 64-bit value's decimal text parses back to it with long.Parse |
| Text.IntToStringInjective | Talepreter/Contracts/Talepreter.Contracts.Orleans.Grains/GrainFetcher.cs:54-60 | distinct integers have distinct decimal texts, so distinct ids give distinct grain keys |
| Text.Lower | Talepreter/Common/Talepreter.Common.RabbitMQ/TalepreterTopology.cs:17 | lowering keeps the length and lowers each ASCII letter in place |
| Text.IndexOf | Talepreter/GUI/Talepreter.GUI.Common/FormattedTextHelper.cs:118 | the first occurrence of a pattern at or after a position, with none before it; none exactly when the pattern occurs nowhere from there |
| Text.IndexOfAbsent | Talepreter/GUI/Talepreter.GUI.Common/FormattedTextHelper.cs:118-119 | a pattern whose first character does not occur from a position on is not found |
| Text.TrimStart | Talepreter/Common/Talepreter.Formatting/Formatter.cs:113 | leading white space removed: the result is a suffix, starts with no white space, and only white space was dropped |
| Text.TrimEnd | Talepreter/Common/Talepreter.Formatting/Formatter.cs:113 | trailing white space removed: the result is a prefix, ends with no white space, and only white space was dropped |
| Text.Trim | Talepreter/Common/Talepreter.Formatting/Formatter.cs:113 | a trimmed text neither starts nor ends with white space |
| Text.TrimIdentity | Talepreter/Common/Talepreter.Formatting/Formatter.cs:113 | trimming a text that is already trimmed changes nothing |
| Text.Join | Talepreter/Contracts/Talepreter.Contracts.Orleans/RawCommand.cs:45-50 | no parts join to the empty text and one part joins to itself |
| Text.JoinSnoc | Talepreter/Contracts/Talepreter.Contracts.Orleans/RawCommand.cs:45-50 | appending a part appends the separator and the part |
| Text.ReplaceChar | Talepreter/Contracts/Talepreter.Contracts.Orleans/RawCommand.cs:35 | a text without the character is unchanged |
| Text.ReplaceByItself | Talepreter/Contracts/Talepreter.Contracts.Orleans/RawCommand.cs:35 | replacing a brace by itself changes nothing |
| Text.Replace | Talepreter/GUI/Talepreter.GUI.Common/FormattedTextHelper.cs:38 | a text without the pattern's first character is unchanged |
| Text.ReplaceKeepsPrefix | Talepreter/GUI/Talepreter.GUI.Common/FormattedTextHelper.cs:38 | replacing after a prefix that holds no pattern character keeps the prefix |
| Text.ReplaceAtStart | Talepreter/GUI/Talepreter.GUI.Common/FormattedTextHelper.cs:38 | a pattern at the start is replaced and the rest is replaced in turn |
| Text.ReplaceBySelf | Talepreter/GUI/Talepreter.GUI.Common/FormattedTextHelper.cs:38 | replacing a pattern by itself changes nothing |
| Guids.HexChar | Talepreter/Contracts/Talepreter.Contracts.Orleans.Grains/GrainFetcher.cs:44 | a Guid digit is written as a lower-case hexadecimal character |
| Guids.HexValue | Talepreter/Services/Talepreter.TaleSvc/Grains/TaleGrain.cs:27 | a character denotes a hexadecimal digit exactly when it is a decimal digit or a letter a-f in either case |
| Guids.NShape | Talepreter/Common/Talepreter.Common.RabbitMQ/TalepreterTopology.cs:25-27 | the N form of a Guid is already lower case and holds no '.', so lowering a tale-specific name leaves the id alone |
| Services.ServiceNameInjective | Talepreter/Common/Talepreter.Extensions/ServiceIdentifier.cs:24-34 | different service ids have different names |
| Services.Map | Talepreter/Operations/Talepreter.Operations/EnumExtensions.cs:9-17 | exactly the four entity services map, each to the responsible service of the same name; every other id is a missing-mapper fault |
| Services.MapInjective | Talepreter/Operations/Talepreter.Operations/EnumExtensions.cs:9-17 | different services map to different responsible services |
| Services.MapIsByName | Talepreter/Operations/Talepreter.Operations/EnumExtensions.cs:9-17 | the mapping goes by name: each entity service's responsible value is one less than its own value, never equal to it |
| Topology.LowerIdentity | Talepreter/Common/Talepreter.Common.RabbitMQ/TalepreterTopology.cs:25-27 | lowering text without upper-case letters changes nothing |
| Topology.WorkQueue | Talepreter/Common/Talepreter.Common.RabbitMQ/TalepreterTopology.cs:17 | a service's work queue starts with "work-" and holds no upper-case letter |
| Topology.WorkRoutingKey | Talepreter/Common/Talepreter.Common.RabbitMQ/TalepreterTopology.cs:34 | a service's work routing key is exactly its work queue's name, so a request routed by it reaches that queue |
| Topology.WorkQueueInjective | Talepreter/Common/Talepreter.Common.RabbitMQ/TalepreterTopology.cs:17 | different services have different work queues |
| Topology.ServiceNameShape | Talepreter/Common/Talepreter.Extensions/ServiceIdentifier.cs:24-34 | two service names of the same length and the same first letter, whatever its case, name the same service |
| Topology.ChannelPrefix | Talepreter/Common/Talepreter.Common.RabbitMQ/TalepreterTopology.cs:38-41 | each per-tale routing-key family's prefix is lower case and holds no '.' |
| Topology.TaleRoutingKey | Talepreter/Common/Talepreter.Common.RabbitMQ/TalepreterTopology.cs:38-41 | a per-tale routing key is the family prefix, '.', and the tale id's N form, which lowering leaves unchanged |
| Topology.TaleKeyMatchesFilter | Talepreter/Common/Talepreter.Common.RabbitMQ/TalepreterTopology.cs:38-47 | every per-tale key matches its family's "prefix.*" filter |
| Topology.FamiliesDoNotOverlap | Talepreter/Common/Talepreter.Common.RabbitMQ/TalepreterTopology.cs:38-47 | a key of one family never matches another family's filter |
| Topology.TaleRoutingKeyInjective | Talepreter/Common/Talepreter.Common.RabbitMQ/TalepreterTopology.cs:38-41 | different tales get different keys in the same family |
| Topology.QueueBase | Talepreter/Common/Talepreter.Common.RabbitMQ/TalepreterTopology.cs:20-27 | the per-tale queues' base names are lower case |
| Topology.TaleQueueName | Talepreter/Common/Talepreter.Common.RabbitMQ/TalepreterTopology.cs:25-27 | a per-tale queue name is its base, '.', and the tale id's N form, which lowering leaves unchanged |
| Triggers.TriggerParams | Talepreter/Contracts/Talepreter.Contracts.Orleans/RawTrigger.cs:27-31 | five Set parameters named id, type, parameter, grain and at, in that order, carrying the trigger's fields |
| Triggers.ToCommand | Talepreter/Contracts/Talepreter.Contracts.Orleans/RawTrigger.cs:18-33 | a TRIGGER command for the trigger's target, without parent, comment or array parameters, whose "at" is the decimal time |
| Triggers.TriggerParamsFound | Talepreter/Contracts/Talepreter.Contracts.Orleans/RawTrigger.cs:27-31 | every field of the trigger is found again in the command by its parameter's name |
| Triggers.Describe | Talepreter/Contracts/Talepreter.Contracts.Orleans/RawTrigger.cs:13-16 | the description starts with the TRIGGER tag, the target and the grain |
| Parallel.Failures | Talepreter/Services/Talepreter.TaleSvc/ParallelRunner.cs:27-31 | the exceptions of the failed tasks: none exactly when every task completed |
| Parallel.CountAll | Talepreter/Services/Talepreter.TaleSvc/ParallelRunner.cs:17-35 | the loop adds one runner per task, one success per completed task, one failure and its exception per failed task |
| Parallel.RunInParallel | Talepreter/Services/Talepreter.TaleSvc/ParallelRunner.cs:14-38 | the failure count is reset for the batch while the runners, successes and errors accumulate, and the result is true iff the success count differs from the number of runners |
| Parallel.FreshRunnerCounts | Talepreter/Services/Talepreter.TaleSvc/ParallelRunner.cs:14-38 | on a new runner every task is counted once, there is one error per failure, and the result is true iff some task threw |
| Parallel.ReusedRunnerKeepsFailing | Talepreter/Services/Talepreter.TaleSvc/ParallelRunner.cs:14-38 | a runner that has had a failure returns true for every later batch, even one whose tasks all complete |
| Parallel.ReusedRunnerExample | Talepreter/Services/Talepreter.TaleSvc/ParallelRunner.cs:14-38 | a runner whose first task threw returns true for a second successful batch while that batch's failure count is zero |
| Parallel.FirstFailureIsFirstThrown | Talepreter/Services/Talepreter.TaleSvc/ParallelRunner.cs:27-31 | the first recorded exception is the one of the first task that threw |
| Parallel.FailIfAny | Talepreter/Services/Talepreter.TaleSvc/Grains/PublishGrain.cs:59-60 | the caller's check after a batch fails exactly when some task threw, with the message followed by the first thrown exception's message |
| Ordering.Range | Talepreter/Services/Talepreter.TaleSvc/Grains/PublishGrain.cs:411-415 | the keys 0 to n - 1 and nothing else |
| Ordering.RangeSize | Talepreter/Services/Talepreter.TaleSvc/Grains/PublishGrain.cs:411-415 | the keys 0 to n - 1 are n keys |
| Ordering.DenseAddNext | Talepreter/Services/Talepreter.TaleSvc/Grains/PublishGrain.cs:103-129 | adding the next key to the keys 0 to n - 1 gives the keys 0 to n |
| Ordering.MinExists | Talepreter/Services/Talepreter.TaleSvc/Grains/PublishGrain.cs:214-244 | a non-empty set of keys has a smallest one |
| Ordering.Min | Talepreter/Services/Talepreter.TaleSvc/Grains/PublishGrain.cs:214-244 | the smallest key of a non-empty set |
| Ordering.MaxExists | Talepreter/Services/Talepreter.TaleSvc/Grains/PublishGrain.cs:36-40 | a non-empty set of keys has a largest one |
| Ordering.Max | Talepreter/Services/Talepreter.TaleSvc/Grains/PublishGrain.cs:36-40 | the largest key of a non-empty set |
| Ordering.Ascending | Talepreter/Services/Talepreter.TaleSvc/Grains/ChapterGrain.cs:305 | the keys a loop visits: strictly ascending, each key exactly once and nothing else |
| TaskStore.EmptyStoreKeyed | Talepreter/DB/Talepreter.Data.BaseTypes/TaskDbContextBase.cs:89-99 | the empty store files every command under its own sub-index |
| TaskStore.CommandKeyUnique | Talepreter/DB/Talepreter.Data.BaseTypes/TaskDbContextBase.cs:91 | in a keyed store no two command rows share the composite primary key |
| TaskStore.AwaitingCommands | Talepreter/DB/Talepreter.Data.BaseTypes/TaskDbContextBase.cs:55-56 | exactly the command rows of one tale version, chapter, page and phase |
| TaskStore.PagePhases | Talepreter/DB/Talepreter.Data.BaseTypes/TaskDbContextBase.cs:52-53 | exactly the phases that have commands waiting on the page |
| TaskStore.MaxPhase | Talepreter/DB/Talepreter.Data.BaseTypes/TaskDbContextBase.cs:52-53 | the largest phase waiting on the page, or the default 0 when the page has no command |
| TaskStore.NothingAboveMaxPhase | Talepreter/DB/Talepreter.Data.BaseTypes/TaskDbContextBase.cs:52-53 | no phase above the maximum has commands waiting, and when the page has commands the maximum phase has some |
| TaskStore.ClosingPhaseOnlyHasNegativeMax | Talepreter/DB/Talepreter.Data.BaseTypes/TaskDbContextBase.cs:52-53 | a page whose only commands are in the closing phase -1 has maximum -1, not the default 0 |
| TaskStore.DeletePage | Talepreter/Operations/Talepreter.Operations/Workload/ProcessTask.cs:62 | exactly the rows of the page are deleted, every other row and every trigger stays as it was, and the store stays keyed |
| TaskStore.Filed | Talepreter/DB/Talepreter.Data.BaseTypes/TaskDbContextBase.cs:99 | a stored row carries the sub-index it was filed under |
| TaskStore.Inserted | Talepreter/DB/Talepreter.Data.BaseTypes/TaskDbContextBase.cs:99 | an insert of n rows writes n rows under the n sub-indexes the sequence hands out next, each row carrying its own |
| TaskStore.InsertedLands | Talepreter/DB/Talepreter.Data.BaseTypes/TaskDbContextBase.cs:99 | whatever the table held before, every inserted row is found at its own sub-index |
| TaskStore.AddRange | Talepreter/Operations/Talepreter.Operations/Workload/ProcessTask.cs:210-211 | inserting keeps the store keyed, adds exactly one row per inserted command at its fresh sub-index, and leaves earlier rows and the triggers alone |
| TaskStore.InsertedAt | Talepreter/DB/Talepreter.Data.BaseTypes/TaskDbContextBase.cs:99 | the i-th row of an insert is filed at the i-th fresh sub-index |
| TaskStore.FreshRowsKeyed | Talepreter/DB/Talepreter.Data.BaseTypes/TaskDbContextBase.cs:99 | rows filed under their own fresh sub-indexes keep the store keyed and overwrite nothing |
| TaskStore.AppendCommand | Talepreter/DB/Talepreter.Data.DbContext.Base/TaskDbContextBase.cs:60-63 | appending keeps the store keyed and adds exactly one row, at the next sub-index, leaving the others alone |
| TaskStore.Purge | Talepreter/DB/Talepreter.Data.BaseTypes/TaskDbContextBase.cs:38-50 | without a version every command and trigger of the tale goes, with one only those of that version; everything else stays as it was |
| TaskStore.PurgeTaleSubsumesVersion | Talepreter/DB/Talepreter.Data.BaseTypes/TaskDbContextBase.cs:38-50 | purging a version and then the whole tale is the same as purging the tale |
| TaskStore.ActiveTriggersBefore | Talepreter/DB/Talepreter.Data.BaseTypes/TaskDbContextBase.cs:58-59 | exactly the triggers of the version still in state Set whose time is strictly before the date |
| TaskStore.DeleteTrigger | Talepreter/DB/Talepreter.Data.BaseTypes/TaskDbContextBase.cs:62-65 | exactly the trigger with that key goes, and the count is 1 iff it existed |
| TaskStore.ShiftTrigger | Talepreter/DB/Talepreter.Data.BaseTypes/TaskDbContextBase.cs:67-71 | the trigger with that key moves to the new time only if it was due earlier, the count is 1 iff it moved, and no trigger's time goes down |
| TaskStore.ShiftTriggerIdempotent | Talepreter/DB/Talepreter.Data.BaseTypes/TaskDbContextBase.cs:67-71 | shifting a second time to the same time changes nothing and counts 0 |
| TaskStore.UpdateTrigger | Talepreter/DB/Talepreter.Data.BaseTypes/TaskDbContextBase.cs:73-77 | only the trigger with that key gets the new state, and the count is 1 iff it existed |
| TaskStore.FiredTriggerInactive | Talepreter/DB/Talepreter.Data.BaseTypes/TaskDbContextBase.cs:58-59 | a trigger given any state other than Set is no longer among the active triggers |
| EntityGrains.ErrorOf | Talepreter/Operations/Talepreter.Operations.Grains/CommandGrain.cs:50-55 | the error information of an exception is its class name, message and stack trace |
| EntityGrains.Settle | Talepreter/Operations/Talepreter.Operations.Grains/CommandGrain.cs:38-87 | a cancellation is a time-out without error information, a validation exception blocks, every other exception faults, and each reply carries the failed command |
| EntityGrains.Guard | Talepreter/Operations/Talepreter.Operations.Grains/CommandGrain.cs:26-27 | the guard passes exactly when both ids are non-empty, the command is present and chapter and page are not negative, and otherwise throws a grain-operation exception |
| EntityGrains.ExecuteCommand | Talepreter/Operations/Talepreter.Operations.Grains/CommandGrain.cs:23-92 | an invalid context throws; otherwise the reply is a success without error or command exactly when the executor completed before the token fired, a time-out when the token fired after it, and the catch clause's reply when it threw |
| EntityGrains.CommandMarkFollowsRun | Talepreter/Operations/Talepreter.Operations.Grains/CommandGrain.cs:31-87 | the worker marks the command row Done exactly when the executor completed before the token fired, and Failed otherwise |
| EntityGrains.TriggerStatus | Talepreter/Operations/Talepreter.Operations.Grains/TriggeredCommandGrain.cs:34-39 | a trigger left Set or Triggered succeeds, and one left Faulted or Invalid faults |
| EntityGrains.ExecuteTrigger | Talepreter/Operations/Talepreter.Operations.Grains/TriggeredCommandGrain.cs:18-106 | an invalid context throws; a fired token gives a time-out and leaves the store alone; a finished trigger is stored with its new state unless it stays Set; a failure stores it Faulted and replies as the command grain does, with the trigger as a command |
| EntityGrains.TriggerFiresAgainOnlyIfSet | Talepreter/Operations/Talepreter.Operations.Grains/TriggeredCommandGrain.cs:41-50 | after a run that did not leave the trigger Set, the trigger is no longer among the active triggers |
| ExecutorBase.Apply | Talepreter/Operations/Talepreter.Operations/CommandExecutorBase.cs:152-163 | no parameter gives the default; a type outside the four throws the unrecognized-type error; otherwise the handler for the type makes the value, and a missing handler is a validation error naming the action |
| ExecutorBase.ApplyDirect | Talepreter/Operations/Talepreter.Operations/CommandExecutorBase.cs:140-151 | no parameter leaves the state alone; a type outside the four throws the unrecognized-type error; otherwise the handler for the type acts on the state, and a missing handler is a validation error naming the action |
| ExecutorBase.AsActions | Talepreter/Operations/Talepreter.Operations/CommandExecutorBase.cs:140-163 | each value handler becomes an action exactly where the handler exists |
| ExecutorBase.ApplyIsApplyDirect | Talepreter/Operations/Talepreter.Operations/CommandExecutorBase.cs:140-163 | the two dispatchers agree: applying a parameter is letting its handler replace the value as an action, and the same parameters are refused by both |
| ExecutorBase.Append | Talepreter/Operations/Talepreter.Operations/CommandExecutorBase.cs:138 | the array keeps its entries and gets the new entry at its end |
| ExecutorBase.DocumentId | Talepreter/Operations/Talepreter.Operations/CommandExecutorBase.cs:79 | a document id is the type name, ':' and the name |
| ExecutorBase.DocumentIdInjective | Talepreter/Operations/Talepreter.Operations/CommandExecutorBase.cs:79 | when type names hold no ':', an id names exactly one type and one document |
| ExecutorBase.Lookup | Talepreter/Operations/Talepreter.Operations/CommandExecutorBase.cs:77-99 | a required missing document throws the not-found error before the token is looked at; a fired token then cancels; otherwise the document is returned when stored |
| ExecutorBase.Fetch | Talepreter/Operations/Talepreter.Operations/CommandExecutorBase.cs:77-84 | the document "type:name" is returned when stored; a required missing one throws "type name not found"; a fired token cancels |
| ExecutorBase.FetchById | Talepreter/Operations/Talepreter.Operations/CommandExecutorBase.cs:85-92 | the document "type:id" is returned when stored; a required missing one throws "type #id not found"; a fired token cancels |
| ExecutorBase.FetchExtension | Talepreter/Operations/Talepreter.Operations/CommandExecutorBase.cs:93-99 | the document "docType:name" is returned when stored; a required missing one throws naming the extension's class; the token is not looked at |
| ExecutorBase.Finalize | Talepreter/Operations/Talepreter.Operations/CommandExecutorBase.cs:41-66 | a token fired before the write leaves the documents alone; otherwise the document, after the executor's last touches, is stamped with the context's page and overwrites the stored one, even when the token fires after the write |
| ExecutorBase.FinalizeThenFetch | Talepreter/Operations/Talepreter.Operations/CommandExecutorBase.cs:41-84 | a document saved by Finalize is what the next fetch returns, carrying the page that saved it, and every other document is untouched |
| ExecuteTask.MapToCommand | Talepreter/Operations/Talepreter.Operations/Workload/ExecuteTask.cs:324-348 | the grain receives the row's tag and target and the raw data's parent, comment, array and named parameters unchanged |
| ExecuteTask.MapToCommandKeepsStored | Talepreter/Operations/Talepreter.Operations/Workload/ExecuteTask.cs:324-348 | a row whose tag and target columns agree with its raw data reaches the grain as exactly the stored command |
| ExecuteTask.NamedValue | Talepreter/Operations/Talepreter.Operations/Workload/ExecuteTask.cs:307-311 | the lookup succeeds exactly when some parameter has the name, gives the first such value, and otherwise is the invalid-operation error of First |
| ExecuteTask.MapToTrigger | Talepreter/Operations/Talepreter.Operations/Workload/ExecuteTask.cs:305-322 | a trigger is read exactly when all five named parameters are present and "at" parses as a 64-bit number; its target is the row's |
| ExecuteTask.MapToTriggerRoundTrip | Talepreter/Operations/Talepreter.Operations/Workload/ExecuteTask.cs:305-322 | a trigger stored as a command is read back as the same trigger when it runs |
| ExecuteTask.Route | Talepreter/Operations/Talepreter.Operations/Workload/ExecuteTask.cs:245-270 | rows not tagged TRIGGER go to the command grain with the mapped command; a trigger row without a grain parameter fails with "Trigger has no grain type set"; a trigger dispatch carries the mapped trigger and its grain type |
| ExecuteTask.MarkOf | Talepreter/Operations/Talepreter.Operations/Workload/ExecuteTask.cs:280-285 | the row is marked done exactly for Success and not-run exactly for None; every other status is an error |
| ExecuteTask.ExecuteCommand | Talepreter/Operations/Talepreter.Operations/Workload/ExecuteTask.cs:232-303 | a fired token cancels the task and leaves the row alone; any later exception marks the row failed and is rethrown carrying the command text; a null reply marks the row failed with status None; the row is done exactly when the reply is a success |
| ExecuteTask.FirstFailing | Talepreter/Operations/Talepreter.Operations/Workload/ExecuteTask.cs:160 | the position is the first response that is not a success, every response before it being one |
| ExecuteTask.FirstFailingAfterSuccesses | Talepreter/Operations/Talepreter.Operations/Workload/ExecuteTask.cs:160 | after a run of successes the first failure is found in what follows, shifted by their count |
| ExecuteTask.Absorb | Talepreter/Operations/Talepreter.Operations/Workload/ExecuteTask.cs:146-150 | a phase adds its size to the task count and its faulted, timed-out and successful counts, results and errors to the shared manager's |
| ExecuteTask.PhaseVerdict | Talepreter/Operations/Talepreter.Operations/Workload/ExecuteTask.cs:154-165 | Faulted if any task faulted, else Timedout if any timed out, else Blocked if not every task succeeded, else the first non-success reply status; Success exactly when all counters and replies are clean |
| ExecuteTask.CumulativeVerdictIsPerPhase | Talepreter/Operations/Talepreter.Operations/Workload/ExecuteTask.cs:141-166 | after phases that all succeeded, the verdict on the cumulative counters equals the verdict on the phase's own batch |
| ExecuteTask.AbsorbedVerdict | Talepreter/Operations/Talepreter.Operations/Workload/ExecuteTask.cs:141-166 | after clean phases the verdict is the one the phase's batch alone gives |
| ExecuteTask.TalliedPhaseNeverStalls | Talepreter/Operations/Talepreter.Operations/Workload/ExecuteTask.cs:163 | when the batch accounts for every command the Blocked branch is never taken: the verdict is Success, Faulted, Timedout or some reply's status |
| ExecuteTask.ResultNotice | Talepreter/Operations/Talepreter.Operations/Workload/ExecuteTask.cs:178-203 | the event is Timeout exactly for Cancelled or Timedout replies and Faulted otherwise, carries the reply's error or the no-message text and the command text or the no-info text |
| ExecuteTask.ErrorNotice | Talepreter/Operations/Talepreter.Operations/Workload/ExecuteTask.cs:209-227 | a command exception becomes a Faulted event with its message and command data |
| ExecuteTask.ResultNotices | Talepreter/Operations/Talepreter.Operations/Workload/ExecuteTask.cs:176-205 | at most one event per reply and none when all replies succeeded |
| ExecuteTask.ErrorNotices | Talepreter/Operations/Talepreter.Operations/Workload/ExecuteTask.cs:207-229 | one event per command exception, in order, each the exception's own |
| ExecuteTask.PublishedAsWritten | Talepreter/Operations/Talepreter.Operations/Workload/ExecuteTask.cs:174-230 | as written only non-success replies are published; with no replies nothing is published |
| ExecuteTask.Published | Talepreter/Operations/Talepreter.Operations/Workload/ExecuteTask.cs:174-230 | the corrected publishing adds one event per command exception after the reply events |
| ExecuteTask.PublishedAsWrittenDropsErrors | Talepreter/Operations/Talepreter.Operations/Workload/ExecuteTask.cs:207-229 | a failed command exception leaves no event as written, while the corrected version publishes it |
| ExecuteTask.PublishedReportsEveryError | Talepreter/Operations/Talepreter.Operations/Workload/ExecuteTask.cs:207-229 | with the correction every command exception is published, once, in collection order |
| ExecuteTask.Thrown | Talepreter/Operations/Talepreter.Operations/Workload/ExecuteTask.cs:64-99 | the token check escapes as a cancellation; a failed read, phase run or highest-phase read escapes as its own fault |
| ExecuteTask.RunPhase | Talepreter/Operations/Talepreter.Operations/Workload/ExecuteTask.cs:141-166 | a read of the waiting commands that throws escapes with the run unchanged; otherwise the phase is recorded; an empty phase is a success without touching the manager; otherwise the batch is absorbed, its events published and the verdict read; a failure or cancellation in a phase with commands escapes; clean totals stay clean when the run goes on |
| ExecuteTask.Span | Talepreter/Operations/Talepreter.Operations/Workload/ExecuteTask.cs:67 | the loop visits lo, lo plus 1 up to hi and nothing when lo exceeds hi |
| ExecuteTask.Climb | Talepreter/Operations/Talepreter.Operations/Workload/ExecuteTask.cs:67-71 | the loop runs a prefix of phases 1 to the highest and all of them unless one fails; an escape is the interrupt's fault |
| ExecuteTask.ClimbHands | Talepreter/Operations/Talepreter.Operations/Workload/ExecuteTask.cs:67-71 | every phase the loop enters hands its waiting commands to the manager |
| ExecuteTask.HandedStep | Talepreter/Operations/Talepreter.Operations/Workload/ExecuteTask.cs:146 | one more phase adds its waiting commands to the count handed over |
| ExecuteTask.Schedule | Talepreter/Operations/Talepreter.Operations/Workload/ExecuteTask.cs:63-74 | phase 0 comes first and phase -1 last |
| ExecuteTask.RunPhases | Talepreter/Operations/Talepreter.Operations/Workload/ExecuteTask.cs:63-74 | an exception escaping the phases is the interrupt's fault; a failed read of the highest phase, whatever phase 0's verdict, ends the run with phase 0 alone run and its totals |
| ExecuteTask.RunPhasesFollowsSchedule | Talepreter/Operations/Talepreter.Operations/Workload/ExecuteTask.cs:63-74 | the phases run form a prefix of 0, 1 to the highest read after phase 0, then -1; none only when reading phase 0 failed, all of them when every phase succeeds, and the task count is the commands handed over |
| ExecuteTask.AfterFirstPhase | Talepreter/Operations/Talepreter.Operations/Workload/ExecuteTask.cs:65-74 | after a successful phase 0 the rest of the run follows the schedule |
| ExecuteTask.ClimbPrefix | Talepreter/Operations/Talepreter.Operations/Workload/ExecuteTask.cs:65-72 | the phases read after phase 0 are a prefix of the schedule |
| ExecuteTask.LastPhase | Talepreter/Operations/Talepreter.Operations/Workload/ExecuteTask.cs:74 | phase -1 after every earlier success completes the schedule and hands over its commands, unless reading it fails |
| ExecuteTask.FailureNotice | Talepreter/Operations/Talepreter.Operations/Workload/ExecuteTask.cs:110-128 | a failure publishes a Faulted event with the command data "Error during executing" |
| ExecuteTask.Recover | Talepreter/Operations/Talepreter.Operations/Workload/ExecuteTask.cs:84-138 | a cancellation reports Timedout and adds no event; any other failure publishes the failure event and reports Faulted |
| ExecuteTask.Conclude | Talepreter/Operations/Talepreter.Operations/Workload/ExecuteTask.cs:76-138 | the changes are saved exactly when nothing escaped and neither the report nor the save failed; a saved run reported its result once and keeps its events |
| ExecuteTask.PhasesOf | Talepreter/Operations/Talepreter.Operations/Workload/ExecuteTask.cs:143 | each phase finds the commands waiting for it in the task database as that phase starts |
| ExecuteTask.ConcludeReports | Talepreter/Operations/Talepreter.Operations/Workload/ExecuteTask.cs:76-138 | the page grain hears once, or twice exactly when the save fails after the report, the second time Timedout or Faulted; a clean run is saved with its result; a reported success means the phases all went on |
| ExecuteTask.PhasesReport | Talepreter/Operations/Talepreter.Operations/Workload/ExecuteTask.cs:53-139 | one or two reports; a reported success means every scheduled phase ran with clean totals; the phases run are a schedule prefix, empty only when reading phase 0 failed, and the count handed over is theirs |
| ExecuteTask.RunReports | Talepreter/Operations/Talepreter.Operations/Workload/ExecuteTask.cs:53-139 | against the task database, a successful run ends with phase -1 and handed over every command waiting there when that phase started, those appended during the run included |
| ProcessTask.PageResult | Talepreter/Operations/Talepreter.Operations/Workload/ProcessTask.cs:68-72 | the page result is always one of Faulted, Timedout, Success or Blocked |
| ProcessTask.FinishedBatchNeverBlocked | Talepreter/Operations/Talepreter.Operations/Workload/ProcessTask.cs:68-72 | once a tallied manager has finished, the Blocked branch is never taken: the result is Success exactly when nothing faulted or timed out, and Faulted exactly when something faulted |
| ProcessTask.ProcessCommand | Talepreter/Operations/Talepreter.Operations/Workload/ProcessTask.cs:150-162 | a null command yields no rows; otherwise the task returns the processor's rows, or throws exactly when validation or processing fails, wrapped as a command validation error carrying the command text; it is never itself a cancellation |
| ProcessTask.FlattenAppend | Talepreter/Operations/Talepreter.Operations/Workload/ProcessTask.cs:176-180 | gathering the result lists distributes over their concatenation |
| ProcessTask.FlattenHolds | Talepreter/Operations/Talepreter.Operations/Workload/ProcessTask.cs:176-180 | a row is gathered exactly when some non-null result list holds it |
| ProcessTask.Group | Talepreter/Operations/Talepreter.Operations/Workload/ProcessTask.cs:187-198 | a phase group holds only rows of that phase and no more rows than the list |
| ProcessTask.WithPhase | Talepreter/Operations/Talepreter.Operations/Workload/ProcessTask.cs:201 | every row keeps its content and takes the new phase |
| ProcessTask.HighestPhase | Talepreter/Operations/Talepreter.Operations/Workload/ProcessTask.cs:186 | the maximum is the phase of some row and bounds every row's phase |
| ProcessTask.Compact | Talepreter/Operations/Talepreter.Operations/Workload/ProcessTask.cs:207 | the only failure of the compaction is the invalid-operation error |
| ProcessTask.Stray | Talepreter/Operations/Talepreter.Operations/Workload/ProcessTask.cs:186-207 | no row is stray exactly when every phase is at least -1 |
| ProcessTask.ShiftSize | Talepreter/Operations/Talepreter.Operations/Workload/ProcessTask.cs:195-205 | the renumbering loop keeps every row of the phases it visits |
| ProcessTask.Partition | Talepreter/Operations/Talepreter.Operations/Workload/ProcessTask.cs:186-205 | every row is in phase 0, in phase -1, in 1 to the highest, or below -1 |
| ProcessTask.CompactOkIff | Talepreter/Operations/Talepreter.Operations/Workload/ProcessTask.cs:186-207 | the compaction throws exactly when some row has a phase below -1, and otherwise keeps every row |
| ProcessTask.RankMonotone | Talepreter/Operations/Talepreter.Operations/Workload/ProcessTask.cs:195-205 | distinct non-empty phases get distinct numbers in the same order |
| ProcessTask.RankAtMost | Talepreter/Operations/Talepreter.Operations/Workload/ProcessTask.cs:195-205 | a phase never moves up: its number is at most the phase itself |
| ProcessTask.ShiftPhases | Talepreter/Operations/Talepreter.Operations/Workload/ProcessTask.cs:195-205 | the loop hands out numbers from its start upward, one per non-empty phase it visits |
| ProcessTask.ShiftGroup | Talepreter/Operations/Talepreter.Operations/Workload/ProcessTask.cs:195-205 | a non-empty phase the loop visits comes out, rows in order, under its rank and nothing else shares that number |
| ProcessTask.ShiftSkips | Talepreter/Operations/Talepreter.Operations/Workload/ProcessTask.cs:198-199 | an empty phase adds nothing to the loop's output |
| ProcessTask.ShiftGroupHere | Talepreter/Operations/Talepreter.Operations/Workload/ProcessTask.cs:199-203 | the first non-empty phase the loop visits takes the next free number |
| ProcessTask.CompactRenumbers | Talepreter/Operations/Talepreter.Operations/Workload/ProcessTask.cs:186-207 | the compaction keeps phase 0 and phase -1 as they were and moves each non-empty phase of 1 and up to its rank among the non-empty ones, rows in order, gaining no others |
| ProcessTask.CompactKeeps | Talepreter/Operations/Talepreter.Operations/Workload/ProcessTask.cs:189-193 | the rows put in front stay phase 0 and phase -1 exactly |
| ProcessTask.CompactPhaseRange | Talepreter/Operations/Talepreter.Operations/Workload/ProcessTask.cs:195-205 | the compacted phases are 0, -1, or 1 up to the number of non-empty phases, which never exceeds the highest phase |
| ProcessTask.RankPositive | Talepreter/Operations/Talepreter.Operations/Workload/ProcessTask.cs:195-205 | a non-empty phase of 1 and up is numbered from 1 upward |
| ProcessTask.CommandErrors | Talepreter/Operations/Talepreter.Operations/Workload/ProcessTask.cs:219 | the published errors are exactly the command exceptions among the collected errors |
| ProcessTask.Recover | Talepreter/Operations/Talepreter.Operations/Workload/ProcessTask.cs:91-147 | a cancellation reports Timedout and republishes the errors; any other exception reports Faulted and publishes the errors and then the failure |
| ProcessTask.Collected | Talepreter/Operations/Talepreter.Operations/Workload/ProcessTask.cs:77-82 | the rows to save are the manager's results, each non-null, with the batch processor's non-null rows appended |
| ProcessTask.Run | Talepreter/Operations/Talepreter.Operations/Workload/ProcessTask.cs:53-148 | a failed delete leaves the database as it was; otherwise the page's old rows are gone, and a run that reaches the save adds exactly the compacted rows |
| ProcessTask.Stopped | Talepreter/Operations/Talepreter.Operations/Workload/ProcessTask.cs:62-147 | a run stopped before the result is decided: a failed delete keeps the database, reporting Timedout with nothing published for a cancellation and Faulted with the failure published for any other fault; a later stop keeps the cleared database, reports Timedout for a cancellation and recovers from a batch failure, publishing the errors once or twice |
| ProcessTask.Finish | Talepreter/Operations/Talepreter.Operations/Workload/ProcessTask.cs:83-106 | a run that saved reports its result unless the report threw or a cancellation came first, with a second Timedout report for a cancellation seen after it |
| ProcessTask.RunReports | Talepreter/Operations/Talepreter.Operations/Workload/ProcessTask.cs:53-148 | the page grain hears once or twice, twice exactly when a cancellation is seen after the result was reported; Timedout for early cancellations, the recovery's verdict for a failed delete or batch (Faulted unless it is a cancellation), Faulted for a failed compaction, the recovery's verdict for a failed report |
| ProcessTask.StoppedReports | Talepreter/Operations/Talepreter.Operations/Workload/ProcessTask.cs:91-147 | a run stopped before the result is decided reports once: the recovery's verdict for a failed delete or batch, Timedout for a cancellation in or after the run |
| ProcessTask.LateReports | Talepreter/Operations/Talepreter.Operations/Workload/ProcessTask.cs:83-147 | a run that decided its result reports Faulted on a failed compaction, Timedout for a cancellation right after the save, and otherwise its result, followed by Timedout when cancelled after the report |
| ProcessTask.FailedCompaction | Talepreter/Operations/Talepreter.Operations/Workload/ProcessTask.cs:207 | a compaction that loses rows makes the page grain hear Faulted |
| ProcessTask.SavedReports | Talepreter/Operations/Talepreter.Operations/Workload/ProcessTask.cs:83-106 | a run that saved reports as the save's cancellation point and the report decide |
| ProcessTask.RunIsFinish | Talepreter/Operations/Talepreter.Operations/Workload/ProcessTask.cs:83-86 | a run that saved ends as the finishing steps say, from the compacted rows and the page result |
| ProcessTask.RunPublishes | Talepreter/Operations/Talepreter.Operations/Workload/ProcessTask.cs:66 | the command errors are published once on a clean run and twice when an exception is recovered from after they were first published; a failed delete publishes nothing for a cancellation and only its own failure otherwise |
| ProcessTask.RunNeverReportsBlocked | Talepreter/Operations/Talepreter.Operations/Workload/ProcessTask.cs:72 | a page whose commands all ran to completion is never reported Blocked |
| ProcessTask.RunKeepsOtherPages | Talepreter/Operations/Talepreter.Operations/Workload/ProcessTask.cs:62 | the database stays keyed and rows of other pages are never touched |
| ProcessTask.RunClearsPage | Talepreter/Operations/Talepreter.Operations/Workload/ProcessTask.cs:62 | unless the delete itself failed, no old row of the page survives |
| ProcessTask.RunSavesCompacted | Talepreter/Operations/Talepreter.Operations/Workload/ProcessTask.cs:210-211 | a run that saves adds exactly the compacted rows, in order, under fresh sub-indexes |
| Workload.NewTask | Talepreter/Operations/Talepreter.Operations/Workload/WorkTask.cs:9-22 | a new task keeps its id, kind and argument, has no token, has not completed and is not disposed |
| Workload.Cancel | Talepreter/Operations/Talepreter.Operations/Workload/WorkTask.cs:23 | the token fires exactly when the task has one; without one nothing changes |
| Workload.OnStart | Talepreter/Operations/Talepreter.Operations/Workload/WorkTask.cs:51-56 | a fresh, unfired token that fires by itself after the work-task timeout, and the start time is now |
| Workload.Operate | Talepreter/Operations/Talepreter.Operations/Workload/WorkTask.cs:79-94 | the task is started and its completion recorded whatever the work's outcome, which is passed on unchanged |
| Workload.Dispose | Talepreter/Operations/Talepreter.Operations/Workload/WorkTask.cs:25-47 | the first call drops the token and runs the custom disposal once; a disposed task is left alone |
| Workload.DisposeIdempotent | Talepreter/Operations/Talepreter.Operations/Workload/WorkTask.cs:25-41 | disposing twice is disposing once, and the custom disposal runs at most once more |
| Workload.CancelBeforeStartIsNoOp | Talepreter/Operations/Talepreter.Operations/Workload/WorkTask.cs:22-23 | a task that has not started has no token, so cancelling it changes nothing and it is not cancelled |
| Workload.Register | Talepreter/Operations/Talepreter.Operations/Workload/WorkTaskManager.cs:64 | the task's thread registers its id; a new id maps to the task, and existing entries are kept |
| Workload.Unregister | Talepreter/Operations/Talepreter.Operations/Workload/WorkTaskManager.cs:26-30 | only the completed task's id leaves the registry; every other entry is unchanged |
| Workload.StartThenCompleteRestores | Talepreter/Operations/Talepreter.Operations/Workload/WorkTaskManager.cs:53-75 | a task registered and then completed leaves the registry as it was |
| Workload.CancelTasks | Talepreter/Operations/Talepreter.Operations/Workload/WorkTaskManager.cs:34-43 | no task is added or removed; a task ends up cancelled exactly when it already was or it has a token, has not completed and fits the predicate |
| Workload.DoesExist | Talepreter/Operations/Talepreter.Operations/Workload/WorkTaskManager.cs:45-51 | the scan answers true exactly when some registered task of the kind fits the predicate |
| Workload.MapParameters | Talepreter/Operations/Talepreter.Operations/Workload/WorkerConsumer.cs:124-136 | the mapping succeeds exactly when every type is one of the four, keeping names, values and types in order; otherwise it is the missing-mapper error |
| Workload.MapCommand | Talepreter/Operations/Talepreter.Operations/Workload/WorkerConsumer.cs:106-138 | a command becomes a not-run row of the message's page with its phase, index, tag, target, parent, comment and array parameters, exactly when its parameters map |
| Workload.MapArgument | Talepreter/Operations/Talepreter.Operations/Workload/WorkerConsumer.cs:97-140 | the argument carries the message's page and one row per command, in order, and exists exactly when every command maps |
| Workload.Consume | Talepreter/Operations/Talepreter.Operations/Workload/WorkerConsumer.cs:24-81 | a cancel request cancels the version's tasks and is acknowledged; an unmappable process request throws; otherwise the registry is left as it was, the message is acknowledged exactly when a new task is started, and rejected without requeue only when the page already has a registered task of that kind |
| Workload.Admit | Talepreter/Operations/Talepreter.Operations/Workload/WorkerConsumer.cs:28-42 | the request is rejected without requeue exactly when a registered task of its kind exists for the page, starting nothing; otherwise it is acknowledged with a new task started but not yet registered |
| Workload.SecondRequestRejected | Talepreter/Operations/Talepreter.Operations/Workload/WorkerConsumer.cs:28-38 | once the first task's thread has registered it, a second request for the same page is rejected and starts nothing |
| Workload.BackToBackRequestsBothStart | Talepreter/Operations/Talepreter.Operations/Workload/WorkTaskManager.cs:53-64 | before the first task's thread registers it, a second request for the same page is also acknowledged and starts a second task |
| TaskRunner.New | Talepreter/Common/Talepreter.Common/ResultTaskManager.cs:7-27 | a new manager has nothing queued or running, nothing settled, and no errors or results |
| TaskRunner.FreshItems | Talepreter/Common/Talepreter.Common/ResultTaskManager.cs:35-38 | one item per task, numbered in order, none retried yet |
| TaskRunner.AppendTasks | Talepreter/Common/Talepreter.Common/ResultTaskManager.cs:35-38 | the tasks join the back of the queue unretried, the queue before them is kept, and nothing else changes |
| TaskRunner.LaunchCount | Talepreter/Common/Talepreter.Common/ResultTaskManager.cs:53-58 | the launch loop dequeues no more than is queued and no more than the parallelism, none when the parallelism is not positive, and at least one when both are positive |
| TaskRunner.Start | Talepreter/Common/Talepreter.Common/ResultTaskManager.cs:40-67 | a fired token throws a cancellation; an empty queue returns at once; otherwise the countdown is armed with the queued count and queued plus running items are conserved while nothing else changes |
| TaskRunner.StartEstablishes | Talepreter/Common/Talepreter.Common/ResultTaskManager.cs:50-58 | launching from an idle manager sets the countdown to the items in flight or queued, keeps at most the parallelism running, and leaves no item waiting while none runs |
| TaskRunner.ZeroParallelNeverLaunches | Talepreter/Common/Talepreter.Common/ResultTaskManager.cs:53-66 | with no parallelism nothing launches and the countdown never reaches zero, so the wait ends only by cancellation |
| TaskRunner.Dispose | Talepreter/Common/Talepreter.Common/ResultTaskManager.cs:83-153 | an item is put back for another run exactly when it has retries left and the exception or result handler asks for a retry |
| TaskRunner.NoHandlersNoRetry | Talepreter/Common/Talepreter.Common/ResultTaskManager.cs:83-153 | without handlers nothing is retried: a returned value is a success, an exception a fault, a cancellation a timeout |
| TaskRunner.OnComplete | Talepreter/Common/Talepreter.Common/ResultTaskManager.cs:83-162 | settled items plus the countdown are conserved, and the finished item leaves the queue and running list unless it is put back |
| TaskRunner.CompletionLowersWork | Talepreter/Common/Talepreter.Common/ResultTaskManager.cs:83-162 | every completion, retries included, strictly lowers the runs still possible, so a started batch ends |
| TaskRunner.CompletionKeepsInv | Talepreter/Common/Talepreter.Common/ResultTaskManager.cs:155-161 | completions keep the countdown equal to the items still owed, at most the parallelism running and no item retried past ten; with the token unfired no item waits while none runs |
| TaskRunner.StartTallies | Talepreter/Common/Talepreter.Common/ResultTaskManager.cs:50-51 | launching a fresh batch owes the countdown every queued item, with no result or error yet |
| TaskRunner.CompletionKeepsTally | Talepreter/Common/Talepreter.Common/ResultTaskManager.cs:117-161 | without handlers every completion keeps one result per success, one error per fault, and settled plus owed equal to the batch |
| TaskRunner.FinishedTallyCountsAll | Talepreter/Common/Talepreter.Common/ResultTaskManager.cs:61-64 | once the countdown is zero every item was counted exactly once as a success, a fault or a timeout |
| TaskRunner.PlainOnComplete | Talepreter/Common/Talepreter.Common/TaskManager.cs:78-128 | the plain manager's completion never collects results |
| TaskRunner.PlainIsResultManager | Talepreter/Common/Talepreter.Common/TaskManager.cs:78-128 | the plain manager behaves as the result manager without a result handler whose results are thrown away |
| TaskRunner.Delay | Talepreter/Common/Talepreter.Common/ResultTaskManager.cs:74 | no delay before a first run, and a retry within the limit waits at most ten delay steps |

## Left out

- Threads, timers, logging, timestamps and stopwatches are not modelled. Elapsed times, clock readings and new Guids are parameters.
- Grain operations: an `Err` result stands for the exception escaping the call. In-memory state the grain changed before the throw is not modelled, and neither is a child it had already stopped or initialized. Only the persisted state and the calls up to the failure are tracked.
- Broker publishing is modelled as a message in the list of calls made. A publish that fails is not modelled.
- Ordering: controller grains stop, initialize and fan out to their children in ascending key order. The source uses the enumeration order of a `Dictionary`, and the grains start the children in parallel, so the order is not observable by them.
- Parallel.RunInParallel: the errors of a batch are listed in the order the tasks were supplied. The source's `ConcurrentBag` collects them in completion order.
- TaskRunner.OnComplete: the source's `_ongoingTaskCount`, which tasks change concurrently, is modelled as the number of running items. Completions are applied one at a time. A faulted task without an inner exception (ResultTaskManager.cs:149-153) is not modelled.
- ExecuteTask.Run: the rows' Result and Error marks are not part of the `Effect`. The effect records only whether the save happened. The mark each command leaves is stated by `ExecuteTask.ExecuteCommand`.
- ExecuteTask.Run: a failure inside the recovery (a second exception while the errors are published or the outcome is reported) is swallowed in the source. The model assumes the recovery completes.
- ExecuteTask.ExecuteCommand: the command's duration and operation time are not modelled.
- ProcessTask.Run: a failure inside the recovery (a second exception while the errors are published or the outcome is reported) is swallowed in the source. The model assumes the recovery completes.
- Text.IsWhite: only ASCII white space counts. .NET's `char.IsWhiteSpace` also accepts Unicode separators.
- Text.ParseInt: strict, meaning an optional '-' and at least one digit. `int.TryParse` also accepts leading and trailing white space and a leading '+', so " 5" and "+5" are rejected here.
- Conversion.TryToInt: weaker than the source for the same reason as `Text.ParseInt`.
- Text.Lower: lower-cases ASCII letters only. The source's `ToLower()` is culture-sensitive: under a Turkish culture "I" becomes a dotless i.
- Inlines.FindInlines: delimiter search is ordinal. The source's `IndexOf` and `StartsWith` with a string argument are culture-sensitive. The source's lazy enumeration is modelled as a whole result. An unclosed delimiter makes the whole result an error, where the source throws only once enumeration reaches it.
- ExecutorBase.Finalize: when the token fires after the documents were stamped in place, the source leaves those stamps in memory. The model drops them with the rest of the failed call. The `SaveChanges` and the third token check are folded into one cancellation parameter. `FinalizeExtension` is modelled by the same function.
- ExecutorBase: `CountAsync` and `ValidateTimeline` (CommandExecutorBase.cs:104-134) are not modelled. The `DocumentState` filter of the queries is not modelled either, and neither are the token checks of `Initialize` and `Setup`.
- Conversion: `ToInt`, `ToUShort` and `ToBool` are not modelled. The core uses `ToLong` and `TryToInt`.
- Validation.Validate: the message of a failed check is the check's own text. The "[grain:method - Validation] id" prefix the source puts in front of it is not modelled.
- CommandIds: the class that declares the command tags and parameter names is not part of this model. The constants are distinct literals taken from the code that uses them.
- Commands: `ParameterType` (the enumeration of value types) is not part of this model.
- CommandText.Render: `RawCommand.ToString` throws on a parameter type outside the four. That cannot arise here, because the type has exactly four values.
- Outcomes: the controller status has no Busy state, because the status enumeration in the code has none.
- TaleController: the `Ping` endpoint (TaleController.cs:27-32) is not modelled. It returns a constant.
- Formatting: `Clean`, `GetMatchOnce` and `ExpectMatchOnce` (Formatter.cs:125-153 and 195-235) are not modelled. They are text clean-up and regex helpers that nothing in the core calls.
- Formatting.FormatModifier: the contract states only the zero case directly. The styles of other values are stated by the read-back lemmas of `Formatting.Format`.
- Triggers.Describe: the contract states only the prefix of the text: the target and the grain.
- TaskStore: `BackupToAsync` (TaskDbContextBase.cs:79-85) is not modelled. It is a stored-procedure call.
- EntityGrains: a failure of `GetRequiredService` to find the executor is not modelled. A write to the trigger store that fails for a reason other than cancellation is not modelled either.
- Services: the `Enum.Parse` helper of `EnumExtensions` and `ServiceIdentifier.LowerCaseName` are not modelled. The model maps services by name directly.

## Findings

| source | as written | input that shows it | evidently intended | confidence | as-written member | corrected member |
|---|---|---|---|---|---|---|
| Talepreter/Services/Talepreter.TaleSvc/Grains/PublishGrain.cs:417-418 | the restored chapter grain is initialized without the page it was restored up to | a version restored from a backup whose last executed page is page p of chapter c: the restored chapter knows no executed pages and starts again at page 0 | the chapter grain is told the last executed page, so execution resumes at page p + 1 | not executed | PublishGrain.BackupFromAsWritten | PublishGrain.BackupFrom |
| Talepreter/Operations/Talepreter.Operations/Workload/ExecuteTask.cs:207-229 | each command exception is turned into a failed-response event that is never published | a phase whose only command throws a CommandExecutionException: no event reports it | every command exception is published as a Faulted event, as ProcessTask.cs:219-240 does | not executed | ExecuteTask.PublishedAsWritten | ExecuteTask.Published |

The lemmas `PublishGrain.BackupFromAsWrittenLosesPages` and `ExecuteTask.PublishedAsWrittenDropsErrors` exhibit the two discrepancies. `PublishGrain.BackupFromResumesNextPage` and `ExecuteTask.PublishedReportsEveryError` prove the corrected behaviour. `ExecuteTask.Run` follows the code as written and publishes through `ExecuteTask.PublishedAsWritten`.
