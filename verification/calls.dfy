/** The outbound effects of a grain operation, in the order the grain makes
    them: messages published on the broker and calls awaited on other grains.

    A grain names the grain it calls by the ids it passes to the key builders,
    so each call carries those ids. */
module Calls {
  import opened Wrappers
  import opened Guids
  import opened Outcomes
  import opened Commands
  import GrainKeys

  /** `ChapterPagePair`: both parts are nullable. */
  datatype ChapterPage = ChapterPage(chapter: Option<int>, page: Option<int>)

  /** The requests the controllers publish on the work exchange. */
  datatype WorkRequest =
    | ProcessPageRequest(taleId: Guid, versionId: Guid, chapter: int, page: int, commands: seq<PageCommand>)
    | ExecutePageRequest(taleId: Guid, versionId: Guid, chapter: int, page: int)
    | CancelPageOperationRequest(taleId: Guid, versionId: Guid)

  /** The event-status values the tale grain publishes. */
  datatype EventStatus = EventSuccess | EventFaulted | EventTimeout

  /** What a container grain (one per entity service) or the document store is asked to do. */
  datatype StoreOp =
    | InitializeVersion(taleId: Guid, versionId: Guid)
    | PurgeVersion(taleId: Guid, versionId: Guid)
    | BackupVersion(taleId: Guid, versionId: Guid, newVersionId: Guid)

  /** Who serves a `StoreOp`: one of the four containers or the document store. */
  datatype Store = ContainerStore(container: GrainKeys.Container) | DocumentStore

  datatype Call =
    // broker
    | PublishWork(exchange: string, routingKey: string, request: WorkRequest)
    | PublishStatus(exchange: string, routingKey: string, execute: bool, taleId: Guid, versionId: Guid, chapter: int, page: int, status: EventStatus)
    // pages
    | PageInitialize(taleId: Guid, versionId: Guid, chapter: int, page: int)
    | PageBeginProcess(taleId: Guid, versionId: Guid, chapter: int, page: int, commands: seq<PageCommand>)
    | PageBeginExecute(taleId: Guid, versionId: Guid, chapter: int, page: int)
    | PageStop(taleId: Guid, versionId: Guid, chapter: int, page: int)
    // chapters
    | ChapterInitialize(taleId: Guid, versionId: Guid, chapter: int, pageFromBackup: Option<int>)
    | ChapterAddPage(taleId: Guid, versionId: Guid, chapter: int, page: int)
    | ChapterBeginProcess(taleId: Guid, versionId: Guid, chapter: int, page: int, commands: seq<PageCommand>)
    | ChapterBeginExecute(taleId: Guid, versionId: Guid, chapter: int)
    | ChapterStop(taleId: Guid, versionId: Guid, chapter: int)
    // completion reports, each sent to the parent of the reporting grain
    | ChapterProcessComplete(taleId: Guid, versionId: Guid, chapter: int, page: int, result: Outcome)
    | ChapterExecuteComplete(taleId: Guid, versionId: Guid, chapter: int, page: int, result: Outcome)
    | PublishProcessComplete(taleId: Guid, versionId: Guid, chapter: int, page: int, result: Outcome)
    | PublishExecuteComplete(taleId: Guid, versionId: Guid, chapter: int, page: int, result: Outcome)
    | TaleProcessComplete(taleId: Guid, versionId: Guid, chapter: int, page: int, result: Outcome)
    | TaleExecuteComplete(taleId: Guid, versionId: Guid, chapter: int, page: int, result: Outcome)
    // publish grains
    | PublishInitialize(taleId: Guid, versionId: Guid)
    | PublishAddChapterPage(taleId: Guid, versionId: Guid, chapter: int, page: int)
    | PublishBeginProcess(taleId: Guid, versionId: Guid, chapter: int, page: int, commands: seq<PageCommand>)
    | PublishBeginExecute(taleId: Guid, versionId: Guid)
    | PublishStop(taleId: Guid, versionId: Guid)
    | PublishPurge(taleId: Guid, versionId: Guid)
    | PublishBackupTo(taleId: Guid, versionId: Guid, newVersionId: Guid)
    | PublishBackupFrom(taleId: Guid, versionId: Guid, lastExecuted: ChapterPage)
    // containers and the document store
    | StoreCall(store: Store, op: StoreOp)

  /** A grain operation that completed: the state it persisted and the calls it made. */
  datatype Step<S> = Step(state: S, calls: seq<Call>)

  /** The four containers and the document store, in the order the publish grain starts them. */
  function StoreCalls(op: StoreOp): (r: seq<Call>)
    ensures |r| == 5
  {
    [StoreCall(ContainerStore(GrainKeys.ActorContainer), op),
     StoreCall(ContainerStore(GrainKeys.AnecdoteContainer), op),
     StoreCall(ContainerStore(GrainKeys.PersonContainer), op),
     StoreCall(ContainerStore(GrainKeys.WorldContainer), op),
     StoreCall(DocumentStore, op)]
  }
}
