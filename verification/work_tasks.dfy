/** The workload of a worker service: `WorkTask` (one Process or Execute run
    of a page, with its own timeout token), `WorkTaskManager` (the registry
    of running tasks) and `WorkerConsumer` (the handler of the work queue's
    Process, Execute and Cancel requests).

    Task ids (`Guid.NewGuid`), clock readings and elapsed times are
    parameters. `StartTask` only starts a task: the task's own thread
    registers it later, so the consumer's duplicate check sees a task only
    once that has happened. */
module Workload {
  import opened Wrappers
  import opened Guids
  import opened Commands
  import opened TaskStore
  import ProcessTask

  /** `Timeouts.WorktaskTimeout`, in seconds. */
  const WorktaskTimeout: nat := 15

  datatype TaskKind = ProcessWork | ExecuteWork

  /** `WorkTaskArgument`: the page a task works on. */
  datatype TaskArg = TaskArg(taleId: Guid, versionId: Guid, chapter: int, page: int)

  /** The task's `CancellationTokenSource`: absent before `OnStart` and after
      `Dispose`; otherwise whether it has fired and after how many
      milliseconds it fires by itself. */
  datatype TokenSource = NoSource | Source(cancelled: bool, timeoutMs: nat)

  /** A work task. `disposals` counts the runs of `DisposeCustom`. */
  datatype WorkTask = WorkTask(
    id: int,
    kind: TaskKind,
    arg: TaskArg,
    source: TokenSource,
    started: int,
    completedAt: Option<int>,
    completedWithin: int,
    disposed: bool,
    disposals: nat)

  /** A task as the container creates it and `Assign` fills it in. */
  function NewTask(id: int, kind: TaskKind, arg: TaskArg, now: int): (t: WorkTask)
    ensures t.id == id && t.kind == kind && t.arg == arg
    ensures t.source == NoSource && t.completedAt.None? && !t.disposed && t.disposals == 0
  {
    WorkTask(id, kind, arg, NoSource, now, None, 0, false, 0)
  }

  /** `Token.IsCancellationRequested`: `CancellationToken.None` never is. */
  predicate Cancelled(t: WorkTask) {
    t.source.Source? && t.source.cancelled
  }

  /** `Cancel`: fires the token when there is one, and is a no-op otherwise. */
  function Cancel(t: WorkTask): (r: WorkTask)
    ensures Cancelled(r) <==> t.source.Source?
    ensures t.source.NoSource? ==> r == t
    ensures r.id == t.id && r.kind == t.kind && r.arg == t.arg && r.completedAt == t.completedAt
  {
    if t.source.Source? then t.(source := t.source.(cancelled := true)) else t
  }

  /** `OnStart`: a fresh token that fires after `WorktaskTimeout` seconds. */
  function OnStart(t: WorkTask, now: int): (r: WorkTask)
    ensures r.source == Source(false, WorktaskTimeout * 1000) && r.started == now
    ensures r.id == t.id && r.completedAt == t.completedAt
  {
    t.(source := Source(false, WorktaskTimeout * 1000), started := now)
  }

  /** `Operate`: start, do the work, and record the completion whatever the
      work's outcome, which is passed on (an exception propagates). */
  function Operate(t: WorkTask, now: int, elapsed: int, work: Result<()>): (r: (WorkTask, Result<()>))
    ensures r.0.completedAt == Some(now + elapsed) && r.0.completedWithin == elapsed
    ensures r.1 == work
    ensures r.0.id == t.id && r.0.kind == t.kind && r.0.arg == t.arg && r.0.started == now
  {
    var running := OnStart(t, now);
    (running.(completedAt := Some(now + elapsed), completedWithin := elapsed), work)
  }

  /** `Dispose`: the first call fires and drops the token and runs
      `DisposeCustom`; later calls do nothing. */
  function Dispose(t: WorkTask): (r: WorkTask)
    ensures r.disposed && r.source == (if t.disposed then t.source else NoSource)
    ensures r.disposals == if t.disposed then t.disposals else t.disposals + 1
    ensures r.id == t.id && r.completedAt == t.completedAt
  {
    if t.disposed then t else t.(source := NoSource, disposed := true, disposals := t.disposals + 1)
  }

  /** Disposing twice is disposing once. */
  lemma DisposeIdempotent(t: WorkTask)
    ensures Dispose(Dispose(t)) == Dispose(t)
    ensures Dispose(Dispose(t)).disposals <= t.disposals + 1
  {
  }

  /** A task that has not been started cannot be cancelled. */
  lemma CancelBeforeStartIsNoOp(id: int, kind: TaskKind, arg: TaskArg, now: int)
    ensures Cancel(NewTask(id, kind, arg, now)) == NewTask(id, kind, arg, now)
    ensures !Cancelled(NewTask(id, kind, arg, now))
  {
  }

  // --------------------------------------------------------------- registry

  /** `WorkTaskManager._workTasks`. */
  type Registry = map<int, WorkTask>

  /** `GetOrAdd`: a task is added under its id unless the id is taken. */
  function Register(reg: Registry, t: WorkTask): (r: Registry)
    ensures t.id in r && r.Keys == reg.Keys + {t.id}
    ensures t.id !in reg ==> r[t.id] == t
    ensures forall id :: id in reg ==> r[id] == reg[id]
  {
    if t.id in reg then reg else reg[t.id := t]
  }

  /** `OnWorkTaskComplete`: the finished (or faulted) task leaves the registry. */
  function Unregister(reg: Registry, id: int): (r: Registry)
    ensures r.Keys == reg.Keys - {id}
    ensures forall k :: k in r ==> r[k] == reg[k]
  {
    reg - {id}
  }

  /** A task started and then completed leaves the registry as it found it. */
  lemma StartThenCompleteRestores(reg: Registry, t: WorkTask)
    requires t.id !in reg
    ensures Unregister(Register(reg, t), t.id) == reg
  {
  }

  /** `CancelTasks`: every registered task that has not completed and fits the
      predicate is cancelled; nothing is added or removed. */
  function CancelTasks(reg: Registry, fits: WorkTask -> bool): (r: Registry)
    ensures r.Keys == reg.Keys
    ensures forall id :: id in reg ==>
              r[id].id == reg[id].id && r[id].kind == reg[id].kind && r[id].arg == reg[id].arg &&
              (Cancelled(r[id]) <==> Cancelled(reg[id]) || (reg[id].source.Source? && reg[id].completedAt.None? && fits(reg[id])))
  {
    map id | id in reg :: if reg[id].completedAt.None? && fits(reg[id]) then Cancel(reg[id]) else reg[id]
  }

  /** `DoesExist`: whether some registered task of the kind fits the predicate. */
  predicate Exists(reg: Registry, kind: TaskKind, fits: WorkTask -> bool) {
    exists id :: id in reg && reg[id].kind == kind && fits(reg[id])
  }

  /** The scan of `DoesExist` over the registry's tasks, stopping at the
      first task of the kind that fits. `order` is the order in which the
      dictionary enumerates its entries, which visits every key. */
  method DoesExist(reg: Registry, order: seq<int>, kind: TaskKind, fits: WorkTask -> bool) returns (found: bool)
    requires forall j :: 0 <= j < |order| ==> order[j] in reg
    requires forall k :: k in reg ==> k in order
    ensures found <==> Exists(reg, kind, fits)
  {
    found := false;
    var i := 0;
    while i < |order|
      invariant 0 <= i <= |order|
      invariant forall j :: 0 <= j < i ==> !(reg[order[j]].kind == kind && fits(reg[order[j]]))
    {
      var task := reg[order[i]];
      if task.kind == kind && fits(task) {
        var id := order[i];
        assert id in reg && reg[id].kind == kind && fits(reg[id]);
        assert Exists(reg, kind, fits);
        found := true;
        return;
      }
      i := i + 1;
    }
    assert forall k :: k in reg ==> exists j :: 0 <= j < |order| && order[j] == k;
  }

  // --------------------------------------------------------------- consumer

  /** A named parameter in a request, with its type as the number on the wire. */
  datatype WireParameter = WireParameter(typeCode: int, name: string, value: string)

  /** A command in a `ProcessPageRequest`. */
  datatype WireCommand = WireCommand(
    phase: int,
    index: int,
    tag: string,
    target: string,
    parent: Option<string>,
    comment: Option<string>,
    arrayParams: seq<string>,
    named: seq<WireParameter>)

  /** A Process, Execute or Cancel request from the work queue. */
  datatype Request =
    | ProcessPage(arg: TaskArg, commands: seq<WireCommand>)
    | ExecutePage(arg: TaskArg)
    | CancelPage(taleId: Guid, versionId: Guid)

  /** How the consumer settles a message. */
  datatype Settlement = Acked | Rejected(requeue: bool) | Threw(error: Fault)

  /** The named parameters of one command, each type mapped one to one;
      an unknown type has no mapper. */
  function MapParameters(ps: seq<WireParameter>): (r: Result<seq<NamedParameter>>)
    ensures r.Ok? <==> forall i :: 0 <= i < |ps| ==> 0 <= ps[i].typeCode < 4
    ensures r.Ok? ==> (|r.value| == |ps| &&
              forall i :: 0 <= i < |ps| ==>
                r.value[i].name == ps[i].name && r.value[i].value == ps[i].value &&
                ParamTypeCode(r.value[i].paramType) == ps[i].typeCode)
    ensures r.Err? ==> r.error.MissingMapper?
    decreases |ps|
  {
    if ps == [] then Ok([])
    else
      var t :- ParamTypeOfCode(ps[0].typeCode);
      var rest :- MapParameters(ps[1..]);
      assert forall i :: 1 <= i < |ps| ==> ps[i] == ps[1..][i - 1];
      Ok([NamedParameter(t, ps[0].name, ps[0].value)] + rest)
  }

  /** One command of the request as a row of the page, not yet executed. */
  function MapCommand(arg: TaskArg, c: WireCommand): (r: Result<CommandRow>)
    ensures r.Ok? <==> MapParameters(c.named).Ok?
    ensures r.Ok? ==> (OnPage(r.value, arg.taleId, arg.versionId, arg.chapter, arg.page) &&
              r.value.phase == c.phase && r.value.index == c.index &&
              r.value.tag == c.tag && r.value.target == c.target &&
              r.value.data.tag == c.tag && r.value.data.target == c.target &&
              r.value.data.parent == c.parent && r.value.data.comment == c.comment &&
              r.value.data.arrayParams == c.arrayParams && r.value.result == NotRun)
  {
    var named :- MapParameters(c.named);
    var data := RawCommand(c.tag, c.target, c.parent, named, c.arrayParams, c.comment);
    Ok(CommandRow(arg.taleId, arg.versionId, arg.chapter, arg.page, c.phase, c.index, 0, c.tag, c.target, data, None, NotRun))
  }

  /** `MapArgument` of a Process request: every command becomes a row of the
      message's page; the first command with an unknown parameter type
      makes it throw. */
  function MapArgument(arg: TaskArg, cmds: seq<WireCommand>): (r: Result<ProcessTask.Argument>)
    ensures r.Ok? <==> forall i :: 0 <= i < |cmds| ==> MapCommand(arg, cmds[i]).Ok?
    ensures r.Ok? ==> (r.value.taleId == arg.taleId && r.value.versionId == arg.versionId &&
              r.value.chapter == arg.chapter && r.value.page == arg.page &&
              |r.value.commands| == |cmds| &&
              forall i :: 0 <= i < |cmds| ==> r.value.commands[i] == Some(MapCommand(arg, cmds[i]).value))
    decreases |cmds|
  {
    if cmds == [] then Ok(ProcessTask.Argument(arg.taleId, arg.versionId, arg.chapter, arg.page, []))
    else
      var row :- MapCommand(arg, cmds[0]);
      var rest :- MapArgument(arg, cmds[1..]);
      assert forall i :: 1 <= i < |cmds| ==> cmds[i] == cmds[1..][i - 1];
      Ok(rest.(commands := [Some(row)] + rest.commands))
  }

  /** The duplicate test of a Process or Execute request. */
  function SamePage(kind: TaskKind, arg: TaskArg): WorkTask -> bool {
    (t: WorkTask) => t.kind == kind && t.arg == arg
  }

  /** The Cancel request's predicate: a Process or Execute task of the tale
      version, on any chapter and page. */
  function SameVersion(taleId: Guid, versionId: Guid): WorkTask -> bool {
    (t: WorkTask) => t.arg.taleId == taleId && t.arg.versionId == versionId
  }

  /** What the consumer leaves behind: the registry as the message is
      settled, how it is settled, and the task it started, if any. A started
      task is not in the registry yet: `StartTask` hands it to a thread of
      its own, which registers it (`Register`) some time after the message
      was acknowledged. */
  datatype Consumed = Consumed(registry: Registry, settlement: Settlement, started: Option<WorkTask>)

  /** `Consume`. `id` and `now` are the new task's id and start time. A
      Process request whose commands cannot be mapped throws; a request for
      a page that already has a registered task of its kind is rejected
      without requeue; otherwise one task is started and the message is
      acknowledged, with the registry as it was. A Cancel request cancels the
      version's tasks and is always acknowledged. */
  function Consume(reg: Registry, req: Request, id: int, now: int): (r: Consumed)
    ensures req.CancelPage? ==> r == Consumed(CancelTasks(reg, SameVersion(req.taleId, req.versionId)), Acked, None)
    ensures req.ProcessPage? && MapArgument(req.arg, req.commands).Err? ==>
              r == Consumed(reg, Threw(MapArgument(req.arg, req.commands).error), None)
    ensures !req.CancelPage? ==> r.registry == reg
    ensures !req.CancelPage? ==> (r.settlement == Acked <==> r.started == Some(NewTask(id, KindOf(req), req.arg, now)))
    ensures r.settlement != Acked ==> r.started.None?
    ensures !req.CancelPage? && r.settlement == Rejected(false) ==> Exists(reg, KindOf(req), SamePage(KindOf(req), req.arg))
    ensures !req.CancelPage? && !Exists(reg, KindOf(req), SamePage(KindOf(req), req.arg)) ==> r.settlement != Rejected(false)
  {
    match req
    case CancelPage(taleId, versionId) => Consumed(CancelTasks(reg, SameVersion(taleId, versionId)), Acked, None)
    case ProcessPage(arg, cmds) =>
      (match MapArgument(arg, cmds)
       case Err(e) => Consumed(reg, Threw(e), None)
       case Ok(_) => Admit(reg, ProcessWork, arg, id, now))
    case ExecutePage(arg) => Admit(reg, ExecuteWork, arg, id, now)
  }

  function KindOf(req: Request): TaskKind
    requires !req.CancelPage?
  {
    if req.ProcessPage? then ProcessWork else ExecuteWork
  }

  /** The duplicate check against the registered tasks, and the start of a
      task, which leaves the registry to the task's own thread. */
  function Admit(reg: Registry, kind: TaskKind, arg: TaskArg, id: int, now: int): (r: Consumed)
    ensures r.registry == reg
    ensures r.settlement == Acked || r.settlement == Rejected(false)
    ensures r.settlement == Rejected(false) <==> Exists(reg, kind, SamePage(kind, arg))
    ensures r.settlement == Rejected(false) ==> r.started.None?
    ensures r.settlement == Acked ==> r.started == Some(NewTask(id, kind, arg, now))
  {
    if Exists(reg, kind, SamePage(kind, arg)) then Consumed(reg, Rejected(false), None)
    else Consumed(reg, Acked, Some(NewTask(id, kind, arg, now)))
  }

  /** Once the first task's thread has registered it, a second request for
      the same page is rejected and starts nothing. */
  lemma SecondRequestRejected(reg: Registry, kind: TaskKind, arg: TaskArg, id1: int, id2: int, now: int)
    requires id1 !in reg
    ensures var first := Admit(reg, kind, arg, id1, now);
      first.settlement == Acked ==>
        var reg1 := Register(reg, first.started.value);
        Admit(reg1, kind, arg, id2, now) == Consumed(reg1, Rejected(false), None)
  {
    var first := Admit(reg, kind, arg, id1, now);
    if first.settlement == Acked {
      var reg1 := Register(reg, first.started.value);
      assert reg1[id1] == NewTask(id1, kind, arg, now);
      assert SamePage(kind, arg)(reg1[id1]);
    }
  }

  /** Before that thread registers the first task, a second request for the
      same page passes the duplicate check as well: it is acknowledged and
      starts a second task for the page. */
  lemma BackToBackRequestsBothStart(reg: Registry, kind: TaskKind, arg: TaskArg, id1: int, id2: int, now: int)
    ensures var first := Admit(reg, kind, arg, id1, now);
      first.settlement == Acked ==>
        Admit(first.registry, kind, arg, id2, now) == Consumed(reg, Acked, Some(NewTask(id2, kind, arg, now)))
  {
  }
}
