/** The entity grains of a domain service (`CommandGrain` and
    `TriggeredCommandGrain`): they run one command or one trigger through
    the service's executor and turn whatever happens into an
    `ExecuteCommandResponse` for the worker that sent it.

    The executor is a parameter: it either completes or raises an exception
    (with the stack trace the exception carries). Whether the grain's
    cancellation token has fired once the executor is done is a parameter
    too. Logging and timing are left out. */
module EntityGrains {
  import opened Wrappers
  import opened Outcomes
  import opened Guids
  import opened Commands
  import opened TaskStore
  import Validation
  import Triggers
  import ExecuteTask

  /** How the executor's work ended. */
  datatype Run = Completed | Raised(error: Fault, trace: Option<string>)

  /** `ErrorInfo` of an exception: its class name, message and stack trace. */
  function ErrorOf(e: Fault, trace: Option<string>): (r: ExecuteTask.ErrorInfo)
    ensures r.kind == e.TypeName() && r.message == e.Text() && r.stacktrace == trace
  {
    ExecuteTask.ErrorInfo(e.TypeName(), e.Text(), trace)
  }

  /** The catch clauses shared by both grains: cancellation is a time-out
      reported without error information, a validation exception blocks the
      command, and every other exception faults it. Each reply carries the
      command that failed. */
  function Settle(e: Fault, trace: Option<string>, command: RawCommand): (r: ExecuteTask.Response)
    ensures r.command == Some(command)
    ensures r.status == {Flag.Timedout} <==> e.OperationCanceled?
    ensures r.status == {Flag.Blocked} <==> e.CommandValidation?
    ensures r.status == {Flag.Faulted} <==> !e.OperationCanceled? && !e.CommandValidation?
    ensures r.error.None? <==> e.OperationCanceled?
    ensures r.error.Some? ==> r.error.value == ErrorOf(e, trace)
  {
    match e
    case OperationCanceled => ExecuteTask.Response({Flag.Timedout}, None, Some(command))
    case CommandExecution(_, _) => ExecuteTask.Response({Flag.Faulted}, Some(ErrorOf(e, trace)), Some(command))
    case CommandValidation(_, _) => ExecuteTask.Response({Flag.Blocked}, Some(ErrorOf(e, trace)), Some(command))
    case _ => ExecuteTask.Response({Flag.Faulted}, Some(ErrorOf(e, trace)), Some(command))
  }

  // ------------------------------------------------------------ command grain

  /** `ExecuteCommandContext` as the grain receives it; a null command is
      `None`. */
  datatype CommandContext = CommandContext(taleId: Guid, versionId: Guid, command: Option<RawCommand>, chapter: int, page: int)

  /** The guard both grains run before anything else. */
  function Guard(taleId: Guid, versionId: Guid, present: bool, argName: string, chapter: int, page: int): (r: Result<()>)
    ensures r.Ok? <==> taleId != Empty && versionId != Empty && present && chapter >= 0 && page >= 0
    ensures r.Err? ==> r.error.GrainOperation?
  {
    var checks := [Validation.TaleIdCheck(taleId), Validation.VersionIdCheck(versionId),
                   Validation.NullCheck(present, argName), Validation.ChapterCheck(chapter), Validation.PageCheck(page)];
    assert (forall i :: 0 <= i < |checks| ==> !Validation.Fails(checks[i])) <==>
      !Validation.Fails(checks[0]) && !Validation.Fails(checks[1]) && !Validation.Fails(checks[2]) &&
      !Validation.Fails(checks[3]) && !Validation.Fails(checks[4]);
    Validation.Validate(checks)
  }

  /** `CommandGrain.ExecuteCommand`. An invalid context throws before the
      executor is called; after that nothing escapes: a completed run whose
      token has not fired is a success, and anything else becomes the reply
      its catch clause builds. */
  function ExecuteCommand(ctx: CommandContext, run: Run, cancelled: bool): (r: Result<ExecuteTask.Response>)
    ensures r.Ok? <==> Guard(ctx.taleId, ctx.versionId, ctx.command.Some?, "Command", ctx.chapter, ctx.page).Ok?
    ensures r.Err? ==> r.error.GrainOperation?
    ensures r.Ok? ==> (r.value.status == {Flag.Success} <==> run.Completed? && !cancelled)
    ensures r.Ok? && r.value.status == {Flag.Success} ==> r.value.error.None? && r.value.command.None?
    ensures r.Ok? && run.Completed? && cancelled ==> r.value == ExecuteTask.Response({Flag.Timedout}, None, ctx.command)
    ensures r.Ok? && run.Raised? ==> r.value == Settle(run.error, run.trace, ctx.command.value)
  {
    var _ :- Guard(ctx.taleId, ctx.versionId, ctx.command.Some?, "Command", ctx.chapter, ctx.page);
    var command := ctx.command.value;
    match run
    case Completed =>
      if cancelled then Ok(Settle(OperationCanceled, None, command))
      else Ok(ExecuteTask.Response({Flag.Success}, None, None))
    case Raised(e, trace) => Ok(Settle(e, trace, command))
  }

  /** Every reply of a command grain leaves the worker's row marked the way
      the run went: Done exactly when the executor completed before the
      token fired, and Failed otherwise. */
  lemma CommandMarkFollowsRun(row: CommandRow, ctx: CommandContext, run: Run, cancelled: bool)
    requires ExecuteCommand(ctx, run, cancelled).Ok?
    requires ExecuteTask.Route(row).Ok?
    ensures var a := ExecuteTask.Attempt(false, Ok(()), Ok(Some(ExecuteCommand(ctx, run, cancelled).value)), false);
      var saved := ExecuteTask.ExecuteCommand(row, a).0;
      (saved.result == Done <==> run.Completed? && !cancelled) &&
      (saved.result == Failed <==> !(run.Completed? && !cancelled))
  {
    var reply := ExecuteCommand(ctx, run, cancelled).value;
    assert reply.status != NoResult by {
      if run.Raised? {
        assert reply.status == {Flag.Timedout} || reply.status == {Flag.Blocked} || reply.status == {Flag.Faulted};
      }
    }
  }

  // ------------------------------------------------------------ trigger grain

  /** `ExecuteTriggerContext`; a null trigger is `None`. */
  datatype TriggerContext = TriggerContext(taleId: Guid, versionId: Guid, trigger: Option<Triggers.RawTrigger>, chapter: int, page: int)

  /** How the trigger executor's work ended: the state it gives the trigger,
      or an exception. */
  datatype TriggerRun = Finished(state: TriggerState) | Failure(error: Fault, trace: Option<string>)

  /** The reply status of a finished trigger: Set and Triggered succeed
      (a trigger may re-arm itself), Faulted and Invalid fault. */
  function TriggerStatus(state: TriggerState): (r: Outcome)
    ensures r == {Flag.Success} <==> state == TriggerState.Set || state == Triggered
    ensures r != {Flag.Success} ==> r == {Flag.Faulted}
  {
    if state == TriggerState.Set || state == Triggered then {Flag.Success} else {Flag.Faulted}
  }

  /** `TriggeredCommandGrain.ExecuteTrigger` over the task store. A trigger
      that finished in any state but Set is stored with that state; one
      that stays Set is left alone. When the executor throws, or the token
      has fired after it finished, the trigger is first stored as Faulted
      and the exception is then caught as in a command grain, with the
      trigger as a command in the reply. That store write runs under the
      grain's token, so once the token has fired it throws a cancellation
      of its own: the trigger keeps its state and the reply is a time-out. */
  function ExecuteTrigger(s: Store, ctx: TriggerContext, run: TriggerRun, cancelled: bool): (r: Result<(Store, ExecuteTask.Response)>)
    requires Keyed(s)
    ensures r.Ok? <==> Guard(ctx.taleId, ctx.versionId, ctx.trigger.Some?, "Trigger", ctx.chapter, ctx.page).Ok?
    ensures r.Err? ==> r.error.GrainOperation?
    ensures r.Ok? ==> Keyed(r.value.0) && r.value.0.commands == s.commands
    ensures r.Ok? ==> (r.value.1.status == {Flag.Success} <==> run.Finished? && !cancelled && TriggerStatus(run.state) == {Flag.Success})
    ensures r.Ok? && cancelled ==>
      r.value == (s, ExecuteTask.Response({Flag.Timedout}, None, Some(Triggers.ToCommand(ctx.trigger.value))))
    ensures r.Ok? && !cancelled && run.Finished? ==>
      r.value.1 == ExecuteTask.Response(TriggerStatus(run.state), None, None) &&
      r.value.0 == (if run.state == TriggerState.Set then s
                    else UpdateTrigger(s, ctx.taleId, ctx.versionId, ctx.trigger.value.id, run.state).0)
    ensures r.Ok? && !cancelled && run.Failure? ==>
      r.value.1 == Settle(run.error, run.trace, Triggers.ToCommand(ctx.trigger.value)) &&
      r.value.0 == UpdateTrigger(s, ctx.taleId, ctx.versionId, ctx.trigger.value.id, TriggerState.Faulted).0
  {
    var _ :- Guard(ctx.taleId, ctx.versionId, ctx.trigger.Some?, "Trigger", ctx.chapter, ctx.page);
    var t := ctx.trigger.value;
    if cancelled then
      Ok((s, Settle(OperationCanceled, None, Triggers.ToCommand(t))))
    else
      match run
      case Finished(state) =>
        var stored := if state == TriggerState.Set then s else UpdateTrigger(s, ctx.taleId, ctx.versionId, t.id, state).0;
        Ok((stored, ExecuteTask.Response(TriggerStatus(state), None, None)))
      case Failure(e, trace) =>
        Ok((UpdateTrigger(s, ctx.taleId, ctx.versionId, t.id, TriggerState.Faulted).0, Settle(e, trace, Triggers.ToCommand(t))))
  }

  /** After a trigger runs, it is still due to fire again only if it stayed
      Set: a trigger that was triggered, faulted, invalidated or whose
      executor threw is no longer among the active triggers. */
  lemma TriggerFiresAgainOnlyIfSet(s: Store, ctx: TriggerContext, run: TriggerRun, cancelled: bool, date: int)
    requires Keyed(s)
    requires ExecuteTrigger(s, ctx, run, cancelled).Ok?
    requires !cancelled && !(run.Finished? && run.state == TriggerState.Set)
    ensures var after := ExecuteTrigger(s, ctx, run, cancelled).value.0;
      forall t :: t in ActiveTriggersBefore(after, ctx.taleId, ctx.versionId, date) ==> t.id != ctx.trigger.value.id
  {
    var id := ctx.trigger.value.id;
    var state := if run.Finished? then run.state else TriggerState.Faulted;
    FiredTriggerInactive(s, ctx.taleId, ctx.versionId, id, state, date);
  }
}
