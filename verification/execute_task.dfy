/** `ExecuteTask`: a service's execution of one page.

    The page's waiting commands run phase by phase through one shared
    `ResultTaskManager`: phase 0 first, then phases 1 to the highest phase
    while every phase succeeds, then phase -1. Each command is sent to the
    entity grain (or, for a trigger, the trigger grain) it names; failed
    commands are published as events, and the page grain hears the outcome.

    The task database, the batches the task manager finishes per phase, the
    grain replies and the point (if any) where an exception escapes are
    parameters. */
module ExecuteTask {
  import opened Wrappers
  import opened Outcomes
  import opened Text
  import opened Guids
  import opened Commands
  import opened TaskStore
  import CommandIds
  import CommandText
  import Triggers
  import TaskRunner
  import ProcessTask

  // ---------------------------------------------------------------- replies

  /** `ErrorInfo`: the exception type name, message and stack trace. */
  datatype ErrorInfo = ErrorInfo(kind: string, message: string, stacktrace: Option<string>)

  /** The entity grain's `ExecuteCommandResponse`. */
  datatype Response = Response(status: Outcome, error: Option<ErrorInfo>, command: Option<RawCommand>)

  // ----------------------------------------------------- mapping a command

  /** `MapToCommand`: the command as the entity grain receives it. Tag and
      target come from the row's columns, everything else from its raw data;
      each named parameter keeps its type, name and value. */
  function MapToCommand(row: CommandRow): (c: RawCommand)
    ensures c.tag == row.tag && c.target == row.target
    ensures c.parent == row.data.parent && c.comment == row.data.comment
    ensures c.arrayParams == row.data.arrayParams && c.named == row.data.named
  {
    RawCommand(row.tag, row.target, row.data.parent, row.data.named, row.data.arrayParams, row.data.comment)
  }

  /** A stored row whose columns agree with its raw data reaches the grain
      exactly as it was written. */
  lemma MapToCommandKeepsStored(row: CommandRow)
    requires row.tag == row.data.tag && row.target == row.data.target
    ensures MapToCommand(row) == row.data
  {
  }

  /** `First(x => x.Name == name).Value`: throws when no parameter has the name. */
  function NamedValue(ps: seq<NamedParameter>, name: string): (r: Result<string>)
    ensures r.Ok? <==> exists i :: 0 <= i < |ps| && ps[i].name == name
    ensures r.Ok? ==> r == Ok(FirstNamed(ps, name).value.value)
    ensures r.Err? ==> r.error.InvalidOperation?
  {
    match FirstNamed(ps, name)
    case None => Err(InvalidOperation("Sequence contains no matching element"))
    case Some(p) => Ok(p.value)
  }

  /** `MapToTrigger`: the trigger a TRIGGER row describes. Each of the five
      parameters must be present and "at" must be a 64-bit number. */
  function MapToTrigger(row: CommandRow): (r: Result<Triggers.RawTrigger>)
    ensures r.Ok? ==> r.value.target == row.target
    ensures r.Ok? <==>
      NamedValue(row.data.named, CommandIds.TriggerId).Ok? && NamedValue(row.data.named, CommandIds.TriggerType).Ok? &&
      NamedValue(row.data.named, CommandIds.TriggerParameter).Ok? && NamedValue(row.data.named, CommandIds.TriggerGrain).Ok? &&
      NamedValue(row.data.named, CommandIds.TriggerAt).Ok? &&
      ParseLong(NamedValue(row.data.named, CommandIds.TriggerAt).value).Ok?
  {
    var ps := row.data.named;
    var id :- NamedValue(ps, CommandIds.TriggerId);
    var kind :- NamedValue(ps, CommandIds.TriggerType);
    var parameter :- NamedValue(ps, CommandIds.TriggerParameter);
    var grain :- NamedValue(ps, CommandIds.TriggerGrain);
    var at :- NamedValue(ps, CommandIds.TriggerAt);
    var triggerAt :- ParseLong(at);
    Ok(Triggers.RawTrigger(row.target, id, kind, parameter, grain, triggerAt))
  }

  /** A trigger stored as a command (`RawTrigger.ToCommand`) is read back
      unchanged when it is executed. */
  lemma MapToTriggerRoundTrip(row: CommandRow, t: Triggers.RawTrigger)
    requires row.data == Triggers.ToCommand(t) && row.target == t.target
    requires IsLong(t.triggerAt)
    ensures MapToTrigger(row) == Ok(t)
  {
    Triggers.TriggerParamsFound(t.id, t.kind, t.parameter, t.grain, IntToString(t.triggerAt));
    LongStringRoundTrip(t.triggerAt);
  }

  /** Where a command is sent: the trigger grain of the given grain type, or
      the command grain for its tag and target. */
  datatype Dispatch =
    | ToTriggerGrain(grainType: string, trigger: Triggers.RawTrigger)
    | ToCommandGrain(command: RawCommand)

  /** Trigger-tagged rows need a "grain" parameter and go to a trigger grain;
      every other row goes to a command grain. */
  function Route(row: CommandRow): (r: Result<Dispatch>)
    ensures row.tag != CommandIds.Trigger ==> r == Ok(ToCommandGrain(MapToCommand(row)))
    ensures row.tag == CommandIds.Trigger && FirstNamed(row.data.named, CommandIds.TriggerGrain).None? ==>
              r == Err(CommandExecution(CommandText.Render(row.data), "Trigger has no grain type set"))
    ensures r.Ok? && r.value.ToTriggerGrain? ==>
              row.tag == CommandIds.Trigger && MapToTrigger(row) == Ok(r.value.trigger) &&
              r.value.grainType == r.value.trigger.grain
  {
    if row.tag != CommandIds.Trigger then Ok(ToCommandGrain(MapToCommand(row)))
    else
      match FirstNamed(row.data.named, CommandIds.TriggerGrain)
      case None => Err(CommandExecution(CommandText.Render(row.data), "Trigger has no grain type set"))
      case Some(p) =>
        var trigger :- MapToTrigger(row);
        Ok(ToTriggerGrain(p.value, trigger))
  }

  // ----------------------------------------------------- executing a command

  /** The mark a response status leaves on the row. */
  function MarkOf(status: Outcome): (m: ExecuteMark)
    ensures m == Done <==> status == {Success}
    ensures m == NotRun <==> status == NoResult
  {
    if status == {Success} then Done
    else if status == NoResult then NotRun
    else Failed
  }

  /** The row's error text for an error a grain reports. */
  function ReplyErrorText(e: ErrorInfo): string {
    "[" + e.kind + "]: " + e.message + "\r\n" + e.stacktrace.GetOr("")
  }

  const EmptyReply: string := "Operation result is empty"

  /** What one command's run meets: the validator's verdict, the grain's
      reply (null, a response, or an exception), and whether the token has
      fired before the call and once it returns. */
  datatype Attempt = Attempt(
    cancelledBefore: bool,
    validation: Result<()>,
    reply: Result<Option<Response>>,
    cancelledAfter: bool)

  /** `ExecuteAsync`: the row as it is left to be saved, and how the task
      ended. A token that has fired before the work starts cancels the task;
      any later exception marks the row Failed with "[type]: message" and is
      rethrown as a CommandExecutionException carrying the command's text. A
      null reply marks the row Failed and counts as status None; otherwise
      the row takes the reply's status and error. */
  function ExecuteCommand(row: CommandRow, a: Attempt): (r: (CommandRow, TaskRunner.Completion<Response>))
    ensures KeyOf(r.0) == KeyOf(row) && r.0.data == row.data && r.0.tag == row.tag && r.0.target == row.target
    ensures r.1.Canceled? <==> a.cancelledBefore
    ensures r.1.Threw? ==> r.1.error.CommandExecution? && r.1.error.data == CommandText.Render(row.data) && r.0.result == Failed
    ensures r.1.Returned? ==>
              !a.cancelledBefore && a.validation.Ok? && Route(row).Ok? && a.reply.Ok? && !a.cancelledAfter &&
              (a.reply.value.None? ==> r.1.value.status == NoResult && r.0.result == Failed && r.0.error == Some(EmptyReply)) &&
              (a.reply.value.Some? ==> r.1.value == a.reply.value.value && r.0.result == MarkOf(r.1.value.status))
    ensures a.cancelledBefore ==> r.0 == row
    ensures !a.cancelledBefore ==> (r.0.result == Done <==> r.1.Returned? && r.1.value.status == {Success})
  {
    if a.cancelledBefore then (row, TaskRunner.Canceled)
    else
      var failure: Result<Option<Response>> :=
        if a.validation.Err? then Err(a.validation.error)
        else if Route(row).Err? then Err(Route(row).error)
        else if a.reply.Err? then a.reply
        else if a.cancelledAfter then Err(OperationCanceled)
        else a.reply;
      match failure
      case Err(e) =>
        var marked := row.(result := Failed, error := Some("[" + e.TypeName() + "]: " + e.Text()));
        (marked, TaskRunner.Threw(CommandExecution(CommandText.Render(row.data), e.Text())))
      case Ok(None) =>
        (row.(result := Failed, error := Some(EmptyReply)), TaskRunner.Returned(Response(NoResult, None, None)))
      case Ok(Some(res)) =>
        var error := if res.error.Some? then Some(ReplyErrorText(res.error.value)) else None;
        (row.(result := MarkOf(res.status), error := error), TaskRunner.Returned(res))
  }

  // ------------------------------------------------------------ phase result

  /** The position of the first response that is not a success, or the
      length when all of them are. */
  function FirstFailing(results: seq<Response>): (k: nat)
    ensures k <= |results|
    ensures forall i :: 0 <= i < k ==> results[i].status == {Success}
    ensures k < |results| ==> results[k].status != {Success}
    decreases |results|
  {
    if results == [] then 0
    else if results[0].status != {Success} then 0
    else
      var k := FirstFailing(results[1..]);
      assert forall i :: 1 <= i < |results| ==> results[i] == results[1..][i - 1];
      1 + k
  }

  /** After a run of successes, the first failing response is found in what follows. */
  lemma {:induction false} FirstFailingAfterSuccesses(a: seq<Response>, b: seq<Response>)
    requires forall i :: 0 <= i < |a| ==> a[i].status == {Success}
    ensures FirstFailing(a + b) == |a| + FirstFailing(b)
    decreases |a|
  {
    if a == [] {
      assert a + b == b;
    } else {
      var ab := a + b;
      assert ab[0] == a[0];
      assert ab[1..] == a[1..] + b;
      FirstFailingAfterSuccesses(a[1..], b);
    }
  }

  /** The shared task manager's counters and bags, which are never reset
      between phases, and `_taskCount`, the number of commands handed over
      so far. */
  datatype Totals = Totals(
    taskCount: nat,
    faulted: nat,
    timedout: nat,
    successes: nat,
    results: seq<Response>,
    errors: seq<Fault>)

  const NoTotals: Totals := Totals(0, 0, 0, 0, [], [])

  /** What one `Start` adds to the manager: how the phase's items ended, and
      the results and errors they left. */
  datatype Batch = Batch(faulted: nat, timedout: nat, successes: nat, results: seq<Response>, errors: seq<Fault>)

  /** A phase of `size` commands handed over and run. */
  function Absorb(t: Totals, size: nat, b: Batch): (u: Totals)
    ensures u.taskCount == t.taskCount + size
    ensures u.faulted == t.faulted + b.faulted && u.timedout == t.timedout + b.timedout
    ensures u.successes == t.successes + b.successes
    ensures u.results == t.results + b.results && u.errors == t.errors + b.errors
  {
    Totals(t.taskCount + size, t.faulted + b.faulted, t.timedout + b.timedout, t.successes + b.successes,
           t.results + b.results, t.errors + b.errors)
  }

  /** The verdict of a phase, read off the cumulative counters: Faulted if
      anything faulted, else Timedout if anything timed out, else, when every
      handed-over command succeeded, the status of the first response that
      is not a success (or Success); Blocked otherwise. `Start` never returns
      null, so the null-results branch does not arise. */
  function PhaseVerdict(t: Totals): (r: Outcome)
    ensures r == {Success} <==>
              t.faulted == 0 && t.timedout == 0 && t.successes == t.taskCount &&
              forall i :: 0 <= i < |t.results| ==> t.results[i].status == {Success}
    ensures t.faulted > 0 ==> r == {Flag.Faulted}
    ensures t.faulted == 0 && t.timedout > 0 ==> r == {Flag.Timedout}
    ensures t.faulted == 0 && t.timedout == 0 && t.successes != t.taskCount ==> r == {Blocked}
    ensures t.faulted == 0 && t.timedout == 0 && t.successes == t.taskCount && r != {Success} ==>
              exists i :: 0 <= i < |t.results| && r == t.results[i].status
  {
    if t.faulted > 0 then {Flag.Faulted}
    else if t.timedout > 0 then {Flag.Timedout}
    else if t.successes == t.taskCount then
      var k := FirstFailing(t.results);
      if k < |t.results| then t.results[k].status else {Success}
    else {Blocked}
  }

  /** Totals after phases that all succeeded. */
  predicate Clean(t: Totals) {
    t.faulted == 0 && t.timedout == 0 && t.successes == t.taskCount &&
    forall i :: 0 <= i < |t.results| ==> t.results[i].status == {Success}
  }

  /** Although the counters accumulate across phases, a phase is judged on
      its own batch: the phases before it all succeeded, so they add nothing
      that could change the verdict. */
  lemma CumulativeVerdictIsPerPhase(t: Totals, size: nat, b: Batch)
    requires Clean(t)
    ensures PhaseVerdict(Absorb(t, size, b)) == PhaseVerdict(Absorb(NoTotals, size, b))
  {
    AbsorbedVerdict(t, size, b);
    AbsorbedVerdict(NoTotals, size, b);
  }

  /** The verdict a phase's batch alone would give. */
  function BatchVerdict(size: nat, b: Batch): Outcome {
    if b.faulted > 0 then {Flag.Faulted}
    else if b.timedout > 0 then {Flag.Timedout}
    else if b.successes != size then {Blocked}
    else if FirstFailing(b.results) < |b.results| then b.results[FirstFailing(b.results)].status
    else {Success}
  }

  /** After clean phases, the verdict is the batch's own. */
  lemma AbsorbedVerdict(t: Totals, size: nat, b: Batch)
    requires Clean(t)
    ensures PhaseVerdict(Absorb(t, size, b)) == BatchVerdict(size, b)
  {
    var u := Absorb(t, size, b);
    if u.faulted == 0 && u.timedout == 0 && u.successes == u.taskCount {
      FirstFailingAfterSuccesses(t.results, b.results);
      var k := FirstFailing(b.results);
      if k < |b.results| {
        assert u.results[|t.results| + k] == b.results[k];
      }
    }
  }

  /** When the batch accounts for every command of the phase, the Blocked
      branch ("it should not happen") is indeed never taken: the verdict is
      Success, Faulted, Timedout, or the status some grain answered with. */
  lemma TalliedPhaseNeverStalls(t: Totals, size: nat, b: Batch)
    requires Clean(t) && b.faulted + b.timedout + b.successes == size
    ensures var r := PhaseVerdict(Absorb(t, size, b));
      r == {Success} || r == {Flag.Faulted} || r == {Flag.Timedout} ||
      exists i :: 0 <= i < |b.results| && r == b.results[i].status
  {
    CumulativeVerdictIsPerPhase(t, size, b);
    var v := Absorb(NoTotals, size, b);
    assert v.results == b.results;
  }

  // ---------------------------------------------------------------- events

  /** `ExecuteStatus` of the event: Timeout or Faulted. */
  datatype EventStatus = StatusTimeout | StatusFaulted

  /** A failed `ExecuteCommandResponse` event published on the event exchange. */
  datatype Notice = Notice(status: EventStatus, kind: string, message: string, commandData: string)

  const NoErrorMessage: string := "No error message available"
  const NoCommandInfo: string := "No command info available"

  /** The event for a response that is not a success: Timeout for exactly
      Cancelled or exactly Timedout, Faulted for every other status. */
  function ResultNotice(res: Response): (n: Notice)
    ensures n.status == StatusTimeout <==> res.status == {Flag.Cancelled} || res.status == {Flag.Timedout}
    ensures res.error.Some? ==> n.kind == res.error.value.kind && n.message == res.error.value.message
    ensures res.error.None? ==> n.kind == NoErrorMessage && n.message == NoErrorMessage
    ensures res.command.Some? ==> n.commandData == CommandText.Render(res.command.value)
    ensures res.command.None? ==> n.commandData == NoCommandInfo
  {
    var status := if res.status == {Flag.Cancelled} || res.status == {Flag.Timedout} then StatusTimeout else StatusFaulted;
    var kind := if res.error.Some? then res.error.value.kind else NoErrorMessage;
    var message := if res.error.Some? then res.error.value.message else NoErrorMessage;
    var data := if res.command.Some? then CommandText.Render(res.command.value) else NoCommandInfo;
    Notice(status, kind, message, data)
  }

  /** The event for a command exception. */
  function ErrorNotice(e: Fault): (n: Notice)
    requires e.CommandValidation? || e.CommandExecution?
    ensures n.status == StatusFaulted && n.message == e.Text() && n.commandData == e.data
  {
    Notice(StatusFaulted, e.TypeName(), e.Text(), e.data)
  }

  /** The events for the responses that are not a success, in order. */
  function ResultNotices(results: seq<Response>): (r: seq<Notice>)
    ensures |r| <= |results|
    ensures (forall i :: 0 <= i < |results| ==> results[i].status == {Success}) ==> r == []
    decreases |results|
  {
    if results == [] then []
    else
      var rest := ResultNotices(results[1..]);
      if results[0].status != {Success} then [ResultNotice(results[0])] + rest else rest
  }

  /** The events for the command exceptions, in order. */
  function ErrorNotices(errors: seq<Fault>): (r: seq<Notice>)
    ensures |r| == |ProcessTask.CommandErrors(errors)|
    ensures forall i :: 0 <= i < |r| ==> r[i] == ErrorNotice(ProcessTask.CommandErrors(errors)[i])
  {
    var picked := ProcessTask.CommandErrors(errors);
    assert forall e :: e in picked ==> e.CommandValidation? || e.CommandExecution?;
    seq(|picked|, i requires 0 <= i < |picked| => ErrorNotice(picked[i]))
  }

  /** `PublishErrorsAsync` as written: the loop over the exceptions builds an
      event for each command exception but never publishes it, so only the
      responses are published. */
  function PublishedAsWritten(results: Option<seq<Response>>, errors: seq<Fault>): (r: seq<Notice>)
    ensures results.None? ==> r == []
    ensures results.Some? ==> r == ResultNotices(results.value)
  {
    if results.Some? then ResultNotices(results.value) else []
  }

  /** `PublishErrorsAsync` as intended, and as `ProcessTask` does it: the
      responses that are not a success, then one event per command exception. */
  function Published(results: Option<seq<Response>>, errors: seq<Fault>): (r: seq<Notice>)
    ensures r == PublishedAsWritten(results, errors) + ErrorNotices(errors)
  {
    (if results.Some? then ResultNotices(results.value) else []) + ErrorNotices(errors)
  }

  /** As written, a command that failed with an exception leaves no event:
      after a cancellation the recovery publishes nothing at all. */
  lemma PublishedAsWrittenDropsErrors()
    ensures var e := CommandExecution("`ADD`: hero", "boom");
      PublishedAsWritten(None, [e]) == [] &&
      Published(None, [e]) == [Notice(StatusFaulted, "CommandExecutionException", "boom", "`ADD`: hero")]
  {
    var e := CommandExecution("`ADD`: hero", "boom");
    assert ProcessTask.CommandErrors([e]) == [e];
  }

  /** With the correction every command exception is published, once, in
      the order the exceptions were collected. */
  lemma PublishedReportsEveryError(errors: seq<Fault>)
    ensures var r := Published(None, errors);
      |r| == |ProcessTask.CommandErrors(errors)| &&
      forall e :: e in errors && (e.CommandValidation? || e.CommandExecution?) ==>
        exists i :: 0 <= i < |r| && r[i] == ErrorNotice(e)
  {
    var picked := ProcessTask.CommandErrors(errors);
    var r := Published(None, errors);
    forall e | e in errors && (e.CommandValidation? || e.CommandExecution?)
      ensures exists i :: 0 <= i < |r| && r[i] == ErrorNotice(e)
    {
      assert e in picked;
      var i :| 0 <= i < |picked| && picked[i] == e;
      assert r[i] == ErrorNotice(picked[i]);
    }
  }

  // ---------------------------------------------------------------- phases

  /** Where, if anywhere, an exception escapes the run:
      - `FailsAtFetch`: when the given phase's waiting commands are read,
        before any of them is counted or handed over;
      - `FailsIn`: while the given phase runs, after its items ran and before
        its events are published (a failed publish, or the token seen by the
        manager), reached only by a phase that has commands;
      - `CancelledIn`: at the token check after the phase's events are
        published, reached only by a phase that has commands;
      - `FailsAtMaxPhase`: when the highest phase is read after phase 0,
        whatever phase 0's verdict;
      - `FailsAtReport`, `FailsAtSave`: when the outcome is reported to the
        page grain, or when the changes are saved after the report.
      `OperationCanceled` is the token firing; any other fault is a failure. */
  datatype Interrupt =
    | Clean
    | FailsAtFetch(phase: int, fault: Fault)
    | FailsIn(phase: int, fault: Fault)
    | CancelledIn(phase: int)
    | FailsAtMaxPhase(fault: Fault)
    | FailsAtReport(fault: Fault)
    | FailsAtSave(fault: Fault)

  /** The interrupts that end the phase loop. */
  predicate InPhases(i: Interrupt) {
    i.FailsAtFetch? || i.FailsIn? || i.CancelledIn? || i.FailsAtMaxPhase?
  }

  /** The exception such an interrupt throws. */
  function Thrown(i: Interrupt): (f: Fault)
    requires InPhases(i)
    ensures i.CancelledIn? ==> f == OperationCanceled
    ensures !i.CancelledIn? ==> f == i.fault
  {
    if i.CancelledIn? then OperationCanceled else i.fault
  }

  /** Whether reading the waiting commands of `phase` throws. */
  predicate FetchFails(i: Interrupt, phase: int) {
    i.FailsAtFetch? && i.phase == phase
  }

  /** Whether the interrupt ends the run in this phase of `size` commands. */
  predicate StopsIn(i: Interrupt, phase: int, size: nat) {
    FetchFails(i, phase) || ((i.FailsIn? || i.CancelledIn?) && i.phase == phase && size > 0)
  }

  /** The run so far: the manager's totals, the last phase verdict, the
      phases whose waiting commands were read, the events published and the
      exception that escaped. */
  datatype Progress = Progress(
    totals: Totals,
    result: Outcome,
    ran: seq<int>,
    notices: seq<Notice>,
    escaped: Option<Fault>)

  /** A run that may go on to the next phase. */
  predicate Going(p: Progress) {
    p.escaped.None? && p.result == {Success}
  }

  /** `ExecutePhaseAsync(phase)` for a phase with `size` waiting commands
      whose run the manager finishes as `b`. A read that throws leaves the
      run as it was; a phase without commands succeeds at once. The events
      are published before the token is looked at, so a cancellation there
      keeps them. */
  function RunPhase(p: Progress, phase: int, size: nat, b: Batch, interrupt: Interrupt): (q: Progress)
    ensures q.ran == if FetchFails(interrupt, phase) then p.ran else p.ran + [phase]
    ensures q.totals == if size == 0 || FetchFails(interrupt, phase) then p.totals else Absorb(p.totals, size, b)
    ensures q.escaped.Some? <==> StopsIn(interrupt, phase, size)
    ensures q.escaped.Some? ==> q.escaped.value == Thrown(interrupt)
    ensures size == 0 || FetchFails(interrupt, phase) || (interrupt.FailsIn? && interrupt.phase == phase) ==> q.notices == p.notices
    ensures size > 0 && !FetchFails(interrupt, phase) && !(interrupt.FailsIn? && interrupt.phase == phase) ==>
              q.notices == p.notices + PublishedAsWritten(Some(q.totals.results), q.totals.errors)
    ensures q.escaped.None? && size == 0 ==> q.result == {Success}
    ensures q.escaped.None? && size > 0 ==> q.result == PhaseVerdict(q.totals)
    ensures Going(q) && Clean(p.totals) ==> Clean(q.totals)
  {
    if FetchFails(interrupt, phase) then Progress(p.totals, p.result, p.ran, p.notices, Some(interrupt.fault))
    else if size == 0 then Progress(p.totals, {Success}, p.ran + [phase], p.notices, None)
    else
      var t := Absorb(p.totals, size, b);
      var ran := p.ran + [phase];
      if interrupt.FailsIn? && interrupt.phase == phase then Progress(t, p.result, ran, p.notices, Some(interrupt.fault))
      else
        var notices := p.notices + PublishedAsWritten(Some(t.results), t.errors);
        if interrupt.CancelledIn? && interrupt.phase == phase then Progress(t, p.result, ran, notices, Some(OperationCanceled))
        else Progress(t, PhaseVerdict(t), ran, notices, None)
  }

  /** The numbers `lo`, `lo + 1`, ..., `hi`. */
  function Span(lo: int, hi: int): (r: seq<int>)
    ensures |r| == if lo <= hi then hi - lo + 1 else 0
    ensures forall i :: 0 <= i < |r| ==> r[i] == lo + i
    decreases hi - lo
  {
    if lo > hi then [] else [lo] + Span(lo + 1, hi)
  }

  /** The commands handed over in the phases `phases`, phase by phase. */
  function Handed(size: int -> nat, phases: seq<int>): nat {
    if phases == [] then 0 else Handed(size, phases[..|phases| - 1]) + size(phases[|phases| - 1])
  }

  /** What the environment decides about each phase: how many commands wait
      in it when it starts, and how the manager finishes them. */
  datatype Phases = Phases(size: int -> nat, batch: int -> Batch, interrupt: Interrupt)

  /** The `for` loop over phases `phase` to `maxPhase`, left at the first
      phase that does not succeed. */
  function Climb(p: Progress, phase: int, maxPhase: int, env: Phases): (q: Progress)
    requires Going(p) && Clean(p.totals)
    ensures exists k :: 0 <= k <= |Span(phase, maxPhase)| && q.ran == p.ran + Span(phase, maxPhase)[..k]
    ensures Going(q) ==> Clean(q.totals) && q.ran == p.ran + Span(phase, maxPhase)
    ensures q.escaped.Some? ==> InPhases(env.interrupt) && q.escaped.value == Thrown(env.interrupt)
    decreases maxPhase - phase
  {
    if phase > maxPhase then
      assert p.ran + Span(phase, maxPhase)[..0] == p.ran;
      p
    else
      var q := RunPhase(p, phase, env.size(phase), env.batch(phase), env.interrupt);
      var span := Span(phase, maxPhase);
      assert span == [phase] + Span(phase + 1, maxPhase);
      if !Going(q) then
        assert q.ran == p.ran + span[..if FetchFails(env.interrupt, phase) then 0 else 1];
        q
      else
        assert Clean(q.totals);
        var r := Climb(q, phase + 1, maxPhase, env);
        var k :| 0 <= k <= |Span(phase + 1, maxPhase)| && r.ran == q.ran + Span(phase + 1, maxPhase)[..k];
        assert r.ran == p.ran + span[..k + 1];
        r
  }

  /** Every phase the loop enters hands over its waiting commands. */
  lemma {:induction false} ClimbHands(p: Progress, phase: int, maxPhase: int, env: Phases)
    requires Going(p) && Clean(p.totals) && p.totals.taskCount == Handed(env.size, p.ran)
    ensures Climb(p, phase, maxPhase, env).totals.taskCount == Handed(env.size, Climb(p, phase, maxPhase, env).ran)
    decreases maxPhase - phase
  {
    if phase <= maxPhase {
      var q := RunPhase(p, phase, env.size(phase), env.batch(phase), env.interrupt);
      HandedStep(env.size, p.ran, phase);
      if Going(q) {
        ClimbHands(q, phase + 1, maxPhase, env);
      }
    }
  }

  /** One more phase hands over its commands. */
  lemma HandedStep(size: int -> nat, ran: seq<int>, phase: int)
    ensures Handed(size, ran + [phase]) == Handed(size, ran) + size(phase)
  {
    assert (ran + [phase])[..|ran|] == ran;
  }

  /** Phases in the order they may run: 0, then 1 to the highest, then -1. */
  function Schedule(maxPhase: int): (s: seq<int>)
    ensures |s| >= 2 && s[0] == 0 && s[|s| - 1] == -1
  {
    [0] + Span(1, maxPhase) + [-1]
  }

  /** The phase loop of `WorkAsync`. The highest phase is read once phase 0
      is over, whatever its verdict, so it is a function of phase 0's
      progress; a failed read ends the run with phase 0's progress. */
  function RunPhases(maxPhase: Progress -> int, env: Phases): (q: Progress)
    ensures q.escaped.Some? ==> InPhases(env.interrupt) && q.escaped.value == Thrown(env.interrupt)
    ensures env.interrupt.FailsAtMaxPhase? ==>
              q.ran == [0] && q.escaped == Some(env.interrupt.fault) &&
              q.totals == if env.size(0) == 0 then NoTotals else Absorb(NoTotals, env.size(0), env.batch(0))
  {
    var start := Progress(NoTotals, NoResult, [], [], None);
    var p0 := RunPhase(start, 0, env.size(0), env.batch(0), env.interrupt);
    if p0.escaped.None? && env.interrupt.FailsAtMaxPhase? then p0.(escaped := Some(env.interrupt.fault))
    else
      var p1 := if Going(p0) then Climb(p0, 1, maxPhase(p0), env) else p0;
      if Going(p1) then RunPhase(p1, -1, env.size(-1), env.batch(-1), env.interrupt) else p1
  }

  /** The phases run in schedule order and stop at the first that does not
      succeed; all of them ran when the outcome is a success, and none only
      when reading phase 0 failed. Every phase whose commands were read
      handed over the commands waiting in it when it started. */
  lemma RunPhasesFollowsSchedule(maxPhase: Progress -> int, env: Phases)
    ensures var q := RunPhases(maxPhase, env);
      var m := maxPhase(RunPhase(Progress(NoTotals, NoResult, [], [], None), 0, env.size(0), env.batch(0), env.interrupt));
      (exists k :: 0 <= k <= |Schedule(m)| && q.ran == Schedule(m)[..k]) &&
      (q.ran == [] <==> FetchFails(env.interrupt, 0)) &&
      (Going(q) ==> q.ran == Schedule(m) && Clean(q.totals)) &&
      q.totals.taskCount == Handed(env.size, q.ran)
  {
    var start := Progress(NoTotals, NoResult, [], [], None);
    var p0 := RunPhase(start, 0, env.size(0), env.batch(0), env.interrupt);
    var s := Schedule(maxPhase(p0));
    HandedStep(env.size, [], 0);
    assert [] + [0] == [0];
    if FetchFails(env.interrupt, 0) {
      assert p0.ran == s[..0];
    } else if !Going(p0) || env.interrupt.FailsAtMaxPhase? {
      assert p0.ran == s[..1];
    } else {
      assert Clean(p0.totals);
      AfterFirstPhase(p0, maxPhase(p0), env);
    }
  }

  /** The rest of the schedule, once phase 0 has succeeded. */
  lemma AfterFirstPhase(p0: Progress, maxPhase: int, env: Phases)
    requires Going(p0) && Clean(p0.totals) && p0.ran == [0] && p0.totals.taskCount == Handed(env.size, p0.ran)
    ensures var p1 := Climb(p0, 1, maxPhase, env);
      var q := if Going(p1) then RunPhase(p1, -1, env.size(-1), env.batch(-1), env.interrupt) else p1;
      (exists k :: 1 <= k <= |Schedule(maxPhase)| && q.ran == Schedule(maxPhase)[..k]) &&
      (Going(q) ==> q.ran == Schedule(maxPhase) && Clean(q.totals)) &&
      q.totals.taskCount == Handed(env.size, q.ran)
  {
    var p1 := Climb(p0, 1, maxPhase, env);
    ClimbHands(p0, 1, maxPhase, env);
    if Going(p1) {
      LastPhase(p1, maxPhase, env);
      var s := Schedule(maxPhase);
      var q := RunPhase(p1, -1, env.size(-1), env.batch(-1), env.interrupt);
      if FetchFails(env.interrupt, -1) {
        assert q.ran == s[..|s| - 1];
      } else {
        assert q.ran == s[..|s|];
      }
    } else {
      ClimbPrefix(p0, maxPhase, env);
    }
  }

  /** The phases the loop entered, after phase 0, are a prefix of the schedule. */
  lemma ClimbPrefix(p0: Progress, maxPhase: int, env: Phases)
    requires Going(p0) && Clean(p0.totals) && p0.ran == [0]
    ensures exists k :: 1 <= k <= |Schedule(maxPhase)| && Climb(p0, 1, maxPhase, env).ran == Schedule(maxPhase)[..k]
  {
    var s := Schedule(maxPhase);
    var mid := Span(1, maxPhase);
    assert s == [0] + mid + [-1];
    var p1 := Climb(p0, 1, maxPhase, env);
    var k :| 0 <= k <= |mid| && p1.ran == p0.ran + mid[..k];
    assert p1.ran == s[..k + 1];
  }

  /** Phase -1, once every phase before it has succeeded: it completes the
      schedule unless reading it fails. */
  lemma LastPhase(p1: Progress, maxPhase: int, env: Phases)
    requires Going(p1) && Clean(p1.totals) && p1.ran == [0] + Span(1, maxPhase)
    requires p1.totals.taskCount == Handed(env.size, p1.ran)
    ensures var q := RunPhase(p1, -1, env.size(-1), env.batch(-1), env.interrupt);
      var s := Schedule(maxPhase);
      q.ran == (if FetchFails(env.interrupt, -1) then s[..|s| - 1] else s) && (Going(q) ==> Clean(q.totals)) &&
      q.totals.taskCount == Handed(env.size, q.ran)
  {
    HandedStep(env.size, p1.ran, -1);
    var s := Schedule(maxPhase);
    assert s[..|s| - 1] == p1.ran;
  }

  // ------------------------------------------------------------------ run

  datatype Argument = Argument(taleId: Guid, versionId: Guid, chapter: int, page: int)

  /** What a run leaves behind: the results reported to the page grain in
      order, the events published in order, the phases whose commands were
      read, the number of commands handed over, and whether the row marks
      were saved. */
  datatype Effect = Effect(reports: seq<Outcome>, notices: seq<Notice>, ran: seq<int>, handed: nat, saved: bool)

  /** The event published for a failure that is not a cancellation. */
  function FailureNotice(f: Fault): (n: Notice)
    ensures n.status == StatusFaulted && n.commandData == "Error during executing"
  {
    Notice(StatusFaulted, f.TypeName(), f.Text(), "Error during executing")
  }

  /** The recovery of `WorkAsync`: a cancellation publishes the command
      exceptions and reports Timedout; any other failure publishes itself,
      then the command exceptions, and reports Faulted. As written the
      command exceptions yield no event, so a cancellation publishes nothing. */
  function Recover(f: Fault, errors: seq<Fault>): (r: (seq<Notice>, Outcome))
    ensures r.1 == if f.OperationCanceled? then {Flag.Timedout} else {Flag.Faulted}
    ensures f.OperationCanceled? ==> r.0 == []
    ensures !f.OperationCanceled? ==> r.0 == [FailureNotice(f)]
  {
    if f.OperationCanceled? then (PublishedAsWritten(None, errors), {Flag.Timedout})
    else ([FailureNotice(f)] + PublishedAsWritten(None, errors), {Flag.Faulted})
  }

  /** The end of `WorkAsync` once the phases are over: the report, then the
      save; an exception that escaped a phase, the report or the save is
      recovered from. */
  function Conclude(q: Progress, interrupt: Interrupt): (e: Effect)
    ensures e.ran == q.ran && e.handed == q.totals.taskCount
    ensures e.saved <==> q.escaped.None? && !interrupt.FailsAtReport? && !interrupt.FailsAtSave?
    ensures e.saved ==> e.reports == [q.result] && e.notices == q.notices
  {
    if q.escaped.Some? then
      var (more, report) := Recover(q.escaped.value, q.totals.errors);
      Effect([report], q.notices + more, q.ran, q.totals.taskCount, false)
    else if interrupt.FailsAtReport? then
      var (more, report) := Recover(interrupt.fault, q.totals.errors);
      Effect([report], q.notices + more, q.ran, q.totals.taskCount, false)
    else if interrupt.FailsAtSave? then
      var (more, report) := Recover(interrupt.fault, q.totals.errors);
      Effect([q.result, report], q.notices + more, q.ran, q.totals.taskCount, false)
    else Effect([q.result], q.notices, q.ran, q.totals.taskCount, true)
  }

  /** The number of the page's commands waiting in a phase. */
  function PhaseSize(s: Store, arg: Argument, phase: int): nat {
    |AwaitingCommands(s, arg.taleId, arg.versionId, arg.chapter, arg.page, phase)|
  }

  /** The task database as each phase finds it when it starts, and as the
      highest phase is read after phase 0. Commands the executors append to
      phase -1 while earlier phases run are in the store phase -1 finds. */
  datatype Stores = Stores(atPhase: int -> Store, afterFirst: Progress -> Store)

  /** The environment of a run against the task database. */
  function PhasesOf(db: Stores, arg: Argument, batch: int -> Batch, interrupt: Interrupt): (env: Phases)
    ensures env.interrupt == interrupt && env.batch == batch
    ensures forall phase :: env.size(phase) == PhaseSize(db.atPhase(phase), arg, phase)
  {
    Phases((phase: int) => PhaseSize(db.atPhase(phase), arg, phase), batch, interrupt)
  }

  /** `ExecuteAwaitingCommandsMaxPhase`, read once phase 0 is over. */
  function MaxPhaseAfter(db: Stores, arg: Argument): Progress -> int {
    (p0: Progress) => MaxPhase(db.afterFirst(p0), arg.taleId, arg.versionId, arg.chapter, arg.page)
  }

  /** `WorkAsync`: the phases run against the page's waiting commands in the
      task database, the outcome is reported, and the changes are saved. */
  function Run(db: Stores, arg: Argument, batch: int -> Batch, interrupt: Interrupt): (e: Effect)
  {
    Conclude(RunPhases(MaxPhaseAfter(db, arg), PhasesOf(db, arg, batch, interrupt)), interrupt)
  }

  /** The page grain hears once, or twice when the save fails after the
      report; Success is reported only when every scheduled phase ran and
      every command handed over succeeded; the row marks are saved only
      after a report that did not fail. */
  lemma PhasesReport(maxPhase: Progress -> int, env: Phases)
    ensures var q := RunPhases(maxPhase, env);
      var m := maxPhase(RunPhase(Progress(NoTotals, NoResult, [], [], None), 0, env.size(0), env.batch(0), env.interrupt));
      var e := Conclude(q, env.interrupt);
      1 <= |e.reports| <= 2 &&
      (|e.reports| == 2 <==> env.interrupt.FailsAtSave?) &&
      (env.interrupt.FailsAtSave? ==>
         e.reports[1] == if env.interrupt.fault.OperationCanceled? then {Flag.Timedout} else {Flag.Faulted}) &&
      (env.interrupt.Clean? ==> e.saved && e.reports == [q.result]) &&
      (exists k :: 0 <= k <= |Schedule(m)| && e.ran == Schedule(m)[..k]) &&
      (e.ran == [] <==> FetchFails(env.interrupt, 0)) &&
      e.handed == Handed(env.size, e.ran) &&
      (e.reports[0] == {Success} ==> e.ran == Schedule(m) && Clean(q.totals))
  {
    var q := RunPhases(maxPhase, env);
    RunPhasesFollowsSchedule(maxPhase, env);
    ConcludeReports(q, env.interrupt);
  }

  /** How often, and what, the page grain hears once the phases are over. */
  lemma ConcludeReports(q: Progress, interrupt: Interrupt)
    requires q.escaped.Some? ==> InPhases(interrupt)
    ensures var e := Conclude(q, interrupt);
      1 <= |e.reports| <= 2 &&
      (|e.reports| == 2 <==> interrupt.FailsAtSave?) &&
      (interrupt.FailsAtSave? ==>
         e.reports[1] == if interrupt.fault.OperationCanceled? then {Flag.Timedout} else {Flag.Faulted}) &&
      (interrupt.Clean? ==> e.saved && e.reports == [q.result]) &&
      (e.reports[0] == {Success} ==> Going(q))
  {
  }

  /** `PhasesReport` for a run against the task database: a successful run
      handed over, in its last phase, every command waiting in phase -1 when
      that phase started, those appended during the run included. */
  lemma RunReports(db: Stores, arg: Argument, batch: int -> Batch, interrupt: Interrupt)
    ensures var e := Run(db, arg, batch, interrupt);
      var env := PhasesOf(db, arg, batch, interrupt);
      1 <= |e.reports| <= 2 &&
      (|e.reports| == 2 <==> interrupt.FailsAtSave?) &&
      e.handed == Handed(env.size, e.ran) &&
      (e.reports[0] == {Success} ==>
         e.ran[|e.ran| - 1] == -1 &&
         e.handed == Handed(env.size, e.ran[..|e.ran| - 1]) + PhaseSize(db.atPhase(-1), arg, -1))
  {
    var env := PhasesOf(db, arg, batch, interrupt);
    PhasesReport(MaxPhaseAfter(db, arg), env);
  }
}
