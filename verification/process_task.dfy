/** `ProcessTask`: a service's pre-processing of one page.

    Every command of the page is handed to the service's command processor
    through a `ResultTaskManager`; the rows the processor returns replace the
    page's rows in the task database, with the phases of 1 and up renumbered so
    that no phase in between is empty; then the page grain hears the outcome.

    The command processor, the optional batch processor, the finished task
    manager and the point (if any) at which the cancellation token fires are
    parameters. */
module ProcessTask {
  import opened Wrappers
  import opened Outcomes
  import opened Text
  import opened Guids
  import opened TaskStore
  import TaskRunner
  import CommandText

  // ------------------------------------------------------------ page result

  /** The page's `ProcessResult` from the task manager's counters: any fault
      wins, then any timeout, then Success when every command succeeded, and
      Blocked otherwise. */
  function PageResult(faulted: nat, timedout: nat, successes: nat, commands: nat): (r: Outcome)
    ensures r == {Flag.Faulted} || r == {Flag.Timedout} || r == {Success} || r == {Blocked}
  {
    if faulted > 0 then {Flag.Faulted}
    else if timedout > 0 then {Flag.Timedout}
    else if successes == commands then {Success}
    else {Blocked}
  }

  /** The Blocked branch cannot be taken: the manager has no handlers, so once
      it has finished every command is counted as exactly one success, fault
      or timeout, and a page is Success exactly when there are neither faults
      nor timeouts. */
  lemma FinishedBatchNeverBlocked<R>(m: TaskRunner.Manager<R>, total: nat)
    requires TaskRunner.Tallied(m, total) && TaskRunner.Finished(m)
    ensures PageResult(m.faulted, m.timedout, m.successes, total) != {Blocked}
    ensures PageResult(m.faulted, m.timedout, m.successes, total) == {Success} <==> m.faulted == 0 && m.timedout == 0
    ensures PageResult(m.faulted, m.timedout, m.successes, total) == {Flag.Faulted} <==> m.faulted > 0
  {
    TaskRunner.FinishedTallyCountsAll(m, total);
  }

  // -------------------------------------------------------- one command task

  /** The task for one command: a missing command yields no rows; otherwise the
      outcome of validating and processing it (`processed`), where any
      exception, a cancellation included, is wrapped in a
      CommandValidationException that carries the command's text. */
  function ProcessCommand(cmd: Option<CommandRow>, processed: Result<seq<CommandRow>>): (c: TaskRunner.Completion<seq<CommandRow>>)
    ensures cmd.None? ==> c == TaskRunner.Returned([])
    ensures cmd.Some? ==> (c.Threw? <==> processed.Err?)
    ensures cmd.Some? && processed.Ok? ==> c == TaskRunner.Returned(processed.value)
    ensures c.Threw? ==> c.error == CommandValidation(CommandText.Render(cmd.value.data), processed.error.Text())
    ensures !c.Canceled?
  {
    if cmd.None? then TaskRunner.Returned([])
    else if processed.Err? then TaskRunner.Threw(CommandValidation(CommandText.Render(cmd.value.data), processed.error.Text()))
    else TaskRunner.Returned(processed.value)
  }

  // ----------------------------------------------------------------- saving

  /** The rows of every non-empty, non-missing result list, in order. */
  function Flatten(results: seq<Option<seq<CommandRow>>>): (cmds: seq<CommandRow>)
    decreases |results|
  {
    if results == [] then []
    else
      var head := if results[0].Some? then results[0].value else [];
      head + Flatten(results[1..])
  }

  /** Flattening distributes over concatenation of the result lists. */
  lemma {:induction false} FlattenAppend(a: seq<Option<seq<CommandRow>>>, b: seq<Option<seq<CommandRow>>>)
    ensures Flatten(a + b) == Flatten(a) + Flatten(b)
    decreases |a|
  {
    if a == [] {
      assert a + b == b;
    } else {
      assert (a + b)[0] == a[0];
      assert (a + b)[1..] == a[1..] + b;
      FlattenAppend(a[1..], b);
    }
  }

  /** A row is saved exactly when some result list holds it. */
  lemma {:induction false} FlattenHolds(results: seq<Option<seq<CommandRow>>>, c: CommandRow)
    ensures c in Flatten(results) <==> exists i :: 0 <= i < |results| && results[i].Some? && c in results[i].value
    decreases |results|
  {
    if results != [] {
      FlattenHolds(results[1..], c);
      if c in Flatten(results[1..]) {
        var i :| 0 <= i < |results[1..]| && results[1..][i].Some? && c in results[1..][i].value;
        assert results[i + 1] == results[1..][i];
      }
      if exists i :: 0 <= i < |results| && results[i].Some? && c in results[i].value {
        var i :| 0 <= i < |results| && results[i].Some? && c in results[i].value;
        if i > 0 {
          assert results[1..][i - 1] == results[i];
        }
      }
    }
  }

  /** The rows in phase `q`, in order. */
  function Group(cmds: seq<CommandRow>, q: int): (g: seq<CommandRow>)
    ensures forall i :: 0 <= i < |g| ==> g[i].phase == q
    ensures |g| <= |cmds|
    decreases |cmds|
  {
    if cmds == [] then []
    else (if cmds[0].phase == q then [cmds[0]] else []) + Group(cmds[1..], q)
  }

  /** The rows, all moved to phase `p`. */
  function WithPhase(rows: seq<CommandRow>, p: int): (r: seq<CommandRow>)
    ensures |r| == |rows|
    ensures forall i :: 0 <= i < |r| ==> r[i] == rows[i].(phase := p)
  {
    seq(|rows|, i requires 0 <= i < |rows| => rows[i].(phase := p))
  }

  /** The loop over phases `i` .. `max`: each non-empty phase moved to the next
      free number `p`. */
  function Shift(cmds: seq<CommandRow>, i: int, max: int, p: int): seq<CommandRow>
    decreases max - i + 1
  {
    if i > max then []
    else if Group(cmds, i) == [] then Shift(cmds, i + 1, max, p)
    else WithPhase(Group(cmds, i), p) + Shift(cmds, i + 1, max, p + 1)
  }

  /** The highest phase of a non-empty list of rows. */
  function HighestPhase(cmds: seq<CommandRow>): (m: int)
    requires cmds != []
    ensures forall i :: 0 <= i < |cmds| ==> cmds[i].phase <= m
    ensures exists i :: 0 <= i < |cmds| && cmds[i].phase == m
    decreases |cmds|
  {
    if |cmds| == 1 then cmds[0].phase
    else
      var rest := HighestPhase(cmds[1..]);
      assert forall i :: 1 <= i < |cmds| ==> cmds[i] == cmds[1..][i - 1];
      if cmds[0].phase >= rest then cmds[0].phase else rest
  }

  /** The phase compaction of `SaveCommandsAsync`: phase 0, then phase -1, then
      the phases 1 .. max renumbered; an InvalidOperationException when the
      count of rows changed. */
  function Compact(cmds: seq<CommandRow>): (r: Result<seq<CommandRow>>)
    ensures r.Err? ==> r.error.InvalidOperation?
  {
    if cmds == [] then Ok([])
    else
      var toAdd := Group(cmds, 0) + Group(cmds, -1) + Shift(cmds, 1, HighestPhase(cmds), 1);
      if |toAdd| != |cmds| then
        Err(InvalidOperation("Something failed during ophase shifting, numbers of commands became org " +
                             IntToString(|cmds|) + " to shifted " + IntToString(|toAdd|)))
      else Ok(toAdd)
  }

  // ------------------------------------------------------- counting rows

  /** The number of rows with a phase in `lo` .. `hi`. */
  function CountBetween(cmds: seq<CommandRow>, lo: int, hi: int): nat
    decreases |cmds|
  {
    if cmds == [] then 0
    else (if lo <= cmds[0].phase <= hi then 1 else 0) + CountBetween(cmds[1..], lo, hi)
  }

  /** The number of rows below phase -1, the ones no branch of the compaction keeps. */
  function Stray(cmds: seq<CommandRow>): (n: nat)
    ensures n == 0 <==> forall i :: 0 <= i < |cmds| ==> cmds[i].phase >= -1
    decreases |cmds|
  {
    if cmds == [] then 0
    else
      assert forall i :: 1 <= i < |cmds| ==> cmds[i] == cmds[1..][i - 1];
      (if cmds[0].phase < -1 then 1 else 0) + Stray(cmds[1..])
  }

  /** An empty range holds no rows. */
  lemma {:induction false} CountEmptyRange(cmds: seq<CommandRow>, lo: int, hi: int)
    requires lo > hi
    ensures CountBetween(cmds, lo, hi) == 0
    decreases |cmds|
  {
    if cmds != [] {
      CountEmptyRange(cmds[1..], lo, hi);
    }
  }

  /** A range splits into its lowest phase and the rest. */
  lemma {:induction false} CountSplit(cmds: seq<CommandRow>, lo: int, hi: int)
    requires lo <= hi
    ensures CountBetween(cmds, lo, hi) == |Group(cmds, lo)| + CountBetween(cmds, lo + 1, hi)
    decreases |cmds|
  {
    if cmds != [] {
      CountSplit(cmds[1..], lo, hi);
    }
  }

  /** The renumbering loop keeps every row of the phases it visits. */
  lemma {:induction false} ShiftSize(cmds: seq<CommandRow>, i: int, max: int, p: int)
    ensures |Shift(cmds, i, max, p)| == CountBetween(cmds, i, max)
    decreases max - i + 1
  {
    if i > max {
      CountEmptyRange(cmds, i, max);
    } else {
      CountSplit(cmds, i, max);
      if Group(cmds, i) == [] {
        ShiftSize(cmds, i + 1, max, p);
      } else {
        ShiftSize(cmds, i + 1, max, p + 1);
      }
    }
  }

  /** Every row is in phase 0, in phase -1, in 1 .. max, or below -1. */
  lemma {:induction false} Partition(cmds: seq<CommandRow>, max: int)
    requires forall i :: 0 <= i < |cmds| ==> cmds[i].phase <= max
    ensures |cmds| == |Group(cmds, 0)| + |Group(cmds, -1)| + CountBetween(cmds, 1, max) + Stray(cmds)
    decreases |cmds|
  {
    if cmds != [] {
      assert forall i :: 1 <= i < |cmds| ==> cmds[i] == cmds[1..][i - 1];
      Partition(cmds[1..], max);
    }
  }

  /** The compaction fails exactly when some row has a phase below -1: such a
      row belongs to no branch and is lost, so the counts differ. */
  lemma CompactOkIff(cmds: seq<CommandRow>)
    ensures Compact(cmds).Ok? <==> forall i :: 0 <= i < |cmds| ==> cmds[i].phase >= -1
    ensures Compact(cmds).Ok? ==> |Compact(cmds).value| == |cmds|
  {
    if cmds != [] {
      var max := HighestPhase(cmds);
      Partition(cmds, max);
      ShiftSize(cmds, 1, max, 1);
    }
  }

  // ------------------------------------------------------- renumbered phases

  /** The number of non-empty phases in `i` .. `q`. */
  function RankFrom(cmds: seq<CommandRow>, i: int, q: int): nat
    decreases q - i + 1
  {
    if i > q then 0
    else (if Group(cmds, i) != [] then 1 else 0) + RankFrom(cmds, i + 1, q)
  }

  /** The number a phase of 1 and up gets: its rank among the non-empty ones. */
  function Rank(cmds: seq<CommandRow>, q: int): nat {
    RankFrom(cmds, 1, q)
  }

  lemma {:induction false} RankSplit(cmds: seq<CommandRow>, i: int, q1: int, q2: int)
    requires i <= q1 + 1 && q1 <= q2
    ensures RankFrom(cmds, i, q2) == RankFrom(cmds, i, q1) + RankFrom(cmds, q1 + 1, q2)
    decreases q1 - i + 1
  {
    if i <= q1 {
      RankSplit(cmds, i + 1, q1, q2);
    }
  }

  /** Distinct non-empty phases get distinct numbers, in the same order. */
  lemma RankMonotone(cmds: seq<CommandRow>, q1: int, q2: int)
    requires 1 <= q1 < q2 && Group(cmds, q2) != []
    ensures Rank(cmds, q1) < Rank(cmds, q2)
  {
    RankSplit(cmds, 1, q1, q2);
    RankSplit(cmds, q1 + 1, q2 - 1, q2);
  }

  /** A phase never moves up: only the empty phases below it are closed. */
  lemma {:induction false} RankAtMost(cmds: seq<CommandRow>, i: int, q: int)
    requires i <= q + 1
    ensures RankFrom(cmds, i, q) <= q - i + 1
    decreases q - i + 1
  {
    if i <= q {
      RankAtMost(cmds, i + 1, q);
    }
  }

  lemma {:induction false} GroupNone(rows: seq<CommandRow>, q: int)
    requires forall i :: 0 <= i < |rows| ==> rows[i].phase != q
    ensures Group(rows, q) == []
    decreases |rows|
  {
    if rows != [] {
      assert forall i :: 1 <= i < |rows| ==> rows[i] == rows[1..][i - 1];
      GroupNone(rows[1..], q);
    }
  }

  lemma {:induction false} GroupAll(rows: seq<CommandRow>, q: int)
    requires forall i :: 0 <= i < |rows| ==> rows[i].phase == q
    ensures Group(rows, q) == rows
    decreases |rows|
  {
    if rows != [] {
      assert forall i :: 1 <= i < |rows| ==> rows[i] == rows[1..][i - 1];
      GroupAll(rows[1..], q);
      assert rows == [rows[0]] + rows[1..];
    }
  }

  lemma {:induction false} GroupAppend(a: seq<CommandRow>, b: seq<CommandRow>, q: int)
    ensures Group(a + b, q) == Group(a, q) + Group(b, q)
    decreases |a|
  {
    if a == [] {
      assert a + b == b;
    } else {
      assert (a + b)[0] == a[0];
      assert (a + b)[1..] == a[1..] + b;
      GroupAppend(a[1..], b, q);
    }
  }

  /** The loop gives numbers from `p` upwards, one per non-empty phase it visits. */
  lemma {:induction false} ShiftPhases(cmds: seq<CommandRow>, i: int, max: int, p: int)
    ensures forall k :: 0 <= k < |Shift(cmds, i, max, p)| ==>
              p <= Shift(cmds, i, max, p)[k].phase < p + RankFrom(cmds, i, max)
    decreases max - i + 1
  {
    if i <= max {
      if Group(cmds, i) == [] {
        ShiftPhases(cmds, i + 1, max, p);
      } else {
        ShiftPhases(cmds, i + 1, max, p + 1);
        var head := WithPhase(Group(cmds, i), p);
        var tail := Shift(cmds, i + 1, max, p + 1);
        var both: seq<CommandRow> := head + tail;
        forall k | 0 <= k < |both|
          ensures p <= both[k].phase < p + RankFrom(cmds, i, max)
        {
          if k >= |head| {
            assert both[k] == tail[k - |head|];
          }
        }
      }
    }
  }

  /** A non-empty phase `q` visited by the loop comes out, in its original
      order, as exactly the rows of its new number `target`. */
  lemma {:induction false} ShiftGroup(cmds: seq<CommandRow>, i: int, max: int, p: int, q: int, target: int)
    requires i <= q <= max && Group(cmds, q) != []
    requires target == p + RankFrom(cmds, i, q) - 1
    ensures Group(Shift(cmds, i, max, p), target) == WithPhase(Group(cmds, q), target)
    decreases max - i + 1
  {
    if q == i {
      assert RankFrom(cmds, i + 1, q) == 0;
      ShiftGroupHere(cmds, i, max, p);
    } else if Group(cmds, i) == [] {
      assert RankFrom(cmds, i, q) == RankFrom(cmds, i + 1, q);
      ShiftGroup(cmds, i + 1, max, p, q, target);
      ShiftSkips(cmds, i, max, p);
    } else {
      assert RankFrom(cmds, i, q) == 1 + RankFrom(cmds, i + 1, q);
      RankSplit(cmds, i + 1, q - 1, q);
      assert RankFrom(cmds, q + 1, q) == 0;
      assert RankFrom(cmds, q, q) == 1;
      ShiftGroup(cmds, i + 1, max, p + 1, q, target);
      ShiftGroupPast(cmds, i, max, p, target);
    }
  }

  /** An empty phase adds nothing to the loop's output. */
  lemma ShiftSkips(cmds: seq<CommandRow>, i: int, max: int, p: int)
    requires i <= max && Group(cmds, i) == []
    ensures Shift(cmds, i, max, p) == Shift(cmds, i + 1, max, p)
  {
  }

  /** The first non-empty phase the loop visits becomes `p`. */
  lemma ShiftGroupHere(cmds: seq<CommandRow>, i: int, max: int, p: int)
    requires i <= max && Group(cmds, i) != []
    ensures Group(Shift(cmds, i, max, p), p) == WithPhase(Group(cmds, i), p)
  {
    var head := WithPhase(Group(cmds, i), p);
    var tail := Shift(cmds, i + 1, max, p + 1);
    assert Shift(cmds, i, max, p) == head + tail;
    GroupAppend(head, tail, p);
    ShiftPhases(cmds, i + 1, max, p + 1);
    GroupAll(head, p);
    GroupNone(tail, p);
  }

  /** Past a non-empty phase, the loop's output for a higher number is that of
      the rest of the loop. */
  lemma ShiftGroupPast(cmds: seq<CommandRow>, i: int, max: int, p: int, target: int)
    requires i <= max && Group(cmds, i) != [] && target > p
    ensures Group(Shift(cmds, i, max, p), target) == Group(Shift(cmds, i + 1, max, p + 1), target)
  {
    var head := WithPhase(Group(cmds, i), p);
    var tail := Shift(cmds, i + 1, max, p + 1);
    assert Shift(cmds, i, max, p) == head + tail;
    GroupAppend(head, tail, target);
    GroupNone(head, target);
    assert Group(head, target) + Group(tail, target) == Group(tail, target);
  }

  /** What the compaction does to the phases: phase 0 and phase -1 keep their
      rows, and a non-empty phase `q` of 1 and up becomes `Rank(q)`, keeping
      its rows in order and gaining no others. */
  lemma CompactRenumbers(cmds: seq<CommandRow>, q: int)
    requires Compact(cmds).Ok? && cmds != []
    ensures Group(Compact(cmds).value, 0) == Group(cmds, 0)
    ensures Group(Compact(cmds).value, -1) == Group(cmds, -1)
    ensures q >= 1 && Group(cmds, q) != [] ==>
              Group(Compact(cmds).value, Rank(cmds, q)) == WithPhase(Group(cmds, q), Rank(cmds, q))
  {
    var max := HighestPhase(cmds);
    var zero, closing, shifted := Group(cmds, 0), Group(cmds, -1), Shift(cmds, 1, max, 1);
    assert Compact(cmds).value == (zero + closing) + shifted;
    ShiftPhases(cmds, 1, max, 1);
    CompactKeeps(zero, closing, shifted);
    if q >= 1 && Group(cmds, q) != [] {
      CompactRanks(cmds, q, max, zero, closing, shifted);
    }
  }

  /** The fixed phases 0 and -1 of the compacted list: the rows in front,
      since the renumbered rows carry phases 1 and up. */
  lemma CompactKeeps(zero: seq<CommandRow>, closing: seq<CommandRow>, shifted: seq<CommandRow>)
    requires forall k :: 0 <= k < |zero| ==> zero[k].phase == 0
    requires forall k :: 0 <= k < |closing| ==> closing[k].phase == -1
    requires forall k :: 0 <= k < |shifted| ==> shifted[k].phase >= 1
    ensures Group((zero + closing) + shifted, 0) == zero
    ensures Group((zero + closing) + shifted, -1) == closing
  {
    GroupAppend(zero + closing, shifted, 0);
    GroupAppend(zero, closing, 0);
    GroupAll(zero, 0);
    GroupNone(closing, 0);
    GroupNone(shifted, 0);
    GroupAppend(zero + closing, shifted, -1);
    GroupAppend(zero, closing, -1);
    GroupNone(zero, -1);
    GroupAll(closing, -1);
    GroupNone(shifted, -1);
  }

  /** A non-empty phase of 1 and up lands in the renumbered part only. */
  lemma CompactRanks(cmds: seq<CommandRow>, q: int, max: int, zero: seq<CommandRow>, closing: seq<CommandRow>, shifted: seq<CommandRow>)
    requires cmds != [] && max == HighestPhase(cmds)
    requires zero == Group(cmds, 0) && closing == Group(cmds, -1) && shifted == Shift(cmds, 1, max, 1)
    requires q >= 1 && Group(cmds, q) != []
    ensures Group((zero + closing) + shifted, Rank(cmds, q)) == WithPhase(Group(cmds, q), Rank(cmds, q))
  {
    var s :| 0 <= s < |Group(cmds, q)|;
    GroupMember(cmds, q, s);
    var r := Rank(cmds, q);
    ShiftGroup(cmds, 1, max, 1, q, r);
    RankPositive(cmds, q);
    GroupAppend(zero + closing, shifted, r);
    GroupAppend(zero, closing, r);
    GroupNone(zero, r);
    GroupNone(closing, r);
  }

  /** A row of a phase group is a row of the list. */
  lemma {:induction false} GroupMember(cmds: seq<CommandRow>, q: int, s: int)
    requires 0 <= s < |Group(cmds, q)|
    ensures Group(cmds, q)[s] in cmds
    decreases |cmds|
  {
    if cmds[0].phase == q && s == 0 {
    } else {
      var s' := if cmds[0].phase == q then s - 1 else s;
      assert Group(cmds, q)[s] == Group(cmds[1..], q)[s'];
      GroupMember(cmds[1..], q, s');
    }
  }

  /** A non-empty phase of 1 and up is numbered from 1 upwards. */
  lemma RankPositive(cmds: seq<CommandRow>, q: int)
    requires q >= 1 && Group(cmds, q) != []
    ensures Rank(cmds, q) >= 1
  {
    RankSplit(cmds, 1, q - 1, q);
  }

  /** The numbers handed out run from 1 to the number of non-empty phases of 1
      and up, and none exceeds the phase it replaces. */
  lemma CompactPhaseRange(cmds: seq<CommandRow>)
    requires Compact(cmds).Ok? && cmds != []
    ensures forall k :: 0 <= k < |Compact(cmds).value| ==>
              var ph := Compact(cmds).value[k].phase;
              ph == 0 || ph == -1 || 1 <= ph <= Rank(cmds, HighestPhase(cmds))
    ensures Rank(cmds, HighestPhase(cmds)) <= HighestPhase(cmds) || HighestPhase(cmds) < 1
  {
    var max := HighestPhase(cmds);
    var zero, closing, shifted := Group(cmds, 0), Group(cmds, -1), Shift(cmds, 1, max, 1);
    var out := Compact(cmds).value;
    assert out == (zero + closing) + shifted;
    ShiftPhases(cmds, 1, max, 1);
    forall k | 0 <= k < |out|
      ensures out[k].phase == 0 || out[k].phase == -1 || 1 <= out[k].phase <= Rank(cmds, max)
    {
      if k < |zero| {
        assert out[k] == zero[k];
      } else if k < |zero| + |closing| {
        assert out[k] == closing[k - |zero|];
      } else {
        assert out[k] == shifted[k - |zero| - |closing|];
      }
    }
    if max >= 1 {
      RankAtMost(cmds, 1, max);
    }
  }

  // ---------------------------------------------------------------- the run

  /** `ProcessTaskArgument`: the page and its commands (some may be null). */
  datatype Argument = Argument(taleId: Guid, versionId: Guid, chapter: int, page: int, commands: seq<Option<CommandRow>>)

  /** Where an exception first escapes the run, if anywhere. The delete, the
      batch processor and the report may throw anything, a cancellation
      included (a database error at the delete, say); the other checks see
      the cancellation token (the task's own timeout or a cancel request). */
  datatype Interrupt =
    | NotInterrupted
    | AtDelete(fault: Fault)    // the delete of the page's old rows throws
    | DuringRun                 // the task manager's `Start` throws
    | AfterRun                  // the check after the page result is decided
    | InBatch(fault: Fault)     // the batch processor throws
    | AfterSave                 // the check after the new rows are saved
    | ReportFails(fault: Fault) // the report to the page grain throws
    | AfterReport               // the check after the result has been reported

  /** The interrupts that stop the run before anything is saved. */
  predicate Early(i: Interrupt) {
    i.AtDelete? || i.DuringRun? || i.AfterRun? || i.InBatch?
  }

  /** One run's environment: what interrupts it, the task manager as `Start`
      leaves it, and the batch processor's contribution (`None` when the
      service has none, `Some(None)` when it returns null). */
  datatype Environment = Environment(
    interrupt: Interrupt,
    run: TaskRunner.Manager<seq<CommandRow>>,
    batch: Option<Option<seq<CommandRow>>>)

  /** What a run leaves behind: the task database, the results reported to the
      page grain in order, and the errors published as failed
      `ProcessCommandResponse` events in order. */
  datatype Effect = Effect(store: Store, reports: seq<Outcome>, published: seq<Fault>)

  /** The errors `PublishErrorsAsync` publishes: the command exceptions only. */
  function CommandErrors(errors: seq<Fault>): (r: seq<Fault>)
    ensures forall e :: e in r <==> e in errors && (e.CommandValidation? || e.CommandExecution?)
    ensures |r| <= |errors|
    decreases |errors|
  {
    if errors == [] then []
    else
      var rest := CommandErrors(errors[1..]);
      assert forall e :: e in errors <==> e == errors[0] || e in errors[1..];
      if errors[0].CommandValidation? || errors[0].CommandExecution? then [errors[0]] + rest else rest
  }

  /** The recovery of `WorkAsync` from an exception: the command errors are
      published (again), then a cancellation reports Timedout, and any other
      failure reports Faulted and publishes itself. */
  function Recover(f: Fault, errors: seq<Fault>): (r: (seq<Outcome>, seq<Fault>))
    ensures f.OperationCanceled? ==> r == ([{Flag.Timedout}], errors)
    ensures !f.OperationCanceled? ==> r == ([{Flag.Faulted}], errors + [f])
  {
    if f.OperationCanceled? then ([{Flag.Timedout}], errors) else ([{Flag.Faulted}], errors + [f])
  }

  /** The result lists `SaveCommandsAsync` receives: the task manager's results,
      then the batch processor's result when there is one and it is not null. */
  function Collected(env: Environment): (r: seq<Option<seq<CommandRow>>>)
    ensures |r| == |env.run.results| + (if env.batch.Some? && env.batch.value.Some? then 1 else 0)
    ensures forall i :: 0 <= i < |env.run.results| ==> r[i] == Some(env.run.results[i])
  {
    var managed := seq(|env.run.results|, i requires 0 <= i < |env.run.results| => Some(env.run.results[i]));
    if env.batch.Some? && env.batch.value.Some? then managed + [env.batch.value] else managed
  }

  /** `WorkAsync`. The page's old rows are deleted first; the commands run;
      the command errors are published; the page result is decided; the
      batch processor adds its rows; the collected rows are compacted and
      inserted; the result is reported. An exception after the errors were
      published is recovered from by publishing them again (see `Recover`).
      `SaveCommandsAsync` looks at the token only when it had rows to save,
      so without rows a cancellation there is first seen after the report,
      where it sends a second, Timedout, report. */
  function Run(s: Store, arg: Argument, env: Environment): (e: Effect)
    requires Keyed(s)
    ensures env.interrupt.AtDelete? ==> e.store == s
    ensures !env.interrupt.AtDelete? && !Saves(env) ==> e.store == DeletePage(s, arg.taleId, arg.versionId, arg.chapter, arg.page)
    ensures Saves(env) ==>
              var rows := Flatten(Collected(env));
              var cleared := DeletePage(s, arg.taleId, arg.versionId, arg.chapter, arg.page);
              e.store == if rows == [] then cleared else AddRange(cleared, Compact(rows).value)
  {
    var cleared := DeletePage(s, arg.taleId, arg.versionId, arg.chapter, arg.page);
    var errors := CommandErrors(env.run.errors);
    if Early(env.interrupt) then Stopped(s, cleared, errors, env.interrupt)
    else
      var res := PageResult(env.run.faulted, env.run.timedout, env.run.successes, |arg.commands|);
      var rows := Flatten(Collected(env));
      match Compact(rows)
      case Err(failure) =>
        var (reports, more) := Recover(failure, errors);
        Effect(cleared, reports, errors + more)
      case Ok(toAdd) =>
        Finish(if rows == [] then cleared else AddRange(cleared, toAdd), res, rows != [], errors, env.interrupt)
  }

  /** A run stopped before the result is decided: nothing is saved, and the
      page grain hears Timedout, or Faulted when the delete or the batch
      processor failed for another reason than a cancellation. A failed
      delete leaves the old rows, and no command has run yet, so only a
      failure that is not a cancellation is published, by itself. */
  function Stopped(s: Store, cleared: Store, errors: seq<Fault>, i: Interrupt): (e: Effect)
    requires Early(i)
    ensures i.AtDelete? && i.fault.OperationCanceled? ==> e == Effect(s, [{Flag.Timedout}], [])
    ensures i.AtDelete? && !i.fault.OperationCanceled? ==> e == Effect(s, [{Flag.Faulted}], [i.fault])
    ensures !i.AtDelete? ==> e.store == cleared
    ensures i.DuringRun? ==> e.reports == [{Flag.Timedout}] && e.published == errors
    ensures i.AfterRun? ==> e.reports == [{Flag.Timedout}] && e.published == errors + errors
    ensures i.InBatch? ==> e.reports == Recover(i.fault, errors).0 && e.published == errors + Recover(i.fault, errors).1
  {
    match i
    case AtDelete(f) =>
      var (reports, more) := Recover(f, []);
      Effect(s, reports, more)
    case DuringRun => Effect(cleared, [{Flag.Timedout}], errors)
    case AfterRun => Effect(cleared, [{Flag.Timedout}], errors + errors)
    case InBatch(f) =>
      var (reports, more) := Recover(f, errors);
      Effect(cleared, reports, errors + more)
  }

  /** A run that saved (`saved`): the result `res` is reported unless the
      token is seen right after a save that had rows (`hadRows`) or the
      report throws; a cancellation first seen after the report sends a
      second, Timedout, report. */
  function Finish(saved: Store, res: Outcome, hadRows: bool, errors: seq<Fault>, i: Interrupt): (e: Effect)
    requires !Early(i)
    ensures e.store == saved
    ensures i.AfterSave? && hadRows ==> e.reports == [{Flag.Timedout}] && e.published == errors + errors
    ensures i.ReportFails? ==> e.reports == Recover(i.fault, errors).0 && e.published == errors + Recover(i.fault, errors).1
    ensures i.AfterReport? || (i.AfterSave? && !hadRows) ==> e.reports == [res, {Flag.Timedout}] && e.published == errors + errors
    ensures i.NotInterrupted? ==> e.reports == [res] && e.published == errors
  {
    if i.AfterSave? && hadRows then
      var (reports, more) := Recover(OperationCanceled, errors);
      Effect(saved, reports, errors + more)
    else if i.ReportFails? then
      var (reports, more) := Recover(i.fault, errors);
      Effect(saved, reports, errors + more)
    else if i.AfterReport? || i.AfterSave? then
      var (reports, more) := Recover(OperationCanceled, errors);
      Effect(saved, [res] + reports, errors + more)
    else Effect(saved, [res], errors)
  }

  /** Whether the run gets as far as saving: nothing stops it before, and
      the compaction keeps every row. */
  predicate Saves(env: Environment) {
    !Early(env.interrupt) && Compact(Flatten(Collected(env))).Ok?
  }

  /** Whether the page result is reported: the run saved and the report did
      not throw, and no cancellation was seen right after the save. */
  predicate ReportsResult(env: Environment) {
    Saves(env) && !env.interrupt.ReportFails? && !(env.interrupt.AfterSave? && Flatten(Collected(env)) != [])
  }

  /** The page grain always hears at least once: Timedout when the token fired
      before the result was decided or right after the save, Faulted when
      the delete, the batch processor, the compaction or the report failed, the page
      result otherwise, followed by a second Timedout report when the token
      was first seen after the first. */
  lemma RunReports(s: Store, arg: Argument, env: Environment)
    requires Keyed(s)
    ensures var e := Run(s, arg, env);
      var rows := Flatten(Collected(env));
      1 <= |e.reports| <= 2 &&
      (|e.reports| == 2 <==> ReportsResult(env) && (env.interrupt.AfterReport? || env.interrupt.AfterSave?)) &&
      (env.interrupt.DuringRun? || env.interrupt.AfterRun? ==> e.reports == [{Flag.Timedout}]) &&
      (env.interrupt.AtDelete? || env.interrupt.InBatch? ==> e.reports == Recover(env.interrupt.fault, []).0) &&
      (!Early(env.interrupt) && !Saves(env) ==> e.reports == [{Flag.Faulted}]) &&
      (Saves(env) && env.interrupt.AfterSave? && rows != [] ==> e.reports == [{Flag.Timedout}]) &&
      (Saves(env) && env.interrupt.ReportFails? ==> e.reports == Recover(env.interrupt.fault, []).0) &&
      (ReportsResult(env) ==> e.reports[0] == PageResult(env.run.faulted, env.run.timedout, env.run.successes, |arg.commands|)) &&
      (|e.reports| == 2 ==> e.reports[1] == {Flag.Timedout})
  {
    if Early(env.interrupt) {
      StoppedReports(s, arg, env);
    } else {
      LateReports(s, arg, env);
    }
  }

  /** The reports of a run stopped before the result is decided. */
  lemma StoppedReports(s: Store, arg: Argument, env: Environment)
    requires Keyed(s) && Early(env.interrupt)
    ensures var e := Run(s, arg, env);
      |e.reports| == 1 && !ReportsResult(env) &&
      (env.interrupt.AtDelete? || env.interrupt.InBatch? ==> e.reports == Recover(env.interrupt.fault, []).0) &&
      (env.interrupt.DuringRun? || env.interrupt.AfterRun? ==> e.reports == [{Flag.Timedout}])
  {
    var cleared := DeletePage(s, arg.taleId, arg.versionId, arg.chapter, arg.page);
    var errors := CommandErrors(env.run.errors);
    assert Run(s, arg, env) == Stopped(s, cleared, errors, env.interrupt);
  }

  /** The reports of a run that decided its result. */
  lemma LateReports(s: Store, arg: Argument, env: Environment)
    requires Keyed(s) && !Early(env.interrupt)
    ensures var e := Run(s, arg, env);
      var rows := Flatten(Collected(env));
      var res := PageResult(env.run.faulted, env.run.timedout, env.run.successes, |arg.commands|);
      (!Saves(env) ==> e.reports == [{Flag.Faulted}]) &&
      (Saves(env) && env.interrupt.AfterSave? && rows != [] ==> e.reports == [{Flag.Timedout}]) &&
      (Saves(env) && env.interrupt.ReportFails? ==> e.reports == Recover(env.interrupt.fault, []).0) &&
      (ReportsResult(env) && (env.interrupt.AfterReport? || env.interrupt.AfterSave?) ==> e.reports == [res, {Flag.Timedout}]) &&
      (ReportsResult(env) && !env.interrupt.AfterReport? && !env.interrupt.AfterSave? ==> e.reports == [res])
  {
    if Saves(env) {
      SavedReports(s, arg, env);
    } else {
      FailedCompaction(s, arg, env);
    }
  }

  /** A compaction that loses rows is a failure: the page grain hears Faulted. */
  lemma FailedCompaction(s: Store, arg: Argument, env: Environment)
    requires Keyed(s) && !Early(env.interrupt) && !Saves(env)
    ensures Run(s, arg, env).reports == [{Flag.Faulted}]
  {
    assert Compact(Flatten(Collected(env))).error.InvalidOperation?;
  }

  /** The reports of a run that saved. */
  lemma SavedReports(s: Store, arg: Argument, env: Environment)
    requires Keyed(s) && Saves(env)
    ensures var e := Run(s, arg, env);
      var res := PageResult(env.run.faulted, env.run.timedout, env.run.successes, |arg.commands|);
      (env.interrupt.AfterSave? && Flatten(Collected(env)) != [] ==> e.reports == [{Flag.Timedout}]) &&
      (env.interrupt.ReportFails? ==> e.reports == Recover(env.interrupt.fault, []).0) &&
      (ReportsResult(env) && (env.interrupt.AfterReport? || env.interrupt.AfterSave?) ==> e.reports == [res, {Flag.Timedout}]) &&
      (ReportsResult(env) && !env.interrupt.AfterReport? && !env.interrupt.AfterSave? ==> e.reports == [res])
  {
    RunIsFinish(s, arg, env);
  }

  /** A run that saved ends as `Finish` says. */
  lemma RunIsFinish(s: Store, arg: Argument, env: Environment)
    requires Keyed(s) && Saves(env)
    ensures var cleared := DeletePage(s, arg.taleId, arg.versionId, arg.chapter, arg.page);
      var rows := Flatten(Collected(env));
      Run(s, arg, env) ==
        Finish(if rows == [] then cleared else AddRange(cleared, Compact(rows).value),
               PageResult(env.run.faulted, env.run.timedout, env.run.successes, |arg.commands|),
               rows != [], CommandErrors(env.run.errors), env.interrupt)
  {
  }

  /** The command errors are published once on a clean run and twice when an
      exception is recovered from after they were first published; a failure
      that is not a cancellation is published last. */
  lemma RunPublishes(s: Store, arg: Argument, env: Environment)
    requires Keyed(s)
    ensures var e := Run(s, arg, env);
      var errors := CommandErrors(env.run.errors);
      (env.interrupt.AtDelete? && env.interrupt.fault.OperationCanceled? ==> e.published == []) &&
      (env.interrupt.AtDelete? && !env.interrupt.fault.OperationCanceled? ==> e.published == [env.interrupt.fault]) &&
      (env.interrupt.DuringRun? ==> e.published == errors) &&
      (env.interrupt.AfterRun? ==> e.published == errors + errors) &&
      (env.interrupt.InBatch? ==> e.published == errors + Recover(env.interrupt.fault, errors).1) &&
      (Saves(env) && (env.interrupt.AfterSave? || env.interrupt.AfterReport?) ==> e.published == errors + errors) &&
      (Saves(env) && env.interrupt.NotInterrupted? ==> e.published == errors)
  {
  }

  /** A page whose commands all ran to completion is never reported Blocked. */
  lemma RunNeverReportsBlocked(s: Store, arg: Argument, env: Environment)
    requires Keyed(s)
    requires TaskRunner.Tallied(env.run, |arg.commands|) && TaskRunner.Finished(env.run)
    ensures {Blocked} !in Run(s, arg, env).reports
  {
    FinishedBatchNeverBlocked(env.run, |arg.commands|);
    if Early(env.interrupt) {
      StoppedReports(s, arg, env);
    } else {
      LateReports(s, arg, env);
    }
  }

  /** Rows of other pages are never touched, and the database stays keyed. */
  lemma RunKeepsOtherPages(s: Store, arg: Argument, env: Environment)
    requires Keyed(s)
    ensures Keyed(Run(s, arg, env).store)
    ensures forall n :: n in s.commands && !OnPage(s.commands[n], arg.taleId, arg.versionId, arg.chapter, arg.page) ==>
              n in Run(s, arg, env).store.commands && Run(s, arg, env).store.commands[n] == s.commands[n]
  {
    var cleared := DeletePage(s, arg.taleId, arg.versionId, arg.chapter, arg.page);
    var store := Run(s, arg, env).store;
    var rows := Flatten(Collected(env));
    if env.interrupt.AtDelete? {
      assert store == s;
    } else if Early(env.interrupt) || Compact(rows).Err? || rows == [] {
      assert store == cleared;
    } else {
      assert store == AddRange(cleared, Compact(rows).value);
    }
  }

  /** Unless the delete itself failed, no old row of the page survives,
      whatever else happens. */
  lemma RunClearsPage(s: Store, arg: Argument, env: Environment)
    requires Keyed(s) && !env.interrupt.AtDelete?
    ensures forall n :: n in s.commands && OnPage(s.commands[n], arg.taleId, arg.versionId, arg.chapter, arg.page) ==>
              n !in Run(s, arg, env).store.commands
  {
    var cleared := DeletePage(s, arg.taleId, arg.versionId, arg.chapter, arg.page);
    forall n | n in s.commands && OnPage(s.commands[n], arg.taleId, arg.versionId, arg.chapter, arg.page)
      ensures n !in Run(s, arg, env).store.commands
    {
      assert n !in cleared.commands;
      assert n < s.nextSubIndex;
    }
  }

  /** A run that saves adds exactly the compacted rows, in order, under fresh
      sub-indexes. */
  lemma RunSavesCompacted(s: Store, arg: Argument, env: Environment)
    requires Keyed(s) && Saves(env) && Flatten(Collected(env)) != []
    ensures var cleared := DeletePage(s, arg.taleId, arg.versionId, arg.chapter, arg.page);
      var toAdd := Compact(Flatten(Collected(env))).value;
      var store := Run(s, arg, env).store;
      |store.commands| == |cleared.commands| + |Flatten(Collected(env))| &&
      forall i :: 0 <= i < |toAdd| ==> FiledAt(store.commands, toAdd, s.nextSubIndex, i)
  {
    CompactOkIff(Flatten(Collected(env)));
  }
}
