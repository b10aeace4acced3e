/** The task store of a worker service: the SQL tables of commands waiting to
    be executed and of scheduled triggers, with the queries and bulk updates
    the workers run on them.

    The Triggers table is a map from its primary key to the row. The Commands
    table is a map from `SubIndex` to the row: the sub-index is drawn from the
    database sequence `shared.SubIndexSequence` (the counter `nextSubIndex`),
    so it alone already tells rows apart, and with it the composite primary
    key does. Timestamps (`OperationTime`, `LastUpdate`)
    and durations are left out. */
module TaskStore {
  import opened Wrappers
  import opened Guids
  import opened Commands
  import Ordering

  /** `CommandExecuteResult`. */
  datatype ExecuteMark = NotRun | Done | Failed

  /** A row of the Commands table. */
  datatype CommandRow = CommandRow(
    taleId: Guid,
    versionId: Guid,
    chapter: int,
    page: int,
    phase: int,
    index: int,
    subIndex: int,
    tag: string,
    target: string,
    data: RawCommand,
    error: Option<string>,
    result: ExecuteMark)

  /** The primary key of the Commands table. */
  datatype CommandKey = CommandKey(taleId: Guid, versionId: Guid, chapter: int, page: int, index: int, phase: int, subIndex: int)

  function KeyOf(c: CommandRow): CommandKey {
    CommandKey(c.taleId, c.versionId, c.chapter, c.page, c.index, c.phase, c.subIndex)
  }

  /** `TriggerState`. `Set` and `Faulted` are written qualified, since
      parameter types and outcome flags use the same names. */
  datatype TriggerState = Set | Triggered | Faulted | Invalid

  /** A row of the Triggers table. */
  datatype TriggerRow = TriggerRow(
    id: string,
    taleId: Guid,
    versionId: Guid,
    state: TriggerState,
    triggerAt: int,
    target: string,
    grainType: string,
    grainId: string,
    kind: string,
    parameter: Option<string>)

  /** The primary key of the Triggers table. */
  datatype TriggerKey = TriggerKey(taleId: Guid, versionId: Guid, id: string)

  function TriggerKeyOf(t: TriggerRow): TriggerKey {
    TriggerKey(t.taleId, t.versionId, t.id)
  }

  datatype Store = Store(commands: map<int, CommandRow>, triggers: map<TriggerKey, TriggerRow>, nextSubIndex: int)

  const EmptyStore: Store := Store(map[], map[], 0)

  /** Every command is filed under its own sub-index, which the sequence has
      already passed, and every trigger under its own primary key. */
  predicate Keyed(s: Store) {
    (forall n :: n in s.commands ==> s.commands[n].subIndex == n < s.nextSubIndex) &&
    (forall k :: k in s.triggers ==> TriggerKeyOf(s.triggers[k]) == k)
  }

  lemma EmptyStoreKeyed()
    ensures Keyed(EmptyStore)
  {
  }

  /** In a keyed store no two command rows share a primary key. */
  lemma CommandKeyUnique(s: Store, a: int, b: int)
    requires Keyed(s) && a in s.commands && b in s.commands
    requires KeyOf(s.commands[a]) == KeyOf(s.commands[b])
    ensures a == b
  {
  }

  // ------------------------------------------------------------------ commands

  predicate OnPage(c: CommandRow, taleId: Guid, versionId: Guid, chapter: int, page: int) {
    c.taleId == taleId && c.versionId == versionId && c.chapter == chapter && c.page == page
  }

  /** `ExecuteAwaitingCommands`: the rows of one phase of one page. */
  function AwaitingCommands(s: Store, taleId: Guid, versionId: Guid, chapter: int, page: int, phase: int): (r: set<CommandRow>)
    ensures forall c :: c in r <==> c in s.commands.Values && OnPage(c, taleId, versionId, chapter, page) && c.phase == phase
  {
    set c | c in s.commands.Values && OnPage(c, taleId, versionId, chapter, page) && c.phase == phase
  }

  /** The phases present on a page. */
  function PagePhases(s: Store, taleId: Guid, versionId: Guid, chapter: int, page: int): (r: set<int>)
    ensures forall ph :: ph in r <==> AwaitingCommands(s, taleId, versionId, chapter, page, ph) != {}
  {
    var r := set c | c in s.commands.Values && OnPage(c, taleId, versionId, chapter, page) :: c.phase;
    forall ph ensures ph in r <==> AwaitingCommands(s, taleId, versionId, chapter, page, ph) != {} {
      if ph in r {
        var c :| c in s.commands.Values && OnPage(c, taleId, versionId, chapter, page) && c.phase == ph;
        assert c in AwaitingCommands(s, taleId, versionId, chapter, page, ph);
      }
    }
    r
  }

  /** `ExecuteAwaitingCommandsMaxPhase`: the largest phase on the page, or the
      default 0 when the page has no commands. */
  function MaxPhase(s: Store, taleId: Guid, versionId: Guid, chapter: int, page: int): (r: int)
    ensures PagePhases(s, taleId, versionId, chapter, page) == {} ==> r == 0
    ensures PagePhases(s, taleId, versionId, chapter, page) != {} ==>
              Ordering.IsMax(PagePhases(s, taleId, versionId, chapter, page), r)
  {
    var phases := PagePhases(s, taleId, versionId, chapter, page);
    if phases == {} then 0 else Ordering.Max(phases)
  }

  /** No phase above the maximum has commands waiting; when the page has
      commands, the maximum phase itself has some. */
  lemma NothingAboveMaxPhase(s: Store, taleId: Guid, versionId: Guid, chapter: int, page: int, phase: int)
    ensures phase > MaxPhase(s, taleId, versionId, chapter, page) ==>
              AwaitingCommands(s, taleId, versionId, chapter, page, phase) == {}
    ensures PagePhases(s, taleId, versionId, chapter, page) != {} ==>
              AwaitingCommands(s, taleId, versionId, chapter, page, MaxPhase(s, taleId, versionId, chapter, page)) != {}
  {
  }

  /** A page whose only commands are in the closing phase -1 has maximum
      phase -1, not the default 0. */
  lemma ClosingPhaseOnlyHasNegativeMax(s: Store, taleId: Guid, versionId: Guid, chapter: int, page: int)
    requires PagePhases(s, taleId, versionId, chapter, page) == {-1}
    ensures MaxPhase(s, taleId, versionId, chapter, page) == -1
  {
  }

  /** The Commands delete that starts every processing run: every row of the
      page goes, every other row stays. */
  function DeletePage(s: Store, taleId: Guid, versionId: Guid, chapter: int, page: int): (r: Store)
    ensures forall n :: n in r.commands <==> n in s.commands && !OnPage(s.commands[n], taleId, versionId, chapter, page)
    ensures forall n :: n in r.commands ==> r.commands[n] == s.commands[n]
    ensures r.triggers == s.triggers && r.nextSubIndex == s.nextSubIndex
    ensures Keyed(s) ==> Keyed(r)
  {
    s.(commands := map n | n in s.commands && !OnPage(s.commands[n], taleId, versionId, chapter, page) :: s.commands[n])
  }

  /** A row as the database stores it: under the sub-index it was given. */
  function Filed(row: CommandRow, n: int): (f: CommandRow)
    ensures f.subIndex == n
  {
    row.(subIndex := n)
  }

  /** The rows an insert of `rows` writes, filed under the sub-indexes
      `next`, `next + 1`, ... in order. */
  function Inserted(rows: seq<CommandRow>, next: int): (m: map<int, CommandRow>)
    ensures forall n :: n in m ==> next <= n < next + |rows| && m[n].subIndex == n
    ensures |m| == |rows|
    decreases |rows|
  {
    if rows == [] then map[]
    else
      var last := next + |rows| - 1;
      var m := Inserted(rows[..|rows| - 1], next);
      assert last !in m;
      m[last := Filed(rows[|rows| - 1], last)]
  }

  /** The i-th row of an insert starting at `next` sits in `m` at `next + i`. */
  predicate FiledAt(m: map<int, CommandRow>, rows: seq<CommandRow>, next: int, i: int)
    requires 0 <= i < |rows|
  {
    next + i in m && m[next + i] == Filed(rows[i], next + i)
  }

  /** Whatever the table held before, every row of an insert is found at its
      place afterwards. */
  lemma InsertedLands(before: map<int, CommandRow>, rows: seq<CommandRow>, next: int)
    ensures forall i :: 0 <= i < |rows| ==> FiledAt(before + Inserted(rows, next), rows, next, i)
  {
    forall i | 0 <= i < |rows|
      ensures FiledAt(before + Inserted(rows, next), rows, next, i)
    {
      InsertedAt(rows, next, i);
    }
  }

  /** `AddRangeAsync` and `SaveChangesAsync`: the rows are inserted with fresh
      sub-indexes, so every one of them becomes a new row and no existing row
      changes. */
  function AddRange(s: Store, rows: seq<CommandRow>): (r: Store)
    requires Keyed(s)
    ensures Keyed(r)
    ensures |r.commands| == |s.commands| + |rows|
    ensures forall n :: n in s.commands ==> n in r.commands && r.commands[n] == s.commands[n]
    ensures forall i :: 0 <= i < |rows| ==> FiledAt(r.commands, rows, s.nextSubIndex, i)
    ensures r.triggers == s.triggers
  {
    var incoming := Inserted(rows, s.nextSubIndex);
    FreshRowsKeyed(s, incoming, s.nextSubIndex + |rows|);
    InsertedLands(s.commands, rows, s.nextSubIndex);
    Store(s.commands + incoming, s.triggers, s.nextSubIndex + |rows|)
  }

  /** The i-th row of an insert is filed at `next + i`. */
  lemma {:induction false} InsertedAt(rows: seq<CommandRow>, next: int, i: int)
    requires 0 <= i < |rows|
    ensures next + i in Inserted(rows, next)
    ensures Inserted(rows, next)[next + i] == Filed(rows[i], next + i)
    decreases |rows|
  {
    if i < |rows| - 1 {
      InsertedAt(rows[..|rows| - 1], next, i);
    }
  }


  /** Rows filed under their own sub-indexes, all of them new to the
      sequence, keep the store keyed and each add one row. */
  lemma FreshRowsKeyed(s: Store, incoming: map<int, CommandRow>, next: int)
    requires Keyed(s) && s.nextSubIndex <= next
    requires forall n :: n in incoming ==> incoming[n].subIndex == n && s.nextSubIndex <= n < next
    ensures Keyed(Store(s.commands + incoming, s.triggers, next))
    ensures |s.commands + incoming| == |s.commands| + |incoming|
    ensures forall n :: n in s.commands ==> n in s.commands + incoming && (s.commands + incoming)[n] == s.commands[n]
    ensures forall n :: n in incoming ==> n in s.commands + incoming && (s.commands + incoming)[n] == incoming[n]
  {
    var m := s.commands + incoming;
    forall n | n in m
      ensures m[n].subIndex == n < next
    {
      if n in incoming {
        assert m[n] == incoming[n];
      } else {
        assert m[n] == s.commands[n];
      }
    }
    assert s.commands.Keys !! incoming.Keys;
    assert m.Keys == s.commands.Keys + incoming.Keys;
  }

  /** `AppendCommandAsync` of the older store: exactly one row more. */
  function AppendCommand(s: Store, row: CommandRow): (r: Store)
    requires Keyed(s)
    ensures Keyed(r)
    ensures |r.commands| == |s.commands| + 1
    ensures s.nextSubIndex in r.commands && r.commands[s.nextSubIndex] == Filed(row, s.nextSubIndex)
    ensures forall n :: n in s.commands ==> n in r.commands && r.commands[n] == s.commands[n]
  {
    var r := AddRange(s, [row]);
    assert FiledAt(r.commands, [row], s.nextSubIndex, 0);
    r
  }

  // ------------------------------------------------------------------ purge

  predicate OfScope(taleId: Guid, versionId: Option<Guid>, rowTale: Guid, rowVersion: Guid) {
    rowTale == taleId && (versionId.None? || rowVersion == versionId.value)
  }

  /** `PurgeEntitiesAsync`: without a version every command and trigger of the
      tale goes, with one only those of that version. */
  function Purge(s: Store, taleId: Guid, versionId: Option<Guid>): (r: Store)
    ensures forall n :: n in r.commands <==> n in s.commands && !OfScope(taleId, versionId, s.commands[n].taleId, s.commands[n].versionId)
    ensures forall k :: k in r.triggers <==> k in s.triggers && !OfScope(taleId, versionId, k.taleId, k.versionId)
    ensures forall n :: n in r.commands ==> r.commands[n] == s.commands[n]
    ensures forall k :: k in r.triggers ==> r.triggers[k] == s.triggers[k]
    ensures Keyed(s) ==> Keyed(r)
  {
    Store(
      map n | n in s.commands && !OfScope(taleId, versionId, s.commands[n].taleId, s.commands[n].versionId) :: s.commands[n],
      map k | k in s.triggers && !OfScope(taleId, versionId, k.taleId, k.versionId) :: s.triggers[k],
      s.nextSubIndex)
  }

  /** Purging a version and then the whole tale is the same as purging the
      tale. */
  lemma PurgeTaleSubsumesVersion(s: Store, taleId: Guid, versionId: Guid)
    requires Keyed(s)
    ensures Purge(Purge(s, taleId, Some(versionId)), taleId, None) == Purge(s, taleId, None)
  {
  }

  // ------------------------------------------------------------------ triggers

  /** `GetActiveTriggersBefore`: the triggers of a version still in state Set, due strictly
      before `date`. */
  function ActiveTriggersBefore(s: Store, taleId: Guid, versionId: Guid, date: int): (r: set<TriggerRow>)
    ensures forall t :: t in r <==> t in s.triggers.Values && t.taleId == taleId && t.versionId == versionId &&
                                    t.triggerAt < date && t.state == TriggerState.Set
  {
    set t | t in s.triggers.Values && t.taleId == taleId && t.versionId == versionId && t.triggerAt < date && t.state == TriggerState.Set
  }

  /** `DeleteTriggerAsync`: the row with that key goes; the count is the
      number of rows deleted. */
  function DeleteTrigger(s: Store, taleId: Guid, versionId: Guid, id: string): (r: (Store, nat))
    requires Keyed(s)
    ensures Keyed(r.0)
    ensures r.0.triggers == s.triggers - {TriggerKey(taleId, versionId, id)}
    ensures r.0.commands == s.commands
    ensures r.1 == 1 <==> TriggerKey(taleId, versionId, id) in s.triggers
    ensures r.1 <= 1
  {
    var k := TriggerKey(taleId, versionId, id);
    (s.(triggers := s.triggers - {k}), if k in s.triggers then 1 else 0)
  }

  /** `ShiftTriggerAsync`: the trigger moves to `newTime` only if it was due
      earlier; the count is the number of rows changed. */
  function ShiftTrigger(s: Store, taleId: Guid, versionId: Guid, id: string, newTime: int): (r: (Store, nat))
    requires Keyed(s)
    ensures Keyed(r.0)
    ensures r.0.commands == s.commands && r.0.triggers.Keys == s.triggers.Keys
    ensures forall k :: k in s.triggers ==> r.0.triggers[k].triggerAt >= s.triggers[k].triggerAt
    ensures forall k :: k in s.triggers && k != TriggerKey(taleId, versionId, id) ==> r.0.triggers[k] == s.triggers[k]
    ensures var k := TriggerKey(taleId, versionId, id);
            k in s.triggers ==>
              r.0.triggers[k] == s.triggers[k].(triggerAt := if s.triggers[k].triggerAt < newTime then newTime else s.triggers[k].triggerAt)
    ensures r.1 == 1 <==> var k := TriggerKey(taleId, versionId, id); k in s.triggers && s.triggers[k].triggerAt < newTime
    ensures r.1 <= 1
  {
    var k := TriggerKey(taleId, versionId, id);
    if k in s.triggers && s.triggers[k].triggerAt < newTime then
      (s.(triggers := s.triggers[k := s.triggers[k].(triggerAt := newTime)]), 1)
    else (s, 0)
  }

  /** Shifting twice to the same time changes nothing the second time. */
  lemma ShiftTriggerIdempotent(s: Store, taleId: Guid, versionId: Guid, id: string, newTime: int)
    requires Keyed(s)
    ensures var (s1, _) := ShiftTrigger(s, taleId, versionId, id, newTime);
            ShiftTrigger(s1, taleId, versionId, id, newTime) == (s1, 0)
  {
  }

  /** `UpdateTriggerAsync`: the state of the row with that key is set. */
  function UpdateTrigger(s: Store, taleId: Guid, versionId: Guid, id: string, state: TriggerState): (r: (Store, nat))
    requires Keyed(s)
    ensures Keyed(r.0)
    ensures r.0.commands == s.commands && r.0.triggers.Keys == s.triggers.Keys
    ensures forall k :: k in s.triggers && k != TriggerKey(taleId, versionId, id) ==> r.0.triggers[k] == s.triggers[k]
    ensures var k := TriggerKey(taleId, versionId, id);
            k in s.triggers ==> r.0.triggers[k] == s.triggers[k].(state := state)
    ensures r.1 == 1 <==> TriggerKey(taleId, versionId, id) in s.triggers
    ensures r.1 <= 1
  {
    var k := TriggerKey(taleId, versionId, id);
    if k in s.triggers then (s.(triggers := s.triggers[k := s.triggers[k].(state := state)]), 1)
    else (s, 0)
  }

  /** A trigger given any state other than Set is no longer active. */
  lemma FiredTriggerInactive(s: Store, taleId: Guid, versionId: Guid, id: string, state: TriggerState, date: int)
    requires Keyed(s) && state != TriggerState.Set
    ensures forall t :: t in ActiveTriggersBefore(UpdateTrigger(s, taleId, versionId, id, state).0, taleId, versionId, date) ==>
              t.id != id
  {
    var r := UpdateTrigger(s, taleId, versionId, id, state).0;
    forall t | t in ActiveTriggersBefore(r, taleId, versionId, date)
      ensures t.id != id
    {
      var k :| k in r.triggers && r.triggers[k] == t;
      assert TriggerKeyOf(t) == k;
    }
  }
}
