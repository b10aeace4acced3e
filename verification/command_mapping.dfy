/** `CommandExtensions`: the ways an executor derives a new command from the
    one it is running, to be queued in the task database.

    Every derived command keeps the owner, chapter, page and index of the
    original. The columns that the database fills in later (`SubIndex`,
    `Error`, `Result`) start from their defaults, and `OperationTime` and
    `Duration` are not modelled. */
module CommandMapping {
  import opened Wrappers
  import opened Text
  import opened Commands
  import opened TaskStore
  import CommandIds
  import Triggers
  import Timelines
  import ExecuteTask

  /** A derived command on the same page and index as `c`, with the given
      phase and command data. */
  function Derived(c: CommandRow, phase: int, data: RawCommand): (r: CommandRow)
    ensures r.taleId == c.taleId && r.versionId == c.versionId
    ensures r.chapter == c.chapter && r.page == c.page && r.index == c.index
    ensures r.phase == phase && r.data == data
    ensures r.tag == data.tag && r.target == data.target
    ensures r.subIndex == 0 && r.error.None? && r.result == NotRun
  {
    CommandRow(c.taleId, c.versionId, c.chapter, c.page, phase, c.index, 0, data.tag, data.target, data, None, NotRun)
  }

  // ------------------------------------------------------------------ Remap

  /** The timeline parameters `Remap` carries over: the first start, start
      location and stay (each required), then the first travel target and
      voyage when present. */
  function TimelineParams(ps: seq<NamedParameter>): (r: Result<seq<NamedParameter>>)
    ensures r.Ok? <==>
      FirstNamed(ps, CommandIds.Start).Some? && FirstNamed(ps, CommandIds.StartLocation).Some? &&
      FirstNamed(ps, CommandIds.Stay).Some?
    ensures r.Ok? ==>
      r.value == [FirstNamed(ps, CommandIds.Start).value, FirstNamed(ps, CommandIds.StartLocation).value,
                  FirstNamed(ps, CommandIds.Stay).value] +
                 Present(FirstNamed(ps, CommandIds.TravelTo)) + Present(FirstNamed(ps, CommandIds.Voyage))
    ensures r.Err? ==> r == Err(InvalidOperation("Sequence contains no matching element"))
  {
    var start :- NamedOrThrow(ps, CommandIds.Start);
    var location :- NamedOrThrow(ps, CommandIds.StartLocation);
    var stay :- NamedOrThrow(ps, CommandIds.Stay);
    Ok([start, location, stay] + Present(FirstNamed(ps, CommandIds.TravelTo)) + Present(FirstNamed(ps, CommandIds.Voyage)))
  }

  /** The value of an option as a sequence of at most one element. */
  function Present<T>(o: Option<T>): (r: seq<T>)
    ensures |r| <= 1 && (r == [] <==> o.None?)
    ensures o.Some? ==> r == [o.value]
  {
    if o.Some? then [o.value] else []
  }

  /** `First(x => x.Name == name)`: the first parameter with the name, or the
      exception LINQ throws when there is none. */
  function NamedOrThrow(ps: seq<NamedParameter>, name: string): (r: Result<NamedParameter>)
    ensures r.Ok? <==> FirstNamed(ps, name).Some?
    ensures r.Ok? ==> r.value == FirstNamed(ps, name).value
    ensures r.Err? ==> r == Err(InvalidOperation("Sequence contains no matching element"))
  {
    match FirstNamed(ps, name)
    case None => Err(InvalidOperation("Sequence contains no matching element"))
    case Some(p) => Ok(p)
  }

  /** `Remap`: a command with a new tag and target (each defaulting to the
      original's), an optional parent and array, and the original's timeline
      parameters followed by the new named parameters. The comment is
      dropped, and the phase defaults to the original's. */
  function Remap(c: CommandRow, newTag: Option<string>, newTarget: Option<string>, newParent: Option<string>,
                 newArray: Option<seq<string>>, newNamed: Option<seq<NamedParameter>>, phase: Option<int>): (r: Result<CommandRow>)
    ensures r.Ok? <==> TimelineParams(c.data.named).Ok?
    ensures r.Err? ==> r.error.InvalidOperation?
    ensures r.Ok? ==>
      r.value == Derived(c, phase.GetOr(c.phase),
        RawCommand(newTag.GetOr(c.tag), newTarget.GetOr(c.target), newParent,
                   TimelineParams(c.data.named).value + newNamed.GetOr([]), newArray.GetOr([]), None))
  {
    var kept :- TimelineParams(c.data.named);
    var data := RawCommand(newTag.GetOr(c.tag), newTarget.GetOr(c.target), newParent, kept + newNamed.GetOr([]), newArray.GetOr([]), None);
    Ok(Derived(c, phase.GetOr(c.phase), data))
  }

  /** None of `ps` carries the name. */
  predicate Unnamed(ps: seq<NamedParameter>, name: string) {
    forall i :: 0 <= i < |ps| ==> ps[i].name != name
  }

  /** A remapped command lives on the same timeline as the original: every
      command with a valid timeline can be remapped, and the new command's
      timeline is the original's as long as the new parameters do not bring
      a travel target or voyage of their own. */
  lemma RemapKeepsTimeline(c: CommandRow, newTag: Option<string>, newTarget: Option<string>, newParent: Option<string>,
                           newArray: Option<seq<string>>, newNamed: Option<seq<NamedParameter>>, phase: Option<int>,
                           text: string, newText: string)
    requires Timelines.TimelineWith(c.data.named, text).Ok?
    requires Unnamed(newNamed.GetOr([]), CommandIds.TravelTo) && Unnamed(newNamed.GetOr([]), CommandIds.Voyage)
    ensures Remap(c, newTag, newTarget, newParent, newArray, newNamed, phase).Ok?
    ensures Timelines.TimelineWith(Remap(c, newTag, newTarget, newParent, newArray, newNamed, phase).value.data.named, newText) ==
            Timelines.TimelineWith(c.data.named, text)
  {
    var ps := c.data.named;
    var kept := TimelineParams(ps).value;
    var extra := newNamed.GetOr([]);
    var qs := kept + extra;
    assert Remap(c, newTag, newTarget, newParent, newArray, newNamed, phase).value.data.named == qs;
    TimelineParamsFound(ps, extra);
    Timelines.TimelineReadsOnlyLookups(ps, qs, text, newText);
  }

  /** The five timeline parameters are found in a remapped parameter list
      exactly as in the original. */
  lemma TimelineParamsFound(ps: seq<NamedParameter>, extra: seq<NamedParameter>)
    requires TimelineParams(ps).Ok?
    requires Unnamed(extra, CommandIds.TravelTo) && Unnamed(extra, CommandIds.Voyage)
    ensures Timelines.SameLookups(ps, TimelineParams(ps).value + extra)
  {
    var kept := TimelineParams(ps).value;
    KeptAnswers(ps);
    FirstNamedConcat(kept, extra, CommandIds.Start);
    FirstNamedConcat(kept, extra, CommandIds.StartLocation);
    FirstNamedConcat(kept, extra, CommandIds.Stay);
    FirstNamedConcat(kept, extra, CommandIds.TravelTo);
    FirstNamedConcat(kept, extra, CommandIds.Voyage);
  }

  /** The carried-over parameters answer each timeline lookup as the full
      list does. */
  lemma KeptAnswers(ps: seq<NamedParameter>)
    requires TimelineParams(ps).Ok?
    ensures Timelines.SameLookups(ps, TimelineParams(ps).value)
  {
    HeadAnswers(FirstNamed(ps, CommandIds.Start).value, FirstNamed(ps, CommandIds.StartLocation).value,
                FirstNamed(ps, CommandIds.Stay).value, FirstNamed(ps, CommandIds.TravelTo), FirstNamed(ps, CommandIds.Voyage));
  }

  /** Lookups in a list made of one start, start location and stay, then an
      optional travel target and voyage. */
  lemma HeadAnswers(start: NamedParameter, location: NamedParameter, stay: NamedParameter,
                    travelTo: Option<NamedParameter>, voyage: Option<NamedParameter>)
    requires start.name == CommandIds.Start && location.name == CommandIds.StartLocation && stay.name == CommandIds.Stay
    requires travelTo.Some? ==> travelTo.value.name == CommandIds.TravelTo
    requires voyage.Some? ==> voyage.value.name == CommandIds.Voyage
    ensures var kept := [start, location, stay] + Present(travelTo) + Present(voyage);
      FirstNamed(kept, CommandIds.Start) == Some(start) &&
      FirstNamed(kept, CommandIds.StartLocation) == Some(location) &&
      FirstNamed(kept, CommandIds.Stay) == Some(stay) &&
      FirstNamed(kept, CommandIds.TravelTo) == travelTo &&
      FirstNamed(kept, CommandIds.Voyage) == voyage
  {
    var tail := Present(travelTo) + Present(voyage);
    assert [start, location, stay] + Present(travelTo) + Present(voyage) == [start, location, stay] + tail;
    Timelines.LeadingLookups(start, location, stay, tail);
    TailAnswers(travelTo, voyage);
  }

  /** Lookups in the optional travel target followed by the optional voyage. */
  lemma TailAnswers(travelTo: Option<NamedParameter>, voyage: Option<NamedParameter>)
    requires travelTo.Some? ==> travelTo.value.name == CommandIds.TravelTo
    requires voyage.Some? ==> voyage.value.name == CommandIds.Voyage
    ensures FirstNamed(Present(travelTo) + Present(voyage), CommandIds.TravelTo) == travelTo
    ensures FirstNamed(Present(travelTo) + Present(voyage), CommandIds.Voyage) == voyage
  {
    CommandIds.TimelineNamesDistinct();
    FirstNamedConcat(Present(travelTo), Present(voyage), CommandIds.TravelTo);
    FirstNamedConcat(Present(travelTo), Present(voyage), CommandIds.Voyage);
  }

  // ---------------------------------------------------------------- MapWith

  /** `MapWith`: the command with any of tag, target, parent, array and named
      parameters replaced; what is not replaced, the comment included, is
      kept. */
  function MapWith(c: CommandRow, newTag: Option<string>, newTarget: Option<string>, newParent: Option<string>,
                   newArray: Option<seq<string>>, newNamed: Option<seq<NamedParameter>>): (r: CommandRow)
    ensures r.phase == c.phase && r.subIndex == 0 && r.error.None? && r.result == NotRun
    ensures r.tag == r.data.tag && r.target == r.data.target
    ensures r.data.comment == c.data.comment
  {
    Derived(c, c.phase,
      RawCommand(newTag.GetOr(c.tag), newTarget.GetOr(c.target),
                 if newParent.Some? then newParent else c.data.parent,
                 newNamed.GetOr(c.data.named), newArray.GetOr(c.data.arrayParams), c.data.comment))
  }

  /** The later of two overrides wins. */
  function Over<T>(later: Option<T>, earlier: Option<T>): Option<T> {
    if later.Some? then later else earlier
  }

  /** Mapping twice is mapping once with the second call's overrides laid
      over the first's. */
  lemma MapWithTwice(c: CommandRow, tag1: Option<string>, target1: Option<string>, parent1: Option<string>,
                     items1: Option<seq<string>>, named1: Option<seq<NamedParameter>>,
                     tag2: Option<string>, target2: Option<string>, parent2: Option<string>,
                     items2: Option<seq<string>>, named2: Option<seq<NamedParameter>>)
    ensures MapWith(MapWith(c, tag1, target1, parent1, items1, named1), tag2, target2, parent2, items2, named2) ==
            MapWith(c, Over(tag2, tag1), Over(target2, target1), Over(parent2, parent1), Over(items2, items1), Over(named2, named1))
  {
  }

  /** With nothing replaced, a command whose columns agree with its data is
      copied as a fresh row: only the columns the database fills in are
      reset. */
  lemma MapWithNothingCopies(c: CommandRow)
    requires c.tag == c.data.tag && c.target == c.data.target
    ensures MapWith(c, None, None, None, None, None) == c.(subIndex := 0, error := None, result := NotRun)
  {
  }

  // ------------------------------------------------------------- MapTrigger

  /** A trigger row as the raw trigger it fires: a missing parameter
      becomes the empty string, as `NamedParameter.Create` writes it. */
  function AsRaw(t: TriggerRow): (r: Triggers.RawTrigger)
    ensures r.target == t.target && r.id == t.id && r.kind == t.kind
    ensures r.grain == t.grainType && r.triggerAt == t.triggerAt
    ensures t.parameter.Some? ==> r.parameter == t.parameter.value
    ensures t.parameter.None? ==> r.parameter == ""
  {
    Triggers.RawTrigger(t.target, t.id, t.kind, t.parameter.GetOr(""), t.grainType, t.triggerAt)
  }

  /** `MapTrigger`: the TRIGGER command that fires a trigger, on phase 0, in
      the place of the command that set it. */
  function MapTrigger(c: CommandRow, t: TriggerRow): (r: CommandRow)
    ensures r.phase == 0 && r.tag == CommandIds.Trigger && r.target == t.target
    ensures r.taleId == c.taleId && r.versionId == c.versionId && r.chapter == c.chapter && r.page == c.page
    ensures r.data == Triggers.ToCommand(AsRaw(t))
  {
    Derived(c, 0, Triggers.ToCommand(AsRaw(t)))
  }

  /** A trigger sent as a command is read back as the same trigger when the
      command is executed, provided its time is a 64-bit number. */
  lemma MapTriggerRoundTrip(c: CommandRow, t: TriggerRow)
    requires IsLong(t.triggerAt)
    ensures ExecuteTask.MapToTrigger(MapTrigger(c, t)) == Ok(AsRaw(t))
  {
    ExecuteTask.MapToTriggerRoundTrip(MapTrigger(c, t), AsRaw(t));
  }
}
