/** Where and when a page happens: the page's timeline as commands carry it in
    their system parameters (`CommandExtensions.Timeline`, `PageTimeline`,
    `ExecuteCommandContext`), and the location text of the API's page block
    (`Location.ToString`) that `CommandExtensions.ParseLocation` reads back.

    Dates and durations are C# `long`s; additions wrap around at 64 bits as
    in an unchecked context. */
module Timelines {
  import opened Wrappers
  import opened Text
  import opened Guids
  import opened Commands
  import opened TaskStore
  import opened Conversion
  import CommandIds
  import CommandText

  // --------------------------------------------------------------- 64 bits

  const Pow64: int := 0x1_0000_0000_0000_0000

  /** Two's-complement wrap-around of a 64-bit sum. */
  function WrapLong(i: int): (r: int)
    ensures IsLong(r)
    ensures IsLong(i) ==> r == i
  {
    (i - MinLong) % Pow64 + MinLong
  }

  /** Wrapping an intermediate sum does not change the final wrapped sum. */
  lemma WrapAdd(a: int, b: int)
    ensures WrapLong(WrapLong(a) + b) == WrapLong(a + b)
  {
    var q := (a - MinLong) / Pow64;
    assert WrapLong(a) == a - q * Pow64;
    assert WrapLong(a) + b - MinLong == (a + b - MinLong) - q * Pow64;
    ModShift(a + b - MinLong, q);
  }

  lemma ModShift(x: int, q: int)
    ensures (x - q * Pow64) % Pow64 == x % Pow64
  {
    var y := x - q * Pow64;
    assert x == y + q * Pow64;
    assert (y + q * Pow64) % Pow64 == y % Pow64 by {
      var r := y % Pow64;
      var d := y / Pow64;
      assert y == d * Pow64 + r;
      assert y + q * Pow64 == (d + q) * Pow64 + r;
    }
  }

  // -------------------------------------------------------------- locations

  /** `PageTimelineInfo.Location` and the API's `Location`: a settlement and
      an optional extension inside it. */
  datatype Location = Location(settlement: string, extension: Option<string>)

  /** `Location.ToString`: the settlement, and ",extension" after it when the
      extension is neither null nor empty. */
  function LocationText(l: Location): string {
    if IsNullOrEmpty(l.extension) then l.settlement else l.settlement + "," + l.extension.value
  }

  /** A location part that survives the round trip: non-empty, trimmed and
      free of commas. */
  predicate CleanPart(s: string) {
    s != "" && IsTrimmed(s) && !Contains(s, ',')
  }

  /** `ParseLocation`: no parameter gives no location; otherwise the value is
      split on ',' into trimmed non-empty entries, and one or two of them
      make a settlement with or without an extension. */
  function ParseLocation(p: Option<NamedParameter>): (r: Option<Location>)
    ensures r.Some? <==> p.Some? && 1 <= |SplitInto(p.value.value, ',')| <= 2
    ensures r.Some? ==> var parts := SplitInto(p.value.value, ',');
              r.value.settlement == parts[0] &&
              r.value.extension == (if |parts| == 2 then Some(parts[1]) else None)
    ensures r.Some? ==> CleanPart(r.value.settlement) && (r.value.extension.None? || CleanPart(r.value.extension.value))
  {
    match p
    case None => None
    case Some(par) =>
      var args := if |par.value| == 0 then [] else SplitInto(par.value, ',');
      assert |par.value| == 0 ==> SplitInto(par.value, ',') == [] by {
        assert Pieces("", ',') == [""];
      }
      if |args| == 2 then Some(Location(args[0], Some(args[1])))
      else if |args| == 1 then Some(Location(args[0], None))
      else None
  }

  /** A location whose parts are clean is read back from its text, whatever
      the parameter's name and type. */
  lemma LocationRoundTrip(l: Location, t: ParamType, name: string)
    requires CleanPart(l.settlement)
    requires l.extension.None? || CleanPart(l.extension.value)
    ensures ParseLocation(Some(NamedParameter(t, name, LocationText(l)))) == Some(l)
  {
    if l.extension.None? {
      SplitJoinRoundTrip([l.settlement], ',');
    } else {
      var xs := [l.settlement, l.extension.value];
      assert Join(xs, [',']) == l.settlement + "," + l.extension.value;
      SplitJoinRoundTrip(xs, ',');
    }
  }

  // --------------------------------------------------------------- timeline

  /** `PageTimelineInfo`. */
  datatype TimelineInfo = TimelineInfo(
    start: int,
    startLocation: Location,
    travelTo: Option<Location>,
    voyage: Option<int>,
    stay: int)

  /** `EndLocation`: where the page ends. */
  function EndLocation(t: TimelineInfo): Location {
    if t.travelTo.Some? then t.travelTo.value else t.startLocation
  }

  /** `LastAtLocation`: the last day spent at the start location. */
  function LastAtLocation(t: TimelineInfo): int {
    WrapLong(t.start + t.stay)
  }

  /** `start + stay + voyage` evaluated left to right in 64 bits. */
  function SumLong(start: int, stay: int, voyage: int): int {
    WrapLong(WrapLong(start + stay) + voyage)
  }

  /** Evaluating the sum step by step wraps the same as wrapping the whole
      sum once. */
  lemma SumLongWrapsOnce(start: int, stay: int, voyage: int)
    ensures SumLong(start, stay, voyage) == WrapLong(start + stay + voyage)
  {
    WrapAdd(start + stay, voyage);
  }

  /** `Today`: the day the page ends, after the stay and the voyage. */
  function Today(t: TimelineInfo): int {
    SumLong(t.start, t.stay, t.voyage.GetOr(0))
  }

  /** The page ends one voyage after it leaves its start location, in 64-bit
      arithmetic; without overflow, exactly start + stay + voyage. */
  lemma TodayIsLastAtLocationPlusVoyage(t: TimelineInfo)
    requires IsLong(t.voyage.GetOr(0))
    ensures WrapLong(Today(t) - LastAtLocation(t)) == t.voyage.GetOr(0)
    ensures IsLong(t.start + t.stay) && IsLong(t.start + t.stay + t.voyage.GetOr(0)) ==>
              Today(t) == t.start + t.stay + t.voyage.GetOr(0) && LastAtLocation(t) == t.start + t.stay
  {
    var last := LastAtLocation(t);
    var v := t.voyage.GetOr(0);
    var q := (last + v - MinLong) / Pow64;
    assert Today(t) == last + v - q * Pow64;
    assert Today(t) - last - MinLong == (v - MinLong) - q * Pow64;
    ModShift(v - MinLong, q);
  }

  /** A named parameter read as a `long` when present: `?.Value.ToLong()`. */
  function LongParam(ps: seq<NamedParameter>, name: string): (r: Option<Result<int>>)
    ensures r.None? <==> FirstNamed(ps, name).None?
    ensures r.Some? ==> r.value == ParseLong(FirstNamed(ps, name).value.value)
  {
    match FirstNamed(ps, name)
    case None => None
    case Some(p) => Some(ParseLong(p.value))
  }

  /** A required `long` parameter: a missing one is a validation error
      carrying the command's text. */
  function RequiredLong(ps: seq<NamedParameter>, name: string, text: string, missing: string): (r: Result<int>)
    ensures r.Ok? <==> LongParam(ps, name).Some? && LongParam(ps, name).value.Ok?
    ensures r.Ok? ==> r.value == LongParam(ps, name).value.value
    ensures LongParam(ps, name).None? ==> r == Err(CommandValidation(text, missing))
    ensures r.Err? ==> r.error.CommandValidation? || r.error.Unexpected?
  {
    match LongParam(ps, name)
    case None => Err(CommandValidation(text, missing))
    case Some(v) => v
  }

  /** An optional `long` parameter that counts as 0 when missing. */
  function OptionalLong(ps: seq<NamedParameter>, name: string): (r: Result<int>)
    ensures LongParam(ps, name).None? ==> r == Ok(0)
    ensures LongParam(ps, name).Some? ==> r == LongParam(ps, name).value
  {
    match LongParam(ps, name)
    case None => Ok(0)
    case Some(v) => v
  }

  /** The message of a missing system parameter. */
  function Misses(name: string): string {
    "Command misses system parameter " + name
  }

  /** `Timeline` over a command's named parameters, with `text` the command's
      `ToString()` for the exceptions. Start, stay and the start location are
      required, the voyage counts as 0 when missing, and the travel target is
      optional. The checks run in the order start, stay, voyage, start
      location, and the start location must parse. */
  function TimelineWith(ps: seq<NamedParameter>, text: string): (r: Result<TimelineInfo>)
    ensures r.Ok? <==>
      RequiredLong(ps, CommandIds.Start, text, Misses(CommandIds.Start)).Ok? &&
      RequiredLong(ps, CommandIds.Stay, text, Misses(CommandIds.Stay)).Ok? &&
      OptionalLong(ps, CommandIds.Voyage).Ok? &&
      ParseLocation(FirstNamed(ps, CommandIds.StartLocation)).Some?
    ensures r.Ok? ==>
      r.value.start == LongParam(ps, CommandIds.Start).value.value &&
      r.value.stay == LongParam(ps, CommandIds.Stay).value.value &&
      r.value.voyage == Some(OptionalLong(ps, CommandIds.Voyage).value) &&
      r.value.startLocation == ParseLocation(FirstNamed(ps, CommandIds.StartLocation)).value &&
      r.value.travelTo == ParseLocation(FirstNamed(ps, CommandIds.TravelTo))
    ensures FirstNamed(ps, CommandIds.Start).None? ==> r == Err(CommandValidation(text, Misses(CommandIds.Start)))
    ensures r.Err? ==> r.error.CommandValidation? || r.error.Unexpected?
  {
    var start :- RequiredLong(ps, CommandIds.Start, text, Misses(CommandIds.Start));
    var stay :- RequiredLong(ps, CommandIds.Stay, text, Misses(CommandIds.Stay));
    var voyage :- OptionalLong(ps, CommandIds.Voyage);
    var startLocation := FirstNamed(ps, CommandIds.StartLocation);
    if startLocation.None? then Err(CommandValidation(text, Misses(CommandIds.StartLocation)))
    else
      match ParseLocation(startLocation)
      case None => Err(CommandValidation(text, "Command could not parse system parameter " + CommandIds.StartLocation))
      case Some(loc) => Ok(TimelineInfo(start, loc, ParseLocation(FirstNamed(ps, CommandIds.TravelTo)), Some(voyage), stay))
  }

  /** The timeline whose parts each lookup reads back. */
  lemma TimelineFound(ps: seq<NamedParameter>, text: string, t: TimelineInfo)
    requires LongParam(ps, CommandIds.Start) == Some(Ok(t.start))
    requires LongParam(ps, CommandIds.Stay) == Some(Ok(t.stay))
    requires t.voyage.Some?
    requires LongParam(ps, CommandIds.Voyage) == Some(Ok(t.voyage.value)) ||
             (LongParam(ps, CommandIds.Voyage).None? && t.voyage.value == 0)
    requires ParseLocation(FirstNamed(ps, CommandIds.StartLocation)) == Some(t.startLocation)
    requires ParseLocation(FirstNamed(ps, CommandIds.TravelTo)) == t.travelTo
    ensures TimelineWith(ps, text) == Ok(t)
  {
  }

  /** The parameters a timeline reads. */
  predicate SameLookups(ps: seq<NamedParameter>, qs: seq<NamedParameter>) {
    FirstNamed(qs, CommandIds.Start) == FirstNamed(ps, CommandIds.Start) &&
    FirstNamed(qs, CommandIds.StartLocation) == FirstNamed(ps, CommandIds.StartLocation) &&
    FirstNamed(qs, CommandIds.Stay) == FirstNamed(ps, CommandIds.Stay) &&
    FirstNamed(qs, CommandIds.TravelTo) == FirstNamed(ps, CommandIds.TravelTo) &&
    FirstNamed(qs, CommandIds.Voyage) == FirstNamed(ps, CommandIds.Voyage)
  }

  /** A valid timeline depends on nothing but the first start, stay,
      voyage, start location and travel target: two parameter lists that
      agree on those give the same timeline, whatever else they hold. */
  lemma TimelineReadsOnlyLookups(ps: seq<NamedParameter>, qs: seq<NamedParameter>, text: string, otherText: string)
    requires SameLookups(ps, qs)
    requires TimelineWith(ps, text).Ok?
    ensures TimelineWith(qs, otherText) == TimelineWith(ps, text)
  {
    assert LongParam(qs, CommandIds.Start) == LongParam(ps, CommandIds.Start);
    assert LongParam(qs, CommandIds.Stay) == LongParam(ps, CommandIds.Stay);
    assert LongParam(qs, CommandIds.Voyage) == LongParam(ps, CommandIds.Voyage);
  }

  /** A list that opens with a start, a start location and a stay answers
      those three lookups with them, whatever follows; the travel target and
      the voyage are looked up in what follows. */
  lemma LeadingLookups(start: NamedParameter, location: NamedParameter, stay: NamedParameter, tail: seq<NamedParameter>)
    requires start.name == CommandIds.Start && location.name == CommandIds.StartLocation && stay.name == CommandIds.Stay
    ensures var ps := [start, location, stay] + tail;
      FirstNamed(ps, CommandIds.Start) == Some(start) &&
      FirstNamed(ps, CommandIds.StartLocation) == Some(location) &&
      FirstNamed(ps, CommandIds.Stay) == Some(stay) &&
      FirstNamed(ps, CommandIds.TravelTo) == FirstNamed(tail, CommandIds.TravelTo) &&
      FirstNamed(ps, CommandIds.Voyage) == FirstNamed(tail, CommandIds.Voyage)
  {
    var fromStay := [stay] + tail;
    var fromLocation := [location] + fromStay;
    assert [start, location, stay] + tail == [start] + fromLocation;
    CommandIds.TimelineNamesDistinct();
    FirstNamedCons(start, fromLocation, CommandIds.Start);
    FirstNamedCons(start, fromLocation, CommandIds.StartLocation);
    FirstNamedCons(start, fromLocation, CommandIds.Stay);
    FirstNamedCons(start, fromLocation, CommandIds.TravelTo);
    FirstNamedCons(start, fromLocation, CommandIds.Voyage);
    FirstNamedCons(location, fromStay, CommandIds.StartLocation);
    FirstNamedCons(location, fromStay, CommandIds.Stay);
    FirstNamedCons(location, fromStay, CommandIds.TravelTo);
    FirstNamedCons(location, fromStay, CommandIds.Voyage);
    FirstNamedCons(stay, tail, CommandIds.Stay);
    FirstNamedCons(stay, tail, CommandIds.TravelTo);
    FirstNamedCons(stay, tail, CommandIds.Voyage);
  }

  /** `Timeline` of a raw command. */
  function Timeline(c: RawCommand): Result<TimelineInfo> {
    TimelineWith(c.named, CommandText.Render(c))
  }

  /** `ToString` of a stored command row: its owner, place, tag and target. */
  function RowText(row: CommandRow): string {
    D(row.taleId) + "." + D(row.versionId) + ":[" + IntToString(row.chapter) + "#" + IntToString(row.page) + "." +
    IntToString(row.index) + "\\" + row.tag + "] " + row.target
  }

  /** `Timeline` of a stored command row. */
  function RowTimeline(row: CommandRow): Result<TimelineInfo> {
    TimelineWith(row.data.named, RowText(row))
  }

  // ------------------------------------------------------- execute context

  /** `ExecuteCommandContext.MustExist`: the command names the "!mustexist"
      parameter. */
  function MustExist(c: RawCommand): (r: bool)
    ensures r <==> exists i :: 0 <= i < |c.named| && c.named[i].name == CommandIds.MustExist
  {
    FirstNamed(c.named, CommandIds.MustExist).Some?
  }

  /** `ExecuteCommandContext.Today` over a command's named parameters, with
      `text` the command's `ToString()`: start + stay + voyage, where a
      missing start or stay is a validation error and a missing voyage
      counts as 0. */
  function TodayWith(ps: seq<NamedParameter>, text: string): (r: Result<int>)
    ensures r.Ok? <==>
      RequiredLong(ps, CommandIds.Start, text, "").Ok? && RequiredLong(ps, CommandIds.Stay, text, "").Ok? &&
      OptionalLong(ps, CommandIds.Voyage).Ok?
    ensures FirstNamed(ps, CommandIds.Start).None? ==>
      r == Err(CommandValidation(text, "Command has no start date set"))
    ensures FirstNamed(ps, CommandIds.Start).Some? && LongParam(ps, CommandIds.Start).value.Ok? &&
            FirstNamed(ps, CommandIds.Stay).None? ==>
      r == Err(CommandValidation(text, "Command has no stay duration set"))
  {
    var start :- RequiredLong(ps, CommandIds.Start, text, "Command has no start date set");
    var stay :- RequiredLong(ps, CommandIds.Stay, text, "Command has no stay duration set");
    var voyage :- OptionalLong(ps, CommandIds.Voyage);
    Ok(SumLong(start, stay, voyage))
  }

  /** `Today` of a command's execute context. */
  function ContextToday(c: RawCommand): Result<int> {
    TodayWith(c.named, CommandText.Render(c))
  }

  /** Whenever a command's timeline can be read, the execute context's
      `Today` agrees with the timeline's. */
  lemma TodayAgrees(ps: seq<NamedParameter>, text: string)
    requires TimelineWith(ps, text).Ok?
    ensures TodayWith(ps, text) == Ok(Today(TimelineWith(ps, text).value))
  {
    var t := TimelineWith(ps, text).value;
    assert RequiredLong(ps, CommandIds.Start, text, "Command has no start date set") == Ok(t.start);
    assert RequiredLong(ps, CommandIds.Stay, text, "Command has no stay duration set") == Ok(t.stay);
    assert OptionalLong(ps, CommandIds.Voyage) == Ok(t.voyage.value);
    assert TodayWith(ps, text) == Ok(SumLong(t.start, t.stay, t.voyage.value));
  }
}
