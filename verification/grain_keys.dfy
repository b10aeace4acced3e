/** The string keys under which grains are addressed.

    Every key builder first checks its arguments in a fixed order (tale id,
    version id, chapter, page, then the string arguments) and throws a
    GrainIdException naming the grain interface for the first one that is
    invalid. The keys of the controller grains are built so that different
    arguments always give different keys. */
module GrainKeys {
  import opened Wrappers
  import opened Text
  import opened Guids

  function IdError(grain: string, what: string): Fault {
    GrainId("<" + grain + "> " + what)
  }

  // ------------------------------------------------------------ controllers

  /** `FetchTale`: "TALE:" and the N form of the tale id. */
  function FetchTale(taleId: Guid): (r: Result<string>)
    ensures r.Err? <==> taleId == Empty
    ensures r.Err? ==> r.error == IdError("ITaleGrain", "Tale id is empty guid")
    ensures r.Ok? ==> |r.value| == 37 && r.value[..5] == "TALE:" && r.value[5..] == N(taleId)
  {
    if taleId == Empty then Err(IdError("ITaleGrain", "Tale id is empty guid"))
    else Ok("TALE:" + N(taleId))
  }

  /** `FetchPublish`: both ids are checked but only the version id is in the key. */
  function FetchPublish(taleId: Guid, versionId: Guid): (r: Result<string>)
    ensures r.Err? <==> taleId == Empty || versionId == Empty
    ensures taleId == Empty ==> r == Err(IdError("IPublishGrain", "Tale id is empty guid"))
    ensures taleId != Empty && versionId == Empty ==> r == Err(IdError("IPublishGrain", "Tale version id is empty guid"))
    ensures r.Ok? ==> |r.value| == 40 && r.value[..8] == "PUBLISH:" && r.value[8..] == N(versionId)
  {
    if taleId == Empty then Err(IdError("IPublishGrain", "Tale id is empty guid"))
    else if versionId == Empty then Err(IdError("IPublishGrain", "Tale version id is empty guid"))
    else Ok("PUBLISH:" + N(versionId))
  }

  /** `FetchChapter`: "CHAPTER:{version:D}\#{chapter}". */
  function FetchChapter(taleId: Guid, versionId: Guid, chapter: int): (r: Result<string>)
    ensures r.Err? <==> taleId == Empty || versionId == Empty || chapter < 0
    ensures taleId == Empty ==> r == Err(IdError("IChapterGrain", "Tale id is empty guid"))
    ensures taleId != Empty && versionId == Empty ==> r == Err(IdError("IChapterGrain", "Tale version id is empty guid"))
    ensures taleId != Empty && versionId != Empty && chapter < 0 ==>
              r == Err(IdError("IChapterGrain", "Chapter id is negative number"))
    ensures r.Ok? ==> StartsWith(r.value, "CHAPTER:")
  {
    if taleId == Empty then Err(IdError("IChapterGrain", "Tale id is empty guid"))
    else if versionId == Empty then Err(IdError("IChapterGrain", "Tale version id is empty guid"))
    else if chapter < 0 then Err(IdError("IChapterGrain", "Chapter id is negative number"))
    else Ok("CHAPTER:" + D(versionId) + "\\#" + IntToString(chapter))
  }

  /** `FetchPage`: "PAGE:{version:D}\#{chapter}.#{page}". */
  function FetchPage(taleId: Guid, versionId: Guid, chapter: int, page: int): (r: Result<string>)
    ensures r.Err? <==> taleId == Empty || versionId == Empty || chapter < 0 || page < 0
    ensures taleId == Empty ==> r == Err(IdError("IPageGrain", "Tale id is empty guid"))
    ensures taleId != Empty && versionId == Empty ==> r == Err(IdError("IPageGrain", "Tale version id is empty guid"))
    ensures taleId != Empty && versionId != Empty && chapter < 0 ==>
              r == Err(IdError("IPageGrain", "Chapter id is negative number"))
    ensures taleId != Empty && versionId != Empty && chapter >= 0 && page < 0 ==>
              r == Err(IdError("IPageGrain", "Page id is negative number"))
    ensures r.Ok? ==> StartsWith(r.value, "PAGE:")
  {
    if taleId == Empty then Err(IdError("IPageGrain", "Tale id is empty guid"))
    else if versionId == Empty then Err(IdError("IPageGrain", "Tale version id is empty guid"))
    else if chapter < 0 then Err(IdError("IPageGrain", "Chapter id is negative number"))
    else if page < 0 then Err(IdError("IPageGrain", "Page id is negative number"))
    else Ok(("PAGE:" + D(versionId) + "\\#") + (IntToString(chapter) + (".#" + IntToString(page))))
  }

  // --------------------------------------------------------------- containers

  datatype Container = ActorContainer | AnecdoteContainer | PersonContainer | WorldContainer

  function ContainerName(c: Container): string {
    match c
    case ActorContainer => "ActorContainer"
    case AnecdoteContainer => "AnecdoteContainer"
    case PersonContainer => "PersonContainer"
    case WorldContainer => "WorldContainer"
  }

  /** The four container keys: "{version:D}\{Kind}Container". */
  function FetchContainer(taleId: Guid, versionId: Guid, c: Container): (r: Result<string>)
    ensures r.Err? <==> taleId == Empty || versionId == Empty
    ensures taleId == Empty ==> r == Err(IdError("I" + ContainerName(c) + "Grain", "Tale id is empty guid"))
    ensures r.Ok? ==> |r.value| > 36 && r.value[..36] == D(versionId) && r.value[36..] == "\\" + ContainerName(c)
  {
    if taleId == Empty then Err(IdError("I" + ContainerName(c) + "Grain", "Tale id is empty guid"))
    else if versionId == Empty then Err(IdError("I" + ContainerName(c) + "Grain", "Tale version id is empty guid"))
    else Ok(D(versionId) + "\\" + ContainerName(c))
  }

  // --------------------------------------------------------------- extensions

  datatype ExtensionKind = ActorExtension | PersonExtension | AnecdoteExtension

  function ExtensionGrain(k: ExtensionKind): string {
    match k
    case ActorExtension => "IActorExtensionGrain"
    case PersonExtension => "IPersonExtensionGrain"
    case AnecdoteExtension => "IAnecdoteExtensionGrain"
  }

  /** The three extension fetchers: "{version:D}\!{type}:{id}". The extension id
      is checked before the type. */
  function FetchExtension(k: ExtensionKind, taleId: Guid, versionId: Guid, extType: Option<string>, extensionId: Option<string>): (r: Result<string>)
    ensures r.Err? <==> taleId == Empty || versionId == Empty || IsNullOrEmpty(extensionId) || IsNullOrEmpty(extType)
    ensures taleId != Empty && versionId != Empty && IsNullOrEmpty(extensionId) ==>
              r == Err(IdError(ExtensionGrain(k), "Extension id is empty string or null"))
    ensures r.Ok? ==> r.value == D(versionId) + "\\!" + extType.value + ":" + extensionId.value
  {
    var grain := ExtensionGrain(k);
    if taleId == Empty then Err(IdError(grain, "Tale id is empty guid"))
    else if versionId == Empty then Err(IdError(grain, "Tale version id is empty guid"))
    else if IsNullOrEmpty(extensionId) then Err(IdError(grain, "Extension id is empty string or null"))
    else if IsNullOrEmpty(extType) then Err(IdError(grain, "Extension type is empty string or null"))
    else Ok(D(versionId) + "\\!" + extType.value + ":" + extensionId.value)
  }

  // ----------------------------------------------------------------- entities

  datatype Entity = Actor | Equipment | Cohort | Anecdote | Person | Settlement | Race | Group | Cache | Faction

  function EntityTag(e: Entity): string {
    match e
    case Actor => "ACTOR"
    case Equipment => "EQUIPMENT"
    case Cohort => "COHORT"
    case Anecdote => "ANECDOTE"
    case Person => "PERSON"
    case Settlement => "SETTLEMENT"
    case Race => "RACE"
    case Group => "GROUP"
    case Cache => "CACHE"
    case Faction => "FACTION"
  }

  function EntityGrain(e: Entity): string {
    match e
    case Actor => "IActorGrain"
    case Equipment => "IEquipmentGrain"
    case Cohort => "ICohortGrain"
    case Anecdote => "IAnecdoteGrain"
    case Person => "IPersonGrain"
    case Settlement => "ISettlementGrain"
    case Race => "IRaceGrain"
    case Group => "IGroupGrain"
    case Cache => "ICacheGrain"
    case Faction => "IFactionGrain"
  }

  /** The ten entity fetchers: "{version:D}\{TAG}:{target}"; the target must be given. */
  function FetchEntity(e: Entity, taleId: Guid, versionId: Guid, target: Option<string>): (r: Result<string>)
    ensures r.Err? <==> taleId == Empty || versionId == Empty || IsNullOrEmpty(target)
    ensures taleId != Empty && versionId != Empty && IsNullOrEmpty(target) ==>
              r == Err(IdError(EntityGrain(e), "Target is empty string or null"))
    ensures r.Ok? ==> |r.value| > 36 && r.value[..36] == D(versionId) && r.value[36..] == "\\" + EntityTag(e) + ":" + target.value
  {
    if taleId == Empty then Err(IdError(EntityGrain(e), "Tale id is empty guid"))
    else if versionId == Empty then Err(IdError(EntityGrain(e), "Tale version id is empty guid"))
    else if IsNullOrEmpty(target) then Err(IdError(EntityGrain(e), "Target is empty string or null"))
    else Ok(D(versionId) + "\\" + EntityTag(e) + ":" + target.value)
  }

  /** `FetchWorld`: the one entity key without a target. */
  function FetchWorld(taleId: Guid, versionId: Guid): (r: Result<string>)
    ensures r.Err? <==> taleId == Empty || versionId == Empty
    ensures r.Ok? ==> |r.value| > 36 && r.value[..36] == D(versionId) && r.value[36..] == "\\WORLD"
  {
    if taleId == Empty then Err(IdError("IWorldGrain", "Tale id is empty guid"))
    else if versionId == Empty then Err(IdError("IWorldGrain", "Tale version id is empty guid"))
    else Ok(D(versionId) + "\\WORLD")
  }

  // ------------------------------------------------------------- properties

  /** Reading the tale id back from a tale key: skip the five-character prefix
      and parse the rest. */
  lemma TaleKeyRoundTrip(taleId: Guid)
    requires taleId != Empty
    ensures ParseN(FetchTale(taleId).value[5..]) == Some(taleId)
  {
    ParseNRoundTrip(taleId);
  }

  /** A publish key names the version alone: two tales share it for the same version. */
  lemma PublishKeyIgnoresTale(a: Guid, b: Guid, versionId: Guid)
    requires a != Empty && b != Empty
    ensures FetchPublish(a, versionId) == FetchPublish(b, versionId)
  {
  }

  lemma PublishKeyInjective(t: Guid, v1: Guid, v2: Guid)
    requires FetchPublish(t, v1).Ok? && FetchPublish(t, v2).Ok?
    ensures FetchPublish(t, v1).value == FetchPublish(t, v2).value ==> v1 == v2
  {
    NInjective(v1, v2);
  }

  /** The three extension fetchers build the same key from the same arguments. */
  lemma ExtensionKeyIgnoresKind(k1: ExtensionKind, k2: ExtensionKind, t: Guid, v: Guid, ty: Option<string>, id: Option<string>)
    ensures FetchExtension(k1, t, v, ty, id).Ok? == FetchExtension(k2, t, v, ty, id).Ok?
    ensures FetchExtension(k1, t, v, ty, id).Ok? ==> FetchExtension(k1, t, v, ty, id) == FetchExtension(k2, t, v, ty, id)
  {
  }

  /** Two strings of digits followed by a separator that is not a digit are
      split at the same place. */
  lemma {:induction false} DigitsPrefixUnique(a: string, b: string, x: string, y: string)
    requires AllDigits(a) && AllDigits(b)
    requires |x| > 0 && |y| > 0 && !IsDigit(x[0]) && !IsDigit(y[0])
    requires a + x == b + y
    ensures a == b && x == y
  {
    if |a| < |b| {
      SplitPointIsDigit(a, b, x, y);
      assert false;
    } else if |b| < |a| {
      SplitPointIsDigit(b, a, y, x);
      assert false;
    }
    assert a == (a + x)[..|a|] == (b + y)[..|b|] == b;
    assert x == (a + x)[|a|..] == (b + y)[|b|..] == y;
  }

  lemma SplitPointIsDigit(a: string, b: string, x: string, y: string)
    requires |a| < |b| && |x| > 0 && a + x == b + y
    ensures x[0] == b[|a|]
  {
    assert (a + x)[|a|] == x[0];
    assert (b + y)[|a|] == b[|a|];
  }

  /** Chapter keys differ for different versions or chapters. */
  lemma ChapterKeyInjective(t: Guid, v1: Guid, c1: int, v2: Guid, c2: int)
    requires FetchChapter(t, v1, c1).Ok? && FetchChapter(t, v2, c2).Ok?
    requires FetchChapter(t, v1, c1).value == FetchChapter(t, v2, c2).value
    ensures v1 == v2 && c1 == c2
  {
    var s1, s2 := IntToString(c1), IntToString(c2);
    var h1, h2 := "CHAPTER:" + D(v1) + "\\#", "CHAPTER:" + D(v2) + "\\#";
    assert |h1| == |h2| == 46;
    assert h1 == (h1 + s1)[..46] && h2 == (h2 + s2)[..46];
    assert h1[8..44] == D(v1) && h2[8..44] == D(v2);
    DInjective(v1, v2);
    assert s1 == (h1 + s1)[46..] && s2 == (h2 + s2)[46..];
    IntToStringInjective(c1, c2);
  }

  /** Page keys differ for different (version, chapter, page) triples. */
  lemma PageKeyInjective(t: Guid, v1: Guid, c1: int, p1: int, v2: Guid, c2: int, p2: int)
    requires FetchPage(t, v1, c1, p1).Ok? && FetchPage(t, v2, c2, p2).Ok?
    requires FetchPage(t, v1, c1, p1).value == FetchPage(t, v2, c2, p2).value
    ensures v1 == v2 && c1 == c2 && p1 == p2
  {
    var s1, s2 := IntToString(c1), IntToString(c2);
    var q1, q2 := ".#" + IntToString(p1), ".#" + IntToString(p2);
    var h1, h2 := "PAGE:" + D(v1) + "\\#", "PAGE:" + D(v2) + "\\#";
    assert |h1| == |h2| == 43;
    assert h1 == (h1 + (s1 + q1))[..43];
    assert h2 == (h2 + (s2 + q2))[..43];
    assert h1[5..41] == D(v1) && h2[5..41] == D(v2);
    DInjective(v1, v2);
    assert s1 + q1 == s2 + q2 by {
      assert s1 + q1 == (h1 + (s1 + q1))[43..];
      assert s2 + q2 == (h2 + (s2 + q2))[43..];
    }
    DigitsPrefixUnique(s1, s2, q1, q2);
    IntToStringInjective(c1, c2);
    assert q1[2..] == IntToString(p1) && q2[2..] == IntToString(p2);
    IntToStringInjective(p1, p2);
  }

  /** A chapter key is never a page key and a tale key is never a publish key. */
  lemma ControllerKeysDisjoint(t: Guid, v: Guid, c: int, v2: Guid, c2: int, p: int)
    requires FetchChapter(t, v, c).Ok? && FetchPage(t, v2, c2, p).Ok?
    ensures FetchChapter(t, v, c).value != FetchPage(t, v2, c2, p).value
    ensures FetchTale(t).value != FetchPublish(t, v).value
  {
    assert FetchChapter(t, v, c).value[0] == 'C';
    assert FetchPage(t, v2, c2, p).value[0] == 'P';
    assert FetchTale(t).value[0] == 'T';
  }
}
