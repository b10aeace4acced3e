/** Service identities: `ServiceId` names every process of the system,
    `ResponsibleService` names the four entity services that own commands, and
    `Map` translates the first into the second by name. */
module Services {
  import opened Wrappers

  /** `ServiceId` (None = 0, TaleSvc = 1, ..., GUI = 7); `NoService` is its `None`. */
  datatype ServiceId =
    | NoService | TaleSvc | WorldSvc | ActorSvc | AnecdoteSvc | PersonSvc | OrleansClustering | GUI

  function ServiceValue(s: ServiceId): nat {
    match s
    case NoService => 0
    case TaleSvc => 1
    case WorldSvc => 2
    case ActorSvc => 3
    case AnecdoteSvc => 4
    case PersonSvc => 5
    case OrleansClustering => 6
    case GUI => 7
  }

  /** `ServiceId.ToString()`. */
  function ServiceName(s: ServiceId): string {
    match s
    case NoService => "None"
    case TaleSvc => "TaleSvc"
    case WorldSvc => "WorldSvc"
    case ActorSvc => "ActorSvc"
    case AnecdoteSvc => "AnecdoteSvc"
    case PersonSvc => "PersonSvc"
    case OrleansClustering => "OrleansClustering"
    case GUI => "GUI"
  }

  lemma ServiceNameInjective(a: ServiceId, b: ServiceId)
    ensures ServiceName(a) == ServiceName(b) ==> a == b
  {
  }

  /** `ResponsibleService` (None = 0, WorldSvc = 1, ActorSvc = 2, AnecdoteSvc = 3, PersonSvc = 4). */
  datatype ResponsibleService = Unassigned | WorldService | ActorService | AnecdoteService | PersonService

  function ResponsibleValue(r: ResponsibleService): nat {
    match r
    case Unassigned => 0
    case WorldService => 1
    case ActorService => 2
    case AnecdoteService => 3
    case PersonService => 4
  }

  /** `ResponsibleService.ToString()`. */
  function ResponsibleName(r: ResponsibleService): string {
    match r
    case Unassigned => "None"
    case WorldService => "WorldSvc"
    case ActorService => "ActorSvc"
    case AnecdoteService => "AnecdoteSvc"
    case PersonService => "PersonSvc"
  }

  /** The four entity services, the ones that own containers and commands. */
  predicate IsEntityService(s: ServiceId) {
    s == WorldSvc || s == ActorSvc || s == AnecdoteSvc || s == PersonSvc
  }

  /** `EnumExtensions.Map`: an entity service maps to the responsible service of
      the same name; every other id has no mapper. */
  function Map(s: ServiceId): (r: Result<ResponsibleService>)
    ensures r.Ok? <==> IsEntityService(s)
    ensures r.Ok? ==> ResponsibleName(r.value) == ServiceName(s) && r.value != Unassigned
    ensures r.Err? ==> r.error.MissingMapper?
  {
    match s
    case ActorSvc => Ok(ActorService)
    case AnecdoteSvc => Ok(AnecdoteService)
    case PersonSvc => Ok(PersonService)
    case WorldSvc => Ok(WorldService)
    case _ => Err(MissingMapper("ServiceId to ResponsibleService"))
  }

  /** Different services map to different responsible services. */
  lemma MapInjective(a: ServiceId, b: ServiceId)
    requires Map(a).Ok? && Map(b).Ok?
    ensures Map(a).value == Map(b).value ==> a == b
  {
  }

  /** The mapping goes by name, not by number: no entity service keeps its numeric value. */
  lemma MapIsByName(s: ServiceId)
    requires IsEntityService(s)
    ensures ResponsibleValue(Map(s).value) != ServiceValue(s)
    ensures ResponsibleValue(Map(s).value) == ServiceValue(s) - 1
  {
  }
}
