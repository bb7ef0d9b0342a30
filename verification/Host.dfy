/** The host as the facade probes it, and where one app stands on it. Each backend
    is what its probes and commands answer in a given state of the host. */
module Host {
  import opened Wrappers
  import opened Registry
  import opened Listing
  import opened Plan
  import opened Records

  datatype BackendError = DryRun | ElevationRequired | CommandFailed

  type Probed<+T> = Result<T, BackendError>

  /** `H` is the state of everything outside the facade: packages, clock, disk. */
  datatype Env<!H> = Env(
    target: Target,
    attached: set<BackendId>,             // the attached backends but the distro one
    distro: Option<DistroFamily>,         // the family of the attached distro backend
    listing: (H, BackendId) -> Probed<seq<InstalledApp>>,
    brewVersion: (H, bool, string) -> Probed<Option<string>>,
    flatpakScope: (H, FlatpakInstallation) -> Probed<seq<InstalledApp>>,
    row: (H, BackendId, string) -> Probed<BackendStatus>,
    offered: (H, NativeIds) -> Probed<Option<Version>>,
    stale: (H, NativeIds) -> Probed<seq<string>>,
    install: (H, Plan) -> (Probed<Option<string>>, H),
    uninstall: (H, Plan) -> (Probed<()>, H),
    update: (H, Plan) -> (Probed<()>, H),
    now: H -> nat,
    save: (H, Ledger) -> (bool, H))

  predicate Attached<H>(env: Env<H>, backend: BackendId) {
    if backend.Distro? then env.distro.Some? else backend in env.attached
  }

  /** Backends whose presence check is itself a whole listing. */
  predicate ListingBacked(backend: BackendId) {
    backend.Flatpak? || backend.Npm? || backend.Cargo? || backend.Pipx? || backend.Uv?
  }

  /** A backend's own presence check for one id. */
  function StatusOf<H>(env: Env<H>, h: H, backend: BackendId, id: string): Probed<BackendStatus> {
    if backend.Homebrew? then
      match env.brewVersion(h, false, id)
      case Failure(e) => Failure(e)
      case Success(Some(v)) => Success(Present(Some(v)))
      case Success(None) =>
        match env.brewVersion(h, true, id)
        case Failure(e) => Failure(e)
        case Success(v) => Success(if v.Some? then Present(v) else Absent)
    else if ListingBacked(backend) then
      match env.listing(h, backend)
      case Failure(e) => Failure(e)
      case Success(apps) => Success(StatusFromListing(Restrict(apps, [id]), id))
    else env.row(h, backend, id)
  }

  // ---------------------------------------------------------------------------
  // Recorded identifiers
  // ---------------------------------------------------------------------------

  /** The id the presence match names for the language backends and snap. */
  function LanguageNativeId(ids: NativeIds): string {
    match ids
    case NpmIds(package) => package
    case PipxIds(package) => package
    case UvIds(package) => package
    case SnapIds(name) => name
    case CargoIds(crate) => crate
    case BrewIds(_, _) => ""
    case FlatpakIds(_, _, _) => ""
    case DistroIds(_, _) => ""
  }

  /** The attached backend the presence match takes for them. */
  function LanguageBackend<H>(env: Env<H>, ids: NativeIds): Option<BackendId> {
    var backend :=
      match ids
      case NpmIds(_) => Some(Npm)
      case CargoIds(_) => Some(Cargo)
      case PipxIds(_) => Some(Pipx)
      case UvIds(_) => Some(Uv)
      case SnapIds(_) => Some(Snap)
      case _ => None;
    if backend.Some? && backend.value in env.attached then backend else None
  }

  function InstalledFrom(backend: BackendId, status: Probed<BackendStatus>): Probed<AppStatus> {
    match status
    case Failure(e) => Failure(e)
    case Success(Absent) => Success(NotInstalled)
    case Success(Present(v)) => Success(Installed(backend, v))
  }

  /** Where a recorded app stands, a match over its identifiers; an absent backend
      is an answer. */
  function RecordedStatus<H>(env: Env<H>, h: H, record: InstallRecord): Probed<AppStatus> {
    match record.ids
    case BrewIds(token, cask) =>
      if Homebrew !in env.attached then Success(NotInstalled)
      else (match env.brewVersion(h, cask, token)
            case Failure(e) => Failure(e)
            case Success(Some(v)) => Success(Installed(Homebrew, Some(v)))
            case Success(None) => Success(NotInstalled))
    case FlatpakIds(appId, _, installation) =>
      if Flatpak !in env.attached then Success(NotInstalled)
      else (match env.flatpakScope(h, installation)
            case Failure(e) => Failure(e)
            case Success(apps) => InstalledFrom(Flatpak, Success(StatusFromListing(apps, appId))))
    case DistroIds(package, family) =>
      if env.distro.None? then Success(NotInstalled)
      else if env.distro.value != family then Success(NotInstalled)
      else InstalledFrom(Distro(family), env.row(h, Distro(family), package))
    case ids =>
      match LanguageBackend(env, ids)
      case None => Success(NotInstalled)
      case Some(backend) => InstalledFrom(ids.Backend(), StatusOf(env, h, backend, LanguageNativeId(ids)))
  }

  datatype AppsError =
    | BackendFailed(error: BackendError)
    | PlanFailed(reason: PlanError)
    | BackendUnavailable(backend: BackendId)
    | UnrecordableOperation
    | BlockingResolveRequired
    | UnrecordedUpdate
    | UpdateTargetNotPinnable
    | AlreadyRecorded
    | AdoptionAbsent
    | ForeignNotManaged
    | ManifestFailed

  function PresenceFromStatus(status: Probed<BackendStatus>): Result<BackendStatus, AppsError> {
    match status
    case Failure(e) => Failure(BackendFailed(e))
    case Success(status) => Success(status)
  }

  /** The check the verbs make, a match of its own over the identifiers; here an
      absent backend is an error. */
  function VerifyPresence<H>(env: Env<H>, h: H, ids: NativeIds): Result<BackendStatus, AppsError> {
    match ids
    case BrewIds(token, cask) =>
      if Homebrew !in env.attached then Failure(BackendUnavailable(Homebrew))
      else (match env.brewVersion(h, cask, token)
            case Failure(e) => Failure(BackendFailed(e))
            case Success(Some(v)) => Success(Present(Some(v)))
            case Success(None) => Success(Absent))
    case FlatpakIds(appId, _, installation) =>
      if Flatpak !in env.attached then Failure(BackendUnavailable(Flatpak))
      else (match env.flatpakScope(h, installation)
            case Failure(e) => Failure(BackendFailed(e))
            case Success(apps) => Success(StatusFromListing(apps, appId)))
    case DistroIds(package, family) =>
      if env.distro.None? then Failure(BackendUnavailable(Distro(family)))
      else if env.distro.value != family then Success(Absent)
      else PresenceFromStatus(env.row(h, Distro(family), package))
    case _ =>
      if !Attached(env, ids.Backend()) then Failure(BackendUnavailable(ids.Backend()))
      else PresenceFromStatus(StatusOf(env, h, ids.Backend(), ids.NativeId()))
  }

  /** What the host says of these identifiers when their backend is attached, and
      nothing when it is not: the one question both matches put. */
  function Probe<H>(env: Env<H>, h: H, ids: NativeIds): Option<Probed<BackendStatus>> {
    if !Attached(env, ids.Backend()) then None
    else Some(ProbeIds(env, h, ids))
  }

  function ProbeIds<H>(env: Env<H>, h: H, ids: NativeIds): Probed<BackendStatus> {
    match ids
    case BrewIds(token, cask) =>
      (match env.brewVersion(h, cask, token)
       case Failure(e) => Failure(e)
       case Success(v) => Success(if v.Some? then Present(v) else Absent))
    case FlatpakIds(appId, _, installation) =>
      (match env.flatpakScope(h, installation)
       case Failure(e) => Failure(e)
       case Success(apps) => Success(StatusFromListing(apps, appId)))
    case DistroIds(package, family) =>
      if env.distro != Some(family) then Success(Absent) else env.row(h, Distro(family), package)
    case _ => StatusOf(env, h, ids.Backend(), ids.NativeId())
  }

  /** The id and the backend the one match picks for the language backends and
      snap are those the other one picks. */
  lemma SameLanguagePick<H>(env: Env<H>, ids: NativeIds)
    requires !ids.BrewIds? && !ids.FlatpakIds? && !ids.DistroIds?
    ensures LanguageNativeId(ids) == ids.NativeId()
    ensures LanguageBackend(env, ids) == if Attached(env, ids.Backend()) then Some(ids.Backend()) else None
  {
  }

  lemma RecordedStatusProbes<H>(env: Env<H>, h: H, record: InstallRecord)
    ensures RecordedStatus(env, h, record) ==
            match Probe(env, h, record.ids)
            case None => Success(NotInstalled)
            case Some(status) => InstalledFrom(record.ids.Backend(), status)
  {
    hide StatusOf, LanguageBackend, LanguageNativeId, StatusFromListing;
    if !record.ids.BrewIds? && !record.ids.FlatpakIds? && !record.ids.DistroIds? { SameLanguagePick(env, record.ids); }
  }

  lemma VerifyPresenceProbes<H>(env: Env<H>, h: H, ids: NativeIds)
    ensures VerifyPresence(env, h, ids) ==
            match Probe(env, h, ids)
            case None => Failure(BackendUnavailable(ids.Backend()))
            case Some(status) => PresenceFromStatus(status)
  {
    hide StatusOf, StatusFromListing;
  }

  /** The status of a record and the verbs' own check, two matches written apart,
      never disagree: on every host and for all identifiers they give the same
      answer or the same error, and differ only in what an absent backend means. */
  lemma StatusMatchesPresence<H>(env: Env<H>, h: H, record: InstallRecord)
    ensures RecordedStatus(env, h, record) ==
            match VerifyPresence(env, h, record.ids)
            case Success(Present(v)) => Success(Installed(record.ids.Backend(), v))
            case Success(Absent) => Success(NotInstalled)
            case Failure(BackendFailed(e)) => Failure(e)
            case Failure(_) => Success(NotInstalled)
    ensures VerifyPresence(env, h, record.ids).Failure? && !VerifyPresence(env, h, record.ids).error.BackendFailed?
            <==> VerifyPresence(env, h, record.ids) == Failure(BackendUnavailable(record.ids.Backend()))
                 && !Attached(env, record.ids.Backend())
  {
    hide RecordedStatus, VerifyPresence, ProbeIds;
    RecordedStatusProbes(env, h, record);
    VerifyPresenceProbes(env, h, record.ids);
  }

  // ---------------------------------------------------------------------------
  // Unrecorded apps
  // ---------------------------------------------------------------------------

  function ForeignFrom(backend: BackendId, status: Probed<BackendStatus>): Probed<AppStatus> {
    match status
    case Failure(e) => Failure(e)
    case Success(Absent) => Success(NotInstalled)
    case Success(Present(v)) => Success(Foreign(backend, v))
  }

  predicate Probeable<H>(env: Env<H>, ids: NativeIds) {
    if ids.DistroIds? then env.distro == Some(ids.family) else Attached(env, ids.Backend())
  }

  /** The check for one app on its own. */
  function ForeignStatus<H>(env: Env<H>, h: H, ids: NativeIds): Probed<AppStatus> {
    if !Probeable(env, ids) then Success(NotInstalled)
    else ForeignFrom(ids.Backend(), StatusOf(env, h, ids.Backend(), ids.NativeId()))
  }

  /** One listing command as it was run. */
  datatype ListCall = ListCall(backend: BackendId, ok: bool)

  /** The listings kept so far, and every listing command run for them. */
  datatype Cache = Cache(listings: map<BackendId, seq<InstalledApp>>, calls: seq<ListCall>)

  const EMPTY_CACHE := Cache(map[], [])

  /** A presence answer from the kept listing, taking it first when there is none;
      a failing listing is not kept. */
  function CachedStatus<H>(env: Env<H>, h: H, cache: Cache, backend: BackendId, id: string): (Probed<BackendStatus>, Cache) {
    if backend in cache.listings then (Success(StatusFromListing(cache.listings[backend], id)), cache)
    else match env.listing(h, backend)
      case Failure(e) => (Failure(e), cache.(calls := cache.calls + [ListCall(backend, false)]))
      case Success(apps) =>
        (Success(StatusFromListing(apps, id)),
         Cache(cache.listings[backend := apps], cache.calls + [ListCall(backend, true)]))
  }

  /** The check within a batch. */
  function ForeignShared<H>(env: Env<H>, h: H, ids: NativeIds, cache: Cache): (Probed<AppStatus>, Cache) {
    if !ListingBacked(ids.Backend()) then (ForeignStatus(env, h, ids), cache)
    else if !Attached(env, ids.Backend()) then (Success(NotInstalled), cache)
    else
      var (status, cache') := CachedStatus(env, h, cache, ids.Backend(), ids.NativeId());
      (ForeignFrom(ids.Backend(), status), cache')
  }

  class ForeignListings {
    var listings: map<BackendId, seq<InstalledApp>>
    ghost var calls: seq<ListCall>

    constructor ()
      ensures View() == EMPTY_CACHE
    {
      listings, calls := map[], [];
    }

    ghost function View(): Cache
      reads this
    {
      Cache(listings, calls)
    }

    method StatusSync<H>(env: Env<H>, h: H, backend: BackendId, id: string) returns (r: Probed<BackendStatus>)
      modifies this
      ensures (r, View()) == CachedStatus(env, h, old(View()), backend, id)
    {
      if backend in listings { return Success(StatusFromListing(listings[backend], id)); }
      var taken := env.listing(h, backend);
      calls := calls + [ListCall(backend, taken.Success?)];
      match taken {
        case Failure(e) => return Failure(e);
        case Success(apps) =>
          var status := StatusFromListing(apps, id);
          listings := listings[backend := apps];
          return Success(status);
      }
    }

    method ForeignStatusShared<H>(env: Env<H>, h: H, ids: NativeIds) returns (r: Probed<AppStatus>)
      modifies this
      ensures (r, View()) == ForeignShared(env, h, ids, old(View()))
    {
      if !ListingBacked(ids.Backend()) { return ForeignStatus(env, h, ids); }
      if !Attached(env, ids.Backend()) { return Success(NotInstalled); }
      var status := StatusSync(env, h, ids.Backend(), ids.NativeId());
      r := ForeignFrom(ids.Backend(), status);
    }
  }

  // ---------------------------------------------------------------------------
  // The cache
  // ---------------------------------------------------------------------------

  /** A kept listing comes from the one successful command for its backend, and
      no command for a backend follows it. */
  ghost predicate CacheSound(cache: Cache) {
    && (forall b :: b in cache.listings <==> exists i :: 0 <= i < |cache.calls| && cache.calls[i] == ListCall(b, true))
    && (forall i, j :: 0 <= i < j < |cache.calls| && cache.calls[i].ok ==> cache.calls[j].backend != cache.calls[i].backend)
  }

  lemma CachedStatusSound<H>(env: Env<H>, h: H, cache: Cache, backend: BackendId, id: string)
    requires CacheSound(cache)
    ensures CacheSound(CachedStatus(env, h, cache, backend, id).1)
  {
    hide CacheSound, StatusFromListing;
    if backend !in cache.listings {
      match env.listing(h, backend)
      case Failure(e) => ListFails(cache, backend);
      case Success(apps) => ListSucceeds(cache, backend, apps);
    }
  }

  lemma NoEarlierSuccess(cache: Cache, backend: BackendId)
    requires CacheSound(cache) && backend !in cache.listings
    ensures forall i :: 0 <= i < |cache.calls| && cache.calls[i].ok ==> cache.calls[i].backend != backend
  {
    forall i | 0 <= i < |cache.calls| && cache.calls[i].ok ensures cache.calls[i].backend != backend {
      assert cache.calls[i] == ListCall(cache.calls[i].backend, true);
    }
  }

  lemma ListFails(cache: Cache, backend: BackendId)
    requires CacheSound(cache) && backend !in cache.listings
    ensures CacheSound(cache.(calls := cache.calls + [ListCall(backend, false)]))
  {
    NoEarlierSuccess(cache, backend);
    var calls := cache.calls + [ListCall(backend, false)];
    forall b ensures b in cache.listings <==> exists i :: 0 <= i < |calls| && calls[i] == ListCall(b, true) {
      if b in cache.listings {
        var i :| 0 <= i < |cache.calls| && cache.calls[i] == ListCall(b, true);
        assert calls[i] == ListCall(b, true);
      }
    }
  }

  lemma ListSucceeds(cache: Cache, backend: BackendId, apps: seq<InstalledApp>)
    requires CacheSound(cache) && backend !in cache.listings
    ensures CacheSound(Cache(cache.listings[backend := apps], cache.calls + [ListCall(backend, true)]))
  {
    NoEarlierSuccess(cache, backend);
    var calls := cache.calls + [ListCall(backend, true)];
    assert calls[|cache.calls|] == ListCall(backend, true);
    forall b ensures b in cache.listings[backend := apps] <==> exists i :: 0 <= i < |calls| && calls[i] == ListCall(b, true) {
      if b in cache.listings {
        var i :| 0 <= i < |cache.calls| && cache.calls[i] == ListCall(b, true);
        assert calls[i] == ListCall(b, true);
      }
    }
  }

  lemma ForeignSharedSound<H>(env: Env<H>, h: H, ids: NativeIds, cache: Cache)
    requires CacheSound(cache)
    ensures CacheSound(ForeignShared(env, h, ids, cache).1)
  {
    hide CacheSound, CachedStatus, ForeignStatus;
    CachedStatusSound(env, h, cache, ids.Backend(), ids.NativeId());
  }

  /** The kept listing answers for this id what a listing taken now would. */
  predicate CacheFresh<H>(env: Env<H>, h: H, cache: Cache, backend: BackendId, id: string) {
    backend in cache.listings ==>
      && env.listing(h, backend).Success?
      && StatusFromListing(cache.listings[backend], id) == StatusFromListing(env.listing(h, backend).value, id)
  }

  /** With a fresh enough cache the batch check is the single check. */
  lemma SharedIsSingle<H>(env: Env<H>, h: H, ids: NativeIds, cache: Cache)
    requires CacheFresh(env, h, cache, ids.Backend(), ids.NativeId())
    ensures ForeignShared(env, h, ids, cache).0 == ForeignStatus(env, h, ids)
  {
    if ListingBacked(ids.Backend()) && env.listing(h, ids.Backend()).Success? {
      StatusOfRestricted(env.listing(h, ids.Backend()).value, ids.NativeId());
    }
  }

  /** The check only ever adds the listing taken now. */
  lemma SharedAdds<H>(env: Env<H>, h: H, ids: NativeIds, cache: Cache, backend: BackendId)
    ensures var cache' := ForeignShared(env, h, ids, cache).1;
            && (backend in cache.listings ==> backend in cache'.listings && cache'.listings[backend] == cache.listings[backend])
            && (backend in cache'.listings && backend !in cache.listings ==>
                  env.listing(h, backend) == Success(cache'.listings[backend]))
  {
    hide StatusFromListing, ForeignStatus;
  }
}
