/** Install records: the identifiers of what was installed, and the plans that are
    replayed from them. */
module Records {
  import opened Wrappers
  import opened Registry
  import opened Text
  import opened Plan

  datatype NativeIds =
    | BrewIds(token: string, cask: bool)
    | FlatpakIds(appId: string, appRef: Option<string>, installation: FlatpakInstallation)
    | SnapIds(name: string)
    | DistroIds(package: string, family: DistroFamily)
    | NpmIds(package: string)
    | CargoIds(crate: string)
    | PipxIds(package: string)
    | UvIds(package: string)
  {
    function Backend(): BackendId {
      match this
      case BrewIds(_, _) => Homebrew
      case FlatpakIds(_, _, _) => Flatpak
      case SnapIds(_) => Snap
      case DistroIds(_, family) => Distro(family)
      case NpmIds(_) => Npm
      case CargoIds(_) => Cargo
      case PipxIds(_) => Pipx
      case UvIds(_) => Uv
    }

    /** The name the backend keys its rows on. */
    function NativeId(): string {
      match this
      case BrewIds(token, _) => token
      case FlatpakIds(appId, _, _) => appId
      case SnapIds(name) => name
      case DistroIds(package, _) => package
      case NpmIds(package) => package
      case CargoIds(crate) => crate
      case PipxIds(package) => package
      case UvIds(package) => package
    }
  }

  datatype InstallRecord = InstallRecord(
    backend: BackendId,
    ids: NativeIds,
    version: Option<string>,
    installedAt: nat,
    plan: Option<Plan>)

  function NewRecord(plan: Plan, ids: NativeIds, version: Option<string>, now: nat): InstallRecord {
    InstallRecord(ids.Backend(), ids, version, now, Some(plan))
  }

  function AdoptedRecord(ids: NativeIds, version: Option<string>, now: nat): InstallRecord {
    InstallRecord(ids.Backend(), ids, version, now, None)
  }

  type Ledger = map<TorideId, InstallRecord>

  datatype AppStatus =
    | Installed(backend: BackendId, version: Option<string>)
    | Foreign(backend: BackendId, version: Option<string>)
    | NotInstalled

  // ---------------------------------------------------------------------------
  // Identifiers
  // ---------------------------------------------------------------------------

  /** The identifiers a registry app's method names. */
  function NativeIdsFor(app: App): Option<NativeIds> {
    match app.install
    case BrewMethod(cask, token) => Some(BrewIds(token, cask))
    case FlatpakMethod(appId, _) => Some(FlatpakIds(appId, None, User))
    case DistroMethod(family, package) => Some(DistroIds(package, family))
    case NpmMethod(package, _) => Some(NpmIds(package))
    case CargoMethod(crate, _) => Some(CargoIds(crate))
    case PipxMethod(package) => Some(PipxIds(package))
    case UvMethod(package, _) => Some(UvIds(package))
    case DirectMethod(_) => None
    case MiseMethod(_, _) => None
  }

  function AppIdFromRef(appRef: string): Option<string> {
    var parts := Split(appRef, '/');
    if parts[0] != "app" || |parts| < 2 || parts[1] == "" then None else Some(parts[1])
  }

  function RefBranch(appRef: string): Option<string> {
    var parts := Split(appRef, '/');
    if |parts| < 4 || parts[3] == "" then None else Some(parts[3])
  }

  /** The identifiers of an executed install, read from the plan that ran. */
  function NativeIdsFromExecuted(plan: Plan): Option<NativeIds> {
    match plan.operation
    case BrewInstall(cask, token) => Some(BrewIds(token, cask))
    case FlatpakInstall(_, appRef, installation) =>
      (match AppIdFromRef(appRef)
       case None => None
       case Some(appId) => Some(FlatpakIds(appId, Some(appRef), installation)))
    case SnapInstall(name, _) => Some(SnapIds(name))
    case DistroInstall(_, package) =>
      if plan.backend.Distro? then Some(DistroIds(package, plan.backend.family)) else None
    case NpmInstall(package, _, _) => Some(NpmIds(package))
    case CargoInstall(crate, _) => Some(CargoIds(crate))
    case PipxInstall(package) => Some(PipxIds(package))
    case UvInstall(package, _) => Some(UvIds(package))
    case _ => None
  }

  // ---------------------------------------------------------------------------
  // Plans replayed from a record
  // ---------------------------------------------------------------------------

  function UninstallOperation(ids: NativeIds, zap: bool): Option<Operation> {
    match ids
    case BrewIds(token, cask) => Some(BrewUninstall(cask, token, zap && cask))
    case FlatpakIds(appId, _, installation) => Some(FlatpakUninstall(appId, installation))
    case SnapIds(name) => Some(SnapUninstall(name))
    case DistroIds(package, family) =>
      (match ManagerFor(family) case None => None case Some(m) => Some(DistroUninstall(m, package)))
    case NpmIds(package) => Some(NpmUninstall(package, true))
    case CargoIds(crate) => Some(CargoUninstall(crate))
    case PipxIds(package) => Some(PipxUninstall(package))
    case UvIds(package) => Some(UvUninstall(package))
  }

  function UpdateOperation(ids: NativeIds): Option<Operation> {
    match ids
    case BrewIds(token, cask) => Some(BrewUpgrade(cask, token))
    case FlatpakIds(appId, _, installation) => Some(FlatpakUpdate(appId, installation))
    case SnapIds(name) => Some(SnapUpdate(name))
    case DistroIds(package, family) =>
      (match ManagerFor(family) case None => None case Some(m) => Some(DistroUpdate(m, package)))
    case NpmIds(package) => Some(NpmUpdate(package, true))
    case CargoIds(crate) => Some(CargoUpdate(crate))
    case PipxIds(package) => Some(PipxUpdate(package))
    case UvIds(package) => Some(UvUpdate(package))
  }

  function Replayed(id: TorideId, ids: NativeIds, operation: Option<Operation>): Option<Plan> {
    match operation
    case None => None
    case Some(op) => Some(Plan(id, ids.Backend(), op, false, ids.Backend().Distro?))
  }

  function UninstallPlanFromRecord(id: TorideId, record: InstallRecord, zap: bool): Option<Plan> {
    Replayed(id, record.ids, UninstallOperation(record.ids, zap))
  }

  function UpdatePlanFromRecord(id: TorideId, record: InstallRecord): Option<Plan> {
    Replayed(id, record.ids, UpdateOperation(record.ids))
  }

  /** Whether a confirmed presence answers a version request. */
  predicate VersionSatisfied(ids: NativeIds, recorded: AppStatus, requested: Option<Version>) {
    match requested
    case None => true
    case Some(v) =>
      match ids
      case FlatpakIds(_, appRef, _) => appRef.Some? && RefBranch(appRef.value) == Some(v)
      case DistroIds(_, _) => false
      case _ => recorded.Installed? && recorded.version == Some(v)
  }

  // ---------------------------------------------------------------------------
  // What the plans agree on
  // ---------------------------------------------------------------------------

  /** The backend an operation belongs to, and the kind of thing it does there. */
  predicate RoutesTo(op: Operation, backend: BackendId) {
    match op
    case BrewInstall(_, _) => backend.Homebrew?
    case BrewUninstall(_, _, _) => backend.Homebrew?
    case BrewUpgrade(_, _) => backend.Homebrew?
    case FlatpakInstall(_, _, _) => backend.Flatpak?
    case FlatpakUninstall(_, _) => backend.Flatpak?
    case FlatpakUpdate(_, _) => backend.Flatpak?
    case SnapInstall(_, _) => backend.Snap?
    case SnapUninstall(_) => backend.Snap?
    case SnapUpdate(_) => backend.Snap?
    case DistroInstall(m, _) => backend.Distro? && ManagerFor(backend.family) == Some(m)
    case DistroUninstall(m, _) => backend.Distro? && ManagerFor(backend.family) == Some(m)
    case DistroUpdate(m, _) => backend.Distro? && ManagerFor(backend.family) == Some(m)
    case NpmInstall(_, _, _) => backend.Npm?
    case NpmUninstall(_, _) => backend.Npm?
    case NpmUpdate(_, _) => backend.Npm?
    case CargoInstall(_, _) => backend.Cargo?
    case CargoUninstall(_) => backend.Cargo?
    case CargoUpdate(_) => backend.Cargo?
    case PipxInstall(_) => backend.Pipx?
    case PipxUninstall(_) => backend.Pipx?
    case PipxUpdate(_) => backend.Pipx?
    case UvInstall(_, _) => backend.Uv?
    case UvUninstall(_) => backend.Uv?
    case UvUpdate(_) => backend.Uv?
  }

  /** A plan runs an operation of its own backend and asks for root exactly when a
      distro manager runs it. */
  predicate WellRouted(plan: Plan) {
    && RoutesTo(plan.operation, plan.backend)
    && (plan.requiresElevation <==> plan.backend.Distro?)
    && !plan.dryRun
  }

  lemma PlannedIsWellRouted(app: App, target: Target, version: Option<Version>)
    ensures var r := PlanInstall(app, target, version);
            r.Success? ==> WellRouted(r.value) && r.value.app == app.id
  {
    hide Spellable, SpecJoined, ClaimsAllow, FlatpakRef;
  }

  lemma PlannedUninstallIsWellRouted(app: App, target: Target, zap: bool)
    ensures var r := PlanUninstall(app, target, zap);
            r.Success? ==>
              && WellRouted(r.value) && r.value.app == app.id
              && NativeIdsFor(app).Some? && NativeIdsFor(app).value.Backend() == r.value.backend
  {
    hide Spellable, SpecJoined, ClaimsAllow, FlatpakRef, LanguageVersion;
  }

  /** Replayed plans go to the backend the identifiers name. */
  lemma ReplayedIsWellRouted(id: TorideId, record: InstallRecord, zap: bool)
    ensures var r := UninstallPlanFromRecord(id, record, zap);
            r.Some? ==> WellRouted(r.value) && r.value.backend == record.ids.Backend() && r.value.app == id
    ensures var r := UpdatePlanFromRecord(id, record);
            r.Some? ==> WellRouted(r.value) && r.value.backend == record.ids.Backend() && r.value.app == id
    ensures UninstallPlanFromRecord(id, record, zap).None? <==>
              record.ids.DistroIds? && ManagerFor(record.ids.family).None?
  {
  }

  lemma ExecutedBackend(plan: Plan)
    requires WellRouted(plan) && NativeIdsFromExecuted(plan).Some?
    ensures NativeIdsFromExecuted(plan).value.Backend() == plan.backend
  {
    hide AppIdFromRef;
  }

  /** The app id of a planned flatpak ref reads back as the registry's exactly
      when it is not empty and holds no separator. */
  lemma FlatpakIdReadsBack(appId: string, arch: string, branch: string)
    requires '/' !in arch && '/' !in branch
    ensures AppIdFromRef(FlatpakRef(appId, arch, branch)) == Some(appId) <==> appId != "" && '/' !in appId
    ensures appId == "" ==> AppIdFromRef(FlatpakRef(appId, arch, branch)) == None
  {
    hide Split, FlatpakRef;
    FlatpakRefParts(appId, arch, branch);
    if '/' in appId {
      var (head, tail) := SplitOnce(appId, '/').value;
      var rest := appId + "/" + arch + "/" + branch;
      assert rest == head + ['/'] + (tail + "/" + arch + "/" + branch);
      SplitHead(head, '/', tail + "/" + arch + "/" + branch);
      assert Split(rest, '/')[0] == head;
    }
  }

  lemma FlatpakBranchReadsBack(appId: string, arch: string, branch: string)
    requires '/' !in arch && '/' !in branch && '/' !in appId && branch != ""
    ensures RefBranch(FlatpakRef(appId, arch, branch)) == Some(branch)
  {
    hide Split, FlatpakRef;
    FlatpakRefParts(appId, arch, branch);
  }

  /** When a registry app's uninstall and its record's replay are the same thing. */
  predicate IdentityKept(app: App, version: Option<Version>) {
    match app.install
    case BrewMethod(_, _) => version.None?
    case FlatpakMethod(appId, _) => '/' !in appId
    case _ => true
  }

  lemma FlatpakIdentity(app: App, target: Target, version: Option<Version>)
    requires app.install.FlatpakMethod? && PlanInstall(app, target, version).Success?
    requires NativeIdsFromExecuted(PlanInstall(app, target, version).value).Some?
    ensures var ids := NativeIdsFromExecuted(PlanInstall(app, target, version).value).value;
            ids.FlatpakIds? && ids.installation.User?
            && (ids.appId == app.install.appId <==> '/' !in app.install.appId)
  {
    hide Split, FlatpakRef, Trim, ClaimsAllow;
    FlatpakArchPlain(target.arch);
    var branch := if version.Some? then version.value else "stable";
    FlatpakIdReadsBack(app.install.appId, FlatpakArch(target.arch).value, branch);
  }

  /** Whatever installs, the uninstall planned from the registry app and the one
      replayed from the record of that install route to the same backend with the
      same need for root; they are the same operation exactly when no version was
      pinned into a brew token and a flatpak id holds no separator. */
  lemma ReplayMatchesRegistry(app: App, target: Target, version: Option<Version>, zap: bool, record: InstallRecord)
    requires PlanInstall(app, target, version).Success?
    requires NativeIdsFromExecuted(PlanInstall(app, target, version).value) == Some(record.ids)
    ensures var planned, replayed := PlanUninstall(app, target, zap), UninstallPlanFromRecord(app.id, record, zap);
            && planned.Success? && replayed.Some?
            && planned.value.backend == replayed.value.backend == PlanInstall(app, target, version).value.backend
            && planned.value.requiresElevation == replayed.value.requiresElevation
            && (planned.value == replayed.value <==> IdentityKept(app, version))
  {
    hide Spellable, SpecJoined, ClaimsAllow, FlatpakRef, Split, LanguageVersion, AppIdFromRef;
    match app.install {
      case BrewMethod(_, token) =>
        if version.Some? { assert |BrewToken(token, version)| > |token|; }
      case FlatpakMethod(_, _) => FlatpakIdentity(app, target, version);
      case _ =>
    }
  }

  /** The identifiers an executed install is recorded under are the ones the
      registry app names, with the flatpak ref added, exactly when no version went
      into a brew token and a flatpak id holds no separator. */
  lemma ExecutedIdsAreOwn(app: App, target: Target, version: Option<Version>, plan: Plan, executed: NativeIds)
    requires PlanInstall(app, target, version) == Success(plan)
    requires NativeIdsFromExecuted(plan) == Some(executed)
    ensures var own := NativeIdsFor(app);
            && own.Some?
            && (executed.FlatpakIds? ==> plan.operation.FlatpakInstall? && executed.appRef == Some(plan.operation.appRef))
            && (own.value == (if executed.FlatpakIds? then executed.(appRef := None) else executed) <==> IdentityKept(app, version))
  {
    hide Spellable, SpecJoined, ClaimsAllow, FlatpakRef, Split, LanguageVersion, AppIdFromRef;
    match app.install {
      case BrewMethod(_, token) =>
        if version.Some? { assert |BrewToken(token, version)| > |token|; }
      case FlatpakMethod(_, _) => FlatpakIdentity(app, target, version);
      case _ =>
    }
  }

  /** What a removing or upgrading command acts on. */
  function Named(op: Operation): Option<string> {
    match op
    case BrewUninstall(_, token, _) => Some(token)
    case BrewUpgrade(_, token) => Some(token)
    case FlatpakUninstall(appId, _) => Some(appId)
    case FlatpakUpdate(appId, _) => Some(appId)
    case SnapUninstall(name) => Some(name)
    case SnapUpdate(name) => Some(name)
    case DistroUninstall(_, package) => Some(package)
    case DistroUpdate(_, package) => Some(package)
    case NpmUninstall(package, global) => if global then Some(package) else None
    case NpmUpdate(package, global) => if global then Some(package) else None
    case CargoUninstall(crate) => Some(crate)
    case CargoUpdate(crate) => Some(crate)
    case PipxUninstall(package) => Some(package)
    case PipxUpdate(package) => Some(package)
    case UvUninstall(package) => Some(package)
    case UvUpdate(package) => Some(package)
    case _ => None
  }

  predicate Removes(op: Operation) {
    || op.BrewUninstall? || op.FlatpakUninstall? || op.SnapUninstall? || op.DistroUninstall?
    || op.NpmUninstall? || op.CargoUninstall? || op.PipxUninstall? || op.UvUninstall?
  }

  predicate Upgrades(op: Operation) {
    || op.BrewUpgrade? || op.FlatpakUpdate? || op.SnapUpdate? || op.DistroUpdate?
    || op.NpmUpdate? || op.CargoUpdate? || op.PipxUpdate? || op.UvUpdate?
  }

  /** The command keeps to the recorded kind of token or installation. */
  predicate SameScope(op: Operation, ids: NativeIds) {
    match ids
    case BrewIds(_, cask) => (op.BrewUninstall? || op.BrewUpgrade?) && op.cask == cask
    case FlatpakIds(_, _, installation) => (op.FlatpakUninstall? || op.FlatpakUpdate?) && op.installation == installation
    case _ => true
  }

  /** Every replayed uninstall removes, and every replayed update upgrades, just
      what the record names, of its kind and where it is installed; leftovers of a
      brew cask go exactly when asked for. */
  lemma ReplayedActsOnRecorded(id: TorideId, record: InstallRecord, zap: bool)
    ensures var r := UninstallPlanFromRecord(id, record, zap);
            r.Some? ==>
              var op := r.value.operation;
              && Removes(op) && Named(op) == Some(record.ids.NativeId()) && SameScope(op, record.ids)
              && (op.BrewUninstall? ==> (op.zap <==> zap && op.cask))
    ensures var r := UpdatePlanFromRecord(id, record);
            r.Some? ==>
              && Upgrades(r.value.operation) && Named(r.value.operation) == Some(record.ids.NativeId())
              && SameScope(r.value.operation, record.ids)
    ensures UpdatePlanFromRecord(id, record).None? <==> record.ids == DistroIds(record.ids.NativeId(), OtherFamily)
    ensures UninstallPlanFromRecord(id, record, zap).None? <==> record.ids == DistroIds(record.ids.NativeId(), OtherFamily)
  {
  }

  /** A record made from a versioned flatpak install satisfies a version request
      exactly when the request names that version. */
  lemma FlatpakVersionRoundTrip(app: App, target: Target, v: Version, requested: Version, recorded: AppStatus)
    requires app.install.FlatpakMethod? && PlanInstall(app, target, Some(v)).Success?
    requires app.install.appId != "" && '/' !in app.install.appId
    ensures var ids := NativeIdsFromExecuted(PlanInstall(app, target, Some(v)).value);
            && ids.Some? && ids.value.NativeId() == app.install.appId
            && (VersionSatisfied(ids.value, recorded, Some(requested)) <==> requested == v)
  {
    hide Split, FlatpakRef, Trim, ClaimsAllow, AppIdFromRef, RefBranch;
    FlatpakArchPlain(target.arch);
    var arch := FlatpakArch(target.arch).value;
    FlatpakIdReadsBack(app.install.appId, arch, v);
    FlatpakBranchReadsBack(app.install.appId, arch, v);
  }

  /** The version an install operation names to its backend, read back from the
      address the backend is given. */
  function VersionNamed(op: Operation): Option<Version> {
    match op
    case BrewInstall(_, token) => (match SplitOnce(token, '@') case None => None case Some((_, v)) => Some(v))
    case FlatpakInstall(_, appRef, _) => RefBranch(appRef)
    case NpmInstall(_, version, _) => version
    case CargoInstall(_, version) => version
    case UvInstall(_, version) => version
    case _ => None
  }

  /** A version request is never dropped or replaced: whatever plans with one
      names exactly it. (A flatpak id holding a separator shifts the branch.) */
  lemma RequestedVersionIsNamed(app: App, target: Target, v: Version)
    requires PlanInstall(app, target, Some(v)).Success?
    requires app.install.FlatpakMethod? ==> '/' !in app.install.appId
    ensures VersionNamed(PlanInstall(app, target, Some(v)).value.operation) == Some(v)
  {
    hide Trim, SpecJoined, ClaimsAllow, FlatpakRef, RefBranch;
    match app.install {
      case BrewMethod(_, token) => SplitOnceIs(token, '@', v);
      case FlatpakMethod(appId, _) =>
        FlatpakArchPlain(target.arch);
        FlatpakBranchReadsBack(appId, FlatpakArch(target.arch).value, v);
      case _ =>
    }
  }
}
