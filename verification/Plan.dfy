/** The planner: one install method on one target becomes one backend operation,
    with a requested version spelled the way the backend addresses it. */
module Plan {
  import opened Wrappers
  import opened Registry
  import opened Text

  datatype BackendId =
    | Homebrew | Flatpak | Snap | Distro(family: DistroFamily) | Npm | Cargo | Pipx | Uv

  datatype Target = Target(os: Os, arch: Arch, distro: Option<DistroFamily>)

  datatype FlatpakInstallation = User | System

  datatype PackageManager = Apt | Dnf | Pacman | Apk

  type Version = string

  function ManagerFor(family: DistroFamily): Option<PackageManager> {
    match family
    case Debian => Some(Apt)
    case Ubuntu => Some(Apt)
    case Fedora => Some(Dnf)
    case ArchLinux => Some(Pacman)
    case Alpine => Some(Apk)
    case OtherFamily => None
  }

  datatype Operation =
    | BrewInstall(cask: bool, token: string)
    | BrewUninstall(cask: bool, token: string, zap: bool)
    | BrewUpgrade(cask: bool, token: string)
    | FlatpakInstall(remote: string, appRef: string, installation: FlatpakInstallation)
    | FlatpakUninstall(appId: string, installation: FlatpakInstallation)
    | FlatpakUpdate(appId: string, installation: FlatpakInstallation)
    | SnapInstall(name: string, channel: Option<string>)
    | SnapUninstall(name: string)
    | SnapUpdate(name: string)
    | DistroInstall(manager: PackageManager, package: string)
    | DistroUninstall(manager: PackageManager, package: string)
    | DistroUpdate(manager: PackageManager, package: string)
    | NpmInstall(package: string, version: Option<Version>, global: bool)
    | NpmUninstall(package: string, global: bool)
    | NpmUpdate(package: string, global: bool)
    | CargoInstall(crate: string, version: Option<Version>)
    | CargoUninstall(crate: string)
    | CargoUpdate(crate: string)
    | PipxInstall(package: string)
    | PipxUninstall(package: string)
    | PipxUpdate(package: string)
    | UvInstall(package: string, version: Option<Version>)
    | UvUninstall(package: string)
    | UvUpdate(package: string)

  /** An install, uninstall or update, routed and ready to run. */
  datatype Plan = Plan(app: TorideId, backend: BackendId, operation: Operation, dryRun: bool, requiresElevation: bool)

  datatype PlanError =
    | AppDisabled | PlatformMismatch | UnsupportedMethod | VersionNotSelectable | InvalidVersion

  datatype Action = Install(version: Option<Version>) | Uninstall(zap: bool)

  datatype Resolved = Resolved(backend: BackendId, operation: Operation, requiresElevation: bool)

  type Routing = Result<Resolved, PlanError>

  // ---------------------------------------------------------------------------
  // Versions and addresses
  // ---------------------------------------------------------------------------

  predicate Spellable(version: Version) {
    Trim(version) != ""
  }

  function BrewToken(token: string, version: Option<Version>): string {
    match version case None => token case Some(v) => token + "@" + v
  }

  function NpmSpec(package: string, version: Option<Version>): string {
    match version case None => package case Some(v) => package + "@" + v
  }

  function UvSpec(package: string, version: Option<Version>): string {
    match version case None => package case Some(v) => package + "==" + v
  }

  function FlatpakRef(appId: string, arch: string, branch: string): string {
    "app/" + (appId + "/" + arch + "/" + branch)
  }

  function FlatpakArch(arch: Arch): Option<string> {
    match arch
    case X86_64 => Some("x86_64")
    case Aarch64 => Some("aarch64")
    case X86 => Some("i386")
    case OtherArch => None
  }

  /** Where the separator occurs, from left to right without overlaps. */
  function MatchIndices(operand: string, sep: string, from: nat): seq<nat>
    requires sep != "" && from <= |operand|
    decreases |operand| - from
  {
    if from + |sep| > |operand| then []
    else if operand[from..from + |sep|] == sep then [from] + MatchIndices(operand, sep, from + |sep|)
    else MatchIndices(operand, sep, from + 1)
  }

  /** The separator occurs past the start of the operand. */
  predicate SpecJoined(operand: string, sep: string)
    requires sep != ""
  {
    exists at | at in MatchIndices(operand, sep, 0) :: at > 0
  }

  /** The request, the method's own pin, or both when they are equal. */
  function PinnedVersion(requested: Option<Version>, pin: Option<string>): Result<Option<Version>, PlanError> {
    match (pin, requested)
    case (None, _) => Success(requested)
    case (Some(p), None) => Success(pin)
    case (Some(p), Some(r)) => if p == r then Success(pin) else Failure(InvalidVersion)
  }

  /** The version a language method installs at, refused when it has no spelling
      or the operand already carries one. */
  function LanguageVersion(requested: Option<Version>, pin: Option<string>, operand: string, sep: Option<string>)
    : Result<Option<Version>, PlanError>
    requires sep.Some? ==> sep.value != ""
  {
    match PinnedVersion(requested, pin)
    case Failure(e) => Failure(e)
    case Success(None) => Success(None)
    case Success(Some(v)) =>
      if !Spellable(v) then Failure(InvalidVersion)
      else if sep.Some? && SpecJoined(operand, sep.value) then Failure(InvalidVersion)
      else Success(Some(v))
  }

  // ---------------------------------------------------------------------------
  // Routing
  // ---------------------------------------------------------------------------

  function ResolveHomebrew(target: Target, action: Action, cask: bool, token: string): Routing {
    if cask && !target.os.MacOs? then Failure(UnsupportedMethod)
    else if target.os.Windows? then Failure(UnsupportedMethod)
    else match action
      case Install(version) =>
        if version.Some? && !Spellable(version.value) then Failure(InvalidVersion)
        else if version.Some? && ('@' in token || '@' in version.value) then Failure(InvalidVersion)
        else Success(Resolved(Homebrew, BrewInstall(cask, BrewToken(token, version)), false))
      case Uninstall(zap) =>
        Success(Resolved(Homebrew, BrewUninstall(cask, token, cask && zap), false))
  }

  function ResolveFlatpak(target: Target, action: Action, appId: string, remote: string): Routing {
    if !target.os.Linux? then Failure(UnsupportedMethod)
    else match action
      case Install(version) =>
        (match FlatpakArch(target.arch)
         case None => Failure(UnsupportedMethod)
         case Some(arch) =>
           if version.Some? && (!Spellable(version.value) || '/' in version.value) then Failure(InvalidVersion)
           else
             var branch := if version.Some? then version.value else "stable";
             Success(Resolved(Flatpak, FlatpakInstall(remote, FlatpakRef(appId, arch, branch), User), false)))
      case Uninstall(_) => Success(Resolved(Flatpak, FlatpakUninstall(appId, User), false))
  }

  function ResolveDistro(target: Target, action: Action, family: DistroFamily, package: string): Routing {
    if !target.os.Linux? || target.distro != Some(family) then Failure(UnsupportedMethod)
    else match ManagerFor(family)
      case None => Failure(UnsupportedMethod)
      case Some(manager) =>
        match action
        case Install(Some(_)) => Failure(VersionNotSelectable)
        case Install(None) => Success(Resolved(Distro(family), DistroInstall(manager, package), true))
        case Uninstall(_) => Success(Resolved(Distro(family), DistroUninstall(manager, package), true))
  }

  function ResolveNpm(action: Action, package: string, pin: Option<string>): Routing {
    match action
    case Uninstall(_) => Success(Resolved(Npm, NpmUninstall(package, true), false))
    case Install(requested) =>
      match LanguageVersion(requested, pin, package, Some("@"))
      case Failure(e) => Failure(e)
      case Success(version) => Success(Resolved(Npm, NpmInstall(package, version, true), false))
  }

  function ResolveCargo(action: Action, crate: string, pin: Option<string>): Routing {
    match action
    case Uninstall(_) => Success(Resolved(Cargo, CargoUninstall(crate), false))
    case Install(requested) =>
      match LanguageVersion(requested, pin, crate, None)
      case Failure(e) => Failure(e)
      case Success(version) => Success(Resolved(Cargo, CargoInstall(crate, version), false))
  }

  function ResolvePipx(action: Action, package: string): Routing {
    match action
    case Install(Some(_)) => Failure(VersionNotSelectable)
    case Install(None) => Success(Resolved(Pipx, PipxInstall(package), false))
    case Uninstall(_) => Success(Resolved(Pipx, PipxUninstall(package), false))
  }

  function ResolveUv(action: Action, package: string, pin: Option<string>): Routing {
    match action
    case Uninstall(_) => Success(Resolved(Uv, UvUninstall(package), false))
    case Install(requested) =>
      match LanguageVersion(requested, pin, package, Some("=="))
      case Failure(e) => Failure(e)
      case Success(version) => Success(Resolved(Uv, UvInstall(package, version), false))
  }

  /** Direct downloads and mise need build features this model leaves off. */
  function ResolveOperation(app: App, target: Target, action: Action): Routing {
    match app.install
    case BrewMethod(cask, token) => ResolveHomebrew(target, action, cask, token)
    case FlatpakMethod(appId, remote) => ResolveFlatpak(target, action, appId, remote)
    case DistroMethod(family, package) => ResolveDistro(target, action, family, package)
    case DirectMethod(_) => Failure(UnsupportedMethod)
    case NpmMethod(package, pin) => ResolveNpm(action, package, pin)
    case CargoMethod(crate, pin) => ResolveCargo(action, crate, pin)
    case PipxMethod(package) => ResolvePipx(action, package)
    case UvMethod(package, pin) => ResolveUv(action, package, pin)
    case MiseMethod(_, _) => Failure(UnsupportedMethod)
  }

  predicate Covers(claim: Platform, target: Target) {
    claim.os == target.os && (claim.arch.None? || claim.arch.value == target.arch)
  }

  predicate ClaimsAllow(app: App, target: Target) {
    app.platforms == [] || exists i | 0 <= i < |app.platforms| :: Covers(app.platforms[i], target)
  }

  function Planned(app: App, r: Routing): Result<Plan, PlanError> {
    match r
    case Failure(e) => Failure(e)
    case Success(r) => Success(Plan(app.id, r.backend, r.operation, false, r.requiresElevation))
  }

  function PlanInstall(app: App, target: Target, version: Option<Version>): Result<Plan, PlanError> {
    if app.availability.Disabled? then Failure(AppDisabled)
    else if !ClaimsAllow(app, target) then Failure(PlatformMismatch)
    else Planned(app, ResolveOperation(app, target, Install(version)))
  }

  /** Removal skips the two install-only gates. */
  function PlanUninstall(app: App, target: Target, zap: bool): Result<Plan, PlanError> {
    Planned(app, ResolveOperation(app, target, Uninstall(zap)))
  }

  // ---------------------------------------------------------------------------
  // Exactly what is planned
  // ---------------------------------------------------------------------------

  /** The app may be installed on this target: it is not disabled, and it claims
      every platform or one that is this operating system and no other
      architecture. */
  predicate Installable(app: App, target: Target) {
    && !app.availability.Disabled?
    && (app.platforms == [] || exists claim | claim in app.platforms ::
          claim.os == target.os && (claim.arch == None || claim.arch == Some(target.arch)))
  }

  lemma InstallGates(app: App, target: Target, version: Option<Version>)
    ensures Installable(app, target) ==>
              PlanInstall(app, target, version) == Planned(app, ResolveOperation(app, target, Install(version)))
    ensures !Installable(app, target) ==>
              PlanInstall(app, target, version) == Failure(if app.availability.Disabled? then AppDisabled else PlatformMismatch)
  {
    hide ResolveOperation;
    if i :| 0 <= i < |app.platforms| && Covers(app.platforms[i], target) {
      assert app.platforms[i] in app.platforms;
    }
    if claim :| claim in app.platforms && claim.os == target.os && (claim.arch == None || claim.arch == Some(target.arch)) {
      var i :| 0 <= i < |app.platforms| && app.platforms[i] == claim;
      assert Covers(app.platforms[i], target);
    }
  }

  /** A version the method pins wins over none requested; two must be equal. */
  function PinOf(app: App): Option<string> {
    match app.install
    case NpmMethod(_, pin) => pin
    case CargoMethod(_, pin) => pin
    case UvMethod(_, pin) => pin
    case _ => None
  }

  /** A versioned spec of this operand would carry two versions. */
  predicate CarriesVersion(install: InstallMethod) {
    match install
    case NpmMethod(package, _) => exists i | 0 < i < |package| :: package[i] == '@'
    case UvMethod(package, _) => SpecJoined(package, "==")
    case _ => false
  }

  /** An npm, cargo or uv install names the method's pin when there is one and the
      request otherwise, none included. It is planned exactly when the app may be
      installed, no pin differs from a request, and the version it would name, if
      any, is not blank and not one too many. */
  lemma PinIsPlanned(app: App, target: Target, requested: Option<Version>)
    requires app.install.NpmMethod? || app.install.CargoMethod? || app.install.UvMethod?
    ensures var r, pin := PlanInstall(app, target, requested), PinOf(app);
            var v := if pin.Some? then pin else requested;
            var clash := pin.Some? && requested.Some? && pin != requested;
            && (r.Success? ==>
                  r.value.operation ==
                  match app.install
                  case NpmMethod(package, _) => NpmInstall(package, v, true)
                  case CargoMethod(crate, _) => CargoInstall(crate, v)
                  case UvMethod(package, _) => UvInstall(package, v))
            && (Installable(app, target) && clash ==> r == Failure(InvalidVersion))
            && (r.Success? <==>
                  (Installable(app, target) && !clash
                   && (v.Some? ==> !IsBlank(v.value) && !CarriesVersion(app.install))))
  {
    hide Installable, IsBlank, MatchIndices, ClaimsAllow;
    InstallGates(app, target, requested);
    if app.install.NpmMethod? { JoinedAfterStart(app.install.npmPackage); }
  }

  lemma JoinedAfterStart(operand: string)
    ensures SpecJoined(operand, "@") <==> exists i | 0 < i < |operand| :: operand[i] == '@'
  {
    hide MatchIndices;
    MatchesOne(operand, '@', 0);
    assert "@" == ['@'];
    if i :| 0 < i < |operand| && operand[i] == '@' {
      assert i in MatchIndices(operand, "@", 0);
    }
  }

  /** When each other method installs, and by which command. */
  lemma InstallPlannedExactly(app: App, target: Target, version: Option<Version>)
    ensures var r := PlanInstall(app, target, version);
            match app.install
            case BrewMethod(cask, token) =>
              && (r.Success? <==>
                    (Installable(app, target) && (if cask then target.os.MacOs? else !target.os.Windows?)
                     && (version.Some? ==> !IsBlank(version.value) && '@' !in token && '@' !in version.value)))
              && (r.Success? ==> r.value.operation == BrewInstall(cask, if version.Some? then token + "@" + version.value else token))
            case FlatpakMethod(appId, remote) =>
              && (r.Success? <==>
                    (Installable(app, target) && target.os.Linux? && target.arch in {X86_64, Aarch64, X86}
                     && (version.Some? ==> !IsBlank(version.value) && '/' !in version.value)))
              && (r.Success? ==>
                    var arch := if target.arch == X86_64 then "x86_64" else if target.arch == Aarch64 then "aarch64" else "i386";
                    r.value.operation == FlatpakInstall(remote, FlatpakRef(appId, arch, if version.Some? then version.value else "stable"), User))
            case DistroMethod(family, package) =>
              && (r.Success? <==>
                    (Installable(app, target) && target.os.Linux? && target.distro == Some(family)
                     && family != OtherFamily && version.None?))
              && (r.Success? ==>
                    && r.value.backend == Distro(family) && r.value.requiresElevation
                    && r.value.operation.DistroInstall? && r.value.operation.package == package
                    && RunsOn(r.value.operation.manager, family))
            case PipxMethod(package) =>
              && (r.Success? <==> Installable(app, target) && version.None?)
              && (r.Success? ==> r.value.operation == PipxInstall(package))
            case DirectMethod(_) => r.Failure?
            case MiseMethod(_, _) => r.Failure?
            case _ => true
  {
    hide Installable, IsBlank, ClaimsAllow, FlatpakRef;
    InstallGates(app, target, version);
  }

  predicate RunsOn(manager: PackageManager, family: DistroFamily) {
    match manager
    case Apt => family == Debian || family == Ubuntu
    case Dnf => family == Fedora
    case Pacman => family == ArchLinux
    case Apk => family == Alpine
  }

  /** When an app can be removed, and by which command: neither a disabled app nor
      a platform claim stands in the way. */
  lemma UninstallPlannedExactly(app: App, target: Target, zap: bool)
    ensures var r := PlanUninstall(app, target, zap);
            match app.install
            case BrewMethod(cask, token) =>
              && (r.Success? <==> if cask then target.os.MacOs? else !target.os.Windows?)
              && (r.Success? ==> r.value.operation == BrewUninstall(cask, token, cask && zap))
            case FlatpakMethod(appId, _) =>
              && (r.Success? <==> target.os.Linux?)
              && (r.Success? ==> r.value.operation == FlatpakUninstall(appId, User))
            case DistroMethod(family, package) =>
              && (r.Success? <==> target.os.Linux? && target.distro == Some(family) && family != OtherFamily)
              && (r.Success? ==>
                    && r.value.operation.DistroUninstall? && r.value.operation.package == package
                    && RunsOn(r.value.operation.manager, family))
            case NpmMethod(package, _) => r.Success? && r.value.operation == NpmUninstall(package, true)
            case CargoMethod(crate, _) => r.Success? && r.value.operation == CargoUninstall(crate)
            case PipxMethod(package) => r.Success? && r.value.operation == PipxUninstall(package)
            case UvMethod(package, _) => r.Success? && r.value.operation == UvUninstall(package)
            case DirectMethod(_) => r.Failure?
            case MiseMethod(_, _) => r.Failure?
  {
  }

  // ---------------------------------------------------------------------------
  // Addresses split back
  // ---------------------------------------------------------------------------

  /** A versioned brew install addresses a token that splits, at its one
      separator, into exactly the token and the version. */
  lemma BrewAddressSplits(app: App, target: Target, v: Version)
    requires app.install.BrewMethod? && PlanInstall(app, target, Some(v)).Success?
    ensures var op := PlanInstall(app, target, Some(v)).value.operation;
            && op.BrewInstall? && op.cask == app.install.cask
            && Split(op.token, '@') == [app.install.token, v]
  {
    hide Trim;
    SplitHead(app.install.token, '@', v);
  }

  /** An npm spec read the way npm reads it: the first separator that is not the
      scope prefix. */
  function SplitNpm(spec: string): Option<(string, string)> {
    if spec == "" then None
    else match SplitOnce(spec[1..], '@')
      case None => None
      case Some((rest, version)) => Some(([spec[0]] + rest, version))
  }

  /** A separator of one character has no overlaps: every occurrence is found. */
  lemma {:induction false} MatchesOne(operand: string, c: char, from: nat)
    requires from <= |operand|
    ensures forall i :: i in MatchIndices(operand, [c], from) <==> from <= i < |operand| && operand[i] == c
    decreases |operand| - from
  {
    if from < |operand| {
      assert operand[from..from + 1] == [operand[from]];
      MatchesOne(operand, c, from + 1);
    }
  }

  lemma JoinedMeansLater(operand: string)
    ensures SpecJoined(operand, "@") <==> operand != "" && '@' in operand[1..]
  {
    hide MatchIndices;
    MatchesOne(operand, '@', 0);
    assert "@" == ['@'];
    if SpecJoined(operand, "@") {
      var at :| at in MatchIndices(operand, "@", 0) && at > 0;
      assert operand[1..][at - 1] == '@';
    }
    if operand != "" && '@' in operand[1..] {
      var j :| 0 <= j < |operand[1..]| && operand[1..][j] == '@';
      assert operand[j + 1] == '@';
      assert j + 1 in MatchIndices(operand, "@", 0);
    }
  }

  /** Only occurrences past the start count, and those that overlap one before do
      not: this operand is taken for a bare name. */
  lemma OverlapIsNotJoined(v: Version)
    requires Spellable(v)
    ensures ResolveUv(Install(Some(v)), "===x", None) == Success(Resolved(Uv, UvInstall("===x", Some(v)), false))
  {
    hide Trim;
    var operand := "===x";
    assert operand[0..2] == "==" && operand[2..4][1] == 'x';
    assert MatchIndices(operand, "==", 2) == MatchIndices(operand, "==", 3) == [];
    assert MatchIndices(operand, "==", 0) == [0] + MatchIndices(operand, "==", 2);
  }

  /** A versioned npm install splits back into the package and the version exactly
      when the package has a name. */
  lemma NpmAddressSplits(app: App, target: Target, requested: Option<Version>)
    requires app.install.NpmMethod? && PlanInstall(app, target, requested).Success?
    requires PlanInstall(app, target, requested).value.operation.version.Some?
    ensures var op := PlanInstall(app, target, requested).value.operation;
            && op.package == app.install.npmPackage
            && (requested.Some? ==> op.version == requested)
            && (SplitNpm(NpmSpec(op.package, op.version)) == Some((op.package, op.version.value)) <==> op.package != "")
  {
    hide Trim, SplitOnce;
    var op := PlanInstall(app, target, requested).value.operation;
    var (package, v) := (op.package, op.version.value);
    var spec := NpmSpec(package, op.version);
    JoinedMeansLater(package);
    if package != "" {
      assert spec[1..] == package[1..] + ['@'] + v;
      SplitOnceIs(package[1..], '@', v);
      assert package == [package[0]] + package[1..];
    }
  }

  lemma SplitOnceIs(a: string, c: char, b: string)
    requires c !in a
    ensures SplitOnce(a + [c] + b, c) == Some((a, b))
  {
    FindIs(a, c, b);
    assert (a + [c] + b)[..|a|] == a && (a + [c] + b)[|a| + 1..] == b;
  }

  /** A uv spec read at its first separator. */
  function SplitUv(spec: string): Option<(string, string)> {
    match SplitOnce(spec, '=')
    case Some((package, rest)) => if rest != "" && rest[0] == '=' then Some((package, rest[1..])) else None
    case None => None
  }

  /** A versioned uv install splits back into the package and the version exactly
      when the package name holds no equals sign. */
  lemma UvAddressSplits(app: App, target: Target, requested: Option<Version>)
    requires app.install.UvMethod? && PlanInstall(app, target, requested).Success?
    requires PlanInstall(app, target, requested).value.operation.version.Some?
    ensures var op := PlanInstall(app, target, requested).value.operation;
            && op.package == app.install.uvPackage
            && (requested.Some? ==> op.version == requested)
            && (SplitUv(UvSpec(op.package, op.version)) == Some((op.package, op.version.value)) <==> '=' !in op.package)
  {
    hide Trim, SplitUv, UvSpec, SpecJoined;
    var op := PlanInstall(app, target, requested).value.operation;
    UvSpecSplits(op.package, op.version.value);
  }

  lemma UvSpecSplits(package: string, v: Version)
    ensures SplitUv(UvSpec(package, Some(v))) == Some((package, v)) <==> '=' !in package
  {
    var spec := UvSpec(package, Some(v));
    if '=' !in package {
      assert spec == package + ['='] + ("=" + v);
      SplitOnceIs(package, '=', "=" + v);
    } else {
      var k :| 0 <= k < |package| && package[k] == '=';
      assert spec[k] == '=';
      FindAtMost(spec, '=', k);
    }
  }

  lemma FlatpakRefParts(appId: string, arch: string, branch: string)
    requires '/' !in arch && '/' !in branch
    ensures Split(FlatpakRef(appId, arch, branch), '/') == ["app"] + Split(appId + "/" + arch + "/" + branch, '/')
    ensures '/' !in appId ==> Split(FlatpakRef(appId, arch, branch), '/') == ["app", appId, arch, branch]
  {
    hide Split;
    var rest := appId + "/" + arch + "/" + branch;
    assert "app/" == "app" + ['/'];
    SplitHead("app", '/', rest);
    if '/' !in appId {
      ThreeParts(appId, arch, branch);
      ConcatAssoc(["app"], [appId], [arch, branch]);
    }
  }

  lemma ThreeParts(a: string, b: string, c: string)
    requires '/' !in a && '/' !in b && '/' !in c
    ensures Split(a + "/" + b + "/" + c, '/') == [a, b, c]
  {
    hide Split;
    assert a + "/" + b + "/" + c == a + ['/'] + (b + ['/'] + c);
    SplitHead(a, '/', b + ['/'] + c);
    SplitHead(b, '/', c);
  }

  lemma FlatpakArchPlain(arch: Arch)
    ensures FlatpakArch(arch).Some? ==> '/' !in FlatpakArch(arch).value
  {
  }
}
