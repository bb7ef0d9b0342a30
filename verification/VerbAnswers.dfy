/** What each verb answers and runs, told from what the host says of the
    identifiers and from what the caller asks. */
module VerbAnswers {
  import opened Wrappers
  import opened Registry
  import opened Listing
  import opened Plan
  import opened Records
  import opened Host
  import opened Facade

  // ---------------------------------------------------------------------------
  // Foreign presence
  // ---------------------------------------------------------------------------

  function ForeignAs(backend: BackendId, status: BackendStatus): AppStatus {
    match status case Present(v) => Foreign(backend, v) case Absent => NotInstalled
  }

  /** Where an unrecorded app stands: a brew token is looked for as a formula and
      then as a cask; a distro package only on its own family; whatever a listing
      answers, by its row in the whole listing; the rest by their own row. A backend
      that is not there has nothing installed, and one that fails is an error. */
  lemma ForeignIs<H>(env: Env<H>, h: H, ids: NativeIds)
    ensures var r := ForeignStatus(env, h, ids);
            match ids
            case BrewIds(token, _) =>
              if Homebrew !in env.attached then r == Success(NotInstalled)
              else
                var formula, cask := env.brewVersion(h, false, token), env.brewVersion(h, true, token);
                && (formula.Failure? ==> r == Failure(formula.error))
                && (formula.Success? && formula.value.Some? ==> r == Success(Foreign(Homebrew, formula.value)))
                && (formula == Success(None) && cask.Failure? ==> r == Failure(cask.error))
                && (formula == Success(None) && cask.Success? ==>
                      r == Success(if cask.value.Some? then Foreign(Homebrew, cask.value) else NotInstalled))
            case DistroIds(package, family) =>
              if env.distro != Some(family) then r == Success(NotInstalled)
              else
                var row := env.row(h, Distro(family), package);
                r == if row.Failure? then Failure(row.error) else Success(ForeignAs(Distro(family), row.value))
            case SnapIds(name) =>
              if Snap !in env.attached then r == Success(NotInstalled)
              else
                var row := env.row(h, Snap, name);
                r == if row.Failure? then Failure(row.error) else Success(ForeignAs(Snap, row.value))
            case _ =>
              var backend := ids.Backend();
              if backend !in env.attached then r == Success(NotInstalled)
              else
                var rows := env.listing(h, backend);
                r == if rows.Failure? then Failure(rows.error)
                     else Success(ForeignAs(backend, StatusFromListing(rows.value, ids.NativeId())))
  {
    hide Restrict, StatusFromListing;
    if ListingBacked(ids.Backend()) && env.listing(h, ids.Backend()).Success? {
      StatusOfRestricted(env.listing(h, ids.Backend()).value, ids.NativeId());
    }
  }

  // ---------------------------------------------------------------------------
  // Ensure
  // ---------------------------------------------------------------------------

  /** An attached backend offers just this version for the app. */
  predicate OffersExactly<H>(env: Env<H>, h: H, app: App, v: Version) {
    && NativeIdsFor(app).Some?
    && Attached(env, NativeIdsFor(app).value.Backend())
    && env.offered(h, NativeIdsFor(app).value) == Success(Some(v))
  }

  /** The outcome is that of this plan: refused with its error; not run where its
      backend is missing, it leaves no identifiers, or a distro manager is not
      granted root; otherwise run once, and reported and recorded if it worked. */
  ghost predicate ByPlan<H>(env: Env<H>, s: State<H>, planned: Result<Plan, PlanError>, elevated: bool,
                            app: App, r: Answer<EnsureOutcome>, s': State<H>) {
    match planned
    case Failure(e) => r == Failure(PlanFailed(e)) && s' == s
    case Success(plan) =>
      if !Attached(env, plan.backend) then r == Failure(BackendUnavailable(plan.backend)) && s' == s
      else if NativeIdsFromExecuted(plan).None? then r == Failure(UnrecordableOperation) && s' == s
      else if plan.backend.Distro? && !elevated then r == Failure(BackendFailed(ElevationRequired)) && s' == s
      else
        var (answer, h) := env.install(s.host, plan);
        && s'.dispatched == s.dispatched + [Dispatch(plan, elevated)]
        && (answer.Failure? ==> r == Failure(BackendFailed(answer.error)) && s'.records == s.records && s'.host == h)
        && (answer.Success? ==>
              && r.Success? && r.value.NowInstalled? && app.id in s'.records
              && s'.records == s.records[app.id := s'.records[app.id]]
              && s'.records[app.id] == InstallRecord(plan.backend, NativeIdsFromExecuted(plan).value, r.value.version,
                                                     env.now(h), Some(plan)))
  }

  /** The plan an install runs by: for a requested version, the one that asks for
      exactly it, unless the app's backend offers just that version anyway; then,
      and without a request, the one that asks for none. */
  lemma InstallByRequest<H>(env: Env<H>, s: State<H>, app: App, opts: EnsureOptions)
    ensures var (r, s') := InstallStage(env, s, app, opts);
            && (opts.version.None? || OffersExactly(env, s.host, app, opts.version.value) ==>
                  ByPlan(env, s, PlanInstall(app, env.target, None), opts.elevated, app, r, s'))
            && (opts.version.Some? && !OffersExactly(env, s.host, app, opts.version.value) ==>
                  ByPlan(env, s, PlanInstall(app, env.target, opts.version), opts.elevated, app, r, s'))
  {
    hide PlanInstall, NativeIdsFromExecuted, Verification, WellRouted, NativeIdsFor, OffersExactly, VerifyWarning, ByPlan;
    RequestPlanned(env, s.host, app, opts.version);
    var version := VersionForPlan(env, s.host, app, opts.version);
    InstallByPlan(env, s, app, opts, version);
  }

  lemma RequestPlanned<H>(env: Env<H>, h: H, app: App, requested: Option<Version>)
    ensures VersionForPlan(env, h, app, requested)
            == if requested.Some? && OffersExactly(env, h, app, requested.value) then None else requested
  {
    hide NativeIdsFor;
  }

  lemma InstallByPlan<H>(env: Env<H>, s: State<H>, app: App, opts: EnsureOptions, version: Option<Version>)
    requires version == VersionForPlan(env, s.host, app, opts.version)
    ensures var (r, s') := InstallStage(env, s, app, opts);
            ByPlan(env, s, PlanInstall(app, env.target, version), opts.elevated, app, r, s')
  {
    hide PlanInstall, NativeIdsFromExecuted, Verification, RoutesTo, VersionForPlan, VerifyWarning;
    PlannedIsWellRouted(app, env.target, version);
    var planned := PlanInstall(app, env.target, version);
    if planned.Success? && NativeIdsFromExecuted(planned.value).Some? { ExecutedBackend(planned.value); }
  }

  /** So a version that is asked for and not on offer anyway is named by every
      command an ensure runs for it. */
  lemma EnsureNamesVersion<H>(env: Env<H>, s: State<H>, app: App, opts: EnsureOptions, cache: Cache)
    requires opts.version.Some? && !OffersExactly(env, s.host, app, opts.version.value)
    requires app.install.FlatpakMethod? ==> '/' !in app.install.appId
    ensures var s' := EnsureListed(env, s, app, opts, cache).1;
            s'.dispatched == s.dispatched
            || (|s'.dispatched| == |s.dispatched| + 1 && s'.dispatched[..|s.dispatched|] == s.dispatched
                && VersionNamed(s'.dispatched[|s.dispatched|].plan.operation) == opts.version)
  {
    hide InstallStage, StatusFor, ForeignFor, PlanInstall, VersionSatisfied, NativeIdsFromExecuted, OffersExactly, VersionNamed;
    InstallByRequest(env, s, app, opts);
    var planned := PlanInstall(app, env.target, opts.version);
    if planned.Success? { RequestedVersionIsNamed(app, env.target, opts.version.value); }
  }

  /** What a recorded app that is there must be for a request to be met: a flatpak
      ref of that branch, never a distro package, and otherwise the very version
      the host reports. */
  predicate Meets(ids: NativeIds, reported: Option<string>, requested: Option<Version>) {
    requested.None? || (
      if ids.FlatpakIds? then ids.appRef.Some? && RefBranch(ids.appRef.value) == requested
      else !ids.DistroIds? && reported == requested)
  }

  /** Which way an ensure goes. A recorded app is asked about under its recorded
      identifiers, and is present when the host has it and it meets the request; an
      unrecorded one under the registry's, and is present when the host has it and
      no version is asked for. A question the host cannot answer is an error.
      Everything else installs. */
  lemma EnsureDecides<H>(env: Env<H>, s: State<H>, app: App, opts: EnsureOptions)
    ensures var (r, s') := Ensure(env, s, app, opts);
            var installs := (r, s') == InstallStage(env, s, app, opts);
            if app.id in s.records then
              var ids := s.records[app.id].ids;
              match Probe(env, s.host, ids)
              case None => installs
              case Some(Failure(e)) => r == Failure(BackendFailed(e)) && s' == s
              case Some(Success(Absent)) => installs
              case Some(Success(Present(v))) =>
                if Meets(ids, v, opts.version) then r == Success(AlreadyPresent(Installed(ids.Backend(), v))) && s' == s
                else installs
            else if NativeIdsFor(app).None? then installs
            else
              match ForeignStatus(env, s.host, NativeIdsFor(app).value)
              case Failure(e) => r == Failure(BackendFailed(e)) && s' == s
              case Success(status) =>
                if status.Foreign? && opts.version.None? then r == Success(AlreadyPresent(status)) && s' == s
                else installs
  {
    hide InstallStage, RecordedStatus, ProbeIds, NativeIdsFor, ForeignStatus, CachedStatus;
    if app.id in s.records {
      RecordedStatusProbes(env, s.host, s.records[app.id]);
    } else if NativeIdsFor(app).Some? {
      NothingKeptYet(env, s.host, NativeIdsFor(app).value);
    }
  }

  lemma NothingKeptYet<H>(env: Env<H>, h: H, ids: NativeIds)
    ensures ForeignShared(env, h, ids, EMPTY_CACHE).0 == ForeignStatus(env, h, ids)
  {
    SharedIsSingle(env, h, ids, EMPTY_CACHE);
  }

  // ---------------------------------------------------------------------------
  // Update
  // ---------------------------------------------------------------------------

  /** What is installed under the identifiers, as an update asks. */
  function VersionThere<H>(env: Env<H>, h: H, ids: NativeIds): Option<Version> {
    match Probe(env, h, ids)
    case Some(Success(Present(v))) => v
    case _ => None
  }

  /** The outcome of running this upgrade: refused without the root a distro
      manager needs; otherwise run once, an error if it fails, and if it works the
      record holds what is installed now, and is saved. */
  ghost predicate ByUpgrade<H>(env: Env<H>, s: State<H>, id: TorideId, plan: Plan, from: Option<Version>, elevated: bool,
                               r: Answer<UpdateOutcome>, s': State<H>)
    requires id in s.records
  {
    if plan.backend.Distro? && !elevated then r == Failure(BackendFailed(ElevationRequired)) && s' == s
    else
      var (answer, h) := env.update(s.host, plan);
      && s'.dispatched == s.dispatched + [Dispatch(plan, elevated)]
      && (answer.Failure? ==> r == Failure(BackendFailed(answer.error)) && s'.records == s.records && s'.host == h)
      && (answer.Success? ==>
            var to := VersionThere(env, h, s.records[id].ids);
            && s'.records == s.records[id := s.records[id].(version := to)]
            && (r == Success(Updated(from, to)) || r == Failure(ManifestFailed)))
  }

  /** Which way an update goes, for a recorded app with a plan on an attached
      backend and no version asked for: an error where the host cannot tell what is
      installed; in a dry run what would be run, from which version to which.
      Otherwise, for brew and snap, up to date exactly when something is installed
      and the id is not among the stale ones, and for the rest exactly when what is
      installed is what is on offer; and in every other case the upgrade is run. */
  lemma UpdateDecides<H>(env: Env<H>, s: State<H>, id: TorideId, opts: UpdateOptions, plan: Plan)
    requires id in s.records && opts.target.None?
    requires UpdatePlanFromRecord(id, s.records[id]) == Some(plan) && Attached(env, plan.backend)
    ensures var (r, s') := UpdateById(env, s, id, opts);
            var ids := s.records[id].ids;
            var probe := ProbeIds(env, s.host, ids);
            var from := if probe.Success? && probe.value.Present? then probe.value.version else None;
            var upgrades := ByUpgrade(env, s, id, plan, from, opts.elevated, r, s');
            if probe.Failure? then r == Failure(BackendFailed(probe.error)) && s' == s
            else if opts.dryRun then
              var offer := env.offered(s.host, ids);
              s' == s && r == if offer.Failure? then Failure(BackendFailed(offer.error))
                              else Success(Preview(plan.operation, from, offer.value))
            else if ids.BrewIds? || ids.SnapIds? then
              if from.None? then upgrades
              else
                match env.stale(s.host, ids)
                case Failure(e) => r == Failure(BackendFailed(e)) && s' == s
                case Success(list) =>
                  if ids.NativeId() in list then upgrades else r == Success(UpToDate) && s' == s
            else
              match env.offered(s.host, ids)
              case Failure(e) => r == Failure(BackendFailed(e)) && s' == s
              case Success(offer) =>
                if from.Some? && offer == from then r == Success(UpToDate) && s' == s else upgrades
  {
    hide UpdatePlanFromRecord, ProbeIds, VerifyPresence, RoutesTo, ByUpgrade, ApplyUpdate;
    var ids := s.records[id].ids;
    ReplayedIsWellRouted(id, s.records[id], false);
    VerifyPresenceProbes(env, s.host, ids);
    var from := InstalledVersion(env, s.host, ids);
    if from.Success? { UpgradeApplied(env, s, id, plan, from.value, opts.elevated); }
  }

  lemma UpgradeApplied<H>(env: Env<H>, s: State<H>, id: TorideId, plan: Plan, from: Option<Version>, elevated: bool)
    requires id in s.records && WellRouted(plan)
    ensures var (r, s') := ApplyUpdate(env, s, id, s.records[id], plan, from, elevated);
            ByUpgrade(env, s, id, plan, from, elevated, r, s')
            && (r != Success(UpToDate))
  {
    hide ProbeIds, VerifyPresence, RoutesTo;
    VerifyPresenceProbes(env, env.update(s.host, plan).1, s.records[id].ids);
  }

  /** The updates that do not get that far, and change nothing. */
  lemma UpdateRefusals<H>(env: Env<H>, s: State<H>, id: TorideId, opts: UpdateOptions)
    ensures var (r, s') := UpdateById(env, s, id, opts);
            && (opts.target.Some? ==> r == Failure(UpdateTargetNotPinnable) && s' == s)
            && (opts.target.None? && id !in s.records ==> r == Failure(UnrecordedUpdate) && s' == s)
            && (opts.target.None? && id in s.records ==>
                  match UpdatePlanFromRecord(id, s.records[id])
                  case None => r == Failure(UnrecordableOperation) && s' == s
                  case Some(plan) => !Attached(env, plan.backend) ==> r == Failure(BackendUnavailable(plan.backend)) && s' == s)
  {
    hide UpdatePlanFromRecord, InstalledVersion, IsCurrent, ApplyUpdate;
  }

  // ---------------------------------------------------------------------------
  // Uninstall
  // ---------------------------------------------------------------------------

  /** What the warnings of a removal say of the host after it. */
  ghost predicate WarnsOf<H>(env: Env<H>, h: H, ids: NativeIds, warnings: seq<Warning>) {
    var probe := Probe(env, h, ids);
    && (StillPresent in warnings <==> probe.Some? && probe.value.Success? && probe.value.value.Present?)
    && (VerifyFailed in warnings <==> probe.None? || probe.value.Failure?)
    && NoLongerReported !in warnings
  }

  /** Which way the removal of a recorded app goes, and that the record goes with
      it exactly when the command works. */
  lemma UninstallDecides<H>(env: Env<H>, s: State<H>, id: TorideId, opts: UninstallOptions)
    ensures var (r, s') := UninstallById(env, s, id, opts);
            if id !in s.records then r == Failure(BlockingResolveRequired) && s' == s
            else
              var record := s.records[id];
              match UninstallPlanFromRecord(id, record, opts.zap)
              case None => r == Failure(UnrecordableOperation) && s' == s
              case Some(plan) =>
                if !Attached(env, plan.backend) then r == Failure(BackendUnavailable(plan.backend)) && s' == s
                else if plan.backend.Distro? && !opts.elevated then r == Failure(BackendFailed(ElevationRequired)) && s' == s
                else
                  var (answer, h) := env.uninstall(s.host, plan);
                  && s'.dispatched == s.dispatched + [Dispatch(plan, opts.elevated)]
                  && (answer.Failure? ==> r == Failure(BackendFailed(answer.error)) && s'.records == s.records)
                  && (answer.Success? ==>
                        && s'.records == s.records - {id}
                        && r.Success? && r.value.Removed? && r.value.backend == record.backend && r.value.ids == record.ids
                        && WarnsOf(env, h, record.ids, r.value.warnings))
  {
    hide UninstallPlanFromRecord, ProbeIds, VerifyPresence, RoutesTo;
    if id in s.records {
      var record := s.records[id];
      ReplayedIsWellRouted(id, record, opts.zap);
      var plan := UninstallPlanFromRecord(id, record, opts.zap);
      if plan.Some? { VerifyPresenceProbes(env, env.uninstall(s.host, plan.value).1, record.ids); }
    }
  }

  /** Which way the removal of an unrecorded app goes: nothing there is no error,
      something there needs force, and no record or save is made of it. */
  lemma UninstallAppDecides<H>(env: Env<H>, s: State<H>, app: App, opts: UninstallOptions)
    ensures var (r, s') := UninstallApp(env, s, app, opts);
            match PlanUninstall(app, env.target, opts.zap)
            case Failure(e) => r == Failure(PlanFailed(e)) && s' == s
            case Success(plan) =>
              && NativeIdsFor(app).Some?
              && var ids := NativeIdsFor(app).value;
                 match ForeignStatus(env, s.host, ids)
                 case Failure(e) => r == Failure(BackendFailed(e)) && s' == s
                 case Success(status) =>
                   if !status.Foreign? then r == Success(AlreadyAbsent) && s' == s
                   else if !opts.force then r == Failure(ForeignNotManaged) && s' == s
                   else if plan.backend.Distro? && !opts.elevated then r == Failure(BackendFailed(ElevationRequired)) && s' == s
                   else
                     var (answer, h) := env.uninstall(s.host, plan);
                     && s' == s.(host := h, dispatched := s.dispatched + [Dispatch(plan, opts.elevated)])
                     && (answer.Failure? ==> r == Failure(BackendFailed(answer.error)))
                     && (answer.Success? ==>
                           && r.Success? && r.value.Removed? && r.value.backend == plan.backend && r.value.ids == ids
                           && WarnsOf(env, h, ids, r.value.warnings) && SaveFailed !in r.value.warnings)
  {
    hide PlanUninstall, ProbeIds, VerifyPresence, StatusOf, NativeIdsFor, RoutesTo;
    var planned := PlanUninstall(app, env.target, opts.zap);
    PlannedUninstallIsWellRouted(app, env.target, opts.zap);
    if planned.Success? && NativeIdsFor(app).Some? {
      VerifyPresenceProbes(env, env.uninstall(s.host, planned.value).1, NativeIdsFor(app).value);
    }
  }

  // ---------------------------------------------------------------------------
  // Adopt
  // ---------------------------------------------------------------------------

  /** Which way a claim goes, and what it records: the given identifiers at the
      version the host reports, at the time given or else now, with no plan. */
  lemma AdoptDecides<H>(env: Env<H>, s: State<H>, id: TorideId, ids: NativeIds, installedAt: Option<nat>)
    ensures var (r, s') := AdoptById(env, s, id, ids, installedAt);
            if id in s.records then r == Failure(AlreadyRecorded) && s' == s
            else
              match Probe(env, s.host, ids)
              case None => r == Failure(BackendUnavailable(ids.Backend())) && s' == s
              case Some(Failure(e)) => r == Failure(BackendFailed(e)) && s' == s
              case Some(Success(Absent)) => r == Failure(AdoptionAbsent) && s' == s
              case Some(Success(Present(v))) =>
                var at := if installedAt.Some? then installedAt.value else env.now(s.host);
                var record := InstallRecord(ids.Backend(), ids, v, at, None);
                var (saved, h) := env.save(s.host, s.records[id := record]);
                if saved then r == Success(record) && s' == State(s.records[id := record], s.records[id := record], h, s.dispatched)
                else r == Failure(ManifestFailed) && s' == s.(host := h)
  {
    hide VerifyPresence, ProbeIds;
    VerifyPresenceProbes(env, s.host, ids);
    var probe := Probe(env, s.host, ids);
    if id !in s.records && probe.Some? && probe.value.Success? && probe.value.value.Present? {
      var at := if installedAt.Some? then installedAt.value else env.now(s.host);
      ClaimUndone(s.records, id, InstallRecord(ids.Backend(), ids, probe.value.value.version, at, None));
    }
  }

  lemma ClaimUndone(records: Ledger, id: TorideId, record: InstallRecord)
    requires id !in records
    ensures records[id := record] - {id} == records
  {
  }
}
