/** The lifecycle facade on the calling thread: probe, plan, execute, verify,
    record and save, each verb with its own rule for what fails. */
module Facade {
  import opened Wrappers
  import opened Registry
  import opened Listing
  import opened Plan
  import opened Records
  import opened Host
  import Text

  /** One manager command that was let run, and whether root was granted. */
  datatype Dispatch = Dispatch(plan: Plan, elevated: bool)

  /** The working ledger, the ledger as last saved or loaded, the host, and every
      manager command run so far. */
  datatype State<H> = State(records: Ledger, durable: Ledger, host: H, dispatched: seq<Dispatch>)

  datatype Warning = NoLongerReported | VerifyFailed | StillPresent | SaveFailed

  datatype EnsureOptions = EnsureOptions(elevated: bool, version: Option<Version>)

  datatype EnsureOutcome =
    | AlreadyPresent(status: AppStatus)
    | NowInstalled(backend: BackendId, version: Option<string>, ids: NativeIds, verified: bool, warnings: seq<Warning>)

  datatype UninstallOptions = UninstallOptions(zap: bool, elevated: bool, force: bool)

  datatype UninstallOutcome =
    | Removed(backend: BackendId, ids: NativeIds, warnings: seq<Warning>)
    | AlreadyAbsent

  datatype UpdateOptions = UpdateOptions(elevated: bool, dryRun: bool, target: Option<Version>)

  datatype UpdateOutcome =
    | Preview(operation: Operation, from: Option<Version>, to: Option<Version>)
    | UpToDate
    | Updated(from: Option<Version>, to: Option<Version>)

  type Answer<+T> = Result<T, AppsError>

  // ---------------------------------------------------------------------------
  // Shared steps
  // ---------------------------------------------------------------------------

  /** The guard every backend runs first. */
  function Refusal(plan: Plan, elevated: bool): Option<BackendError> {
    if plan.dryRun then Some(DryRun)
    else if plan.requiresElevation && !elevated then Some(ElevationRequired)
    else None
  }

  function Execute<H, T>(run: (H, Plan) -> (Probed<T>, H), s: State<H>, plan: Plan, elevated: bool): (Probed<T>, State<H>) {
    match Refusal(plan, elevated)
    case Some(e) => (Failure(e), s)
    case None =>
      var (r, h) := run(s.host, plan);
      (r, s.(host := h, dispatched := s.dispatched + [Dispatch(plan, elevated)]))
  }

  /** Save the working ledger: the durable one becomes it, or stays. */
  function Persist<H>(env: Env<H>, s: State<H>): (bool, State<H>) {
    var (ok, h) := env.save(s.host, s.records);
    (ok, s.(host := h, durable := if ok then s.records else s.durable))
  }

  /** No version is pinned when the backend's own offer is the one requested. */
  function VersionForPlan<H>(env: Env<H>, h: H, app: App, requested: Option<Version>): Option<Version> {
    if requested.None? then None
    else match NativeIdsFor(app)
      case None => requested
      case Some(ids) =>
        if Attached(env, ids.Backend()) && env.offered(h, ids) == Success(requested) then None else requested
  }

  // ---------------------------------------------------------------------------
  // Ensure
  // ---------------------------------------------------------------------------

  function Verification<H>(env: Env<H>, h: H, ids: NativeIds, reported: Option<string>): Answer<BackendStatus> {
    if reported.Some? then Success(Present(reported)) else VerifyPresence(env, h, ids)
  }

  function VerifyWarning(v: Answer<BackendStatus>): seq<Warning> {
    match v
    case Success(Present(_)) => []
    case Success(Absent) => [NoLongerReported]
    case Failure(_) => [VerifyFailed]
  }

  function RecordInstall<H>(env: Env<H>, s: State<H>, plan: Plan, ids: NativeIds, reported: Option<string>): (Answer<EnsureOutcome>, State<H>) {
    var verification := Verification(env, s.host, ids, reported);
    var verified := verification.Success? && verification.value.Present?;
    var seen := if verified then verification.value.version else None;
    var version := if seen.Some? then seen else reported;
    var (ok, s') := Persist(env, s.(records := s.records[plan.app := NewRecord(plan, ids, version, env.now(s.host))]));
    (Success(NowInstalled(ids.Backend(), version, ids, verified, VerifyWarning(verification) + if ok then [] else [SaveFailed])), s')
  }

  function InstallStage<H>(env: Env<H>, s: State<H>, app: App, opts: EnsureOptions): (Answer<EnsureOutcome>, State<H>) {
    match PlanInstall(app, env.target, VersionForPlan(env, s.host, app, opts.version))
    case Failure(e) => (Failure(PlanFailed(e)), s)
    case Success(plan) =>
      if !Attached(env, plan.backend) then (Failure(BackendUnavailable(plan.backend)), s)
      else match NativeIdsFromExecuted(plan)
        case None => (Failure(UnrecordableOperation), s)
        case Some(ids) =>
          var (r, s1) := Execute(env.install, s, plan, opts.elevated);
          match r
          case Failure(e) => (Failure(BackendFailed(e)), s1)
          case Success(reported) => RecordInstall(env, s1, plan, ids, reported)
  }

  function StatusFor<H>(env: Env<H>, s: State<H>, id: TorideId): Probed<AppStatus> {
    if id in s.records then RecordedStatus(env, s.host, s.records[id]) else Success(NotInstalled)
  }

  function ForeignFor<H>(env: Env<H>, h: H, app: App, cache: Cache): (Probed<AppStatus>, Cache) {
    match NativeIdsFor(app)
    case None => (Success(NotInstalled), cache)
    case Some(ids) => ForeignShared(env, h, ids, cache)
  }

  /** Ensure over a shared listing cache. */
  function EnsureListed<H>(env: Env<H>, s: State<H>, app: App, opts: EnsureOptions, cache: Cache)
    : (Answer<EnsureOutcome>, State<H>, Cache)
  {
    match StatusFor(env, s, app.id)
    case Failure(e) => (Failure(BackendFailed(e)), s, cache)
    case Success(recorded) =>
      if app.id in s.records then
        if recorded.Installed? && VersionSatisfied(s.records[app.id].ids, recorded, opts.version)
        then (Success(AlreadyPresent(recorded)), s, cache)
        else
          var (r, s') := InstallStage(env, s, app, opts);
          (r, s', cache)
      else
        var (status, cache') := ForeignFor(env, s.host, app, cache);
        match status
        case Failure(e) => (Failure(BackendFailed(e)), s, cache')
        case Success(st) =>
          if st.Foreign? && opts.version.None? then (Success(AlreadyPresent(st)), s, cache')
          else
            var (r, s') := InstallStage(env, s, app, opts);
            (r, s', cache')
  }

  /** The single verb: a cache of its own. */
  function Ensure<H>(env: Env<H>, s: State<H>, app: App, opts: EnsureOptions): (Answer<EnsureOutcome>, State<H>) {
    var (r, s', _) := EnsureListed(env, s, app, opts, EMPTY_CACHE);
    (r, s')
  }

  datatype BatchOutcome<+T> = BatchOutcome(id: TorideId, result: Answer<T>)

  /** The batch verb: one cache for all, every item attempted. */
  function EnsureMany<H>(env: Env<H>, s: State<H>, apps: seq<App>, opts: EnsureOptions, cache: Cache)
    : (seq<BatchOutcome<EnsureOutcome>>, State<H>, Cache)
    decreases |apps|
  {
    if apps == [] then ([], s, cache)
    else
      var (r, s1, c1) := EnsureListed(env, s, apps[0], opts, cache);
      var (rest, s2, c2) := EnsureMany(env, s1, apps[1..], opts, c1);
      ([BatchOutcome(apps[0].id, r)] + rest, s2, c2)
  }

  /** The single verb on each item in turn. */
  function EnsureEach<H>(env: Env<H>, s: State<H>, apps: seq<App>, opts: EnsureOptions)
    : (seq<BatchOutcome<EnsureOutcome>>, State<H>)
    decreases |apps|
  {
    if apps == [] then ([], s)
    else
      var (r, s1) := Ensure(env, s, apps[0], opts);
      var (rest, s2) := EnsureEach(env, s1, apps[1..], opts);
      ([BatchOutcome(apps[0].id, r)] + rest, s2)
  }

  // ---------------------------------------------------------------------------
  // Uninstall
  // ---------------------------------------------------------------------------

  function AbsenceWarning(v: Answer<BackendStatus>): seq<Warning> {
    match v
    case Success(Absent) => []
    case Success(Present(_)) => [StillPresent]
    case Failure(_) => [VerifyFailed]
  }

  function UninstallById<H>(env: Env<H>, s: State<H>, id: TorideId, opts: UninstallOptions): (Answer<UninstallOutcome>, State<H>) {
    if id !in s.records then (Failure(BlockingResolveRequired), s)
    else
      var record := s.records[id];
      match UninstallPlanFromRecord(id, record, opts.zap)
      case None => (Failure(UnrecordableOperation), s)
      case Some(plan) =>
        if !Attached(env, plan.backend) then (Failure(BackendUnavailable(plan.backend)), s)
        else
          var (r, s1) := Execute(env.uninstall, s, plan, opts.elevated);
          match r
          case Failure(e) => (Failure(BackendFailed(e)), s1)
          case Success(_) =>
            var warnings := AbsenceWarning(VerifyPresence(env, s1.host, record.ids));
            var (ok, s2) := Persist(env, s1.(records := s1.records - {id}));
            (Success(Removed(record.backend, record.ids, warnings + if ok then [] else [SaveFailed])), s2)
  }

  /** Removing an app toride has no record of; nothing is recorded or saved. */
  function UninstallApp<H>(env: Env<H>, s: State<H>, app: App, opts: UninstallOptions): (Answer<UninstallOutcome>, State<H>) {
    match PlanUninstall(app, env.target, opts.zap)
    case Failure(e) => (Failure(PlanFailed(e)), s)
    case Success(plan) =>
      match NativeIdsFor(app)
      case None => (Failure(UnrecordableOperation), s)
      case Some(ids) =>
        match ForeignStatus(env, s.host, ids)
        case Failure(e) => (Failure(BackendFailed(e)), s)
        case Success(status) =>
          if status.NotInstalled? then (Success(AlreadyAbsent), s)
          else if !opts.force then (Failure(ForeignNotManaged), s)
          else if !Attached(env, plan.backend) then (Failure(BackendUnavailable(plan.backend)), s)
          else
            var (r, s1) := Execute(env.uninstall, s, plan, opts.elevated);
            match r
            case Failure(e) => (Failure(BackendFailed(e)), s1)
            case Success(_) =>
              (Success(Removed(plan.backend, ids, AbsenceWarning(VerifyPresence(env, s1.host, ids)))), s1)
  }

  // ---------------------------------------------------------------------------
  // Update
  // ---------------------------------------------------------------------------

  function InstalledVersion<H>(env: Env<H>, h: H, ids: NativeIds): Answer<Option<Version>> {
    match VerifyPresence(env, h, ids)
    case Failure(e) => Failure(e)
    case Success(Present(v)) => Success(v)
    case Success(Absent) => Success(None)
  }

  /** Brew and snap answer by their stale signal, and only for something
      installed; the rest compare with the backend's offer. */
  function IsCurrent<H>(env: Env<H>, h: H, ids: NativeIds, from: Option<Version>): Answer<bool> {
    if ids.BrewIds? || ids.SnapIds? then
      if from.None? then Success(false)
      else match env.stale(h, ids)
        case Failure(e) => Failure(BackendFailed(e))
        case Success(stale) => Success(ids.NativeId() !in stale)
    else match env.offered(h, ids)
      case Failure(e) => Failure(BackendFailed(e))
      case Success(to) => Success(from.Some? && from == to)
  }

  function ApplyUpdate<H>(env: Env<H>, s: State<H>, id: TorideId, record: InstallRecord, plan: Plan,
                          from: Option<Version>, elevated: bool): (Answer<UpdateOutcome>, State<H>) {
    var (r, s1) := Execute(env.update, s, plan, elevated);
    match r
    case Failure(e) => (Failure(BackendFailed(e)), s1)
    case Success(_) =>
      var seen := InstalledVersion(env, s1.host, record.ids);
      var to := if seen.Success? then seen.value else None;
      var (ok, s2) := Persist(env, s1.(records := s1.records[id := record.(version := to)]));
      (if ok then Success(Updated(from, to)) else Failure(ManifestFailed), s2)
  }

  function UpdateById<H>(env: Env<H>, s: State<H>, id: TorideId, opts: UpdateOptions): (Answer<UpdateOutcome>, State<H>) {
    if opts.target.Some? then (Failure(UpdateTargetNotPinnable), s)
    else if id !in s.records then (Failure(UnrecordedUpdate), s)
    else
      var record := s.records[id];
      match UpdatePlanFromRecord(id, record)
      case None => (Failure(UnrecordableOperation), s)
      case Some(plan) =>
        if !Attached(env, plan.backend) then (Failure(BackendUnavailable(plan.backend)), s)
        else match InstalledVersion(env, s.host, record.ids)
          case Failure(e) => (Failure(e), s)
          case Success(from) =>
            if opts.dryRun then
              match env.offered(s.host, record.ids)
              case Failure(e) => (Failure(BackendFailed(e)), s)
              case Success(to) => (Success(Preview(plan.operation, from, to)), s)
            else match IsCurrent(env, s.host, record.ids, from)
              case Failure(e) => (Failure(e), s)
              case Success(current) =>
                if current then (Success(UpToDate), s)
                else ApplyUpdate(env, s, id, record, plan, from, opts.elevated)
  }

  // ---------------------------------------------------------------------------
  // Adopt
  // ---------------------------------------------------------------------------

  /** Claim an unrecorded install; a failing save takes the claim back. */
  function AdoptById<H>(env: Env<H>, s: State<H>, id: TorideId, ids: NativeIds, installedAt: Option<nat>): (Answer<InstallRecord>, State<H>) {
    if id in s.records then (Failure(AlreadyRecorded), s)
    else match VerifyPresence(env, s.host, ids)
      case Failure(e) => (Failure(e), s)
      case Success(Absent) => (Failure(AdoptionAbsent), s)
      case Success(Present(version)) =>
        var record := AdoptedRecord(ids, version, if installedAt.Some? then installedAt.value else env.now(s.host));
        var (ok, s') := Persist(env, s.(records := s.records[id := record]));
        if ok then (Success(record), s') else (Failure(ManifestFailed), s'.(records := s'.records - {id}))
  }

  // ---------------------------------------------------------------------------
  // The facade
  // ---------------------------------------------------------------------------

  class AppsBlocking<H(!new)> {
    const env: Env<H>
    var records: Ledger
    var durable: Ledger
    var host: H
    var dispatched: seq<Dispatch>

    /** Built from a store load: both ledgers are what the store answered. */
    constructor (env: Env<H>, loaded: Ledger, host: H)
      ensures this.env == env && Now() == State(loaded, loaded, host, [])
    {
      this.env, this.host := env, host;
      records, durable, dispatched := loaded, loaded, [];
    }

    function Now(): State<H>
      reads this
    {
      State(records, durable, host, dispatched)
    }

    method SaveRecords() returns (ok: bool)
      modifies this`host, this`durable
      ensures (ok, Now()) == Persist(env, old(Now()))
    {
      var r := env.save(host, records);
      ok, host := r.0, r.1;
      if ok { durable := records; }
    }

    method RunCommand<T>(run: (H, Plan) -> (Probed<T>, H), plan: Plan, elevated: bool) returns (r: Probed<T>)
      modifies this`host, this`dispatched
      ensures (r, Now()) == Execute(run, old(Now()), plan, elevated)
    {
      var refusal := Refusal(plan, elevated);
      if refusal.Some? { return Failure(refusal.value); }
      var answer := run(host, plan);
      dispatched := dispatched + [Dispatch(plan, elevated)];
      host := answer.1;
      return answer.0;
    }

    method EnsureInstalledListed(app: App, opts: EnsureOptions, listings: ForeignListings) returns (r: Answer<EnsureOutcome>)
      modifies this, listings
      ensures (r, Now(), listings.View()) == EnsureListed(env, old(Now()), app, opts, old(listings.View()))
    {
      hide PlanInstall, NativeIdsFromExecuted, VersionSatisfied, RecordedStatus, Verification, NativeIdsFor;
      var id := app.id;
      var recorded := StatusFor(env, Now(), id);
      if recorded.Failure? { return Failure(BackendFailed(recorded.error)); }
      if recorded.value.Installed? && id in records {
        if VersionSatisfied(records[id].ids, recorded.value, opts.version) {
          return Success(AlreadyPresent(recorded.value));
        }
      }
      if id !in records {
        var native := NativeIdsFor(app);
        var status: Probed<AppStatus> := Success(NotInstalled);
        if native.Some? { status := listings.ForeignStatusShared(env, host, native.value); }
        if status.Failure? { return Failure(BackendFailed(status.error)); }
        if status.value.Foreign? && opts.version.None? { return Success(AlreadyPresent(status.value)); }
      }
      r := Install(app, opts);
    }

    /** Plan, execute, verify, record, save. */
    method Install(app: App, opts: EnsureOptions) returns (r: Answer<EnsureOutcome>)
      modifies this
      ensures (r, Now()) == InstallStage(env, old(Now()), app, opts)
    {
      hide PlanInstall, NativeIdsFromExecuted, VerifyPresence;
      var planned := PlanInstall(app, env.target, VersionForPlan(env, host, app, opts.version));
      if planned.Failure? { return Failure(PlanFailed(planned.error)); }
      var plan := planned.value;
      if !Attached(env, plan.backend) { return Failure(BackendUnavailable(plan.backend)); }
      var executed := NativeIdsFromExecuted(plan);
      if executed.None? { return Failure(UnrecordableOperation); }
      var ids := executed.value;
      var outcome := RunCommand(env.install, plan, opts.elevated);
      if outcome.Failure? { return Failure(BackendFailed(outcome.error)); }
      var verification := Verification(env, host, ids, outcome.value);
      var verified := verification.Success? && verification.value.Present?;
      var warnings := VerifyWarning(verification);
      var version := if verified && verification.value.version.Some? then verification.value.version else outcome.value;
      records := records[plan.app := NewRecord(plan, ids, version, env.now(host))];
      var saved := SaveRecords();
      if !saved { warnings := warnings + [SaveFailed]; }
      assert warnings == VerifyWarning(verification) + if saved then [] else [SaveFailed];
      return Success(NowInstalled(ids.Backend(), version, ids, verified, warnings));
    }

    method EnsureInstalled(app: App, opts: EnsureOptions) returns (r: Answer<EnsureOutcome>)
      modifies this
      ensures (r, Now()) == Ensure(env, old(Now()), app, opts)
    {
      hide EnsureListed;
      var listings := new ForeignListings();
      r := EnsureInstalledListed(app, opts, listings);
    }

    method EnsureInstalledMany(apps: seq<App>, opts: EnsureOptions) returns (outcomes: seq<BatchOutcome<EnsureOutcome>>, ghost cache: Cache)
      modifies this
      ensures (outcomes, Now(), cache) == EnsureMany(env, old(Now()), apps, opts, EMPTY_CACHE)
    {
      hide EnsureListed;
      var listings := new ForeignListings();
      outcomes := [];
      ghost var s0 := Now();
      assert apps[0..] == apps;
      assert [] + EnsureMany(env, s0, apps, opts, EMPTY_CACHE).0 == EnsureMany(env, s0, apps, opts, EMPTY_CACHE).0;
      for i := 0 to |apps|
        invariant fresh(listings)
        invariant var rest := EnsureMany(env, Now(), apps[i..], opts, listings.View());
                  EnsureMany(env, s0, apps, opts, EMPTY_CACHE) == (outcomes + rest.0, rest.1, rest.2)
      {
        assert apps[i..][0] == apps[i] && apps[i..][1..] == apps[i + 1..];
        var result := EnsureInstalledListed(apps[i], opts, listings);
        Text.ConcatAssoc(outcomes, [BatchOutcome(apps[i].id, result)], EnsureMany(env, Now(), apps[i + 1..], opts, listings.View()).0);
        outcomes := outcomes + [BatchOutcome(apps[i].id, result)];
      }
      assert outcomes + [] == outcomes;
      cache := listings.View();
    }

    method UninstallRecorded(id: TorideId, opts: UninstallOptions) returns (r: Answer<UninstallOutcome>)
      modifies this
      ensures (r, Now()) == UninstallById(env, old(Now()), id, opts)
    {
      hide UninstallPlanFromRecord, VerifyPresence;
      if id !in records { return Failure(BlockingResolveRequired); }
      var record := records[id];
      var plan := UninstallPlanFromRecord(id, record, opts.zap);
      if plan.None? { return Failure(UnrecordableOperation); }
      if !Attached(env, plan.value.backend) { return Failure(BackendUnavailable(plan.value.backend)); }
      var outcome := RunCommand(env.uninstall, plan.value, opts.elevated);
      if outcome.Failure? { return Failure(BackendFailed(outcome.error)); }
      var warnings := AbsenceWarning(VerifyPresence(env, host, record.ids));
      ghost var found := warnings;
      records := records - {id};
      var saved := SaveRecords();
      if !saved { warnings := warnings + [SaveFailed]; }
      assert warnings == found + if saved then [] else [SaveFailed];
      return Success(Removed(record.backend, record.ids, warnings));
    }

    method UninstallUnrecorded(app: App, opts: UninstallOptions) returns (r: Answer<UninstallOutcome>)
      modifies this
      ensures (r, Now()) == UninstallApp(env, old(Now()), app, opts)
    {
      hide PlanUninstall, VerifyPresence, ForeignStatus, NativeIdsFor;
      var planned := PlanUninstall(app, env.target, opts.zap);
      if planned.Failure? { return Failure(PlanFailed(planned.error)); }
      var plan := planned.value;
      var native := NativeIdsFor(app);
      if native.None? { return Failure(UnrecordableOperation); }
      var status := ForeignStatus(env, host, native.value);
      if status.Failure? { return Failure(BackendFailed(status.error)); }
      if status.value.NotInstalled? { return Success(AlreadyAbsent); }
      if !opts.force { return Failure(ForeignNotManaged); }
      if !Attached(env, plan.backend) { return Failure(BackendUnavailable(plan.backend)); }
      var outcome := RunCommand(env.uninstall, plan, opts.elevated);
      if outcome.Failure? { return Failure(BackendFailed(outcome.error)); }
      var warnings := AbsenceWarning(VerifyPresence(env, host, native.value));
      return Success(Removed(plan.backend, native.value, warnings));
    }

    method UpdateRecorded(id: TorideId, opts: UpdateOptions) returns (r: Answer<UpdateOutcome>)
      modifies this
      ensures (r, Now()) == UpdateById(env, old(Now()), id, opts)
    {
      hide UpdatePlanFromRecord, InstalledVersion, IsCurrent;
      if opts.target.Some? { return Failure(UpdateTargetNotPinnable); }
      if id !in records { return Failure(UnrecordedUpdate); }
      var record := records[id];
      var plan := UpdatePlanFromRecord(id, record);
      if plan.None? { return Failure(UnrecordableOperation); }
      if !Attached(env, plan.value.backend) { return Failure(BackendUnavailable(plan.value.backend)); }
      var from := InstalledVersion(env, host, record.ids);
      if from.Failure? { return Failure(from.error); }
      if opts.dryRun {
        var offered := env.offered(host, record.ids);
        if offered.Failure? { return Failure(BackendFailed(offered.error)); }
        return Success(Preview(plan.value.operation, from.value, offered.value));
      }
      var current := IsCurrent(env, host, record.ids, from.value);
      if current.Failure? { return Failure(current.error); }
      if current.value { return Success(UpToDate); }
      var outcome := RunCommand(env.update, plan.value, opts.elevated);
      if outcome.Failure? { return Failure(BackendFailed(outcome.error)); }
      var seen := InstalledVersion(env, host, record.ids);
      var to := if seen.Success? then seen.value else None;
      records := records[id := record.(version := to)];
      var saved := SaveRecords();
      if !saved { return Failure(ManifestFailed); }
      return Success(Updated(from.value, to));
    }

    method AdoptInstall(id: TorideId, ids: NativeIds, installedAt: Option<nat>) returns (r: Answer<InstallRecord>)
      modifies this
      ensures (r, Now()) == AdoptById(env, old(Now()), id, ids, installedAt)
    {
      hide VerifyPresence;
      if id in records { return Failure(AlreadyRecorded); }
      var presence := VerifyPresence(env, host, ids);
      if presence.Failure? { return Failure(presence.error); }
      if presence.value.Absent? { return Failure(AdoptionAbsent); }
      var record := AdoptedRecord(ids, presence.value.version, env.now(host));
      if installedAt.Some? { record := record.(installedAt := installedAt.value); }
      records := records[id := record];
      var saved := SaveRecords();
      if !saved {
        records := records - {id};
        return Failure(ManifestFailed);
      }
      return Success(record);
    }
  }
}
