/** What every run of the verbs keeps: how far the working ledger may be from the
    durable one, what records and commands look like, and what repeats and
    reversals give. */
module LedgerLaws {
  import opened Wrappers
  import opened Registry
  import opened Listing
  import opened Plan
  import opened Records
  import opened Host
  import opened Facade
  import Text

  // ---------------------------------------------------------------------------
  // Runs
  // ---------------------------------------------------------------------------

  /** One verb on one app. An ensure starts from the listings kept so far: none
      for the single verb, those of the items before it in a batch. */
  datatype Verb =
    | DoEnsure(app: App, ensure: EnsureOptions, cache: Cache)
    | DoUninstall(id: TorideId, uninstall: UninstallOptions)
    | DoUninstallApp(app: App, uninstall: UninstallOptions)
    | DoUpdate(id: TorideId, update: UpdateOptions)
    | DoAdopt(id: TorideId, ids: NativeIds, installedAt: Option<nat>)

  datatype Outcome =
    | Ensured(ensured: Answer<EnsureOutcome>)
    | Uninstalled(uninstalled: Answer<UninstallOutcome>)
    | UninstalledApp(uninstalled: Answer<UninstallOutcome>)
    | DidUpdate(updated: Answer<UpdateOutcome>)
    | Adopted(adopted: Answer<InstallRecord>)

  function Step<H>(env: Env<H>, s: State<H>, v: Verb): (Outcome, State<H>) {
    match v
    case DoEnsure(app, opts, cache) => var (r, s', _) := EnsureListed(env, s, app, opts, cache); (Ensured(r), s')
    case DoUninstall(id, opts) => var (r, s') := UninstallById(env, s, id, opts); (Uninstalled(r), s')
    case DoUninstallApp(app, opts) => var (r, s') := UninstallApp(env, s, app, opts); (UninstalledApp(r), s')
    case DoUpdate(id, opts) => var (r, s') := UpdateById(env, s, id, opts); (DidUpdate(r), s')
    case DoAdopt(id, ids, installedAt) => var (r, s') := AdoptById(env, s, id, ids, installedAt); (Adopted(r), s')
  }

  function Run<H>(env: Env<H>, s: State<H>, verbs: seq<Verb>): (seq<Outcome>, State<H>)
    decreases |verbs|
  {
    if verbs == [] then ([], s)
    else
      var n := |verbs| - 1;
      var (outcomes, s1) := Run(env, s, verbs[..n]);
      var (o, s2) := Step(env, s1, verbs[n]);
      (outcomes + [o], s2)
  }

  lemma {:induction false} OneOutcomeEach<H>(env: Env<H>, s: State<H>, verbs: seq<Verb>)
    ensures |Run(env, s, verbs).0| == |verbs|
    decreases |verbs|
  {
    if verbs != [] { OneOutcomeEach(env, s, verbs[..|verbs| - 1]); }
  }

  lemma {:induction false} RunInParts<H>(env: Env<H>, s: State<H>, a: seq<Verb>, b: seq<Verb>)
    ensures var (first, s1) := Run(env, s, a);
            var (second, s2) := Run(env, s1, b);
            Run(env, s, a + b) == (first + second, s2)
    decreases |b|
  {
    hide Step;
    if b == [] {
      assert a + b == a;
      assert Run(env, s, a).0 + [] == Run(env, s, a).0;
    } else {
      var n := |b| - 1;
      assert (a + b)[..|a + b| - 1] == a + b[..n] && (a + b)[|a + b| - 1] == b[n];
      RunInParts(env, s, a, b[..n]);
      var (first, s1) := Run(env, s, a);
      var (second, s2) := Run(env, s1, b[..n]);
      Text.ConcatAssoc(first, second, [Step(env, s2, b[n]).0]);
    }
  }

  /** A batch as verbs, each starting from what the ones before it have kept. */
  function BatchVerbs<H>(env: Env<H>, s: State<H>, apps: seq<App>, opts: EnsureOptions, cache: Cache): seq<Verb>
    decreases |apps|
  {
    if apps == [] then []
    else
      var (_, s1, c1) := EnsureListed(env, s, apps[0], opts, cache);
      [DoEnsure(apps[0], opts, cache)] + BatchVerbs(env, s1, apps[1..], opts, c1)
  }

  /** The batch verb is the run of its items: whatever the items share, every law
      of runs holds of it. */
  lemma {:induction false} BatchIsRun<H>(env: Env<H>, s: State<H>, apps: seq<App>, opts: EnsureOptions, cache: Cache)
    ensures var (outcomes, s', _) := EnsureMany(env, s, apps, opts, cache);
            var (run, end) := Run(env, s, BatchVerbs(env, s, apps, opts, cache));
            && end == s' && |run| == |outcomes| == |apps|
            && forall i :: 0 <= i < |apps| ==> outcomes[i].id == apps[i].id && run[i] == Ensured(outcomes[i].result)
    decreases |apps|
  {
    hide EnsureListed;
    if apps != [] {
      var (r, s1, c1) := EnsureListed(env, s, apps[0], opts, cache);
      var first := DoEnsure(apps[0], opts, cache);
      BatchIsRun(env, s1, apps[1..], opts, c1);
      RunOfOne(env, s, first);
      RunInParts(env, s, [first], BatchVerbs(env, s1, apps[1..], opts, c1));
    }
  }

  lemma RunOfOne<H>(env: Env<H>, s: State<H>, v: Verb)
    ensures Run(env, s, [v]) == ([Step(env, s, v).0], Step(env, s, v).1)
  {
    hide Step;
    assert [v][..0] == [];
    assert [] + [Step(env, s, v).0] == [Step(env, s, v).0];
  }

  /** What a caller calls: one verb, or the batch verb. */
  datatype Call = One(verb: Verb) | Many(apps: seq<App>, batch: EnsureOptions)

  function Made<H>(env: Env<H>, s: State<H>, call: Call): State<H> {
    match call
    case One(v) => Step(env, s, v).1
    case Many(apps, opts) => EnsureMany(env, s, apps, opts, EMPTY_CACHE).1
  }

  function Calls<H>(env: Env<H>, s: State<H>, calls: seq<Call>): State<H>
    decreases |calls|
  {
    if calls == [] then s else Calls(env, Made(env, s, calls[0]), calls[1..])
  }

  function VerbsOf<H>(env: Env<H>, s: State<H>, calls: seq<Call>): seq<Verb>
    decreases |calls|
  {
    if calls == [] then []
    else
      (match calls[0]
       case One(v) => [v]
       case Many(apps, opts) => BatchVerbs(env, s, apps, opts, EMPTY_CACHE))
      + VerbsOf(env, Made(env, s, calls[0]), calls[1..])
  }

  /** Any calls, batches among them, are a run of verbs. */
  lemma {:induction false} CallsAreRun<H>(env: Env<H>, s: State<H>, calls: seq<Call>)
    ensures Calls(env, s, calls) == Run(env, s, VerbsOf(env, s, calls)).1
    decreases |calls|
  {
    hide Step, Run, EnsureMany, BatchVerbs;
    if calls == [] {
      assert Run(env, s, []).1 == s by { NothingRun(env, s); }
    } else {
      var s1 := Made(env, s, calls[0]);
      CallsAreRun(env, s1, calls[1..]);
      match calls[0] {
        case One(v) =>
          RunOfOne(env, s, v);
          RunInParts(env, s, [v], VerbsOf(env, s1, calls[1..]));
        case Many(apps, opts) =>
          BatchIsRun(env, s, apps, opts, EMPTY_CACHE);
          RunInParts(env, s, BatchVerbs(env, s, apps, opts, EMPTY_CACHE), VerbsOf(env, s1, calls[1..]));
      }
    }
  }

  lemma NothingRun<H>(env: Env<H>, s: State<H>)
    ensures Run(env, s, []) == ([], s)
  {
  }

  // ---------------------------------------------------------------------------
  // The two ledgers
  // ---------------------------------------------------------------------------

  /** The outcome says the ledger was saved. */
  predicate SavedIn(o: Outcome) {
    match o
    case Ensured(Success(NowInstalled(_, _, _, _, warnings))) => SaveFailed !in warnings
    case Uninstalled(Success(Removed(_, _, warnings))) => SaveFailed !in warnings
    case DidUpdate(Success(Updated(_, _))) => true
    case Adopted(Success(_)) => true
    case _ => false
  }

  /** The outcome says the ledger changed and was not saved: a warning on an
      install or uninstall, an error of an update. */
  predicate LeftUnsaved(o: Outcome) {
    match o
    case Ensured(Success(NowInstalled(_, _, _, _, warnings))) => SaveFailed in warnings
    case Uninstalled(Success(Removed(_, _, warnings))) => SaveFailed in warnings
    case DidUpdate(Failure(ManifestFailed)) => true
    case _ => false
  }

  lemma InstallStageLedgers<H>(env: Env<H>, s: State<H>, app: App, opts: EnsureOptions)
    ensures var (r, s') := InstallStage(env, s, app, opts);
            && (SavedIn(Ensured(r)) ==> s'.durable == s'.records)
            && (!SavedIn(Ensured(r)) ==> s'.durable == s.durable)
            && (!SavedIn(Ensured(r)) && !LeftUnsaved(Ensured(r)) ==> s'.records == s.records)
  {
    hide PlanInstall, NativeIdsFromExecuted, Verification, VersionForPlan;
  }

  /** A claim that fails, for whatever reason, leaves both ledgers as they were. */
  lemma FailedAdoptRestores<H>(env: Env<H>, s: State<H>, id: TorideId, ids: NativeIds, installedAt: Option<nat>)
    ensures var (r, s') := AdoptById(env, s, id, ids, installedAt);
            && (r.Failure? ==> s'.records == s.records && s'.durable == s.durable)
            && (r.Success? ==> s'.records == s.records[id := r.value] && s'.durable == s'.records && id !in s.records)
  {
    hide VerifyPresence;
  }

  /** Each outcome tells what became of the two ledgers: saved makes them equal,
      anything else leaves the durable one alone, and what is neither saved nor
      left unsaved leaves the working one alone too: a failed adopt included. */
  lemma StepLedgers<H>(env: Env<H>, s: State<H>, v: Verb)
    ensures var (o, s') := Step(env, s, v);
            && (SavedIn(o) ==> s'.durable == s'.records)
            && (!SavedIn(o) ==> s'.durable == s.durable)
            && (!SavedIn(o) && !LeftUnsaved(o) ==> s'.records == s.records)
  {
    hide InstallStage, StatusFor, ForeignFor, UninstallPlanFromRecord, UpdatePlanFromRecord, VerifyPresence, InstalledVersion, IsCurrent, PlanUninstall, ForeignStatus, NativeIdsFor, VersionSatisfied;
    match v {
      case DoEnsure(app, opts, _) => InstallStageLedgers(env, s, app, opts);
      case DoAdopt(id, ids, installedAt) => FailedAdoptRestores(env, s, id, ids, installedAt);
      case _ =>
    }
  }

  /** How many verbs have run when the ledger is saved for the last time. */
  function LastSave(outcomes: seq<Outcome>): nat {
    if outcomes == [] then 0
    else if SavedIn(outcomes[|outcomes| - 1]) then |outcomes|
    else LastSave(outcomes[..|outcomes| - 1])
  }

  lemma {:induction false} LastSaveBound(outcomes: seq<Outcome>)
    ensures LastSave(outcomes) <= |outcomes|
  {
    if outcomes != [] { LastSaveBound(outcomes[..|outcomes| - 1]); }
  }

  /** In every run the durable ledger is the working one as of the last save (or
      the load), and the two still agree unless an outcome since then says the
      ledger was left unsaved. */
  lemma {:induction false} DurableAsOfLastSave<H>(env: Env<H>, s: State<H>, verbs: seq<Verb>)
    requires s.durable == s.records
    ensures var (outcomes, end) := Run(env, s, verbs);
            var n := LastSave(outcomes);
            && n <= |verbs|
            && end.durable == Run(env, s, verbs[..n]).1.records
            && (end.records != end.durable ==> exists i :: n <= i < |outcomes| && LeftUnsaved(outcomes[i]))
    decreases |verbs|
  {
    hide SavedIn, LeftUnsaved, Step;
    OneOutcomeEach(env, s, verbs);
    if verbs != [] {
      var k := |verbs| - 1;
      DurableAsOfLastSave(env, s, verbs[..k]);
      var (outcomes, end) := Run(env, s, verbs);
      var (earlier, s1) := Run(env, s, verbs[..k]);
      OneOutcomeEach(env, s, verbs[..k]);
      StepLedgers(env, s1, verbs[k]);
      assert outcomes[..k] == earlier && outcomes[k] == Step(env, s1, verbs[k]).0;
      var n := LastSave(outcomes);
      if SavedIn(outcomes[k]) {
        assert verbs[..n] == verbs;
      } else {
        assert verbs[..k][..n] == verbs[..n];
        if end.records != end.durable && !LeftUnsaved(outcomes[k]) {
          var i :| n <= i < |earlier| && LeftUnsaved(earlier[i]);
          assert outcomes[i] == earlier[i];
        }
      }
    }
  }

  // ---------------------------------------------------------------------------
  // Records and commands
  // ---------------------------------------------------------------------------

  /** A record's backend is its identifiers' own, and a plan it carries is for its
      key, runs on that backend, and executed to exactly those identifiers. */
  predicate WellFormedRecord(id: TorideId, r: InstallRecord) {
    && r.backend == r.ids.Backend()
    && (r.plan.Some? ==>
          && r.plan.value.app == id
          && WellRouted(r.plan.value)
          && r.plan.value.backend == r.backend
          && NativeIdsFromExecuted(r.plan.value) == Some(r.ids))
  }

  predicate WellFormedLedger(records: Ledger) {
    forall id | id in records :: WellFormedRecord(id, records[id])
  }

  /** Commands run operations of their own backend, and a distro manager never
      without a grant of root. */
  predicate WellDispatched(d: Dispatch) {
    WellRouted(d.plan) && (d.plan.backend.Distro? ==> d.elevated)
  }

  predicate AllWellDispatched(dispatched: seq<Dispatch>) {
    forall i | 0 <= i < |dispatched| :: WellDispatched(dispatched[i])
  }

  /** At most one command more than before, on this backend. */
  predicate OneMore(before: seq<Dispatch>, after: seq<Dispatch>, backend: BackendId) {
    || after == before
    || (|after| == |before| + 1 && after[..|before|] == before
        && after[|before|].plan.backend == backend && WellDispatched(after[|before|]))
  }

  lemma OneMoreKeeps(before: seq<Dispatch>, after: seq<Dispatch>, backend: BackendId)
    requires AllWellDispatched(before) && OneMore(before, after, backend)
    ensures AllWellDispatched(after)
  {
    hide WellDispatched;
    forall i | 0 <= i < |after| ensures WellDispatched(after[i]) {
      if i < |before| { assert after[..|before|][i] == after[i] == before[i]; }
    }
  }

  lemma ExecuteOneMore<H, T>(run: (H, Plan) -> (Probed<T>, H), s: State<H>, plan: Plan, elevated: bool)
    requires WellRouted(plan)
    ensures OneMore(s.dispatched, Execute(run, s, plan, elevated).1.dispatched, plan.backend)
    ensures Execute(run, s, plan, elevated).1.records == s.records
  {
    hide RoutesTo;
  }

  lemma InstallStageKeeps<H>(env: Env<H>, s: State<H>, app: App, opts: EnsureOptions)
    requires WellFormedLedger(s.records) && AllWellDispatched(s.dispatched)
    ensures var s' := InstallStage(env, s, app, opts).1;
            WellFormedLedger(s'.records) && AllWellDispatched(s'.dispatched)
  {
    hide PlanInstall, NativeIdsFromExecuted, Verification, VersionForPlan, WellRouted, AllWellDispatched, OneMore;
    var version := VersionForPlan(env, s.host, app, opts.version);
    var planned := PlanInstall(app, env.target, version);
    PlannedIsWellRouted(app, env.target, version);
    if planned.Success? {
      var plan := planned.value;
      ExecuteOneMore(env.install, s, plan, opts.elevated);
      OneMoreKeeps(s.dispatched, Execute(env.install, s, plan, opts.elevated).1.dispatched, plan.backend);
      if NativeIdsFromExecuted(plan).Some? { ExecutedBackend(plan); }
    }
  }

  lemma UninstallKeeps<H>(env: Env<H>, s: State<H>, id: TorideId, opts: UninstallOptions)
    requires WellFormedLedger(s.records)
    ensures var s' := UninstallById(env, s, id, opts).1;
            && WellFormedLedger(s'.records)
            && (id in s.records ==> OneMore(s.dispatched, s'.dispatched, s.records[id].backend))
            && (id !in s.records ==> s'.dispatched == s.dispatched)
  {
    hide UninstallPlanFromRecord, VerifyPresence, WellRouted, OneMore;
    if id in s.records {
      var record := s.records[id];
      assert WellFormedRecord(id, record);
      ReplayedIsWellRouted(id, record, opts.zap);
      var plan := UninstallPlanFromRecord(id, record, opts.zap);
      NoneMore(s.dispatched, record.backend);
      if plan.Some? { ExecuteOneMore(env.uninstall, s, plan.value, opts.elevated); }
    }
  }

  lemma NoneMore(before: seq<Dispatch>, backend: BackendId)
    ensures OneMore(before, before, backend)
  {
  }

  lemma UninstallAppKeeps<H>(env: Env<H>, s: State<H>, app: App, opts: UninstallOptions)
    requires AllWellDispatched(s.dispatched)
    ensures var s' := UninstallApp(env, s, app, opts).1;
            s'.records == s.records && s'.durable == s.durable && AllWellDispatched(s'.dispatched)
  {
    hide PlanUninstall, VerifyPresence, ForeignStatus, NativeIdsFor, WellRouted, AllWellDispatched, OneMore;
    var planned := PlanUninstall(app, env.target, opts.zap);
    PlannedUninstallIsWellRouted(app, env.target, opts.zap);
    if planned.Success? {
      ExecuteOneMore(env.uninstall, s, planned.value, opts.elevated);
      OneMoreKeeps(s.dispatched, Execute(env.uninstall, s, planned.value, opts.elevated).1.dispatched, planned.value.backend);
    }
  }

  /** An update keeps every record but the version of its own, and runs at most
      one command, on the backend its record names. */
  lemma UpdateKeeps<H>(env: Env<H>, s: State<H>, id: TorideId, opts: UpdateOptions)
    requires WellFormedLedger(s.records)
    ensures var s' := UpdateById(env, s, id, opts).1;
            && WellFormedLedger(s'.records)
            && s'.records.Keys == s.records.Keys
            && (forall k :: k in s.records && k != id ==> s'.records[k] == s.records[k])
            && (id in s.records ==> s'.records[id] == s.records[id].(version := s'.records[id].version))
            && (id in s.records ==> OneMore(s.dispatched, s'.dispatched, s.records[id].backend))
            && (id !in s.records ==> s'.dispatched == s.dispatched)
            && (opts.dryRun ==> s' == s)
  {
    hide UpdatePlanFromRecord, InstalledVersion, IsCurrent, WellRouted, OneMore, WellFormedRecord, ApplyUpdate;
    if id in s.records {
      var record := s.records[id];
      NoneMore(s.dispatched, record.backend);
      ReplayedUpdate(id, record);
      var plan := UpdatePlanFromRecord(id, record);
      if plan.Some? {
        var from := InstalledVersion(env, s.host, record.ids);
        if from.Success? { ApplyUpdateKeeps(env, s, id, plan.value, from.value, opts.elevated); }
      }
    }
  }

  lemma ReplayedUpdate(id: TorideId, record: InstallRecord)
    requires WellFormedRecord(id, record)
    ensures var plan := UpdatePlanFromRecord(id, record);
            plan.Some? ==> WellRouted(plan.value) && plan.value.backend == record.backend
  {
    hide UpdatePlanFromRecord, WellRouted;
    ReplayedIsWellRouted(id, record, false);
  }

  lemma ApplyUpdateKeeps<H>(env: Env<H>, s: State<H>, id: TorideId, plan: Plan, from: Option<string>, elevated: bool)
    requires WellFormedLedger(s.records) && id in s.records
    requires WellRouted(plan) && plan.backend == s.records[id].backend
    ensures var s' := ApplyUpdate(env, s, id, s.records[id], plan, from, elevated).1;
            && WellFormedLedger(s'.records)
            && s'.records.Keys == s.records.Keys
            && (forall k :: k in s.records && k != id ==> s'.records[k] == s.records[k])
            && s'.records[id] == s.records[id].(version := s'.records[id].version)
            && OneMore(s.dispatched, s'.dispatched, s.records[id].backend)
  {
    hide InstalledVersion, WellRouted, OneMore, Execute;
    ExecuteOneMore(env.update, s, plan, elevated);
  }

  lemma AdoptKeeps<H>(env: Env<H>, s: State<H>, id: TorideId, ids: NativeIds, installedAt: Option<nat>)
    requires WellFormedLedger(s.records)
    ensures var s' := AdoptById(env, s, id, ids, installedAt).1;
            WellFormedLedger(s'.records) && s'.dispatched == s.dispatched
  {
    hide VerifyPresence, WellRouted;
  }

  lemma StepKeeps<H>(env: Env<H>, s: State<H>, v: Verb)
    requires WellFormedLedger(s.records) && AllWellDispatched(s.dispatched)
    ensures var s' := Step(env, s, v).1;
            WellFormedLedger(s'.records) && AllWellDispatched(s'.dispatched)
  {
    hide InstallStage, StatusFor, ForeignFor, UninstallById, UninstallApp, UpdateById, AdoptById, WellFormedLedger, AllWellDispatched, OneMore;
    match v {
      case DoEnsure(app, opts, _) => InstallStageKeeps(env, s, app, opts);
      case DoUninstall(id, opts) =>
        UninstallKeeps(env, s, id, opts);
        if id in s.records {
          OneMoreKeeps(s.dispatched, UninstallById(env, s, id, opts).1.dispatched, s.records[id].backend);
        }
      case DoUninstallApp(app, opts) => UninstallAppKeeps(env, s, app, opts);
      case DoUpdate(id, opts) =>
        UpdateKeeps(env, s, id, opts);
        if id in s.records {
          OneMoreKeeps(s.dispatched, UpdateById(env, s, id, opts).1.dispatched, s.records[id].backend);
        }
      case DoAdopt(id, ids, installedAt) => AdoptKeeps(env, s, id, ids, installedAt);
    }
  }

  /** In every run from a well-formed ledger each record stays well formed, and
      every command ever run is routed to its own backend, with root granted
      exactly where a distro manager asks for it. */
  lemma {:induction false} RunKeeps<H>(env: Env<H>, s: State<H>, verbs: seq<Verb>)
    requires WellFormedLedger(s.records) && AllWellDispatched(s.dispatched)
    ensures var end := Run(env, s, verbs).1;
            WellFormedLedger(end.records) && AllWellDispatched(end.dispatched)
    decreases |verbs|
  {
    hide Step, WellFormedLedger, AllWellDispatched;
    if verbs != [] {
      var n := |verbs| - 1;
      RunKeeps(env, s, verbs[..n]);
      StepKeeps(env, Run(env, s, verbs[..n]).1, verbs[n]);
    }
  }

  /** So do any calls, batches whose items share rows among them. */
  lemma CallsKeep<H>(env: Env<H>, s: State<H>, calls: seq<Call>)
    requires WellFormedLedger(s.records) && AllWellDispatched(s.dispatched)
    ensures var end := Calls(env, s, calls);
            WellFormedLedger(end.records) && AllWellDispatched(end.dispatched)
  {
    hide *;
    CallsAreRun(env, s, calls);
    RunKeeps(env, s, VerbsOf(env, s, calls));
  }

  // ---------------------------------------------------------------------------
  // Repeating and undoing
  // ---------------------------------------------------------------------------

  /** A version an install reports is what a probe of the installed identifiers
      then reports. */
  ghost predicate ReportsWhatItInstalled<H(!new)>(env: Env<H>) {
    forall h, plan | NativeIdsFromExecuted(plan).Some? ::
      var (r, h') := env.install(h, plan);
      r.Success? && r.value.Some? ==>
        ProbeIds(env, h', NativeIdsFromExecuted(plan).value) == Success(Present(r.value))
  }

  /** Saving the ledger changes no probe. */
  ghost predicate SavesNoProbe<H(!new)>(env: Env<H>) {
    forall h, ledger, ids :: ProbeIds(env, env.save(h, ledger).1, ids) == ProbeIds(env, h, ids)
  }

  lemma VerifiedIsProbed<H>(env: Env<H>, s: State<H>, plan: Plan, ids: NativeIds, reported: Option<string>)
    requires Attached(env, ids.Backend())
    requires reported.Some? ==> ProbeIds(env, s.host, ids) == Success(Present(reported))
    ensures var (r, s') := RecordInstall(env, s, plan, ids, reported);
            var probe := ProbeIds(env, s.host, ids);
            r.Success? && r.value.NowInstalled? && r.value.backend == ids.Backend() && r.value.ids == ids
            && (r.value.verified <==> probe.Success? && probe.value.Present?)
            && (r.value.verified ==> probe == Success(Present(r.value.version)))
            && (NoLongerReported in r.value.warnings <==> probe == Success(Absent))
            && (VerifyFailed in r.value.warnings <==> probe.Failure?)
            && plan.app in s'.records && s'.records[plan.app].ids == ids
            && s'.records[plan.app].version == r.value.version && s'.dispatched == s.dispatched
            && s'.host == env.save(s.host, s'.records).1
  {
    hide ProbeIds, VerifyPresence;
    VerifyPresenceProbes(env, s.host, ids);
  }

  /** An install that answers success ran one command and recorded one app, and
      its answer tells what the status of that record now is: verified exactly when
      it stands as installed (then with that backend and version), no longer
      reported exactly when it does not, verification failed exactly when the
      status cannot be had. */
  lemma InstallTellsStatus<H(!new)>(env: Env<H>, s: State<H>, app: App, opts: EnsureOptions)
    requires ReportsWhatItInstalled(env) && SavesNoProbe(env)
    requires InstallStage(env, s, app, opts).0.Success?
    ensures var (r, s') := InstallStage(env, s, app, opts);
            var status := StatusFor(env, s', app.id);
            && r.value.NowInstalled? && app.id in s'.records && |s'.dispatched| == |s.dispatched| + 1
            && s'.records[app.id].ids == r.value.ids && s'.records[app.id].version == r.value.version
            && (r.value.verified <==> status == Success(Installed(r.value.backend, r.value.version)))
            && (NoLongerReported in r.value.warnings <==> status == Success(NotInstalled))
            && (VerifyFailed in r.value.warnings <==> status.Failure?)
  {
    hide PlanInstall, NativeIdsFromExecuted, VersionForPlan, ProbeIds, RecordInstall, RecordedStatus, WellRouted;
    var version := VersionForPlan(env, s.host, app, opts.version);
    PlannedIsWellRouted(app, env.target, version);
    var plan := PlanInstall(app, env.target, version).value;
    var ids := NativeIdsFromExecuted(plan).value;
    ExecutedBackend(plan);
    var (r, s1) := Execute(env.install, s, plan, opts.elevated);
    VerifiedAttached(env, plan.backend, ids.Backend());
    VerifiedIsProbed(env, s1, plan, ids, r.value);
    var s2 := RecordInstall(env, s1, plan, ids, r.value).1;
    assert ProbeIds(env, s2.host, ids) == ProbeIds(env, s1.host, ids);
    RecordedStatusProbes(env, s2.host, s2.records[app.id]);
  }

  lemma VerifiedAttached<H>(env: Env<H>, a: BackendId, b: BackendId)
    requires a == b && Attached(env, a)
    ensures Attached(env, b)
  {
  }

  /** After an ensure answers installed and verified, a version-less ensure of the
      same app answers present, with that backend and version, and changes
      nothing: no command, no record, no host state. */
  lemma EnsureTwice<H(!new)>(env: Env<H>, s: State<H>, app: App, first: EnsureOptions, second: EnsureOptions)
    requires ReportsWhatItInstalled(env) && SavesNoProbe(env)
    requires second.version.None?
    ensures var (r, s') := Ensure(env, s, app, first);
            r.Success? && r.value.NowInstalled? && r.value.verified ==>
              Ensure(env, s', app, second)
              == (Success(AlreadyPresent(Installed(r.value.backend, r.value.version))), s')
  {
    hide InstallStage, StatusFor, ForeignFor, ReportsWhatItInstalled, SavesNoProbe;
    if InstallStage(env, s, app, first).0.Success? { InstallTellsStatus(env, s, app, first); }
  }

  lemma InstallStageRecords<H>(env: Env<H>, s: State<H>, app: App, opts: EnsureOptions)
    ensures var (r, s') := InstallStage(env, s, app, opts);
            if r.Success? then
              app.id in s'.records && s'.records == s.records[app.id := s'.records[app.id]]
            else s'.records == s.records
  {
    hide PlanInstall, NativeIdsFromExecuted, Verification, VersionForPlan, WellRouted;
    var version := VersionForPlan(env, s.host, app, opts.version);
    PlannedIsWellRouted(app, env.target, version);
  }

  /** An uninstall that answers success ran one command, and its warnings tell what
      a probe of the removed identifiers now says. */
  lemma UninstallTellsPresence<H(!new)>(env: Env<H>, s: State<H>, id: TorideId, opts: UninstallOptions)
    requires SavesNoProbe(env) && id in s.records
    requires UninstallById(env, s, id, opts).0.Success?
    ensures var (r, s') := UninstallById(env, s, id, opts);
            var presence := VerifyPresence(env, s'.host, s.records[id].ids);
            && r.value.Removed? && r.value.ids == s.records[id].ids && |s'.dispatched| == |s.dispatched| + 1
            && (StillPresent in r.value.warnings <==> presence.Success? && presence.value.Present?)
            && (VerifyFailed in r.value.warnings <==> presence.Failure?)
            && (SaveFailed in r.value.warnings <==> !SavedIn(Uninstalled(r)))
  {
    hide UninstallPlanFromRecord, ProbeIds, VerifyPresence;
    var ids := s.records[id].ids;
    var plan := UninstallPlanFromRecord(id, s.records[id], opts.zap).value;
    VerifyPresenceProbes(env, Execute(env.uninstall, s, plan, opts.elevated).1.host, ids);
    VerifyPresenceProbes(env, UninstallById(env, s, id, opts).1.host, ids);
  }

  lemma UninstallRecords<H>(env: Env<H>, s: State<H>, id: TorideId, opts: UninstallOptions)
    ensures var (r, s') := UninstallById(env, s, id, opts);
            if r.Success? then id in s.records && s'.records == s.records - {id}
            else s'.records == s.records
  {
    hide UninstallPlanFromRecord, VerifyPresence;
  }

  /** For an app unrecorded before, a successful ensure and then a successful
      uninstall, with anything happening on the host between them, restore the
      working ledger exactly, and the durable one too when the last save worked. */
  lemma EnsureThenUninstall<H>(env: Env<H>, s: State<H>, app: App, ensure: EnsureOptions, h: H, uninstall: UninstallOptions)
    requires app.id !in s.records
    ensures var (first, s1) := Ensure(env, s, app, ensure);
            var (last, s2) := UninstallById(env, s1.(host := h), app.id, uninstall);
            first.Success? && last.Success? ==>
              && s2.records == s.records
              && (SavedIn(Uninstalled(last)) ==> s2.durable == s.records)
  {
    hide InstallStage, StatusFor, ForeignFor, UninstallById, SavedIn;
    InstallStageRecords(env, s, app, ensure);
    var s1 := Ensure(env, s, app, ensure).1.(host := h);
    UninstallRecords(env, s1, app.id, uninstall);
    StepLedgers(env, s1, DoUninstall(app.id, uninstall));
    Undone(s.records, s1.records, app.id);
  }

  lemma Undone(before: Ledger, during: Ledger, id: TorideId)
    requires id !in before
    ensures id in during && during == before[id := during[id]] ==> during - {id} == before
    ensures during == before ==> id !in during
  {
  }

  /** An update that answers updated ran its one command and left, as the record's
      version, what a probe now reports; one that answers up to date found
      something installed and changed nothing. */
  lemma UpdateAnswers<H(!new)>(env: Env<H>, s: State<H>, id: TorideId, opts: UpdateOptions)
    requires SavesNoProbe(env) && id in s.records
    ensures var (r, s') := UpdateById(env, s, id, opts);
            var before, after := InstalledVersion(env, s.host, s.records[id].ids), InstalledVersion(env, s'.host, s.records[id].ids);
            && (r.Success? && r.value.Updated? ==>
                  && before == Success(r.value.from)
                  && r.value.to == (if after.Success? then after.value else None)
                  && s'.records[id].version == r.value.to
                  && |s'.dispatched| == |s.dispatched| + 1)
            && (r.Success? && r.value.UpToDate? ==> s' == s && before.Success? && before.value.Some?)
  {
    hide UpdatePlanFromRecord, ProbeIds, NativeIdsFromExecuted, VerifyPresence;
    var ids := s.records[id].ids;
    var plan := UpdatePlanFromRecord(id, s.records[id]);
    if plan.Some? {
      VerifyPresenceProbes(env, Execute(env.update, s, plan.value, opts.elevated).1.host, ids);
      VerifyPresenceProbes(env, UpdateById(env, s, id, opts).1.host, ids);
    }
  }

  /** Removing an unrecorded app runs a command only when a probe finds it and the
      caller forces it. */
  lemma ForeignNeedsForce<H>(env: Env<H>, s: State<H>, app: App, opts: UninstallOptions)
    ensures var (r, s') := UninstallApp(env, s, app, opts);
            s' != s ==>
              && opts.force && NativeIdsFor(app).Some?
              && var status := ForeignStatus(env, s.host, NativeIdsFor(app).value);
                 status.Success? && status.value.Foreign?
  {
    hide PlanUninstall, VerifyPresence, StatusOf;
  }
}
