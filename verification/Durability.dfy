/** The facade over the manifest store: what a run of the verbs takes to be the
    durable ledger is what the store answers when it is loaded. */
module Durability {
  import opened Wrappers
  import opened Registry
  import opened Plan
  import opened Records
  import opened Host
  import opened Facade
  import opened LedgerLaws
  import S = JsonStore

  /** A host with the manifest store on it. */
  datatype Stored<H> = Stored(outside: H, store: S.Store<Ledger>)

  /** A save is the store's own save, with some fault or none. */
  ghost predicate SavesBy<H>(env: Env<Stored<H>>, h: Stored<H>, ledger: Ledger, fault: S.SaveFault<Ledger>) {
    var (ok, h') := env.save(h, ledger);
    var (r, store) := S.Saved(h.store, ledger, fault);
    (ok <==> r.Success?) && h'.store == store
  }

  ghost predicate Saves<H>(env: Env<Stored<H>>, h: Stored<H>, ledger: Ledger) {
    exists fault :: SavesBy(env, h, ledger, fault)
  }

  /** Saving goes through the store, and no manager command touches it. */
  ghost predicate UsesStore<H(!new)>(env: Env<Stored<H>>) {
    && (forall h, plan :: env.install(h, plan).1.store == h.store)
    && (forall h, plan :: env.uninstall(h, plan).1.store == h.store)
    && (forall h, plan :: env.update(h, plan).1.store == h.store)
    && (forall h, ledger :: Saves(env, h, ledger))
  }

  /** Loading the store without a fault answers exactly this ledger, and has
      nothing to set aside. */
  predicate Answers(store: S.Store<Ledger>, ledger: Ledger) {
    S.Loaded(store, map[], S.ReadsFine).0 == Success(S.StoreLoad(ledger, None))
  }

  /** Any host becomes one with a store on it, whatever goes wrong with saves. */
  function OnStore<H>(inner: Env<H>, fault: (H, Ledger) -> S.SaveFault<Ledger>): Env<Stored<H>> {
    Env(inner.target, inner.attached, inner.distro,
        (h: Stored<H>, b: BackendId) => inner.listing(h.outside, b),
        (h: Stored<H>, cask: bool, token: string) => inner.brewVersion(h.outside, cask, token),
        (h: Stored<H>, scope: FlatpakInstallation) => inner.flatpakScope(h.outside, scope),
        (h: Stored<H>, b: BackendId, id: string) => inner.row(h.outside, b, id),
        (h: Stored<H>, ids: NativeIds) => inner.offered(h.outside, ids),
        (h: Stored<H>, ids: NativeIds) => inner.stale(h.outside, ids),
        (h: Stored<H>, plan: Plan) => var (r, o) := inner.install(h.outside, plan); (r, Stored(o, h.store)),
        (h: Stored<H>, plan: Plan) => var (r, o) := inner.uninstall(h.outside, plan); (r, Stored(o, h.store)),
        (h: Stored<H>, plan: Plan) => var (r, o) := inner.update(h.outside, plan); (r, Stored(o, h.store)),
        (h: Stored<H>) => inner.now(h.outside),
        (h: Stored<H>, ledger: Ledger) =>
          var (r, store) := S.Saved(h.store, ledger, fault(h.outside, ledger));
          (r.Success?, Stored(inner.save(h.outside, ledger).1, store)))
  }

  lemma OnStoreUsesStore<H(!new)>(inner: Env<H>, fault: (H, Ledger) -> S.SaveFault<Ledger>)
    ensures UsesStore(OnStore(inner, fault))
  {
    hide S.Saved;
    var env := OnStore(inner, fault);
    forall h, ledger ensures Saves(env, h, ledger) {
      assert SavesBy(env, h, ledger, fault(h.outside, ledger));
    }
  }

  // ---------------------------------------------------------------------------
  // One step
  // ---------------------------------------------------------------------------

  lemma ExecuteLeavesStore<H, T>(run: (Stored<H>, Plan) -> (Probed<T>, Stored<H>), s: State<Stored<H>>, plan: Plan, elevated: bool)
    requires run(s.host, plan).1.store == s.host.store
    ensures var s' := Execute(run, s, plan, elevated).1;
            s'.host.store == s.host.store && s'.durable == s.durable && s'.records == s.records
  {
  }

  /** A save that fails leaves what the store answers; one that works makes it
      answer the working ledger. */
  lemma PersistAnswers<H(!new)>(env: Env<Stored<H>>, s: State<Stored<H>>)
    requires UsesStore(env) && Answers(s.host.store, s.durable)
    ensures var (ok, s') := Persist(env, s);
            && Answers(s'.host.store, s'.durable)
            && s'.durable == (if ok then s.records else s.durable)
  {
    hide S.Saved, S.Loaded;
    assert Saves(env, s.host, s.records);
    var fault :| SavesBy(env, s.host, s.records, fault);
    var (r, store) := S.Saved(s.host.store, s.records, fault);
    S.SaveThenLoad(s.host.store, s.records, fault, map[]);
    var s' := Persist(env, s).1;
    assert s'.host.store == store;
    if r.Success? {
      assert Answers(store, s.records);
    } else {
      assert Answers(store, s.durable);
    }
  }

  lemma InstallAnswers<H(!new)>(env: Env<Stored<H>>, s: State<Stored<H>>, app: App, opts: EnsureOptions)
    requires UsesStore(env) && Answers(s.host.store, s.durable)
    ensures var s' := InstallStage(env, s, app, opts).1; Answers(s'.host.store, s'.durable)
  {
    hide PlanInstall, NativeIdsFromExecuted, Verification, VersionForPlan, Answers, Persist, Execute;
    var planned := PlanInstall(app, env.target, VersionForPlan(env, s.host, app, opts.version));
    if planned.Success? {
      var plan := planned.value;
      ExecuteLeavesStore(env.install, s, plan, opts.elevated);
      var (r, s1) := Execute(env.install, s, plan, opts.elevated);
      if NativeIdsFromExecuted(plan).Some? && r.Success? {
        RecordAnswers(env, s1, plan, NativeIdsFromExecuted(plan).value, r.value);
      }
    }
  }

  lemma RecordAnswers<H(!new)>(env: Env<Stored<H>>, s: State<Stored<H>>, plan: Plan, ids: NativeIds, reported: Option<string>)
    requires UsesStore(env) && Answers(s.host.store, s.durable)
    ensures var s' := RecordInstall(env, s, plan, ids, reported).1; Answers(s'.host.store, s'.durable)
  {
    hide Verification, Answers, Persist, UsesStore;
    var verification := Verification(env, s.host, ids, reported);
    var verified := verification.Success? && verification.value.Present?;
    var seen := if verified then verification.value.version else None;
    var version := if seen.Some? then seen else reported;
    PersistAnswers(env, s.(records := s.records[plan.app := NewRecord(plan, ids, version, env.now(s.host))]));
  }

  lemma UninstallAnswers<H(!new)>(env: Env<Stored<H>>, s: State<Stored<H>>, id: TorideId, opts: UninstallOptions)
    requires UsesStore(env) && Answers(s.host.store, s.durable)
    ensures var s' := UninstallById(env, s, id, opts).1; Answers(s'.host.store, s'.durable)
  {
    hide UninstallPlanFromRecord, VerifyPresence, Answers, Persist, Execute;
    if id in s.records {
      var plan := UninstallPlanFromRecord(id, s.records[id], opts.zap);
      if plan.Some? {
        ExecuteLeavesStore(env.uninstall, s, plan.value, opts.elevated);
        var s1 := Execute(env.uninstall, s, plan.value, opts.elevated).1;
        PersistAnswers(env, s1.(records := s1.records - {id}));
      }
    }
  }

  lemma UninstallAppAnswers<H(!new)>(env: Env<Stored<H>>, s: State<Stored<H>>, app: App, opts: UninstallOptions)
    requires UsesStore(env) && Answers(s.host.store, s.durable)
    ensures var s' := UninstallApp(env, s, app, opts).1; Answers(s'.host.store, s'.durable)
  {
    hide PlanUninstall, VerifyPresence, ForeignStatus, NativeIdsFor, Answers, Execute;
    var planned := PlanUninstall(app, env.target, opts.zap);
    if planned.Success? { ExecuteLeavesStore(env.uninstall, s, planned.value, opts.elevated); }
  }

  lemma UpdateAnswers<H(!new)>(env: Env<Stored<H>>, s: State<Stored<H>>, id: TorideId, opts: UpdateOptions)
    requires UsesStore(env) && Answers(s.host.store, s.durable)
    ensures var s' := UpdateById(env, s, id, opts).1; Answers(s'.host.store, s'.durable)
  {
    hide UpdatePlanFromRecord, InstalledVersion, IsCurrent, Answers, UsesStore, ApplyUpdate;
    if id in s.records {
      var plan := UpdatePlanFromRecord(id, s.records[id]);
      var from := InstalledVersion(env, s.host, s.records[id].ids);
      if plan.Some? && from.Success? {
        ApplyUpdateAnswers(env, s, id, s.records[id], plan.value, from.value, opts.elevated);
      }
    }
  }

  lemma ApplyUpdateAnswers<H(!new)>(env: Env<Stored<H>>, s: State<Stored<H>>, id: TorideId, record: InstallRecord,
                                    plan: Plan, from: Option<Version>, elevated: bool)
    requires UsesStore(env) && Answers(s.host.store, s.durable)
    ensures var s' := ApplyUpdate(env, s, id, record, plan, from, elevated).1; Answers(s'.host.store, s'.durable)
  {
    hide InstalledVersion, Answers, Persist, Execute;
    ExecuteLeavesStore(env.update, s, plan, elevated);
    var s1 := Execute(env.update, s, plan, elevated).1;
    var seen := InstalledVersion(env, s1.host, record.ids);
    var to := if seen.Success? then seen.value else None;
    PersistAnswers(env, s1.(records := s1.records[id := record.(version := to)]));
  }

  lemma AdoptAnswers<H(!new)>(env: Env<Stored<H>>, s: State<Stored<H>>, id: TorideId, ids: NativeIds, installedAt: Option<nat>)
    requires UsesStore(env) && Answers(s.host.store, s.durable)
    ensures var s' := AdoptById(env, s, id, ids, installedAt).1; Answers(s'.host.store, s'.durable)
  {
    hide VerifyPresence, Answers, Persist, UsesStore;
    var presence := VerifyPresence(env, s.host, ids);
    if presence.Success? && presence.value.Present? {
      var record := AdoptedRecord(ids, presence.value.version, if installedAt.Some? then installedAt.value else env.now(s.host));
      PersistAnswers(env, s.(records := s.records[id := record]));
    }
  }

  lemma StepAnswers<H(!new)>(env: Env<Stored<H>>, s: State<Stored<H>>, v: Verb)
    requires UsesStore(env) && Answers(s.host.store, s.durable)
    ensures var s' := Step(env, s, v).1; Answers(s'.host.store, s'.durable)
  {
    hide InstallStage, StatusFor, ForeignFor, UninstallById, UninstallApp, UpdateById, AdoptById, Answers, UsesStore;
    match v {
      case DoEnsure(app, opts, _) => InstallAnswers(env, s, app, opts);
      case DoUninstall(id, opts) => UninstallAnswers(env, s, id, opts);
      case DoUninstallApp(app, opts) => UninstallAppAnswers(env, s, app, opts);
      case DoUpdate(id, opts) => UpdateAnswers(env, s, id, opts);
      case DoAdopt(id, ids, installedAt) => AdoptAnswers(env, s, id, ids, installedAt);
    }
  }

  // ---------------------------------------------------------------------------
  // Runs
  // ---------------------------------------------------------------------------

  lemma {:induction false} RunAnswers<H(!new)>(env: Env<Stored<H>>, s: State<Stored<H>>, verbs: seq<Verb>)
    requires UsesStore(env) && Answers(s.host.store, s.durable)
    ensures var end := Run(env, s, verbs).1; Answers(end.host.store, end.durable)
    decreases |verbs|
  {
    hide Step, Answers, UsesStore;
    if verbs != [] {
      var n := |verbs| - 1;
      RunAnswers(env, s, verbs[..n]);
      StepAnswers(env, Run(env, s, verbs[..n]).1, verbs[n]);
    }
  }

  /** The store a facade was built from answers the ledger it was built with, also
      after a corrupt document was set aside. */
  lemma BuiltAnswers(store: S.Store<Ledger>, fault: S.LoadFault)
    requires S.Loaded(store, map[], fault).0.Success?
    ensures Answers(S.Loaded(store, map[], fault).1, S.Loaded(store, map[], fault).0.value.ledger)
  {
    if store.name in store.files { S.QuarantineKeepsBytes(store, map[], fault); }
  }

  /** From a build over any store, through any calls, batches included, with saves
      failing in any way at any of them: loading the store at the end answers the
      ledger the facade takes for durable, which is its working ledger as of the
      last save that worked. */
  lemma StoreHoldsLastSave<H(!new)>(env: Env<Stored<H>>, outside: H, store: S.Store<Ledger>, fault: S.LoadFault, calls: seq<Call>)
    requires UsesStore(env) && S.Loaded(store, map[], fault).0.Success?
    ensures var (load, store1) := S.Loaded(store, map[], fault);
            var s := State(load.value.ledger, load.value.ledger, Stored(outside, store1), []);
            var end, verbs := Calls(env, s, calls), VerbsOf(env, s, calls);
            var n := LastSave(Run(env, s, verbs).0);
            && Answers(end.host.store, end.durable)
            && n <= |verbs| && end.durable == Run(env, s, verbs[..n]).1.records
  {
    hide Run, Calls, VerbsOf, Answers, UsesStore, LastSave, S.Loaded;
    var (load, store1) := S.Loaded(store, map[], fault);
    var s := State(load.value.ledger, load.value.ledger, Stored(outside, store1), []);
    BuiltAnswers(store, fault);
    CallsAreRun(env, s, calls);
    RunAnswers(env, s, VerbsOf(env, s, calls));
    DurableAsOfLastSave(env, s, VerbsOf(env, s, calls));
  }
}
