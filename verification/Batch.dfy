/** The batch verb against the single one: a shared listing answers what a fresh
    one would, while the batch itself changes the host. */
module Batch {
  import opened Wrappers
  import opened Registry
  import opened Listing
  import opened Plan
  import opened Records
  import opened Host
  import opened Facade
  import Text

  type Row = (BackendId, string)

  function RowOf(ids: NativeIds): Row {
    (ids.Backend(), ids.NativeId())
  }

  /** Two host states list this row alike. */
  predicate SameRow<H>(env: Env<H>, h: H, h': H, row: Row) {
    var before, after := env.listing(h, row.0), env.listing(h', row.0);
    && (before.Success? <==> after.Success?)
    && (before.Success? ==> StatusFromListing(before.value, row.1) == StatusFromListing(after.value, row.1))
  }

  /** An install, successful or not, changes no listed row but its own. */
  ghost predicate InstallsOwnRow<H(!new)>(env: Env<H>) {
    forall h, plan, row: Row | NativeIdsFromExecuted(plan).Some? && ListingBacked(row.0) ::
      row != RowOf(NativeIdsFromExecuted(plan).value) ==> SameRow(env, h, env.install(h, plan).1, row)
  }

  /** Saving the ledger changes no listing. */
  ghost predicate SavesNoRow<H(!new)>(env: Env<H>) {
    forall h, ledger, row: Row :: SameRow(env, h, env.save(h, ledger).1, row)
  }

  /** The row an install of the app puts on its backend: the one the app's own
      identifiers name, but for a flatpak id only the part before a separator. */
  predicate Owns(app: App, row: Row) {
    match app.install
    case FlatpakMethod(appId, _) => row == (Flatpak, Text.Split(appId, '/')[0])
    case _ => NativeIdsFor(app).Some? && row == RowOf(NativeIdsFor(app).value)
  }

  /** No item of the batch is checked at a row that an earlier one installs. */
  predicate DistinctRows(apps: seq<App>) {
    forall i, j | 0 <= i < j < |apps| ::
      NativeIdsFor(apps[j]).Some? && ListingBacked(NativeIdsFor(apps[j]).value.Backend()) ==>
        !Owns(apps[i], RowOf(NativeIdsFor(apps[j]).value))
  }

  /** An executed install's row is the one the app owns, for the backends that are
      checked by listing, whatever the app is called. */
  lemma ExecutedRow(app: App, target: Target, version: Option<Version>)
    requires PlanInstall(app, target, version).Success?
    requires NativeIdsFromExecuted(PlanInstall(app, target, version).value).Some?
    ensures var ids := NativeIdsFromExecuted(PlanInstall(app, target, version).value).value;
            ListingBacked(ids.Backend()) ==> Owns(app, RowOf(ids))
  {
    hide Spellable, SpecJoined, ClaimsAllow, FlatpakRef, LanguageVersion, AppIdFromRef, Text.Split;
    if app.install.FlatpakMethod? {
      FlatpakArchPlain(target.arch);
      var branch := if version.Some? then version.value else "stable";
      RefNamesFirst(app.install.appId, FlatpakArch(target.arch).value, branch);
    }
  }

  lemma RefNamesFirst(appId: string, arch: string, branch: string)
    requires '/' !in arch && '/' !in branch
    ensures var read := AppIdFromRef(FlatpakRef(appId, arch, branch));
            read.Some? ==> read.value == Text.Split(appId, '/')[0]
  {
    hide Text.Split, FlatpakRef;
    FlatpakRefParts(appId, arch, branch);
    var tail := arch + "/" + branch;
    assert appId + "/" + arch + "/" + branch == appId + ['/'] + tail;
    Text.SplitFirst(appId, '/', tail);
  }

  lemma ExecuteMovesHost<H, T>(run: (H, Plan) -> (Probed<T>, H), s: State<H>, plan: Plan, elevated: bool)
    ensures var (_, s') := Execute(run, s, plan, elevated);
            s'.host == s.host || s'.host == run(s.host, plan).1
  {
  }

  lemma InstallStageKeepsRow<H(!new)>(env: Env<H>, s: State<H>, app: App, opts: EnsureOptions, row: Row)
    requires InstallsOwnRow(env) && SavesNoRow(env)
    requires ListingBacked(row.0) && !Owns(app, row)
    ensures SameRow(env, s.host, InstallStage(env, s, app, opts).1.host, row)
  {
    hide SameRow, PlanInstall, NativeIdsFromExecuted, Verification, Owns;
    SameRowReflexive(env, s.host, row);
    var version := VersionForPlan(env, s.host, app, opts.version);
    var planned := PlanInstall(app, env.target, version);
    if planned.Success? && NativeIdsFromExecuted(planned.value).Some? {
      var plan := planned.value;
      ExecutedRow(app, env.target, version);
      var (r, s1) := Execute(env.install, s, plan, opts.elevated);
      ExecuteMovesHost(env.install, s, plan, opts.elevated);
      assert SameRow(env, s.host, s1.host, row);
      if r.Success? {
        var end := RecordInstall(env, s1, plan, NativeIdsFromExecuted(plan).value, r.value).1;
        RecordMovesHost(env, s1, plan, NativeIdsFromExecuted(plan).value, r.value, row);
        SameRowTransitive(env, s.host, s1.host, end.host, row);
      }
    }
  }

  lemma RecordMovesHost<H(!new)>(env: Env<H>, s: State<H>, plan: Plan, ids: NativeIds, reported: Option<string>, row: Row)
    requires SavesNoRow(env)
    ensures SameRow(env, s.host, RecordInstall(env, s, plan, ids, reported).1.host, row)
  {
    hide SameRow, Verification;
  }

  lemma SameRowReflexive<H>(env: Env<H>, h: H, row: Row)
    ensures SameRow(env, h, h, row)
  {
  }

  lemma SameRowTransitive<H>(env: Env<H>, a: H, b: H, c: H, row: Row)
    requires SameRow(env, a, b, row) && SameRow(env, b, c, row)
    ensures SameRow(env, a, c, row)
  {
  }

  /** Every item's own row is still answered by the cache as it would be now. */
  predicate AllFresh<H>(env: Env<H>, h: H, cache: Cache, apps: seq<App>) {
    forall i | 0 <= i < |apps| ::
      NativeIdsFor(apps[i]).Some? ==>
        CacheFresh(env, h, cache, NativeIdsFor(apps[i]).value.Backend(), NativeIdsFor(apps[i]).value.NativeId())
  }

  /** One item with a fresh cache is the single verb. */
  lemma ListedIsSingle<H>(env: Env<H>, s: State<H>, app: App, opts: EnsureOptions, cache: Cache)
    requires NativeIdsFor(app).Some? ==>
               CacheFresh(env, s.host, cache, NativeIdsFor(app).value.Backend(), NativeIdsFor(app).value.NativeId())
    ensures var (r, s', _) := EnsureListed(env, s, app, opts, cache);
            (r, s') == Ensure(env, s, app, opts)
  {
    hide NativeIdsFor, CacheFresh, ForeignShared, InstallStage, StatusFor, ForeignStatus;
    if NativeIdsFor(app).Some? {
      var ids := NativeIdsFor(app).value;
      SharedIsSingle(env, s.host, ids, cache);
      assert CacheFresh(env, s.host, EMPTY_CACHE, ids.Backend(), ids.NativeId()) by { NothingKept(env, s.host, ids); }
      SharedIsSingle(env, s.host, ids, EMPTY_CACHE);
    }
  }

  lemma NothingKept<H>(env: Env<H>, h: H, ids: NativeIds)
    ensures CacheFresh(env, h, EMPTY_CACHE, ids.Backend(), ids.NativeId())
  {
  }

  /** After one item, the cache still answers for a row that item does not own. */
  lemma StepKeepsFresh<H(!new)>(env: Env<H>, s: State<H>, app: App, opts: EnsureOptions, cache: Cache, ids: NativeIds)
    requires InstallsOwnRow(env) && SavesNoRow(env)
    requires !ListingBacked(ids.Backend()) || !Owns(app, RowOf(ids))
    requires CacheFresh(env, s.host, cache, ids.Backend(), ids.NativeId())
    requires forall b :: b in cache.listings ==> ListingBacked(b)
    ensures var (_, s', cache') := EnsureListed(env, s, app, opts, cache);
            CacheFresh(env, s'.host, cache', ids.Backend(), ids.NativeId())
            && forall b :: b in cache'.listings ==> ListingBacked(b)
  {
    hide InstallStage, StatusFor, StatusFromListing, Owns, InstallsOwnRow, SavesNoRow, NativeIdsFor, ForeignStatus;
    var (_, s', cache') := EnsureListed(env, s, app, opts, cache);
    var b := ids.Backend();
    if NativeIdsFor(app).Some? {
      SharedAdds(env, s.host, NativeIdsFor(app).value, cache, b);
      SharedKeepsListed(env, s.host, NativeIdsFor(app).value, cache);
    }
    if ListingBacked(b) {
      InstallStageKeepsRow(env, s, app, opts, RowOf(ids));
      SameRowReflexive(env, s.host, RowOf(ids));
    }
  }

  lemma SharedKeepsListed<H>(env: Env<H>, h: H, ids: NativeIds, cache: Cache)
    requires forall b :: b in cache.listings ==> ListingBacked(b)
    ensures forall b :: b in ForeignShared(env, h, ids, cache).1.listings ==> ListingBacked(b)
  {
    hide ForeignStatus, StatusFromListing;
  }

  lemma {:induction false} BatchFrom<H(!new)>(env: Env<H>, s: State<H>, apps: seq<App>, opts: EnsureOptions, cache: Cache)
    requires InstallsOwnRow(env) && SavesNoRow(env)
    requires DistinctRows(apps)
    requires AllFresh(env, s.host, cache, apps) && forall b :: b in cache.listings ==> ListingBacked(b)
    ensures var (outcomes, s', _) := EnsureMany(env, s, apps, opts, cache);
            (outcomes, s') == EnsureEach(env, s, apps, opts)
    decreases |apps|
  {
    hide EnsureListed, Ensure, InstallsOwnRow, SavesNoRow, CacheFresh, Owns, NativeIdsFor;
    if apps != [] {
      ListedIsSingle(env, s, apps[0], opts, cache);
      var (_, s1, c1) := EnsureListed(env, s, apps[0], opts, cache);
      var rest := apps[1..];
      KeptListed(env, s, apps[0], opts, cache);
      forall i | 0 <= i < |rest| && NativeIdsFor(rest[i]).Some?
        ensures CacheFresh(env, s1.host, c1, NativeIdsFor(rest[i]).value.Backend(), NativeIdsFor(rest[i]).value.NativeId())
      {
        assert rest[i] == apps[i + 1];
        StepKeepsFresh(env, s, apps[0], opts, cache, NativeIdsFor(rest[i]).value);
      }
      assert DistinctRows(rest) by {
        forall i, j | 0 <= i < j < |rest| ensures rest[i] == apps[i + 1] && rest[j] == apps[j + 1] {}
      }
      BatchFrom(env, s1, rest, opts, c1);
    }
  }

  lemma KeptListed<H>(env: Env<H>, s: State<H>, app: App, opts: EnsureOptions, cache: Cache)
    requires forall b :: b in cache.listings ==> ListingBacked(b)
    ensures forall b :: b in EnsureListed(env, s, app, opts, cache).2.listings ==> ListingBacked(b)
  {
    hide InstallStage, StatusFor, ForeignShared, NativeIdsFor;
    if NativeIdsFor(app).Some? { SharedKeepsListed(env, s.host, NativeIdsFor(app).value, cache); }
  }

  /** For every batch whose items own distinct listed rows, on a host where an
      install changes no other row, the batch verb gives the outcomes, ledgers,
      commands and host that the single verb gives item after item. */
  lemma BatchIsEach<H(!new)>(env: Env<H>, s: State<H>, apps: seq<App>, opts: EnsureOptions)
    requires InstallsOwnRow(env) && SavesNoRow(env)
    requires DistinctRows(apps)
    ensures var (outcomes, s', _) := EnsureMany(env, s, apps, opts, EMPTY_CACHE);
            (outcomes, s') == EnsureEach(env, s, apps, opts)
  {
    hide InstallsOwnRow, SavesNoRow, EnsureMany, EnsureEach, DistinctRows;
    BatchFrom(env, s, apps, opts, EMPTY_CACHE);
  }

  lemma {:induction false} BatchSound<H>(env: Env<H>, s: State<H>, apps: seq<App>, opts: EnsureOptions, cache: Cache)
    requires CacheSound(cache)
    ensures CacheSound(EnsureMany(env, s, apps, opts, cache).2)
    decreases |apps|
  {
    hide CacheSound, InstallStage, StatusFor, ForeignShared, NativeIdsFor;
    if apps != [] {
      if NativeIdsFor(apps[0]).Some? { ForeignSharedSound(env, s.host, NativeIdsFor(apps[0]).value, cache); }
      var (_, s1, c1) := EnsureListed(env, s, apps[0], opts, cache);
      BatchSound(env, s1, apps[1..], opts, c1);
    }
  }

  /** A whole batch lists each backend successfully at most once, runs no listing
      command for a backend after that, and keeps exactly the listings that
      succeeded. */
  lemma BatchListsOnce<H>(env: Env<H>, s: State<H>, apps: seq<App>, opts: EnsureOptions)
    ensures var cache := EnsureMany(env, s, apps, opts, EMPTY_CACHE).2;
            && (forall b :: b in cache.listings <==> ListCall(b, true) in cache.calls)
            && (forall i, j :: 0 <= i < j < |cache.calls| && cache.calls[i].ok ==>
                  cache.calls[j].backend != cache.calls[i].backend)
  {
    hide EnsureMany;
    BatchSound(env, s, apps, opts, EMPTY_CACHE);
  }

  // ---------------------------------------------------------------------------
  // When a shared listing gives another answer
  // ---------------------------------------------------------------------------

  lemma InstallStageNeverPresent<H>(env: Env<H>, s: State<H>, app: App, opts: EnsureOptions)
    ensures var r := InstallStage(env, s, app, opts).0; r.Success? ==> r.value.NowInstalled?
  {
    hide PlanInstall, NativeIdsFromExecuted, Verification, VersionForPlan;
  }

  /** The check of this item looks at its backend's listing. */
  predicate Asks<H>(env: Env<H>, s: State<H>, app: App) {
    && app.id !in s.records
    && NativeIdsFor(app).Some?
    && ListingBacked(NativeIdsFor(app).value.Backend())
    && Attached(env, NativeIdsFor(app).value.Backend())
  }

  /** The row and the listing an asking item is about. */
  function AskedRow(app: App): Row
    requires NativeIdsFor(app).Some?
  {
    RowOf(NativeIdsFor(app).value)
  }

  /** The host on which each backend was first listed, one item later. */
  function Listed<H>(env: Env<H>, s: State<H>, app: App, since: map<BackendId, H>): map<BackendId, H> {
    if Asks(env, s, app) && AskedRow(app).0 !in since && env.listing(s.host, AskedRow(app).0).Success?
    then since[AskedRow(app).0 := s.host]
    else since
  }

  /** Along the single verbs, a backend that has been listed lists again when a
      later item asks. */
  predicate ListsAgain<H>(env: Env<H>, s: State<H>, apps: seq<App>, opts: EnsureOptions, since: map<BackendId, H>)
    decreases |apps|
  {
    apps == [] || (
      && (Asks(env, s, apps[0]) && AskedRow(apps[0]).0 in since ==> env.listing(s.host, AskedRow(apps[0]).0).Success?)
      && ListsAgain(env, Ensure(env, s, apps[0], opts).1, apps[1..], opts, Listed(env, s, apps[0], since)))
  }

  /** Along the single verbs, each item that asks finds its row as it was on the
      host on which its backend was first listed. */
  predicate RowsUnmoved<H>(env: Env<H>, s: State<H>, apps: seq<App>, opts: EnsureOptions, since: map<BackendId, H>)
    decreases |apps|
  {
    apps == [] || (
      && (Asks(env, s, apps[0]) && AskedRow(apps[0]).0 in since && opts.version.None? ==>
            SameRow(env, since[AskedRow(apps[0]).0], s.host, AskedRow(apps[0])))
      && RowsUnmoved(env, Ensure(env, s, apps[0], opts).1, apps[1..], opts, Listed(env, s, apps[0], since)))
  }

  /** The cache holds the listings of those hosts. */
  ghost predicate TakenOn<H>(env: Env<H>, cache: Cache, since: map<BackendId, H>) {
    && cache.listings.Keys == since.Keys
    && forall b :: b in since ==> env.listing(since[b], b) == Success(cache.listings[b])
  }

  /** For one item over a cache: it answers what the single verb answers exactly
      when it does not ask, asks with a version, asks first, or finds its row as it
      was when the kept listing was taken; and then it does what the single verb
      does. */
  lemma KeptAnswerExact<H>(env: Env<H>, s: State<H>, app: App, opts: EnsureOptions, cache: Cache, since: map<BackendId, H>)
    requires TakenOn(env, cache, since)
    requires Asks(env, s, app) && AskedRow(app).0 in since ==> env.listing(s.host, AskedRow(app).0).Success?
    ensures var (r, s', cache') := EnsureListed(env, s, app, opts, cache);
            var same := Asks(env, s, app) && AskedRow(app).0 in since && opts.version.None? ==>
                          SameRow(env, since[AskedRow(app).0], s.host, AskedRow(app));
            && (r == Ensure(env, s, app, opts).0 <==> same)
            && (same ==> (r, s') == Ensure(env, s, app, opts))
            && TakenOn(env, cache', Listed(env, s, app, since))
  {
    hide InstallStage, StatusFromListing, NativeIdsFor, RecordedStatus, VersionSatisfied, StatusOf;
    InstallStageNeverPresent(env, s, app, opts);
  }

  lemma SameHead<T>(x: T, y: T, a: seq<T>, b: seq<T>)
    ensures [x] + a == [y] + b <==> x == y && a == b
  {
    if [x] + a == [y] + b {
      assert ([x] + a)[0] == ([y] + b)[0];
      assert ([x] + a)[1..] == a && ([y] + b)[1..] == b;
    }
  }

  lemma {:induction false} BatchExactFrom<H>(env: Env<H>, s: State<H>, apps: seq<App>, opts: EnsureOptions,
                                             cache: Cache, since: map<BackendId, H>)
    requires TakenOn(env, cache, since) && ListsAgain(env, s, apps, opts, since)
    ensures var (outcomes, s', _) := EnsureMany(env, s, apps, opts, cache);
            && (outcomes == EnsureEach(env, s, apps, opts).0 <==> RowsUnmoved(env, s, apps, opts, since))
            && (RowsUnmoved(env, s, apps, opts, since) ==> (outcomes, s') == EnsureEach(env, s, apps, opts))
    decreases |apps|
  {
    hide EnsureListed, Ensure, TakenOn, Asks, SameRow, NativeIdsFor, Listed;
    if apps != [] {
      KeptAnswerExact(env, s, apps[0], opts, cache, since);
      var (r, s1, c1) := EnsureListed(env, s, apps[0], opts, cache);
      var (r2, s2) := Ensure(env, s, apps[0], opts);
      SameHead(BatchOutcome(apps[0].id, r), BatchOutcome(apps[0].id, r2),
               EnsureMany(env, s1, apps[1..], opts, c1).0, EnsureEach(env, s2, apps[1..], opts).0);
      if r == r2 { BatchExactFrom(env, s1, apps[1..], opts, c1, Listed(env, s, apps[0], since)); }
    }
  }

  /** For every batch on every host whose backends, once listed, list again: the
      batch verb answers what the single verb answers item after item exactly when
      no item that asks without a version finds its row other than it was when its
      backend was first listed; and then ledgers, commands and host are the same
      too. */
  lemma BatchExact<H>(env: Env<H>, s: State<H>, apps: seq<App>, opts: EnsureOptions)
    requires ListsAgain(env, s, apps, opts, map[])
    ensures var (outcomes, s', _) := EnsureMany(env, s, apps, opts, EMPTY_CACHE);
            && (outcomes == EnsureEach(env, s, apps, opts).0 <==> RowsUnmoved(env, s, apps, opts, map[]))
            && ((outcomes, s') == EnsureEach(env, s, apps, opts) <==> RowsUnmoved(env, s, apps, opts, map[]))
  {
    hide EnsureMany, EnsureEach, RowsUnmoved, ListsAgain;
    BatchExactFrom(env, s, apps, opts, EMPTY_CACHE, map[]);
  }

  /** Two unrecorded apps that name one listed row, without a version: the batch is
      the single verb twice exactly when the first one left the row's status as it
      was. */
  lemma SharedRowExact<H>(env: Env<H>, s: State<H>, a: App, b: App, opts: EnsureOptions)
    requires opts.version.None? && Asks(env, s, a) && Asks(env, Ensure(env, s, a, opts).1, b)
    requires AskedRow(a) == AskedRow(b)
    requires env.listing(s.host, AskedRow(a).0).Success?
    requires env.listing(Ensure(env, s, a, opts).1.host, AskedRow(a).0).Success?
    ensures var (outcomes, s', _) := EnsureMany(env, s, [a, b], opts, EMPTY_CACHE);
            (outcomes, s') == EnsureEach(env, s, [a, b], opts)
            <==> SameRow(env, s.host, Ensure(env, s, a, opts).1.host, AskedRow(a))
  {
    hide Ensure, EnsureMany, EnsureEach, SameRow, NativeIdsFor;
    var s1 := Ensure(env, s, a, opts).1;
    var since := Listed(env, s, a, map[]);
    assert [a, b][1..] == [b] && [b][1..] == [];
    assert since == map[AskedRow(a).0 := s.host];
    assert ListsAgain(env, s1, [b], opts, since);
    assert RowsUnmoved(env, s1, [b], opts, since) <==> SameRow(env, s.host, s1.host, AskedRow(a));
    assert ListsAgain(env, s, [a, b], opts, map[]);
    BatchExact(env, s, [a, b], opts);
  }

  /** A host with nothing but npm, whose state is whether package `x` is there: the
      one package that can be installed and removed. */
  function NpmHost(): Env<bool> {
    Env(Target(Linux, X86_64, None), {Npm}, None,
        (h: bool, b: BackendId) => Success(if h && b.Npm? then [InstalledApp("x", None)] else []),
        (h: bool, cask: bool, token: string) => Success(None),
        (h: bool, scope: FlatpakInstallation) => Success([]),
        (h: bool, b: BackendId, id: string) => Success(Absent),
        (h: bool, ids: NativeIds) => Success(None),
        (h: bool, ids: NativeIds) => Success([]),
        (h: bool, plan: Plan) => (Success(None), h || NativeIdsFromExecuted(plan) == Some(NpmIds("x"))),
        (h: bool, plan: Plan) => (Success(()), h && plan.operation != NpmUninstall("x", true)),
        (h: bool, plan: Plan) => (Success(()), h),
        (h: bool) => 0,
        (h: bool, ledger: Ledger) => (true, h))
  }

  /** Such a host meets what the batch theorem asks of a host. */
  lemma NpmHostKeepsRows()
    ensures InstallsOwnRow(NpmHost()) && SavesNoRow(NpmHost())
  {
    hide NativeIdsFromExecuted, ListingBacked, StatusFromListing;
    var env := NpmHost();
    forall h, plan, row: Row | NativeIdsFromExecuted(plan).Some? && row != RowOf(NativeIdsFromExecuted(plan).value)
      ensures SameRow(env, h, env.install(h, plan).1, row)
    {
      OnlyRowX(row.1);
    }
  }

  lemma OnlyRowX(id: string)
    ensures id != "x" ==> StatusFromListing([InstalledApp("x", None)], id) == StatusFromListing([], id)
  {
  }

  /** For instance, two ids that name one package: the single verb finds the second one present
      after the first is installed; the batch, answering from the listing it took
      before, installs it again. The host is one where batches of distinct rows
      agree (`NpmHostKeepsRows`). */
  lemma SharedRowDiverges(opts: EnsureOptions)
    requires opts.version.None?
    ensures var env := NpmHost();
            var a, b := App("a", [], NpmMethod("x", None), Available), App("b", [], NpmMethod("x", None), Available);
            var s := State(map[], map[], false, []);
            && EnsureMany(env, s, [a, b], opts, EMPTY_CACHE).1.dispatched
               != EnsureEach(env, s, [a, b], opts).1.dispatched
            && BatchOutcome("b", Success(AlreadyPresent(Foreign(Npm, None)))) in EnsureEach(env, s, [a, b], opts).0
  {
    var env := NpmHost();
    var a, b := App("a", [], NpmMethod("x", None), Available), App("b", [], NpmMethod("x", None), Available);
    var s := State(map[], map[], false, []);
    FirstInstalls(a, s, opts);
    var (r1, s1, c1) := EnsureListed(env, s, a, opts, EMPTY_CACHE);
    SecondInstalls(b, s1, opts, c1);
    SecondIsPresent(b, s1, opts);
    assert [a, b][1..] == [b] && [b][1..] == [];
    var (r2, s2, c2) := EnsureListed(env, s1, b, opts, c1);
    assert EnsureMany(env, s2, [], opts, c2) == ([], s2, c2);
    assert EnsureMany(env, s1, [b], opts, c1).1 == s2;
    assert EnsureMany(env, s, [a, b], opts, EMPTY_CACHE).1 == s2;
    assert EnsureEach(env, s1, [], opts) == ([], s1);
    assert EnsureEach(env, s1, [b], opts) == ([BatchOutcome("b", Success(AlreadyPresent(Foreign(Npm, None))))] + [], s1);
    assert EnsureEach(env, s, [a, b], opts).1 == s1;
  }

  lemma NpmInstallRuns(app: App, s: State<bool>, opts: EnsureOptions)
    requires app == App(app.id, [], NpmMethod("x", None), Available) && opts.version.None?
    ensures var (r, s') := InstallStage(NpmHost(), s, app, opts);
            && s'.host && |s'.dispatched| == |s.dispatched| + 1
            && s'.records.Keys == s.records.Keys + {app.id}
  {
  }

  lemma FirstInstalls(a: App, s: State<bool>, opts: EnsureOptions)
    requires a == App("a", [], NpmMethod("x", None), Available) && opts.version.None?
    requires s == State(map[], map[], false, [])
    ensures var (r, s', c) := EnsureListed(NpmHost(), s, a, opts, EMPTY_CACHE);
            && s'.host && |s'.dispatched| == 1 && s'.records.Keys == {"a"}
            && c.listings == map[Npm := []]
  {
    hide InstallStage;
    NpmInstallRuns(a, s, opts);
  }

  lemma SecondInstalls(b: App, s: State<bool>, opts: EnsureOptions, c: Cache)
    requires b == App("b", [], NpmMethod("x", None), Available) && opts.version.None?
    requires s.host && s.records.Keys == {"a"} && c.listings == map[Npm := []]
    ensures |EnsureListed(NpmHost(), s, b, opts, c).1.dispatched| == |s.dispatched| + 1
  {
    hide InstallStage;
    NpmInstallRuns(b, s, opts);
  }

  lemma SecondIsPresent(b: App, s: State<bool>, opts: EnsureOptions)
    requires b == App("b", [], NpmMethod("x", None), Available) && opts.version.None?
    requires s.host && s.records.Keys == {"a"}
    ensures Ensure(NpmHost(), s, b, opts) == (Success(AlreadyPresent(Foreign(Npm, None))), s)
  {
    hide InstallStage;
    var apps := [InstalledApp("x", None)];
    assert Restrict(apps[1..], ["x"]) == [];
    assert Restrict(apps, ["x"]) == [apps[0]] + [];
  }
}
