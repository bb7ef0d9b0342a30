/** Detection over every source: one name at a time, and many names in one pass
    that shares the listings and the architecture probe. */
module Detect {
  import opened Wrappers
  import opened Registry
  import opened Listing
  import opened Merge
  import opened PathSearch
  import opened ArchProbe

  /** One attached backend's listing probe: no ids lists everything; no answer is
      a failing listing. */
  datatype Probe = Probe(source: Source, list: seq<string> -> Option<seq<InstalledApp>>)

  datatype Detector = Detector(
    disk: Disk,
    dirs: seq<string>,
    extensions: seq<string>,
    shimDir: Option<string>,
    file: FileCommand,
    arch: Arch,
    backends: seq<Probe>)

  /** Asking for ids is asking for everything and keeping those rows, and whether
      a listing fails does not depend on what is asked. */
  ghost predicate Restricts(p: Probe) {
    forall ids :: ids != [] ==>
      p.list(ids) == match p.list([]) case None => None case Some(apps) => Some(Restrict(apps, ids))
  }

  function HitOf(source: Source, app: InstalledApp): Detection {
    Detection(app.id, app.version, None, source, if app.version.Some? then High else Medium,
              None, false, false, false)
  }

  function HitsFromRows(source: Source, apps: seq<InstalledApp>): (hits: seq<Detection>)
    ensures |hits| == |apps|
    ensures forall i :: 0 <= i < |apps| ==> hits[i] == HitOf(source, apps[i])
  {
    seq(|apps|, i requires 0 <= i < |apps| => HitOf(source, apps[i]))
  }

  function OrEmpty(listing: Option<seq<InstalledApp>>): seq<InstalledApp> {
    if listing.Some? then listing.value else []
  }

  function FirstExecutable(disk: Disk, dir: string, names: seq<string>): Option<string> {
    if names == [] then None
    else if disk.isExecutable(disk.join(dir, names[0])) then Some(disk.join(dir, names[0]))
    else FirstExecutable(disk, dir, names[1..])
  }

  function ShimHits(d: Detector, name: string): seq<Detection> {
    match d.shimDir
    case None => []
    case Some(dir) =>
      match FirstExecutable(d.disk, dir, Candidates(name, d.extensions))
      case None => []
      case Some(path) =>
        [Detection(name, None, Some(OnDiskCasing(d.disk, path)), MiseShim, Medium, None, false, false, false)]
  }

  function PathFound(d: Detector, name: string): seq<Hit> {
    Found(d.disk, Places(d.disk, d.dirs, Candidates(name, d.extensions)))
  }

  function ProbeKeys(hits: seq<Hit>): (keys: seq<string>)
    ensures |keys| == |hits| && forall i :: 0 <= i < |hits| ==> keys[i] == hits[i].1
  {
    seq(|hits|, i requires 0 <= i < |hits| => hits[i].1)
  }

  // ---------------------------------------------------------------------------
  // One name
  // ---------------------------------------------------------------------------

  function BackendHits(backends: seq<Probe>, name: string): seq<Detection> {
    if backends == [] then []
    else
      var n := |backends| - 1;
      BackendHits(backends[..n], name) + HitsFromRows(backends[n].source, OrEmpty(backends[n].list([name])))
  }

  function HitsFor(d: Detector, name: string): seq<Detection> {
    var hits := PathFound(d, name);
    PathDetections(d.disk, name, hits, BatchedMismatches(d.file, d.arch, ProbeKeys(hits)))
    + ShimHits(d, name) + BackendHits(d.backends, name)
  }

  function Detected(d: Detector, name: string): seq<Detection> {
    Merged(d.disk.canonical, HitsFor(d, name))
  }

  method DetectOne(d: Detector, name: string) returns (hits: seq<Detection>)
    ensures hits == Detected(d, name)
  {
    hide Found, Places, Candidates, ShimHits, BatchedMismatches, PathDetections, Merged, BackendHits;
    var candidates := PathCandidates(d.disk, d.dirs, Candidates(name, d.extensions));
    var arch := BatchedArchMismatches(d.file, d.arch, ProbeKeys(candidates));
    hits := DetectionsFromCandidates(d.disk, name, candidates, arch);
    hits := hits + ShimHits(d, name);
    ghost var own := hits;
    NoBackends(d.backends, name);
    assert own + [] == own;
    for i := 0 to |d.backends|
      invariant hits == own + BackendHits(d.backends[..i], name)
    {
      var probe := d.backends[i];
      OneMoreBackend(d.backends, i, name);
      hits := hits + HitsFromRows(probe.source, OrEmpty(probe.list([name])));
    }
    assert d.backends[..|d.backends|] == d.backends;
    hits := MergeByCanonicalPath(d.disk.canonical, hits);
  }

  lemma NoBackends(backends: seq<Probe>, name: string)
    ensures BackendHits(backends[..0], name) == []
  {
  }

  lemma OneMoreBackend(backends: seq<Probe>, i: nat, name: string)
    requires i < |backends|
    ensures BackendHits(backends[..i + 1], name)
            == BackendHits(backends[..i], name) + HitsFromRows(backends[i].source, OrEmpty(backends[i].list([name])))
  {
    assert backends[..i + 1][..i] == backends[..i];
  }

  // ---------------------------------------------------------------------------
  // Many names
  // ---------------------------------------------------------------------------

  type SourceRows = (Source, seq<InstalledApp>)

  function Listings(backends: seq<Probe>, names: seq<string>): (r: seq<SourceRows>)
    ensures |r| == |backends|
    ensures forall i :: 0 <= i < |r| ==> r[i] == (backends[i].source, OrEmpty(backends[i].list(names)))
  {
    seq(|backends|, i requires 0 <= i < |backends| => (backends[i].source, OrEmpty(backends[i].list(names))))
  }

  function ListedHits(listings: seq<SourceRows>, name: string): seq<Detection> {
    if listings == [] then []
    else
      var n := |listings| - 1;
      ListedHits(listings[..n], name) + HitsFromRows(listings[n].0, Restrict(listings[n].1, [name]))
  }

  function AllKeys(d: Detector, names: seq<string>): seq<string> {
    if names == [] then []
    else AllKeys(d, names[..|names| - 1]) + ProbeKeys(PathFound(d, names[|names| - 1]))
  }

  function SharedHits(d: Detector, name: string, arch: map<string, bool>, listings: seq<SourceRows>): seq<Detection> {
    PathDetections(d.disk, name, PathFound(d, name), arch) + ShimHits(d, name) + ListedHits(listings, name)
  }

  function SharedPass(d: Detector, names: seq<string>, arch: map<string, bool>, listings: seq<SourceRows>): seq<Detection> {
    if names == [] then []
    else
      var n := |names| - 1;
      SharedPass(d, names[..n], arch, listings)
      + Merged(d.disk.canonical, SharedHits(d, names[n], arch, listings))
  }

  function DetectedMany(d: Detector, names: seq<string>): seq<Detection> {
    if names == [] then []
    else SharedPass(d, names, BatchedMismatches(d.file, d.arch, AllKeys(d, names)), Listings(d.backends, names))
  }

  method DetectMany(d: Detector, names: seq<string>) returns (merged: seq<Detection>)
    ensures merged == DetectedMany(d, names)
  {
    hide Found, Places, Candidates, ShimHits, BatchedMismatches, PathDetections, Merged, ListedHits, Restrict, AllKeys, SharedPass, ProbeKeys, HitsFromRows, Listings, OrEmpty;
    if names == [] { return []; }
    var candidates: seq<seq<Hit>> := [];
    var shims: seq<seq<Detection>> := [];
    var keys: seq<string> := [];
    NoNames(d, names);
    for i := 0 to |names|
      invariant |candidates| == |shims| == i
      invariant forall j :: 0 <= j < i ==> candidates[j] == PathFound(d, names[j]) && shims[j] == ShimHits(d, names[j])
      invariant keys == AllKeys(d, names[..i])
    {
      var found := PathCandidates(d.disk, d.dirs, Candidates(names[i], d.extensions));
      MoreKeys(d, names, i);
      keys := keys + ProbeKeys(found);
      candidates := candidates + [found];
      shims := shims + [ShimHits(d, names[i])];
    }
    assert names[..|names|] == names;
    var arch := BatchedArchMismatches(d.file, d.arch, keys);
    var listings: seq<SourceRows> := [];
    for i := 0 to |d.backends|
      invariant listings == Listings(d.backends, names)[..i]
    {
      listings := listings + [(d.backends[i].source, OrEmpty(d.backends[i].list(names)))];
    }
    assert Listings(d.backends, names)[..|d.backends|] == Listings(d.backends, names);
    merged := [];
    for i := 0 to |names|
      invariant merged == SharedPass(d, names[..i], arch, listings)
    {
      var hits := DetectionsFromCandidates(d.disk, names[i], candidates[i], arch);
      hits := hits + shims[i];
      ghost var own := hits;
      NoListings(listings, names[i]);
      assert own + [] == own;
      for j := 0 to |listings|
        invariant hits == own + ListedHits(listings[..j], names[i])
      {
        OneMoreListing(listings, j, names[i]);
        hits := hits + HitsFromRows(listings[j].0, Restrict(listings[j].1, [names[i]]));
      }
      assert listings[..|listings|] == listings;
      var entries := MergeByCanonicalPath(d.disk.canonical, hits);
      NextShared(d, names, i, arch, listings);
      merged := merged + entries;
    }
  }

  lemma NoNames(d: Detector, names: seq<string>)
    ensures AllKeys(d, names[..0]) == []
    ensures forall arch, listings :: SharedPass(d, names[..0], arch, listings) == []
  {
  }

  lemma MoreKeys(d: Detector, names: seq<string>, i: nat)
    requires i < |names|
    ensures AllKeys(d, names[..i + 1]) == AllKeys(d, names[..i]) + ProbeKeys(PathFound(d, names[i]))
  {
    hide PathFound, ProbeKeys;
    assert names[..i + 1][..i] == names[..i];
  }

  lemma NextShared(d: Detector, names: seq<string>, i: nat, arch: map<string, bool>, listings: seq<SourceRows>)
    requires i < |names|
    ensures SharedPass(d, names[..i + 1], arch, listings)
            == SharedPass(d, names[..i], arch, listings) + Merged(d.disk.canonical, SharedHits(d, names[i], arch, listings))
  {
    hide SharedHits, Merged;
    assert names[..i + 1][..i] == names[..i];
  }

  lemma NoListings(listings: seq<SourceRows>, name: string)
    ensures ListedHits(listings[..0], name) == []
  {
  }

  lemma OneMoreListing(listings: seq<SourceRows>, i: nat, name: string)
    requires i < |listings|
    ensures ListedHits(listings[..i + 1], name)
            == ListedHits(listings[..i], name) + HitsFromRows(listings[i].0, Restrict(listings[i].1, [name]))
  {
    assert listings[..i + 1][..i] == listings[..i];
  }

  // ---------------------------------------------------------------------------
  // The shared pass answers what the single probes answer
  // ---------------------------------------------------------------------------

  lemma {:induction false} ListingsAgree(backends: seq<Probe>, names: seq<string>, name: string)
    requires forall p :: p in backends ==> Restricts(p)
    requires name in names
    ensures ListedHits(Listings(backends, names), name) == BackendHits(backends, name)
  {
    hide Restrict, Restricts, HitsFromRows;
    if backends != [] {
      var n := |backends| - 1;
      var p := backends[n];
      assert p in backends;
      ListingsAgree(backends[..n], names, name);
      assert Listings(backends, names)[..n] == Listings(backends[..n], names);
      ProbeAgrees(p, names, name);
    }
  }

  lemma ProbeAgrees(p: Probe, names: seq<string>, name: string)
    requires Restricts(p) && name in names
    ensures Restrict(OrEmpty(p.list(names)), [name]) == OrEmpty(p.list([name]))
  {
    assert p.list(names) == match p.list([]) case None => None case Some(apps) => Some(Restrict(apps, names));
    assert p.list([name]) == match p.list([]) case None => None case Some(apps) => Some(Restrict(apps, [name]));
    if p.list([]).Some? { RestrictTwice(p.list([]).value, names, name); }
  }

  lemma {:induction false} KeysOfEach(d: Detector, names: seq<string>, name: string)
    requires name in names
    ensures forall k :: k in ProbeKeys(PathFound(d, name)) ==> k in AllKeys(d, names)
  {
    hide PathFound;
    var n := |names| - 1;
    if names[n] != name {
      assert names == names[..n] + [names[n]];
      KeysOfEach(d, names[..n], name);
    }
  }

  lemma ArchAgrees(d: Detector, names: seq<string>, name: string)
    requires Concatenates(d.file) && name in names
    ensures var hits := PathFound(d, name);
            PathDetections(d.disk, name, hits, BatchedMismatches(d.file, d.arch, AllKeys(d, names)))
            == PathDetections(d.disk, name, hits, BatchedMismatches(d.file, d.arch, ProbeKeys(hits)))
  {
    hide PathFound, BatchedMismatches, ProbeOne, Concatenates;
    var hits := PathFound(d, name);
    BatchAgrees(d.file, d.arch, AllKeys(d, names));
    BatchAgrees(d.file, d.arch, ProbeKeys(hits));
    KeysOfEach(d, names, name);
    forall i | 0 <= i < |hits|
      ensures hits[i].1 in ProbeKeys(hits) && hits[i].1 in AllKeys(d, names)
    {
      assert ProbeKeys(hits)[i] == hits[i].1;
    }
  }

  /** The answers for some names, one name after another. */
  function OneByOne(d: Detector, names: seq<string>): seq<Detection> {
    if names == [] then []
    else OneByOne(d, names[..|names| - 1]) + Detected(d, names[|names| - 1])
  }

  lemma {:induction false} SharedPassAgrees(d: Detector, all: seq<string>, names: seq<string>)
    requires Concatenates(d.file) && forall p :: p in d.backends ==> Restricts(p)
    requires forall x :: x in names ==> x in all
    ensures SharedPass(d, names, BatchedMismatches(d.file, d.arch, AllKeys(d, all)), Listings(d.backends, all))
            == OneByOne(d, names)
  {
    hide PathFound, BatchedMismatches, Concatenates, Restricts, ShimHits, PathDetections, ListedHits, BackendHits, Merged, Listings;
    if names != [] {
      var n := |names| - 1;
      SharedPassAgrees(d, all, names[..n]);
      assert names[n] in all;
      ArchAgrees(d, all, names[n]);
      ListingsAgree(d.backends, all, names[n]);
    }
  }

  /** Detecting many names in one pass is detecting each of them in turn. */
  lemma DetectManyIsEach(d: Detector, names: seq<string>)
    requires Concatenates(d.file) && forall p :: p in d.backends ==> Restricts(p)
    ensures DetectedMany(d, names) == OneByOne(d, names)
  {
    hide Concatenates, Restricts, SharedPass, BatchedMismatches, Listings;
    if names != [] { SharedPassAgrees(d, names, names); }
  }

  // ---------------------------------------------------------------------------
  // The shape of one answer
  // ---------------------------------------------------------------------------

  lemma {:induction false} BackendHitsUnranked(backends: seq<Probe>, name: string)
    ensures forall h :: h in BackendHits(backends, name) ==> h.pathRank.None?
  {
    if backends != [] { BackendHitsUnranked(backends[..|backends| - 1], name); }
  }

  /** One name's answer starts with its path hits, in rank order, distinct
      artifacts, exactly the first unshadowed; every other entry has no rank. */
  lemma DetectedShape(d: Detector, name: string)
    requires LooksUpByName(d.disk)
    ensures var r, n := Detected(d, name), |PathFound(d, name)|;
            && n <= |r|
            && PathOrdered(d.disk.canonical, r[..n])
            && (forall i :: 0 <= i < n ==> r[i].pathRank == Some(PathFound(d, name)[i].0))
            && (forall i :: 0 <= i < n ==> r[i].path == Some(OnDiskCasing(d.disk, PathFound(d, name)[i].1)))
            && (forall i :: n <= i < |r| ==> r[i].pathRank.None?)
            && DistinctKeys(d.disk.canonical, r)
  {
    hide Found, Places, Candidates, BatchedMismatches, Merged, MergeInto, BackendHits, OnDiskCasing, LooksUpByName;
    var c, hits := d.disk.canonical, PathFound(d, name);
    var arch := BatchedMismatches(d.file, d.arch, ProbeKeys(hits));
    var own := PathDetections(d.disk, name, hits, arch);
    var rows := ShimHits(d, name) + BackendHits(d.backends, name);
    BackendHitsUnranked(d.backends, name);
    PathDetectionsOrdered(d.disk, d.dirs, Candidates(name, d.extensions), name, arch);
    assert own[..|own|] == own;
    MergeKeepsPathOrder(c, own, |own|, rows);
    MergeOfDistinct(c, own, rows);
    assert HitsFor(d, name) == own + rows;
  }

  /** Entries with distinct keys merge to themselves, so rows after them are
      merged into them. */
  lemma MergeOfDistinct(c: Canonical, own: seq<Detection>, rows: seq<Detection>)
    requires DistinctKeys(c, own)
    ensures Merged(c, own + rows) == MergeInto(c, own, rows)
  {
    MergeConcat(c, [], own, rows);
    DistinctMergesToItself(c, [], own);
    assert [] + own == own;
  }

  lemma {:induction false} DistinctMergesToItself(c: Canonical, m: seq<Detection>, own: seq<Detection>)
    requires DistinctKeys(c, m + own)
    ensures MergeInto(c, m, own) == m + own
    decreases |own|
  {
    hide Key, Insert;
    if own == [] {
      assert m + own == m;
    } else {
      var d := own[0];
      assert (m + own)[|m|] == d;
      forall i | 0 <= i < |m| ensures Keys(c, m)[i] != Key(c, d) { assert (m + own)[i] == m[i]; }
      InsertAt(c, m, d, |m|);
      assert m + own == (m + [d]) + own[1..];
      DistinctMergesToItself(c, m + [d], own[1..]);
    }
  }
}
