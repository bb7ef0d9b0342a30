/** What an answer holds besides the path hits: one entry for each id that a
    backend's listing reports, and the shim. */
module DetectedRows {
  import opened Wrappers
  import opened Listing
  import opened Merge
  import opened PathSearch
  import opened Detect
  import ArchProbe

  // ---------------------------------------------------------------------------
  // What the listings report
  // ---------------------------------------------------------------------------

  /** There is a version among these, or any entry at all. */
  predicate Has(vs: seq<Option<string>>, versioned: bool) {
    exists i :: 0 <= i < |vs| && (versioned ==> vs[i].Some?)
  }

  predicate RowOf(rows: seq<InstalledApp>, id: string, versioned: bool, j: nat) {
    j < |rows| && rows[j].id == id && (versioned ==> rows[j].version.Some?)
  }

  /** The versions a listing gives for one id, row by row. */
  function VersionsIn(rows: seq<InstalledApp>, id: string): seq<Option<string>> {
    if rows == [] then []
    else
      var n := |rows| - 1;
      VersionsIn(rows[..n], id) + if rows[n].id == id then [rows[n].version] else []
  }

  /** The versions the listings of one source give for an id, one listing after
      another; a listing that fails gives none. */
  function Reported(backends: seq<Probe>, name: string, source: Source, id: string): seq<Option<string>> {
    if backends == [] then []
    else
      var n := |backends| - 1;
      Reported(backends[..n], name, source, id)
      + if backends[n].source == source && backends[n].list([name]).Some?
        then VersionsIn(backends[n].list([name]).value, id) else []
  }

  /** The j-th row of the i-th listing is one for this source and id, with a
      version where one is asked for. */
  predicate ReportsAt(backends: seq<Probe>, name: string, source: Source, id: string, versioned: bool, i: nat, j: nat) {
    && i < |backends| && backends[i].source == source && backends[i].list([name]).Some?
    && RowOf(backends[i].list([name]).value, id, versioned, j)
  }

  ghost predicate Reports(backends: seq<Probe>, name: string, source: Source, id: string, versioned: bool) {
    exists i: nat, j: nat :: ReportsAt(backends, name, source, id, versioned, i, j)
  }

  lemma HasEither(a: seq<Option<string>>, b: seq<Option<string>>, versioned: bool)
    ensures Has(a + b, versioned) <==> Has(a, versioned) || Has(b, versioned)
  {
    var ab := a + b;
    if Has(ab, versioned) {
      var i :| 0 <= i < |ab| && (versioned ==> ab[i].Some?);
      if i < |a| { HasAt(a, versioned, i); } else { HasAt(b, versioned, i - |a|); }
    }
    if Has(a, versioned) {
      var i :| 0 <= i < |a| && (versioned ==> a[i].Some?);
      HasAt(ab, versioned, i);
    }
    if Has(b, versioned) {
      var i :| 0 <= i < |b| && (versioned ==> b[i].Some?);
      HasAt(ab, versioned, |a| + i);
    }
  }

  lemma HasAt(vs: seq<Option<string>>, versioned: bool, i: nat)
    requires i < |vs| && (versioned ==> vs[i].Some?)
    ensures Has(vs, versioned)
  {
    assert vs[i] == vs[i];
  }

  lemma HasOne(v: Option<string>, versioned: bool)
    ensures Has([v], versioned) <==> (versioned ==> v.Some?)
    ensures !Has([], versioned)
  {
    assert [v][0] == v;
  }

  lemma {:induction false} VersionsByRow(rows: seq<InstalledApp>, id: string, versioned: bool)
    ensures Has(VersionsIn(rows, id), versioned) <==> exists j: nat :: RowOf(rows, id, versioned, j)
  {
    hide Has, RowOf;
    if rows == [] {
      HasOne(None, versioned);
      forall j: nat ensures !RowOf(rows, id, versioned, j) { LastRow(rows, id, versioned, j); }
    } else {
      var n := |rows| - 1;
      VersionsByRow(rows[..n], id, versioned);
      HasOne(rows[n].version, versioned);
      HasEither(VersionsIn(rows[..n], id), if rows[n].id == id then [rows[n].version] else [], versioned);
      forall j: nat ensures RowOf(rows, id, versioned, j)
                            <==> RowOf(rows[..n], id, versioned, j)
                                 || (j == n && rows[n].id == id && (versioned ==> rows[n].version.Some?))
      {
        LastRow(rows, id, versioned, j);
      }
      if j: nat :| RowOf(rows[..n], id, versioned, j) { assert RowOf(rows, id, versioned, j); }
      assert RowOf(rows, id, versioned, n) <==> rows[n].id == id && (versioned ==> rows[n].version.Some?) by {
        LastRow(rows, id, versioned, n);
        NoRowPast(rows[..n], id, versioned, n);
      }
    }
  }

  lemma NoRowPast(rows: seq<InstalledApp>, id: string, versioned: bool, j: nat)
    requires j >= |rows|
    ensures !RowOf(rows, id, versioned, j)
  {
  }

  lemma LastRow(rows: seq<InstalledApp>, id: string, versioned: bool, j: nat)
    ensures rows == [] ==> !RowOf(rows, id, versioned, j)
    ensures rows != [] ==>
              var n := |rows| - 1;
              RowOf(rows, id, versioned, j)
              <==> RowOf(rows[..n], id, versioned, j)
                   || (j == n && rows[n].id == id && (versioned ==> rows[n].version.Some?))
  {
  }

  lemma {:induction false} ReportedByRow(backends: seq<Probe>, name: string, source: Source, id: string, versioned: bool)
    ensures Has(Reported(backends, name, source, id), versioned) <==> Reports(backends, name, source, id, versioned)
  {
    hide Has, RowOf, VersionsIn, Reports;
    if backends == [] {
      HasOne(None, versioned);
      NoListing(name, source, id, versioned);
    } else {
      var n := |backends| - 1;
      ReportedByRow(backends[..n], name, source, id, versioned);
      LastListing(backends, name, source, id, versioned);
      var more :=
        if backends[n].source == source && backends[n].list([name]).Some?
        then VersionsIn(backends[n].list([name]).value, id) else [];
      HasEither(Reported(backends[..n], name, source, id), more, versioned);
      HasOne(None, versioned);
      if backends[n].list([name]).Some? { VersionsByRow(backends[n].list([name]).value, id, versioned); }
    }
  }

  lemma NoListing(name: string, source: Source, id: string, versioned: bool)
    ensures !Reports([], name, source, id, versioned)
  {
  }

  lemma LastListing(backends: seq<Probe>, name: string, source: Source, id: string, versioned: bool)
    requires backends != []
    ensures var n := |backends| - 1;
            Reports(backends, name, source, id, versioned)
            <==> Reports(backends[..n], name, source, id, versioned)
                 || (backends[n].source == source && backends[n].list([name]).Some?
                     && exists j: nat :: RowOf(backends[n].list([name]).value, id, versioned, j))
  {
    hide RowOf;
    var n := |backends| - 1;
    if i: nat, j: nat :| ReportsAt(backends, name, source, id, versioned, i, j) {
      if i < n { assert ReportsAt(backends[..n], name, source, id, versioned, i, j); }
    }
    if i: nat, j: nat :| ReportsAt(backends[..n], name, source, id, versioned, i, j) {
      assert ReportsAt(backends, name, source, id, versioned, i, j);
    }
    if backends[n].source == source && backends[n].list([name]).Some? {
      if j: nat :| RowOf(backends[n].list([name]).value, id, versioned, j) {
        assert ReportsAt(backends, name, source, id, versioned, n, j);
      }
    }
  }

  function FirstOf(vs: seq<Option<string>>): (v: Option<string>)
    ensures v.None? <==> forall i :: 0 <= i < |vs| ==> vs[i].None?
    ensures v.Some? ==> exists i :: 0 <= i < |vs| && vs[i] == v && forall j :: 0 <= j < i ==> vs[j].None?
  {
    if vs == [] then None
    else if vs[0].Some? then
      assert vs[0] == vs[0];
      vs[0]
    else
      var v := FirstOf(vs[1..]);
      assert forall i :: 0 < i < |vs| ==> vs[i] == vs[1..][i - 1];
      assert v.Some? ==> exists i :: 0 <= i < |vs| && vs[i] == v && forall j :: 0 <= j < i ==> vs[j].None? by {
        if v.Some? {
          var i :| 0 <= i < |vs[1..]| && vs[1..][i] == v && forall j :: 0 <= j < i ==> vs[1..][j].None?;
          assert vs[i + 1] == v && forall j :: 0 <= j < i + 1 ==> vs[j].None?;
        }
      }
      v
  }

  // ---------------------------------------------------------------------------
  // The hits for one row key
  // ---------------------------------------------------------------------------

  /** A listed row as a hit. */
  function RowHit(source: Source, id: string, v: Option<string>): Detection {
    Detection(id, v, None, source, if v.Some? then High else Medium, None, false, false, false)
  }

  function RowHits(source: Source, id: string, vs: seq<Option<string>>): (hits: seq<Detection>)
    ensures |hits| == |vs| && forall i :: 0 <= i < |vs| ==> hits[i] == RowHit(source, id, vs[i])
  {
    seq(|vs|, i requires 0 <= i < |vs| => RowHit(source, id, vs[i]))
  }

  lemma {:induction false} GroupConcat(c: Canonical, a: seq<Detection>, b: seq<Detection>, k: MergeKey)
    ensures Group(c, a + b, k) == Group(c, a, k) + Group(c, b, k)
  {
    hide Key;
    if b == [] {
      assert a + b == a;
    } else {
      var n := |b| - 1;
      assert (a + b)[..|a + b| - 1] == a + b[..n];
      GroupConcat(c, a, b[..n], k);
    }
  }

  lemma {:induction false} NoRowsAmongPaths(c: Canonical, ds: seq<Detection>, source: Source, id: string)
    requires forall d :: d in ds ==> d.path.Some?
    ensures Group(c, ds, OfSource(source, id)) == []
  {
    if ds != [] {
      var n := |ds| - 1;
      assert ds[n] in ds;
      NoRowsAmongPaths(c, ds[..n], source, id);
    }
  }

  lemma {:induction false} GroupOfRows(c: Canonical, from: Source, rows: seq<InstalledApp>, source: Source, id: string)
    ensures Group(c, HitsFromRows(from, rows), OfSource(source, id))
            == if from == source then RowHits(source, id, VersionsIn(rows, id)) else []
  {
    if rows != [] {
      var n := |rows| - 1;
      GroupOfRows(c, from, rows[..n], source, id);
      assert HitsFromRows(from, rows)[..n] == HitsFromRows(from, rows[..n]);
    }
  }

  lemma RowHitsConcat(source: Source, id: string, a: seq<Option<string>>, b: seq<Option<string>>)
    ensures RowHits(source, id, a + b) == RowHits(source, id, a) + RowHits(source, id, b)
  {
    hide RowHit;
  }

  lemma {:induction false} GroupOfBackends(c: Canonical, backends: seq<Probe>, name: string, source: Source, id: string)
    ensures Group(c, BackendHits(backends, name), OfSource(source, id)) == RowHits(source, id, Reported(backends, name, source, id))
  {
    hide HitsFromRows, VersionsIn, RowHits, Group;
    if backends == [] {
      assert RowHits(source, id, []) == [];
      NoGroupInNothing(c, OfSource(source, id));
    } else {
      var n := |backends| - 1;
      GroupOfBackends(c, backends[..n], name, source, id);
      var rows := OrEmpty(backends[n].list([name]));
      GroupOfRows(c, backends[n].source, rows, source, id);
      GroupConcat(c, BackendHits(backends[..n], name), HitsFromRows(backends[n].source, rows), OfSource(source, id));
      NothingListed(id);
      assert RowHits(source, id, []) == [];
      RowHitsConcat(source, id, Reported(backends[..n], name, source, id),
                    if backends[n].source == source && backends[n].list([name]).Some?
                    then VersionsIn(backends[n].list([name]).value, id) else []);
    }
  }

  lemma NoGroupInNothing(c: Canonical, k: MergeKey)
    ensures Group(c, [], k) == []
  {
  }

  lemma NothingListed(id: string)
    ensures VersionsIn([], id) == []
  {
  }

  lemma PathAndShimHavePaths(d: Detector, name: string, arch: map<string, bool>)
    ensures forall h :: h in PathDetections(d.disk, name, PathFound(d, name), arch) + ShimHits(d, name) ==> h.path.Some?
  {
    hide PathFound, FirstExecutable, Candidates, OnDiskCasing;
  }

  lemma GroupOfKey(d: Detector, name: string, source: Source, id: string)
    ensures Group(d.disk.canonical, HitsFor(d, name), OfSource(source, id))
            == RowHits(source, id, Reported(d.backends, name, source, id))
  {
    hide PathFound, ShimHits, BackendHits, PathDetections, Reported, Group;
    var c, k := d.disk.canonical, OfSource(source, id);
    var hits := PathFound(d, name);
    var arch := ArchProbe.BatchedMismatches(d.file, d.arch, ProbeKeys(hits));
    var own := PathDetections(d.disk, name, hits, arch) + ShimHits(d, name);
    PathAndShimHavePaths(d, name, arch);
    NoRowsAmongPaths(c, own, source, id);
    GroupConcat(c, own, BackendHits(d.backends, name), k);
    GroupOfBackends(c, d.backends, name, source, id);
  }

  // ---------------------------------------------------------------------------
  // The entries for rows
  // ---------------------------------------------------------------------------

  /** An entry that summarises the hits of one row key is the row at its first
      version, sure of itself when there is one. */
  lemma SummaryOfRows(e: Detection, source: Source, id: string, vs: seq<Option<string>>)
    requires Summarises(e, RowHits(source, id, vs))
    ensures e == RowHit(source, id, FirstOf(vs))
  {
    var g := RowHits(source, id, vs);
    assert e.name == id && e.path == None;
    assert e.version == FirstOf(vs);
    if e.version.Some? {
      var i :| 0 <= i < |g| && g[i].version == e.version;
      assert g[i].confidence == High;
    } else {
      assert forall i :: 0 <= i < |g| ==> g[i].confidence == Medium;
    }
  }

  /** The entry without a path for a source and an id stands in the answer exactly
      when a listing of that source reports the id, once, at the first version
      reported, and with high confidence exactly when some row has a version. */
  lemma RowsAreDetected(d: Detector, name: string, source: Source, id: string)
    ensures var r, vs := Detected(d, name), Reported(d.backends, name, source, id);
            && (Reports(d.backends, name, source, id, false) <==> RowHit(source, id, FirstOf(vs)) in r)
            && (forall e :: e in r && e.path.None? && e.source == source && e.name == id ==> e == RowHit(source, id, FirstOf(vs)))
            && (forall i, j :: 0 <= i < j < |r| && r[i].path.None? && r[i].source == source && r[i].name == id ==>
                  !(r[j].path.None? && r[j].source == source && r[j].name == id))
            && (Reports(d.backends, name, source, id, true) <==> FirstOf(vs).Some?)
  {
    hide HitsFor, Reported, Reports, Merged, Summarises, FirstSeen, Group, RowHits;
    var c, k, ds := d.disk.canonical, OfSource(source, id), HitsFor(d, name);
    var r, vs := Detected(d, name), Reported(d.backends, name, source, id);
    MergedEntries(c, ds);
    GroupOfKey(d, name, source, id);
    ReportedByRow(d.backends, name, source, id, false);
    ReportedByRow(d.backends, name, source, id, true);
    NoGroup(c, ds, k);
    FirstSeenMembers(Keys(c, ds), k);
    forall e | e in r && e.path.None? && e.source == source && e.name == id
      ensures e == RowHit(source, id, FirstOf(vs)) && vs != []
    {
      var i :| 0 <= i < |r| && r[i] == e;
      assert Summarises(r[i], Group(c, ds, Key(c, r[i])));
      SummaryOfRows(e, source, id, vs);
      assert Keys(c, r)[i] == k;
    }
    if vs != [] {
      assert k in Keys(c, r);
      var i :| 0 <= i < |r| && Keys(c, r)[i] == k;
      assert Key(c, r[i]) == k;
      assert Summarises(r[i], Group(c, ds, k));
      SummaryOfRows(r[i], source, id, vs);
      assert r[i] in r;
    }
    AnyVersion(vs);
  }

  lemma AnyVersion(vs: seq<Option<string>>)
    ensures Has(vs, true) <==> FirstOf(vs).Some?
    ensures Has(vs, false) <==> vs != []
  {
    hide FirstOf;
    if vs != [] { assert vs[0] == vs[0]; }
  }

  // ---------------------------------------------------------------------------
  // The shim
  // ---------------------------------------------------------------------------

  /** The shim is the first of the candidates in the shim directory that can be
      executed. */
  predicate IsShim(d: Detector, name: string, k: nat) {
    var names := Candidates(name, d.extensions);
    && d.shimDir.Some? && k < |names|
    && d.disk.isExecutable(d.disk.join(d.shimDir.value, names[k]))
    && forall j :: 0 <= j < k ==> !d.disk.isExecutable(d.disk.join(d.shimDir.value, names[j]))
  }

  function ShimPath(d: Detector, name: string, k: nat): string
    requires IsShim(d, name, k)
  {
    d.disk.join(d.shimDir.value, Candidates(name, d.extensions)[k])
  }

  lemma {:induction false} FirstExecutableIs(disk: Disk, dir: string, names: seq<string>, k: nat)
    requires k < |names| && disk.isExecutable(disk.join(dir, names[k]))
    requires forall j :: 0 <= j < k ==> !disk.isExecutable(disk.join(dir, names[j]))
    ensures FirstExecutable(disk, dir, names) == Some(disk.join(dir, names[k]))
  {
    if k > 0 { FirstExecutableIs(disk, dir, names[1..], k - 1); }
  }

  lemma {:induction false} FirstExecutableFound(disk: Disk, dir: string, names: seq<string>) returns (k: nat)
    ensures FirstExecutable(disk, dir, names).Some? ==>
              && k < |names| && disk.isExecutable(disk.join(dir, names[k]))
              && forall j :: 0 <= j < k ==> !disk.isExecutable(disk.join(dir, names[j]))
  {
    k := 0;
    if names != [] && !disk.isExecutable(disk.join(dir, names[0])) {
      var j := FirstExecutableFound(disk, dir, names[1..]);
      k := j + 1;
    }
  }

  lemma ShimHitIs(d: Detector, name: string, k: nat)
    requires IsShim(d, name, k)
    ensures ShimHits(d, name)
            == [Detection(name, None, Some(OnDiskCasing(d.disk, ShimPath(d, name, k))), MiseShim, Medium, None, false, false, false)]
  {
    hide FirstExecutable, Candidates, OnDiskCasing;
    FirstExecutableIs(d.disk, d.shimDir.value, Candidates(name, d.extensions), k);
  }

  lemma ShimHitFound(d: Detector, name: string) returns (k: nat)
    ensures ShimHits(d, name) != [] ==> IsShim(d, name, k)
  {
    hide FirstExecutable, Candidates, OnDiskCasing;
    k := 0;
    if d.shimDir.Some? { k := FirstExecutableFound(d.disk, d.shimDir.value, Candidates(name, d.extensions)); }
  }

  lemma {:induction false} GroupMembers(c: Canonical, ds: seq<Detection>, k: MergeKey, h: Detection)
    ensures h in Group(c, ds, k) <==> h in ds && Key(c, h) == k
  {
    hide Key;
    if ds != [] {
      var n := |ds| - 1;
      GroupMembers(c, ds[..n], k, h);
      assert ds == ds[..n] + [ds[n]];
    }
  }

  lemma UnlistedHits(d: Detector, name: string, h: Detection)
    requires h in HitsFor(d, name) && h.path.Some?
    ensures h in ShimHits(d, name) || (h.source.Path? && h.pathRank.Some?)
  {
    hide PathFound, ShimHits, Found, OnDiskCasing;
    BackendHitsPathless(d.backends, name);
  }

  lemma {:induction false} BackendHitsPathless(backends: seq<Probe>, name: string)
    ensures forall h :: h in BackendHits(backends, name) ==> h.path.None?
  {
    if backends != [] { BackendHitsPathless(backends[..|backends| - 1], name); }
  }

  /** Where a shim is found first, the answer has an entry at its artifact, with the
      shim as its source. */
  lemma ShimIsDetected(d: Detector, name: string, k: nat)
    requires LooksUpByName(d.disk) && IsShim(d, name, k)
    ensures exists e :: e in Detected(d, name) && e.path.Some? && e.source.MiseShim?
                        && d.disk.canonical(e.path.value) == d.disk.canonical(ShimPath(d, name, k))
  {
    hide HitsFor, Merged, Summarises, FirstSeen, Group, IsShim, LooksUpByName, OnDiskCasing;
    var c, ds, r := d.disk.canonical, HitsFor(d, name), Detected(d, name);
    ShimHitIs(d, name, k);
    ShimExecutable(d, name, k);
    CasingKeepsArtifact(d.disk, ShimPath(d, name, k));
    var shim := ShimHits(d, name)[0];
    var key := Key(c, shim);
    ShimAmongHits(d, name);
    GroupMembers(c, ds, key, shim);
    NoGroup(c, ds, key);
    MergedEntries(c, ds);
    FirstSeenMembers(Keys(c, ds), key);
    assert key in Keys(c, r);
    var i :| 0 <= i < |r| && Keys(c, r)[i] == key;
    assert Key(c, r[i]) == key;
    var g := Group(c, ds, key);
    assert Summarises(r[i], g);
    forall h | h in g ensures h.source.Path? || h.source.MiseShim? {
      GroupMembers(c, ds, key, h);
      UnlistedHits(d, name, h);
    }
    ManagedSource(r[i], g, shim);
    assert r[i] in r;
  }

  lemma ManagedSource(e: Detection, g: seq<Detection>, shim: Detection)
    requires Summarises(e, g) && shim in g && shim.source.MiseShim?
    requires forall h :: h in g ==> h.source.Path? || h.source.MiseShim?
    ensures e.source.MiseShim?
  {
    var i :| 0 <= i < |g| && g[i] == shim;
  }

  lemma ShimExecutable(d: Detector, name: string, k: nat)
    requires IsShim(d, name, k)
    ensures d.disk.isExecutable(ShimPath(d, name, k))
  {
  }

  lemma ShimAmongHits(d: Detector, name: string)
    ensures forall h :: h in ShimHits(d, name) ==> h in HitsFor(d, name)
  {
    hide ShimHits, PathFound, BackendHits;
  }

  /** Every entry without a rank comes from a row of a listing or is the shim. */
  lemma UnrankedAreRowsOrShim(d: Detector, name: string, e: Detection)
    requires e in Detected(d, name) && e.pathRank.None?
    ensures if e.path.None? then
              Reports(d.backends, name, e.source, e.name, false)
            else
              exists k: nat :: IsShim(d, name, k)
                && e == Detection(name, None, Some(OnDiskCasing(d.disk, ShimPath(d, name, k))), MiseShim, Medium, None, false, false, false)
  {
    hide HitsFor, Merged, Summarises, FirstSeen, Group, IsShim, OnDiskCasing, Reports;
    var c, ds, r := d.disk.canonical, HitsFor(d, name), Detected(d, name);
    if e.path.None? {
      RowsAreDetected(d, name, e.source, e.name);
    } else {
      MergedEntries(c, ds);
      var i :| 0 <= i < |r| && r[i] == e;
      var g := Group(c, ds, Key(c, e));
      FirstOfGroup(e, g);
      forall h | h in g ensures h in ShimHits(d, name) {
        GroupMembers(c, ds, Key(c, e), h);
        UnlistedHits(d, name, h);
      }
      var k := ShimHitFound(d, name);
      ShimHitIs(d, name, k);
      OnlyShims(e, g, ShimHits(d, name)[0]);
    }
  }

  lemma FirstOfGroup(e: Detection, g: seq<Detection>)
    requires Summarises(e, g) && e.pathRank.None?
    ensures g != [] && g[0] in g && (forall h :: h in g ==> h.pathRank.None?)
    ensures e.path.Some? ==> forall h :: h in g && h.path.None? ==> h != g[0]
  {
  }

  lemma OnlyShims(e: Detection, g: seq<Detection>, shim: Detection)
    requires Summarises(e, g) && e.path.Some? && forall h :: h in g ==> h == shim
    requires shim.source.MiseShim? && shim.pathRank.None?
    ensures e == shim
  {
    forall i | 0 <= i < |g| ensures g[i] == shim { assert g[i] in g; }
  }

  // ---------------------------------------------------------------------------
  // The path entries
  // ---------------------------------------------------------------------------

  /** A hit at a path says nothing but where it is and whether its architecture
      differs, which only a hit of the search itself says. */
  predicate Plain(h: Detection, name: string) {
    && h.name == name && h.version.None? && h.confidence == Medium && !h.broken
    && (h.source.Path? || h.source.MiseShim?)
  }

  lemma PlainHits(d: Detector, name: string, h: Detection)
    requires h in HitsFor(d, name) && h.path.Some?
    ensures Plain(h, name)
    ensures h.archMismatch ==>
              var hits := PathFound(d, name);
              exists j :: 0 <= j < |hits| && h.path == Some(OnDiskCasing(d.disk, hits[j].1))
                && Answer(ArchProbe.BatchedMismatches(d.file, d.arch, ProbeKeys(hits)), hits[j].1)
  {
    hide PathFound, OnDiskCasing, FirstExecutable, Candidates, ArchProbe.BatchedMismatches;
    BackendHitsPathless(d.backends, name);
  }

  lemma ProbedAnswer(d: Detector, name: string, j: nat)
    requires ArchProbe.Concatenates(d.file) && j < |PathFound(d, name)|
    ensures var hits := PathFound(d, name);
            Answer(ArchProbe.BatchedMismatches(d.file, d.arch, ProbeKeys(hits)), hits[j].1)
            == ArchProbe.ProbeOne(d.file, d.arch, hits[j].1)
  {
    hide PathFound, ArchProbe.Concatenates, ArchProbe.BatchedMismatches, ArchProbe.ProbeOne;
    var hits := PathFound(d, name);
    ArchProbe.BatchAgrees(d.file, d.arch, ProbeKeys(hits));
    assert ProbeKeys(hits)[j] == hits[j].1;
  }

  lemma SummaryOfPlain(e: Detection, g: seq<Detection>, name: string)
    requires Summarises(e, g) && forall h :: h in g ==> Plain(h, name)
    ensures Plain(e, name)
  {
    forall i | 0 <= i < |g| ensures Plain(g[i], name) { assert g[i] in g; }
  }

  /** The entry of the i-th executable found has its name, path and rank, is
      shadowed unless it is the first, is taken for the shim's only if not for the
      search's own, and differs in architecture exactly when the probe of that very
      path says so. */
  lemma PathEntryIs(d: Detector, name: string, i: nat)
    requires LooksUpByName(d.disk) && ArchProbe.Concatenates(d.file)
    requires i < |PathFound(d, name)|
    ensures var r, hit := Detected(d, name), PathFound(d, name)[i];
            && i < |r| && (r[i].source.Path? || r[i].source.MiseShim?)
            && r[i] == Detection(name, None, Some(OnDiskCasing(d.disk, hit.1)), r[i].source, Medium, Some(hit.0),
                                 i != 0, false, ArchProbe.ProbeOne(d.file, d.arch, hit.1))
  {
    hide PathFound, HitsFor, Merged, Summarises, Group, LooksUpByName, OnDiskCasing, FirstSeen, ArchProbe.Concatenates, ArchProbe.ProbeOne, ArchProbe.BatchedMismatches;
    var c, ds, r, hits := d.disk.canonical, HitsFor(d, name), Detected(d, name), PathFound(d, name);
    DetectedShape(d, name);
    MergedEntries(c, ds);
    assert r[..|hits|][i] == r[i];
    var g := Group(c, ds, Key(c, r[i]));
    assert Summarises(r[i], g);
    forall h | h in g
      ensures Plain(h, name) && (h.archMismatch ==> ArchProbe.ProbeOne(d.file, d.arch, hits[i].1))
    {
      GroupMembers(c, ds, Key(c, r[i]), h);
      PlainHits(d, name, h);
      if h.archMismatch {
        var j :| 0 <= j < |hits| && h.path == Some(OnDiskCasing(d.disk, hits[j].1))
          && Answer(ArchProbe.BatchedMismatches(d.file, d.arch, ProbeKeys(hits)), hits[j].1);
        ProbedAnswer(d, name, j);
        SameHit(d, name, i, j);
      }
    }
    SummaryOfPlain(r[i], g, name);
    OwnHit(d, name, i);
    var own := PathHit(d.disk, name, hits[i], i == 0, Answer(ArchProbe.BatchedMismatches(d.file, d.arch, ProbeKeys(hits)), hits[i].1));
    GroupMembers(c, ds, Key(c, r[i]), own);
    ProbedAnswer(d, name, i);
    MismatchOfGroup(r[i], g, own);
  }

  lemma MismatchOfGroup(e: Detection, g: seq<Detection>, own: Detection)
    requires Summarises(e, g) && own in g
    ensures own.archMismatch ==> e.archMismatch
    ensures e.archMismatch ==> exists h :: h in g && h.archMismatch
  {
    var i :| 0 <= i < |g| && g[i] == own;
    if e.archMismatch {
      var j :| 0 <= j < |g| && g[j].archMismatch;
      assert g[j] in g;
    }
  }

  lemma OwnHit(d: Detector, name: string, i: nat)
    requires i < |PathFound(d, name)|
    ensures var hits := PathFound(d, name);
            PathHit(d.disk, name, hits[i], i == 0, Answer(ArchProbe.BatchedMismatches(d.file, d.arch, ProbeKeys(hits)), hits[i].1))
            in HitsFor(d, name)
  {
    hide PathFound, ShimHits, BackendHits, PathHit, Answer, ArchProbe.BatchedMismatches;
    var hits := PathFound(d, name);
    var arch := ArchProbe.BatchedMismatches(d.file, d.arch, ProbeKeys(hits));
    var own := PathDetections(d.disk, name, hits, arch);
    assert own[i] in own;
    assert own[i] in own + ShimHits(d, name) + BackendHits(d.backends, name);
  }

  /** Two hits at the same artifact are one. */
  lemma SameHit(d: Detector, name: string, i: nat, j: nat)
    requires LooksUpByName(d.disk) && i < |PathFound(d, name)| && j < |PathFound(d, name)|
    requires var hits := PathFound(d, name);
             d.disk.canonical(OnDiskCasing(d.disk, hits[i].1)) == d.disk.canonical(OnDiskCasing(d.disk, hits[j].1))
    ensures i == j
  {
    hide Found, Places, Candidates, OnDiskCasing, LooksUpByName, RanksAscend, Covered;
    var hits := PathFound(d, name);
    FoundOnce(d.disk, d.dirs, Candidates(name, d.extensions));
    assert hits[i] in hits && hits[j] in hits;
    CasingKeepsArtifact(d.disk, hits[i].1);
    CasingKeepsArtifact(d.disk, hits[j].1);
  }
}
