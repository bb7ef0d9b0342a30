/** Looking one name up on `$PATH`: every executable found, once, at the rank
    where it is found first. */
module PathSearch {
  import opened Wrappers
  import opened Text
  import opened Merge

  /** The file system as the search sees it, unchanged while it runs. */
  datatype Disk = Disk(
    canonical: Canonical,
    isExecutable: string -> bool,
    split: string -> Option<(string, string)>,   // a path's directory and file name, if it has both
    listed: string -> seq<string>,               // a directory's names, none when it cannot be read
    join: (string, string) -> string)

  // ---------------------------------------------------------------------------
  // Candidate file names
  // ---------------------------------------------------------------------------

  function LowerChar(c: char): char {
    if 'A' <= c <= 'Z' then (c as int + 32) as char else c
  }

  function Lower(s: string): (r: string)
    ensures |r| == |s| && forall i :: 0 <= i < |s| ==> r[i] == LowerChar(s[i])
  {
    seq(|s|, i requires 0 <= i < |s| => LowerChar(s[i]))
  }

  // ---------------------------------------------------------------------------
  // Spelling
  // ---------------------------------------------------------------------------

  predicate SameButCase(a: string, b: string) {
    Lower(a) == Lower(b)
  }

  function FirstIgnoringCase(names: seq<string>, file: string): (r: Option<string>)
    ensures r.Some? ==> r.value in names && Lower(r.value) == Lower(file)
    ensures r.None? ==> forall n :: n in names ==> Lower(n) != Lower(file)
  {
    if names == [] then None
    else if Lower(names[0]) == Lower(file) then Some(names[0])
    else FirstIgnoringCase(names[1..], file)
  }

  /** A path spelled the way the directory lists it. */
  function OnDiskCasing(disk: Disk, candidate: string): string {
    match disk.split(candidate)
    case None => candidate
    case Some((dir, file)) =>
      if file in disk.listed(dir) then candidate
      else match FirstIgnoringCase(disk.listed(dir), file)
        case None => candidate
        case Some(name) => disk.join(dir, name)
  }

  /** A file that is there without being listed under its exact name was looked up
      ignoring case: it is what the directory lists in another case. */
  ghost predicate LooksUpByName(disk: Disk) {
    forall p, name | disk.isExecutable(p) && disk.split(p).Some? ::
      var (dir, file) := disk.split(p).value;
      file !in disk.listed(dir) && name in disk.listed(dir) && Lower(name) == Lower(file) ==>
        disk.canonical(disk.join(dir, name)) == disk.canonical(p)
  }

  /** Respelling an executable the way the disk lists it names the same artifact,
      whether the disk tells case apart or not. */
  lemma CasingKeepsArtifact(disk: Disk, p: string)
    requires LooksUpByName(disk) && disk.isExecutable(p)
    ensures disk.canonical(OnDiskCasing(disk, p)) == disk.canonical(p)
  {
    hide Lower;
    if disk.split(p).Some? {
      var (dir, file) := disk.split(p).value;
      var other := FirstIgnoringCase(disk.listed(dir), file);
      if file !in disk.listed(dir) && other.Some? {
        assert other.value in disk.listed(dir) && Lower(other.value) == Lower(file);
      }
    }
  }

  lemma {:induction false} FirstIgnoringCaseIs(names: seq<string>, file: string, k: nat)
    requires k < |names| && SameButCase(names[k], file)
    requires forall j :: 0 <= j < k ==> !SameButCase(names[j], file)
    ensures FirstIgnoringCase(names, file) == Some(names[k])
  {
    if k > 0 { FirstIgnoringCaseIs(names[1..], file, k - 1); }
  }

  /** A path is respelled exactly when its directory lists its name in another case
      only, and then as the first such name. */
  lemma CasingIs(disk: Disk, p: string, dir: string, file: string)
    requires disk.split(p) == Some((dir, file))
    ensures (file in disk.listed(dir) || forall n :: n in disk.listed(dir) ==> !SameButCase(n, file)) ==> OnDiskCasing(disk, p) == p
    ensures forall k :: 0 <= k < |disk.listed(dir)| && file !in disk.listed(dir) && SameButCase(disk.listed(dir)[k], file)
                        && (forall j :: 0 <= j < k ==> !SameButCase(disk.listed(dir)[j], file)) ==>
              OnDiskCasing(disk, p) == disk.join(dir, disk.listed(dir)[k])
  {
    hide Lower;
    var names := disk.listed(dir);
    forall k | 0 <= k < |names| && SameButCase(names[k], file) && forall j :: 0 <= j < k ==> !SameButCase(names[j], file)
      ensures FirstIgnoringCase(names, file) == Some(names[k])
    {
      FirstIgnoringCaseIs(names, file, k);
    }
  }

  // ---------------------------------------------------------------------------
  // Extensions
  // ---------------------------------------------------------------------------

  predicate IsExtension(e: string) {
    |e| >= 2 && e[0] == '.'
  }

  predicate Seen(extensions: seq<string>, e: string) {
    exists i | 0 <= i < |extensions| :: Lower(extensions[i]) == Lower(e)
  }

  function Extensions(entries: seq<string>): seq<string> {
    if entries == [] then []
    else
      var n := |entries| - 1;
      var earlier := Extensions(entries[..n]);
      var e := Trim(entries[n]);
      if !IsExtension(e) || Seen(earlier, e) then earlier else earlier + [e]
  }

  method ParsePathext(pathext: string) returns (extensions: seq<string>)
    ensures extensions == Extensions(Split(pathext, ';'))
  {
    hide Seen, Trim;
    extensions := [];
    var entries := Split(pathext, ';');
    for i := 0 to |entries|
      invariant extensions == Extensions(entries[..i])
    {
      assert entries[..i + 1][..i] == entries[..i];
      var e := Trim(entries[i]);
      if !IsExtension(e) || Seen(extensions, e) { continue; }
      extensions := extensions + [e];
    }
    assert entries[..|entries|] == entries;
  }

  /** The part of a name after its last separator. */
  function FileName(name: string): string {
    if name == "" then ""
    else
      var n := |name| - 1;
      if name[n] == '/' || name[n] == '\\' then "" else FileName(name[..n]) + [name[n]]
  }

  function Candidates(name: string, extensions: seq<string>): seq<string> {
    if extensions == [] || '.' in FileName(name) then [name]
    else seq(|extensions|, i requires 0 <= i < |extensions| => name + extensions[i])
  }

  /** The extensions tried are proper, and no two differ only in case. */
  lemma {:induction false} ExtensionsDistinct(entries: seq<string>)
    ensures var es := Extensions(entries);
            && (forall i :: 0 <= i < |es| ==> IsExtension(es[i]) && Trimmed(es[i]))
            && (forall i, j :: 0 <= i < j < |es| ==> Lower(es[i]) != Lower(es[j]))
            && (forall k :: 0 <= k < |entries| && IsExtension(Trim(entries[k])) ==> Seen(es, Trim(entries[k])))
  {
    hide Lower, Trim;
    if entries != [] {
      var n := |entries| - 1;
      var earlier, es := Extensions(entries[..n]), Extensions(entries);
      ExtensionsDistinct(entries[..n]);
      assert forall i :: 0 <= i < |earlier| ==> es[i] == earlier[i];
      assert forall k :: 0 <= k < n ==> entries[..n][k] == entries[k];
      forall k | 0 <= k <= n && IsExtension(Trim(entries[k])) ensures Seen(es, Trim(entries[k])) {
        if k < n || Seen(earlier, Trim(entries[k])) {
          var i :| 0 <= i < |earlier| && Lower(earlier[i]) == Lower(Trim(entries[k]));
          assert es[i] == earlier[i];
        } else {
          assert es[|earlier|] == Trim(entries[n]);
        }
      }
    }
  }

  /** The extensions stand in the order in which they are first listed: this one,
      at some entry, and no entry up to there is a later one in any case. */
  lemma {:induction false} ExtensionsInOrder(entries: seq<string>, i: nat, j: nat) returns (k: nat)
    requires i <= j < |Extensions(entries)|
    ensures k < |entries| && Extensions(entries)[i] == Trim(entries[k])
    ensures |Trim(entries[k])| >= 2 && Trim(entries[k])[0] == '.'
    ensures forall m :: 0 <= m < k || (m == k && i < j) ==> !SameButCase(Trim(entries[m]), Extensions(entries)[j])
  {
    hide Lower, Trim;
    var n := |entries| - 1;
    var earlier, es := Extensions(entries[..n]), Extensions(entries);
    assert forall m :: 0 <= m < n ==> entries[..n][m] == entries[m];
    if j < |earlier| {
      k := ExtensionsInOrder(entries[..n], i, j);
    } else {
      ExtensionsDistinct(entries[..n]);
      if i < j { k := ExtensionsInOrder(entries[..n], i, i); } else { k := n; }
      forall m | 0 <= m < k || (m == k && i < j) ensures !SameButCase(Trim(entries[m]), es[j]) {
        if SameButCase(Trim(entries[m]), es[j]) {
          LowerKeepsShape(Trim(entries[m]), es[j]);
        }
      }
    }
  }

  lemma LowerKeepsShape(a: string, b: string)
    requires SameButCase(a, b) && IsExtension(b)
    ensures IsExtension(a)
  {
    assert Lower(a)[0] == LowerChar(a[0]) && Lower(b)[0] == LowerChar('.');
  }

  /** Some character of the last part of the name is a dot. */
  lemma {:induction false} DotInFileName(name: string)
    ensures '.' in FileName(name)
            <==> exists i | 0 <= i < |name| :: name[i] == '.' && forall j :: i <= j < |name| ==> name[j] != '/' && name[j] != '\\'
  {
    if name != "" {
      var n := |name| - 1;
      DotInFileName(name[..n]);
      if name[n] != '/' && name[n] != '\\' {
        if i :| 0 <= i < n && name[i] == '.' && forall j :: i <= j < |name| ==> name[j] != '/' && name[j] != '\\' {
          assert name[..n][i] == '.';
        }
        if '.' in FileName(name[..n]) {
          var i :| 0 <= i < n && name[..n][i] == '.' && forall j :: i <= j < n ==> name[..n][j] != '/' && name[..n][j] != '\\';
          assert name[i] == '.' && forall j :: i <= j < n ==> name[j] == name[..n][j];
        }
      }
    }
  }

  /** What is looked for: the name itself when there are no extensions to try or it
      carries one, and otherwise the name with each extension in turn. */
  lemma CandidatesAre(name: string, extensions: seq<string>)
    ensures var cs := Candidates(name, extensions);
            var carries := exists i | 0 <= i < |name| ::
                             name[i] == '.' && forall j :: i <= j < |name| ==> name[j] != '/' && name[j] != '\\';
            if extensions == [] || carries then cs == [name]
            else |cs| == |extensions| && forall k :: 0 <= k < |cs| ==> cs[k] == name + extensions[k]
  {
    hide FileName;
    DotInFileName(name);
  }

  // ---------------------------------------------------------------------------
  // The search
  // ---------------------------------------------------------------------------

  type Hit = (nat, string)

  /** Every place the search looks, in order: each directory with its rank, each
      candidate within it. */
  function Places(disk: Disk, dirs: seq<string>, names: seq<string>): seq<Hit> {
    if dirs == [] then []
    else
      var n := |dirs| - 1;
      Places(disk, dirs[..n], names) + Row(disk, n, dirs[n], names)
  }

  function Row(disk: Disk, rank: nat, dir: string, names: seq<string>): (row: seq<Hit>)
    ensures |row| == |names|
    ensures forall i :: 0 <= i < |names| ==> row[i] == (rank, disk.join(dir, names[i]))
  {
    seq(|names|, i requires 0 <= i < |names| => (rank, disk.join(dir, names[i])))
  }

  function Artifacts(disk: Disk, hits: seq<Hit>): (r: seq<string>)
    ensures |r| == |hits| && forall i :: 0 <= i < |hits| ==> r[i] == disk.canonical(hits[i].1)
  {
    seq(|hits|, i requires 0 <= i < |hits| => disk.canonical(hits[i].1))
  }

  predicate Adds(disk: Disk, hits: seq<Hit>, place: Hit) {
    disk.isExecutable(place.1) && disk.canonical(place.1) !in Artifacts(disk, hits)
  }

  /** The executables among the places, each artifact where it is seen first. */
  function Found(disk: Disk, places: seq<Hit>): seq<Hit> {
    if places == [] then []
    else
      var n := |places| - 1;
      var hits := Found(disk, places[..n]);
      if Adds(disk, hits, places[n]) then hits + [places[n]] else hits
  }

  method PathCandidates(disk: Disk, dirs: seq<string>, names: seq<string>) returns (hits: seq<Hit>)
    ensures hits == Found(disk, Places(disk, dirs, names))
  {
    hide Places, Row, Found, Artifacts;
    hits := [];
    var seen: seq<string> := [];
    NothingFound(disk, names, dirs);
    for rank := 0 to |dirs|
      invariant seen == Artifacts(disk, hits)
      invariant hits == Found(disk, Places(disk, dirs[..rank], names))
    {
      ghost var before := Places(disk, dirs[..rank], names);
      ghost var here := Row(disk, rank, dirs[rank], names);
      NextRow(disk, dirs, names, rank);
      for i := 0 to |names|
        invariant seen == Artifacts(disk, hits)
        invariant hits == Found(disk, before + here[..i])
      {
        var candidate := disk.join(dirs[rank], names[i]);
        NextPlace(disk, before, here, i);
        if !disk.isExecutable(candidate) { continue; }
        var artifact := disk.canonical(candidate);
        if artifact in seen { continue; }
        seen := seen + [artifact];
        hits := hits + [(rank, candidate)];
      }
    }
    assert dirs[..|dirs|] == dirs;
  }

  lemma NothingFound(disk: Disk, names: seq<string>, dirs: seq<string>)
    ensures Found(disk, Places(disk, dirs[..0], names)) == []
    ensures Artifacts(disk, []) == []
  {
  }

  lemma NextRow(disk: Disk, dirs: seq<string>, names: seq<string>, rank: nat)
    requires rank < |dirs|
    ensures var before, here := Places(disk, dirs[..rank], names), Row(disk, rank, dirs[rank], names);
            && before + here[..0] == before
            && before + here[..|names|] == Places(disk, dirs[..rank + 1], names)
  {
    hide Row;
    assert dirs[..rank + 1][..rank] == dirs[..rank];
  }

  lemma NextPlace(disk: Disk, before: seq<Hit>, here: seq<Hit>, i: nat)
    requires i < |here|
    ensures var hits := Found(disk, before + here[..i]);
            Found(disk, before + here[..i + 1]) == if Adds(disk, hits, here[i]) then hits + [here[i]] else hits
  {
    hide Adds;
    assert (before + here[..i + 1])[..|before| + i] == before + here[..i];
  }

  predicate PlaceAt(disk: Disk, dirs: seq<string>, names: seq<string>, h: Hit, rank: nat, i: nat) {
    rank < |dirs| && i < |names| && h == (rank, disk.join(dirs[rank], names[i]))
  }

  /** The places are the candidates in the directories, and nothing else. */
  lemma {:induction false} PlacesAre(disk: Disk, dirs: seq<string>, names: seq<string>, h: Hit)
    ensures h in Places(disk, dirs, names) <==> exists rank: nat, i: nat :: PlaceAt(disk, dirs, names, h, rank, i)
  {
    hide Row;
    if dirs != [] {
      var n := |dirs| - 1;
      PlacesAre(disk, dirs[..n], names, h);
      var row := Row(disk, n, dirs[n], names);
      if rank: nat, i: nat :| PlaceAt(disk, dirs, names, h, rank, i) {
        if rank < n { assert PlaceAt(disk, dirs[..n], names, h, rank, i); } else { assert row[i] == h; }
      }
      if h in Places(disk, dirs[..n], names) {
        var rank: nat, i: nat :| PlaceAt(disk, dirs[..n], names, h, rank, i);
        assert PlaceAt(disk, dirs, names, h, rank, i);
      }
      if h in row {
        var i :| 0 <= i < |row| && row[i] == h;
        assert PlaceAt(disk, dirs, names, h, n, i);
      }
    }
  }

  /** They stand directory by directory, and within one in the order of the
      candidates. */
  lemma {:induction false} PlacesInOrder(disk: Disk, dirs: seq<string>, names: seq<string>, a: nat, b: nat)
    returns (rank: nat, i: nat, later: nat, j: nat)
    requires a < b < |Places(disk, dirs, names)|
    ensures PlaceAt(disk, dirs, names, Places(disk, dirs, names)[a], rank, i)
    ensures PlaceAt(disk, dirs, names, Places(disk, dirs, names)[b], later, j)
    ensures rank < later || (rank == later && i < j)
  {
    hide Row;
    var n := |dirs| - 1;
    var before := Places(disk, dirs[..n], names);
    if b < |before| {
      rank, i, later, j := PlacesInOrder(disk, dirs[..n], names, a, b);
    } else {
      later, j := n, b - |before|;
      if a < |before| {
        PlacesAre(disk, dirs[..n], names, before[a]);
        assert before[a] in before;
        rank, i :| PlaceAt(disk, dirs[..n], names, before[a], rank, i);
      } else {
        rank, i := n, a - |before|;
      }
    }
  }

  predicate RanksAscend(hits: seq<Hit>) {
    forall i, j :: 0 <= i < j < |hits| ==> hits[i].0 <= hits[j].0
  }

  lemma {:induction false} PlacesAscend(disk: Disk, dirs: seq<string>, names: seq<string>)
    ensures RanksAscend(Places(disk, dirs, names))
    ensures forall h :: h in Places(disk, dirs, names) ==> h.0 < |dirs|
  {
    if dirs != [] { PlacesAscend(disk, dirs[..|dirs| - 1], names); }
  }

  predicate DistinctArtifacts(disk: Disk, hits: seq<Hit>) {
    forall i, j :: 0 <= i < j < |hits| ==> disk.canonical(hits[i].1) != disk.canonical(hits[j].1)
  }

  /** Some hit names the artifact at this place, at no later a rank. */
  predicate Covered(disk: Disk, hits: seq<Hit>, place: Hit) {
    exists i | 0 <= i < |hits| :: disk.canonical(hits[i].1) == disk.canonical(place.1) && hits[i].0 <= place.0
  }

  lemma {:induction false} FoundArePlaces(disk: Disk, places: seq<Hit>)
    ensures forall h :: h in Found(disk, places) ==> h in places && disk.isExecutable(h.1)
  {
    if places != [] {
      var n := |places| - 1;
      FoundArePlaces(disk, places[..n]);
      assert places == places[..n] + [places[n]];
    }
  }

  lemma {:induction false} FoundDistinct(disk: Disk, places: seq<Hit>)
    ensures DistinctArtifacts(disk, Found(disk, places))
  {
    if places != [] {
      var n := |places| - 1;
      FoundDistinct(disk, places[..n]);
      var earlier := Found(disk, places[..n]);
      assert forall i :: 0 <= i < |earlier| ==> Artifacts(disk, earlier)[i] == disk.canonical(earlier[i].1);
    }
  }

  lemma {:induction false} FoundAscend(disk: Disk, places: seq<Hit>)
    requires RanksAscend(places)
    ensures RanksAscend(Found(disk, places))
  {
    if places != [] {
      var n := |places| - 1;
      FoundAscend(disk, places[..n]);
      FoundArePlaces(disk, places[..n]);
      var earlier := Found(disk, places[..n]);
      forall i | 0 <= i < |earlier| ensures earlier[i].0 <= places[n].0 {
        assert earlier[i] in places[..n];
      }
    }
  }

  lemma CoveredByMore(disk: Disk, hits: seq<Hit>, more: seq<Hit>, place: Hit)
    requires Covered(disk, hits, place)
    ensures Covered(disk, hits + more, place)
  {
    var i :| 0 <= i < |hits| && disk.canonical(hits[i].1) == disk.canonical(place.1) && hits[i].0 <= place.0;
    assert (hits + more)[i] == hits[i];
  }

  lemma {:induction false} FoundCovers(disk: Disk, places: seq<Hit>, k: nat)
    requires RanksAscend(places)
    requires k < |places| && disk.isExecutable(places[k].1)
    ensures Covered(disk, Found(disk, places), places[k])
  {
    var n := |places| - 1;
    var earlier, hits := Found(disk, places[..n]), Found(disk, places);
    assert hits == earlier + hits[|earlier|..];
    if k < n {
      FoundCovers(disk, places[..n], k);
      CoveredByMore(disk, earlier, hits[|earlier|..], places[k]);
    } else if Adds(disk, earlier, places[n]) {
      assert hits[|earlier|] == places[n];
    } else {
      var i :| 0 <= i < |earlier| && Artifacts(disk, earlier)[i] == disk.canonical(places[n].1);
      FoundArePlaces(disk, places[..n]);
      assert earlier[i] in earlier;
      assert hits[i] == earlier[i];
    }
  }

  lemma {:induction false} FoundAll(disk: Disk, places: seq<Hit>, m: nat)
    requires m < |places| && disk.isExecutable(places[m].1)
    ensures disk.canonical(places[m].1) in Artifacts(disk, Found(disk, places))
  {
    var n := |places| - 1;
    var earlier, hits := Found(disk, places[..n]), Found(disk, places);
    assert forall i :: 0 <= i < |earlier| ==> Artifacts(disk, hits)[i] == Artifacts(disk, earlier)[i];
    if m < n {
      FoundAll(disk, places[..n], m);
    } else if Adds(disk, earlier, places[n]) {
      assert Artifacts(disk, hits)[|earlier|] == disk.canonical(places[n].1);
    }
  }

  /** Each hit is the first executable place of its artifact, and hits stand in the
      order of those places. */
  lemma {:induction false} FoundInOrder(disk: Disk, places: seq<Hit>, i: nat, j: nat) returns (k: nat)
    requires i <= j < |Found(disk, places)|
    ensures k < |places| && places[k] == Found(disk, places)[i] && disk.isExecutable(places[k].1)
    ensures forall m :: (0 <= m < k || (m == k && i < j)) && disk.isExecutable(places[m].1) ==>
              disk.canonical(places[m].1) != disk.canonical(Found(disk, places)[j].1)
  {
    hide Artifacts;
    var n := |places| - 1;
    var earlier, hits := Found(disk, places[..n]), Found(disk, places);
    assert forall m :: 0 <= m < n ==> places[..n][m] == places[m];
    if j < |earlier| {
      k := FoundInOrder(disk, places[..n], i, j);
    } else {
      if i < j { k := FoundInOrder(disk, places[..n], i, i); } else { k := n; }
      forall m | (0 <= m < k || (m == k && i < j)) && disk.isExecutable(places[m].1)
        ensures disk.canonical(places[m].1) != disk.canonical(hits[j].1)
      {
        FoundAll(disk, places[..n], m);
      }
    }
  }

  /** Hits name distinct artifacts, stand among the places in their order, and
      cover every executable place at no later a rank. */
  lemma FoundOnce(disk: Disk, dirs: seq<string>, names: seq<string>)
    ensures var places := Places(disk, dirs, names);
            var hits := Found(disk, places);
            && DistinctArtifacts(disk, hits)
            && (forall h :: h in hits ==> h in places && disk.isExecutable(h.1))
            && RanksAscend(hits)
            && (forall k :: 0 <= k < |places| && disk.isExecutable(places[k].1) ==> Covered(disk, hits, places[k]))
  {
    hide Found, Places, Covered, RanksAscend, DistinctArtifacts;
    var places := Places(disk, dirs, names);
    PlacesAscend(disk, dirs, names);
    FoundArePlaces(disk, places);
    FoundDistinct(disk, places);
    FoundAscend(disk, places);
    forall k | 0 <= k < |places| && disk.isExecutable(places[k].1) ensures Covered(disk, Found(disk, places), places[k]) {
      FoundCovers(disk, places, k);
    }
  }

  // ---------------------------------------------------------------------------
  // Hits as detections
  // ---------------------------------------------------------------------------

  function PathHit(disk: Disk, name: string, hit: Hit, first: bool, mismatch: bool): Detection {
    Detection(name, None, Some(OnDiskCasing(disk, hit.1)), Path, Medium, Some(hit.0), !first, false, mismatch)
  }

  function Answer(arch: map<string, bool>, path: string): bool {
    if path in arch then arch[path] else false
  }

  function PathDetections(disk: Disk, name: string, hits: seq<Hit>, arch: map<string, bool>): (ds: seq<Detection>)
    ensures |ds| == |hits|
    ensures forall i :: 0 <= i < |hits| ==> ds[i] == PathHit(disk, name, hits[i], i == 0, Answer(arch, hits[i].1))
  {
    seq(|hits|, i requires 0 <= i < |hits| => PathHit(disk, name, hits[i], i == 0, Answer(arch, hits[i].1)))
  }

  method DetectionsFromCandidates(disk: Disk, name: string, candidates: seq<Hit>, arch: map<string, bool>)
    returns (hits: seq<Detection>)
    ensures hits == PathDetections(disk, name, candidates, arch)
  {
    hits := [];
    for i := 0 to |candidates|
      invariant hits == PathDetections(disk, name, candidates, arch)[..i]
    {
      var (rank, candidate) := candidates[i];
      var hit := Detection(name, None, Some(OnDiskCasing(disk, candidate)), Path, Medium, Some(rank),
                           hits != [], false, if candidate in arch then arch[candidate] else false);
      hits := hits + [hit];
    }
  }

  /** The shape of a search answer: distinct artifacts, ranks that never fall, and
      every entry but the first shadowed. */
  ghost predicate PathOrdered(c: Canonical, ds: seq<Detection>) {
    && DistinctKeys(c, ds)
    && (forall i :: 0 <= i < |ds| ==> ds[i].path.Some? && ds[i].pathRank.Some?)
    && (forall i, j :: 0 <= i < j < |ds| ==> ds[i].pathRank.value <= ds[j].pathRank.value)
    && (forall i :: 0 <= i < |ds| ==> (ds[i].shadowed <==> i != 0))
  }

  lemma PathDetectionsOrdered(disk: Disk, dirs: seq<string>, names: seq<string>, name: string, arch: map<string, bool>)
    requires LooksUpByName(disk)
    ensures PathOrdered(disk.canonical, PathDetections(disk, name, Found(disk, Places(disk, dirs, names)), arch))
  {
    hide Found, Places, Covered, OnDiskCasing, LooksUpByName;
    FoundOnce(disk, dirs, names);
    var hits := Found(disk, Places(disk, dirs, names));
    forall i | 0 <= i < |hits| ensures disk.canonical(OnDiskCasing(disk, hits[i].1)) == disk.canonical(hits[i].1) {
      assert hits[i] in hits;
      CasingKeepsArtifact(disk, hits[i].1);
    }
  }

  /** What a path entry keeps when hits without a rank are merged in. */
  predicate SamePlace(a: Detection, b: Detection) {
    a.name == b.name && a.path == b.path && a.pathRank == b.pathRank && a.shadowed == b.shadowed
  }

  lemma InsertKeepsPlaces(c: Canonical, m: seq<Detection>, n: nat, d: Detection)
    requires n <= |m| && PathOrdered(c, m[..n]) && DistinctKeys(c, m)
    requires forall i :: n <= i < |m| ==> m[i].pathRank.None?
    requires d.pathRank.None?
    ensures var r := Insert(c, m, d);
            && |r| >= n
            && PathOrdered(c, r[..n])
            && (forall i :: 0 <= i < n ==> SamePlace(r[i], m[i]))
            && (forall i :: n <= i < |r| ==> r[i].pathRank.None?)
  {
    hide Insert, Absorb, Key;
    var k := Key(c, d);
    var at := if k in Keys(c, m) then IndexOf(Keys(c, m), k) else |m|;
    InsertAt(c, m, d, at);
    if at < |m| {
      AbsorbKeepsKey(c, m[at], d);
      AbsorbKeepsPlace(c, m[at], d);
      if at < n { assert m[..n][at] == m[at]; }
    }
    var r := Insert(c, m, d);
    assert forall i :: 0 <= i < n ==> m[..n][i] == m[i] && r[..n][i] == r[i] && Key(c, r[i]) == Key(c, m[i]);
  }

  lemma AbsorbKeepsPlace(c: Canonical, e: Detection, d: Detection)
    requires Key(c, e) == Key(c, d) && d.pathRank.None?
    ensures e.path.Some? ==> SamePlace(Absorb(e, d), e)
    ensures Absorb(e, d).pathRank == e.pathRank
  {
  }

  /** Merging shim and listing hits after the path hits keeps the path hits in
      front, in order, at their ranks, with exactly the first unshadowed. */
  lemma {:induction false} MergeKeepsPathOrder(c: Canonical, m: seq<Detection>, n: nat, rows: seq<Detection>)
    requires n <= |m| && PathOrdered(c, m[..n]) && DistinctKeys(c, m)
    requires forall i :: n <= i < |m| ==> m[i].pathRank.None?
    requires forall d :: d in rows ==> d.pathRank.None?
    ensures var r := MergeInto(c, m, rows);
            && |r| >= n
            && PathOrdered(c, r[..n])
            && (forall i :: 0 <= i < n ==> SamePlace(r[i], m[i]))
            && (forall i :: n <= i < |r| ==> r[i].pathRank.None?)
            && DistinctKeys(c, r)
    decreases |rows|
  {
    hide PathOrdered, Insert;
    if rows != [] {
      InsertKeepsPlaces(c, m, n, rows[0]);
      InsertDistinct(c, m, rows[0]);
      MergeKeepsPathOrder(c, Insert(c, m, rows[0]), n, rows[1..]);
    }
  }
}
