/** Merging the hits of several sources: one entry per canonical path, one per
    source and name for hits without a path. */
module Merge {
  import opened Wrappers
  import opened Registry

  datatype Source =
    | Path | MiseShim | Homebrew | Flatpak | Snap | Distro(family: DistroFamily)
    | Npm | Cargo | Pipx | Uv | Mise

  datatype Confidence = High | Medium | Low {
    function Rank(): nat {
      match this case High => 2 case Medium => 1 case Low => 0
    }
  }

  datatype Detection = Detection(
    name: string,
    version: Option<string>,
    path: Option<string>,
    source: Source,
    confidence: Confidence,
    pathRank: Option<nat>,
    shadowed: bool,
    broken: bool,
    archMismatch: bool)

  datatype MergeKey = AtPath(path: string) | OfSource(source: Source, name: string)

  /** How the host resolves a path to its canonical artifact. */
  type Canonical = string -> string

  function Key(c: Canonical, d: Detection): MergeKey {
    match d.path
    case Some(path) => AtPath(c(path))
    case None => OfSource(d.source, d.name)
  }

  function JoinRank(a: Option<nat>, b: Option<nat>): Option<nat> {
    match (a, b)
    case (Some(x), Some(y)) => Some(if x <= y then x else y)
    case (Some(x), None) => a
    case (None, _) => b
  }

  /** Fold one more hit for the same key into an entry. */
  function Absorb(e: Detection, d: Detection): Detection {
    e.(source := if e.source.Path? && !d.source.Path? then d.source else e.source,
       version := if e.version.None? then d.version else e.version,
       pathRank := JoinRank(e.pathRank, d.pathRank),
       confidence := if d.confidence.Rank() > e.confidence.Rank() then d.confidence else e.confidence,
       shadowed := e.shadowed || (d.path.None? && d.shadowed),
       broken := e.broken || d.broken,
       archMismatch := e.archMismatch || d.archMismatch)
  }

  function Insert(c: Canonical, m: seq<Detection>, d: Detection): seq<Detection> {
    if m == [] then [d]
    else if Key(c, m[0]) == Key(c, d) then [Absorb(m[0], d)] + m[1..]
    else [m[0]] + Insert(c, m[1..], d)
  }

  function MergeInto(c: Canonical, m: seq<Detection>, ds: seq<Detection>): seq<Detection>
    decreases |ds|
  {
    if ds == [] then m else MergeInto(c, Insert(c, m, ds[0]), ds[1..])
  }

  function Merged(c: Canonical, ds: seq<Detection>): seq<Detection> {
    MergeInto(c, [], ds)
  }

  // ---------------------------------------------------------------------------
  // The loop
  // ---------------------------------------------------------------------------

  function Keys(c: Canonical, m: seq<Detection>): (keys: seq<MergeKey>)
    ensures |keys| == |m| && forall i :: 0 <= i < |m| ==> keys[i] == Key(c, m[i])
  {
    seq(|m|, i requires 0 <= i < |m| => Key(c, m[i]))
  }

  /** The merge with its two parallel vectors: keys are computed once. */
  method MergeByCanonicalPath(c: Canonical, detections: seq<Detection>) returns (merged: seq<Detection>)
    ensures merged == Merged(c, detections)
  {
    hide Absorb, Key;
    merged := [];
    var keys: seq<MergeKey> := [];
    assert detections[0..] == detections;
    for i := 0 to |detections|
      invariant keys == Keys(c, merged)
      invariant MergeInto(c, merged, detections[i..]) == Merged(c, detections)
    {
      assert detections[i..][0] == detections[i] && detections[i..][1..] == detections[i + 1..];
      var detection := detections[i];
      var key := Key(c, detection);
      var index := 0;
      while index < |keys| && keys[index] != key
        invariant 0 <= index <= |keys|
        invariant key !in keys[..index]
      {
        index := index + 1;
      }
      InsertAt(c, merged, detection, index);
      if index < |keys| {
        AbsorbKeepsKey(c, merged[index], detection);
        merged := merged[index := Absorb(merged[index], detection)];
      } else {
        keys := keys + [key];
        merged := merged + [detection];
      }
      assert keys == Keys(c, merged);
    }
  }

  lemma {:induction false} InsertAt(c: Canonical, m: seq<Detection>, d: Detection, i: nat)
    requires i <= |m| && Key(c, d) !in Keys(c, m)[..i]
    requires i < |m| ==> Key(c, m[i]) == Key(c, d)
    ensures Insert(c, m, d) == if i < |m| then m[i := Absorb(m[i], d)] else m + [d]
  {
    hide Absorb, Key;
    if i > 0 {
      assert Keys(c, m)[..i][0] == Key(c, m[0]);
      assert Keys(c, m[1..]) == Keys(c, m)[1..];
      assert forall j :: 0 <= j < i - 1 ==> Keys(c, m[1..])[j] == Keys(c, m)[..i][j + 1];
      InsertAt(c, m[1..], d, i - 1);
    }
  }

  // ---------------------------------------------------------------------------
  // The algebra of merging
  // ---------------------------------------------------------------------------

  lemma AbsorbKeepsKey(c: Canonical, e: Detection, d: Detection)
    requires Key(c, e) == Key(c, d)
    ensures Key(c, Absorb(e, d)) == Key(c, e)
  {
  }

  lemma AbsorbAssociative(c: Canonical, x: Detection, y: Detection, z: Detection)
    requires Key(c, x) == Key(c, y) == Key(c, z)
    ensures Absorb(Absorb(x, y), z) == Absorb(x, Absorb(y, z))
  {
  }

  lemma {:induction false} InsertTwice(c: Canonical, m: seq<Detection>, x: Detection, y: Detection)
    requires Key(c, x) == Key(c, y)
    ensures Insert(c, Insert(c, m, x), y) == Insert(c, m, Absorb(x, y))
  {
    hide Absorb, Key;
    AbsorbKeepsKey(c, x, y);
    if m != [] {
      if Key(c, m[0]) == Key(c, x) {
        AbsorbKeepsKey(c, m[0], x);
        AbsorbAssociative(c, m[0], x, y);
      } else {
        InsertTwice(c, m[1..], x, y);
      }
    }
  }

  lemma {:induction false} InsertKeys(c: Canonical, m: seq<Detection>, d: Detection, k: MergeKey)
    ensures k in Keys(c, Insert(c, m, d)) <==> k in Keys(c, m) || k == Key(c, d)
  {
    hide Absorb, Key;
    var r := Insert(c, m, d);
    if m != [] {
      assert Keys(c, m) == [Key(c, m[0])] + Keys(c, m[1..]);
      if Key(c, m[0]) == Key(c, d) {
        AbsorbKeepsKey(c, m[0], d);
        assert Keys(c, r) == Keys(c, m);
      } else {
        InsertKeys(c, m[1..], d, k);
        assert Keys(c, r) == [Key(c, m[0])] + Keys(c, Insert(c, m[1..], d));
      }
    } else {
      assert Keys(c, r) == [Key(c, d)];
    }
  }

  lemma {:induction false} InsertCommutes(c: Canonical, m: seq<Detection>, x: Detection, d: Detection)
    requires Key(c, d) in Keys(c, m) && Key(c, x) != Key(c, d)
    ensures Insert(c, Insert(c, m, x), d) == Insert(c, Insert(c, m, d), x)
  {
    hide Absorb, Key;
    assert Keys(c, m) == [Key(c, m[0])] + Keys(c, m[1..]);
    if Key(c, m[0]) == Key(c, x) {
      AbsorbKeepsKey(c, m[0], x);
    } else if Key(c, m[0]) == Key(c, d) {
      AbsorbKeepsKey(c, m[0], d);
    } else {
      InsertCommutes(c, m[1..], x, d);
    }
  }

  /** A hit for a key already there may be inserted before or after hits for other
      keys. */
  lemma {:induction false} InsertPasses(c: Canonical, m: seq<Detection>, ds: seq<Detection>, d: Detection)
    requires Key(c, d) in Keys(c, m) && Key(c, d) !in Keys(c, ds)
    ensures MergeInto(c, Insert(c, m, d), ds) == Insert(c, MergeInto(c, m, ds), d)
    decreases |ds|
  {
    hide Insert, Key;
    if ds != [] {
      assert Keys(c, ds)[0] == Key(c, ds[0]);
      assert Keys(c, ds[1..]) == Keys(c, ds)[1..];
      InsertCommutes(c, m, ds[0], d);
      InsertKeys(c, m, ds[0], Key(c, d));
      InsertPasses(c, Insert(c, m, ds[0]), ds[1..], d);
    }
  }

  predicate DistinctKeys(c: Canonical, m: seq<Detection>) {
    forall i, j :: 0 <= i < j < |m| ==> Key(c, m[i]) != Key(c, m[j])
  }

  lemma {:induction false} MergeOfInsert(c: Canonical, m: seq<Detection>, ds: seq<Detection>, d: Detection)
    requires DistinctKeys(c, ds)
    ensures MergeInto(c, m, Insert(c, ds, d)) == Insert(c, MergeInto(c, m, ds), d)
    decreases |ds|
  {
    hide Absorb, Key;
    if ds == [] {
      assert MergeInto(c, m, [d]) == MergeInto(c, Insert(c, m, d), [d][1..]);
    } else {
      var e, rest := ds[0], ds[1..];
      if Key(c, e) == Key(c, d) {
        var a := Absorb(e, d);
        assert Insert(c, ds, d)[1..] == rest && Insert(c, ds, d)[0] == a;
        InsertTwice(c, m, e, d);
        InsertKeys(c, m, e, Key(c, d));
        InsertPasses(c, Insert(c, m, e), rest, d);
      } else {
        assert Insert(c, ds, d)[1..] == Insert(c, rest, d) && Insert(c, ds, d)[0] == e;
        MergeOfInsert(c, Insert(c, m, e), rest, d);
      }
    }
  }

  lemma {:induction false} InsertDistinct(c: Canonical, m: seq<Detection>, d: Detection)
    requires DistinctKeys(c, m)
    ensures DistinctKeys(c, Insert(c, m, d))
  {
    hide Absorb, Key;
    if m != [] {
      if Key(c, m[0]) == Key(c, d) {
        AbsorbKeepsKey(c, m[0], d);
      } else {
        InsertDistinct(c, m[1..], d);
        var r := Insert(c, m[1..], d);
        forall j | 0 <= j < |r| ensures Key(c, r[j]) != Key(c, m[0]) {
          InsertKeys(c, m[1..], d, Key(c, r[j]));
          assert Keys(c, r)[j] == Key(c, r[j]);
        }
      }
    }
  }

  lemma {:induction false} MergeDistinct(c: Canonical, m: seq<Detection>, ds: seq<Detection>)
    requires DistinctKeys(c, m)
    ensures DistinctKeys(c, MergeInto(c, m, ds))
    decreases |ds|
  {
    if ds != [] {
      InsertDistinct(c, m, ds[0]);
      MergeDistinct(c, Insert(c, m, ds[0]), ds[1..]);
    }
  }

  lemma {:induction false} MergeConcat(c: Canonical, m: seq<Detection>, a: seq<Detection>, b: seq<Detection>)
    ensures MergeInto(c, m, a + b) == MergeInto(c, MergeInto(c, m, a), b)
    decreases |a|
  {
    if a == [] {
      assert a + b == b;
    } else {
      assert (a + b)[1..] == a[1..] + b;
      MergeConcat(c, Insert(c, m, a[0]), a[1..], b);
    }
  }

  lemma {:induction false} MergeOfMerge(c: Canonical, m: seq<Detection>, n: seq<Detection>, ds: seq<Detection>)
    requires DistinctKeys(c, n)
    ensures MergeInto(c, m, MergeInto(c, n, ds)) == MergeInto(c, MergeInto(c, m, n), ds)
    decreases |ds|
  {
    if ds != [] {
      MergeOfInsert(c, m, n, ds[0]);
      InsertDistinct(c, n, ds[0]);
      MergeOfMerge(c, m, Insert(c, n, ds[0]), ds[1..]);
    }
  }

  /** Merging in parts and merging at once agree. */
  lemma MergeInParts(c: Canonical, a: seq<Detection>, b: seq<Detection>)
    ensures Merged(c, a + b) == Merged(c, Merged(c, a) + Merged(c, b))
  {
    MergeConcat(c, [], a, b);
    MergeConcat(c, [], Merged(c, a), Merged(c, b));
    MergeOfMerge(c, [], [], a);
    MergeOfMerge(c, Merged(c, a), [], b);
  }

  /** Merging twice changes nothing. */
  lemma MergeIdempotent(c: Canonical, ds: seq<Detection>)
    ensures Merged(c, Merged(c, ds)) == Merged(c, ds)
  {
    MergeOfMerge(c, [], [], ds);
  }

  // ---------------------------------------------------------------------------
  // What each entry says of its group
  // ---------------------------------------------------------------------------

  /** The hits for one key, in order. */
  function Group(c: Canonical, ds: seq<Detection>, k: MergeKey): seq<Detection> {
    if ds == [] then []
    else
      var n := |ds| - 1;
      Group(c, ds[..n], k) + if Key(c, ds[n]) == k then [ds[n]] else []
  }

  /** The keys in the order they are first seen. */
  function FirstSeen(keys: seq<MergeKey>): seq<MergeKey> {
    if keys == [] then []
    else
      var n := |keys| - 1;
      var earlier := FirstSeen(keys[..n]);
      if keys[n] in earlier then earlier else earlier + [keys[n]]
  }

  ghost predicate FirstVersion(v: Option<string>, g: seq<Detection>) {
    if v.None? then forall i :: 0 <= i < |g| ==> g[i].version.None?
    else exists i :: 0 <= i < |g| && g[i].version == v && forall j :: 0 <= j < i ==> g[j].version.None?
  }

  ghost predicate LeastRank(r: Option<nat>, g: seq<Detection>) {
    && (r.Some? ==> exists i :: 0 <= i < |g| && g[i].pathRank == r)
    && (forall i :: 0 <= i < |g| && g[i].pathRank.Some? ==> r.Some? && r.value <= g[i].pathRank.value)
  }

  ghost predicate GreatestConfidence(k: Confidence, g: seq<Detection>) {
    && (exists i :: 0 <= i < |g| && g[i].confidence == k)
    && (forall i :: 0 <= i < |g| ==> g[i].confidence.Rank() <= k.Rank())
  }

  /** The first source that is not a plain path hit, when there is one. */
  ghost predicate FirstManaged(s: Source, g: seq<Detection>) {
    if s.Path? then forall i :: 0 <= i < |g| ==> g[i].source.Path?
    else exists i :: 0 <= i < |g| && g[i].source == s && forall j :: 0 <= j < i ==> g[j].source.Path?
  }

  ghost predicate Summarises(e: Detection, g: seq<Detection>) {
    && g != []
    && e.name == g[0].name && e.path == g[0].path
    && FirstVersion(e.version, g)
    && LeastRank(e.pathRank, g)
    && GreatestConfidence(e.confidence, g)
    && FirstManaged(e.source, g)
    && (e.broken <==> exists i :: 0 <= i < |g| && g[i].broken)
    && (e.archMismatch <==> exists i :: 0 <= i < |g| && g[i].archMismatch)
    && (e.path.Some? ==> e.shadowed == g[0].shadowed)
    && (e.path.None? ==> (e.shadowed <==> exists i :: 0 <= i < |g| && g[i].shadowed))
  }

  lemma SummaryOfOne(d: Detection)
    ensures Summarises(d, [d])
  {
    assert [d][0] == d;
  }

  lemma SummaryScalars(e: Detection, g: seq<Detection>, d: Detection)
    requires Summarises(e, g) && e.path.Some? == d.path.Some?
    ensures var h, a := g + [d], Absorb(e, d);
            && (a.broken <==> exists i :: 0 <= i < |h| && h[i].broken)
            && (a.archMismatch <==> exists i :: 0 <= i < |h| && h[i].archMismatch)
            && (a.path.None? ==> (a.shadowed <==> exists i :: 0 <= i < |h| && h[i].shadowed))
  {
    var h := g + [d];
    assert forall i :: 0 <= i < |g| ==> h[i] == g[i];
    assert h[|g|] == d;
  }

  lemma SummaryFirsts(e: Detection, g: seq<Detection>, d: Detection)
    requires Summarises(e, g)
    ensures FirstVersion(Absorb(e, d).version, g + [d])
    ensures FirstManaged(Absorb(e, d).source, g + [d])
  {
    var h := g + [d];
    assert forall i :: 0 <= i < |g| ==> h[i] == g[i];
    assert h[|g|] == d;
  }

  lemma SummaryExtremes(e: Detection, g: seq<Detection>, d: Detection)
    requires Summarises(e, g)
    ensures LeastRank(Absorb(e, d).pathRank, g + [d])
    ensures GreatestConfidence(Absorb(e, d).confidence, g + [d])
  {
    var h := g + [d];
    assert forall i :: 0 <= i < |g| ==> h[i] == g[i];
    assert h[|g|] == d;
  }

  lemma SummaryOfMore(c: Canonical, e: Detection, g: seq<Detection>, d: Detection)
    requires Summarises(e, g) && Key(c, e) == Key(c, d)
    ensures Summarises(Absorb(e, d), g + [d])
  {
    hide FirstVersion, FirstManaged, LeastRank, GreatestConfidence;
    SummaryScalars(e, g, d);
    SummaryFirsts(e, g, d);
    SummaryExtremes(e, g, d);
  }

  lemma {:induction false} NoGroup(c: Canonical, ds: seq<Detection>, k: MergeKey)
    ensures k !in Keys(c, ds) <==> Group(c, ds, k) == []
  {
    hide Key;
    if ds != [] {
      var n := |ds| - 1;
      NoGroup(c, ds[..n], k);
      assert Keys(c, ds) == Keys(c, ds[..n]) + [Key(c, ds[n])];
    }
  }

  lemma {:induction false} FirstSeenMembers(keys: seq<MergeKey>, k: MergeKey)
    ensures k in FirstSeen(keys) <==> k in keys
  {
    if keys != [] {
      var n := |keys| - 1;
      FirstSeenMembers(keys[..n], k);
      FirstSeenMembers(keys[..n], keys[n]);
      assert keys == keys[..n] + [keys[n]];
    }
  }

  /** The entries stand in first-seen order of their keys, without repeats, and
      each one summarises all the hits for its key. */
  lemma {:induction false} MergedEntries(c: Canonical, ds: seq<Detection>)
    ensures Keys(c, Merged(c, ds)) == FirstSeen(Keys(c, ds))
    ensures DistinctKeys(c, Merged(c, ds))
    ensures forall i :: 0 <= i < |Merged(c, ds)| ==>
              Summarises(Merged(c, ds)[i], Group(c, ds, Key(c, Merged(c, ds)[i])))
  {
    MergeDistinct(c, [], ds);
    if ds != [] {
      var n := |ds| - 1;
      var m, d := Merged(c, ds[..n]), ds[n];
      MergedEntries(c, ds[..n]);
      MergeConcat(c, [], ds[..n], [d]);
      assert ds == ds[..n] + [d];
      assert MergeInto(c, m, [d]) == MergeInto(c, Insert(c, m, d), [d][1..]);
      assert Keys(c, ds)[..n] == Keys(c, ds[..n]);
      FirstSeenMembers(Keys(c, ds[..n]), Key(c, d));
      NoGroup(c, ds[..n], Key(c, d));
      InsertEntry(c, ds[..n], m, d);
    }
  }

  lemma InsertEntry(c: Canonical, before: seq<Detection>, m: seq<Detection>, d: Detection)
    requires DistinctKeys(c, m)
    requires Key(c, d) in Keys(c, m) <==> Key(c, d) in Keys(c, before)
    requires forall i :: 0 <= i < |m| ==> Summarises(m[i], Group(c, before, Key(c, m[i])))
    ensures Keys(c, Insert(c, m, d)) == if Key(c, d) in Keys(c, m) then Keys(c, m) else Keys(c, m) + [Key(c, d)]
    ensures var r := Insert(c, m, d);
            forall i :: 0 <= i < |r| ==> Summarises(r[i], Group(c, before + [d], Key(c, r[i])))
  {
    hide Absorb, Key, Summarises, Insert, Group;
    var k := Key(c, d);
    var r := Insert(c, m, d);
    var at := if k in Keys(c, m) then IndexOf(Keys(c, m), k) else |m|;
    InsertAt(c, m, d, at);
    if at < |m| { AbsorbKeepsKey(c, m[at], d); }
    assert |r| == if at < |m| then |m| else |m| + 1;
    forall i | 0 <= i < |r| ensures Summarises(r[i], Group(c, before + [d], Key(c, r[i]))) {
      GroupNext(c, before, d, Key(c, r[i]));
      if i != at {
        assert r[i] == m[i] && Keys(c, m)[i] != k;
      } else if at < |m| {
        SummaryOfMore(c, m[at], Group(c, before, k), d);
      } else {
        NoGroup(c, before, k);
        SummaryOfOne(d);
      }
    }
  }

  function IndexOf<T(==)>(s: seq<T>, x: T): (i: nat)
    requires x in s
    ensures i < |s| && s[i] == x && x !in s[..i]
  {
    if s[0] == x then 0
    else
      var j := IndexOf(s[1..], x);
      assert s[..1 + j] == [s[0]] + s[1..][..j];
      1 + j
  }

  lemma GroupNext(c: Canonical, before: seq<Detection>, d: Detection, k: MergeKey)
    ensures Key(c, d) != k ==> Group(c, before + [d], k) == Group(c, before, k)
    ensures Key(c, d) == k ==> Group(c, before + [d], k) == Group(c, before, k) + [d]
    ensures Group(c, before, k) == [] ==> Group(c, before, k) + [d] == [d]
  {
    hide Key;
    assert (before + [d])[..|before|] == before;
  }
}
