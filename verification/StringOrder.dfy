/** Strings in the order of their characters, sorting, and how that order
    treats printed numbers. */
module StringOrder {
  import opened Decimal

  predicate Less(a: string, b: string) {
    b != "" && (a == "" || a[0] < b[0] || (a[0] == b[0] && Less(a[1..], b[1..])))
  }

  lemma {:induction false} LessTotal(a: string, b: string)
    ensures Less(a, b) || Less(b, a) || a == b
  {
    if a != "" && b != "" && a[0] == b[0] {
      LessTotal(a[1..], b[1..]);
      if a[1..] == b[1..] {
        assert a == [a[0]] + a[1..] && b == [b[0]] + b[1..];
      }
    }
  }

  lemma {:induction false} LessIrreflexive(a: string)
    ensures !Less(a, a)
  {
    if a != "" { LessIrreflexive(a[1..]); }
  }

  lemma {:induction false} LessTransitive(a: string, b: string, c: string)
    requires Less(a, b) && Less(b, c)
    ensures Less(a, c)
  {
    if a != "" && a[0] == b[0] == c[0] {
      LessTransitive(a[1..], b[1..], c[1..]);
    }
  }

  predicate AtMost(a: string, b: string) {
    a == b || Less(a, b)
  }

  lemma AtMostTransitive(a: string, b: string, c: string)
    requires AtMost(a, b) && AtMost(b, c)
    ensures AtMost(a, c)
    ensures a == c ==> a == b
  {
    if Less(a, b) && Less(b, c) {
      LessTransitive(a, b, c);
      if a == c { LessIrreflexive(a); }
    }
  }

  // ---------------------------------------------------------------------------
  // Sorting
  // ---------------------------------------------------------------------------

  predicate Sorted(s: seq<string>) {
    forall i, j :: 0 <= i < j < |s| ==> AtMost(s[i], s[j])
  }

  predicate StrictlySorted(s: seq<string>) {
    forall i, j :: 0 <= i < j < |s| ==> Less(s[i], s[j])
  }

  function Place(x: string, s: seq<string>): (r: seq<string>)
    ensures multiset(r) == multiset(s) + multiset{x}
  {
    if s == [] then [x]
    else if AtMost(x, s[0]) then [x] + s
    else
      assert s == [s[0]] + s[1..];
      [s[0]] + Place(x, s[1..])
  }

  /** The sort of the standard library, as a function of the list. */
  function Sort(s: seq<string>): (r: seq<string>)
    ensures multiset(r) == multiset(s)
  {
    if s == [] then []
    else
      assert s == [s[0]] + s[1..];
      Place(s[0], Sort(s[1..]))
  }

  lemma {:induction false} PlaceSorted(x: string, s: seq<string>)
    requires Sorted(s)
    ensures Sorted(Place(x, s))
  {
    if s != [] {
      if AtMost(x, s[0]) {
        forall i | 0 < i < |s| ensures AtMost(x, s[i]) { AtMostTransitive(x, s[0], s[i]); }
      } else {
        LessTotal(x, s[0]);
        PlaceSorted(x, s[1..]);
        var t := Place(x, s[1..]);
        forall i | 0 <= i < |t| ensures AtMost(s[0], t[i]) {
          assert t[i] in multiset(t);
          assert t[i] == x || t[i] in s[1..];
        }
      }
    }
  }

  lemma {:induction false} SortSorts(s: seq<string>)
    ensures Sorted(Sort(s))
  {
    if s != [] {
      SortSorts(s[1..]);
      PlaceSorted(s[0], Sort(s[1..]));
    }
  }

  lemma SortKeepsMembers(s: seq<string>, x: string)
    ensures x in Sort(s) <==> x in s
  {
    assert x in Sort(s) <==> x in multiset(Sort(s));
    assert x in s <==> x in multiset(s);
  }

  /** A strictly sorted list is determined by its members. */
  lemma {:induction false} StrictlySortedUnique(s: seq<string>, t: seq<string>)
    requires StrictlySorted(s) && StrictlySorted(t)
    requires forall x :: x in s <==> x in t
    ensures s == t
  {
    HeadIsMember(s);
    HeadIsMember(t);
    if s != [] {
      var k :| 0 <= k < |t| && t[k] == s[0];
      var m :| 0 <= m < |s| && s[m] == t[0];
      HeadsAgree(s, t, k, m);
      forall x ensures x in s[1..] <==> x in t[1..] {
        TailMembers(s, x);
        TailMembers(t, x);
      }
      StrictlySortedUnique(s[1..], t[1..]);
      assert s == [s[0]] + s[1..] && t == [t[0]] + t[1..];
    }
  }

  lemma HeadIsMember(s: seq<string>)
    ensures s == [] || s[0] in s
  {
  }

  lemma HeadsAgree(s: seq<string>, t: seq<string>, k: nat, m: nat)
    requires StrictlySorted(s) && StrictlySorted(t)
    requires k < |t| && m < |s| && t[k] == s[0] && s[m] == t[0]
    ensures s[0] == t[0]
  {
    if 0 < k && 0 < m {
      LessTransitive(s[0], t[0], s[0]);
      LessIrreflexive(s[0]);
    }
  }

  lemma TailMembers(s: seq<string>, x: string)
    requires s != [] && StrictlySorted(s)
    ensures x in s[1..] <==> x in s && x != s[0]
  {
    LessIrreflexive(s[0]);
    assert s == [s[0]] + s[1..];
  }

  /** Sorting a list without repeats sorts it strictly. */
  lemma SortStrict(s: seq<string>)
    requires forall i, j :: 0 <= i < j < |s| ==> s[i] != s[j]
    ensures StrictlySorted(Sort(s))
  {
    SortSorts(s);
    var r := Sort(s);
    NoRepeatsOnce(s);
    forall i, j | 0 <= i < j < |r| ensures Less(r[i], r[j]) {
      if r[i] == r[j] {
        TwiceMeansTwo(r, i, j);
      }
    }
  }

  lemma {:induction false} NoRepeatsOnce(s: seq<string>)
    requires forall i, j :: 0 <= i < j < |s| ==> s[i] != s[j]
    ensures forall x :: multiset(s)[x] <= 1
  {
    if s != [] {
      NoRepeatsOnce(s[1..]);
      assert s == [s[0]] + s[1..];
      assert s[0] !in s[1..];
      assert s[0] !in multiset(s[1..]);
    }
  }

  lemma TwiceMeansTwo(r: seq<string>, i: nat, j: nat)
    requires i < j < |r| && r[i] == r[j]
    ensures multiset(r)[r[i]] >= 2
  {
    assert r == r[..j] + r[j..];
    assert r[i] in multiset(r[..j]) by { assert r[..j][i] == r[i]; }
    assert r[i] in multiset(r[j..]) by { assert r[j..][0] == r[i]; }
  }

  /** Two orders of the same names sort to the same list. */
  lemma SortIgnoresOrder(s: seq<string>, t: seq<string>)
    requires forall i, j :: 0 <= i < j < |s| ==> s[i] != s[j]
    requires forall i, j :: 0 <= i < j < |t| ==> t[i] != t[j]
    requires forall x :: x in s <==> x in t
    ensures Sort(s) == Sort(t)
  {
    SortStrict(s);
    SortStrict(t);
    forall x ensures x in Sort(s) <==> x in Sort(t) {
      SortKeepsMembers(s, x);
      SortKeepsMembers(t, x);
    }
    StrictlySortedUnique(Sort(s), Sort(t));
  }

  // ---------------------------------------------------------------------------
  // Keys of an ordered map
  // ---------------------------------------------------------------------------

  predicate Least(x: string, s: set<string>) {
    x in s && forall y | y in s :: AtMost(x, y)
  }

  lemma {:induction false} HasLeast(s: set<string>)
    requires s != {}
    ensures exists x :: Least(x, s)
    decreases |s|
  {
    var x :| x in s;
    var rest := s - {x};
    if rest == {} {
      assert s == {x};
      assert Least(x, s);
    } else {
      HasLeast(rest);
      var m :| Least(m, rest);
      LessTotal(x, m);
      if Less(m, x) {
        assert Least(m, s);
      } else {
        forall y | y in s ensures AtMost(x, y) {
          if y != x { AtMostTransitive(x, m, y); }
        }
        assert Least(x, s);
      }
    }
  }

  lemma LeastUnique(s: set<string>)
    ensures forall x, y :: Least(x, s) && Least(y, s) ==> x == y
  {
    forall x, y | Least(x, s) && Least(y, s) ensures x == y {
      AtMostTransitive(x, y, x);
    }
  }

  /** The keys of an ordered map, in its iteration order. */
  function InOrder(s: set<string>): (r: seq<string>)
    ensures |r| == |s|
    ensures forall x :: x in r <==> x in s
    decreases |s|
  {
    if s == {} then []
    else
      HasLeast(s);
      LeastUnique(s);
      var x :| Least(x, s);
      [x] + InOrder(s - {x})
  }

  /** The iteration order is the sorted one, without repeats. */
  lemma {:induction false} InOrderSorted(s: set<string>)
    ensures StrictlySorted(InOrder(s))
    decreases |s|
  {
    if s != {} {
      var r := InOrder(s);
      InOrderSorted(s - {r[0]});
      forall i | 0 < i < |r| ensures Less(r[0], r[i]) {
        assert r[1..][i - 1] in InOrder(s - {r[0]});
      }
    }
  }

  // ---------------------------------------------------------------------------
  // Printed numbers
  // ---------------------------------------------------------------------------

  lemma {:induction false} LessAppend(a: string, x: char, b: string, y: char)
    requires |a| == |b|
    ensures Less(a + [x], b + [y]) <==> Less(a, b) || (a == b && x < y)
  {
    if a == "" {
      assert a + [x] == [x] && b + [y] == [y];
    } else {
      assert (a + [x])[1..] == a[1..] + [x] && (b + [y])[1..] == b[1..] + [y];
      LessAppend(a[1..], x, b[1..], y);
      assert a == b <==> a[0] == b[0] && a[1..] == b[1..] by {
        assert a == [a[0]] + a[1..] && b == [b[0]] + b[1..];
      }
    }
  }

  /** Appending to the longer text decides nothing. */
  lemma {:induction false} LessAppendLonger(a: string, b: string, y: char)
    requires |a| <= |b|
    ensures Less(a, b + [y]) <==> AtMost(a, b)
  {
    LessIrreflexive(a);
    if a != "" {
      assert (b + [y])[1..] == b[1..] + [y];
      LessAppendLonger(a[1..], b[1..], y);
      if a[0] == b[0] {
        assert a == [a[0]] + a[1..] && b == [b[0]] + b[1..];
      }
    }
  }

  /** Numbers of equally many digits sort as text the way they sort as numbers. */
  lemma {:induction false} SameWidthOrder(m: nat, n: nat)
    requires |Print(m)| == |Print(n)|
    ensures Less(Print(m), Print(n)) <==> m < n
  {
    if m < 10 {
      assert Print(m) == "" + [Digit(m)] && Print(n) == "" + [Digit(n)] by { WidthOne(m); WidthOne(n); }
      LessAppend("", Digit(m), "", Digit(n));
    } else {
      assert 10 <= n by { WidthOne(m); WidthOne(n); }
      SameWidthOrder(m / 10, n / 10);
      LessAppend(Print(m / 10), Digit(m % 10), Print(n / 10), Digit(n % 10));
      if Print(m / 10) == Print(n / 10) { PrintInjective(m / 10, n / 10); }
    }
  }

  lemma WidthOne(n: nat)
    ensures |Print(n)| == 1 <==> n < 10
  {
  }

  /** `n` without its last `k` digits. */
  function Chop(n: nat, k: nat): nat {
    if k == 0 then n else Chop(n / 10, k - 1)
  }

  /** Numbers of different widths: a shorter one comes first as text exactly when
      it is at most the leading digits, equally many, of the longer one. */
  lemma {:induction false} ShorterOrder(m: nat, n: nat)
    requires |Print(m)| < |Print(n)|
    ensures Less(Print(m), Print(n)) <==> m <= Chop(n, |Print(n)| - |Print(m)|)
    decreases n
  {
    WidthOne(n);
    LessAppendLonger(Print(m), Print(n / 10), Digit(n % 10));
    if |Print(m)| == |Print(n / 10)| {
      SameWidthOrder(m, n / 10);
      assert Chop(n, 1) == Chop(n / 10, 0) == n / 10;
      if Print(m) == Print(n / 10) { PrintInjective(m, n / 10); }
    } else {
      ShorterOrder(m, n / 10);
    }
  }
}
