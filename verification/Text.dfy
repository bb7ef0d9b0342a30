/** Text as the audit files and the `file` probe see it: lines, trimming and
    splitting, with the laws that the parsers and printers rest on. */
module Text {
  import opened Wrappers

  /** The Unicode `White_Space` property, which trimming strips. */
  predicate IsWhitespace(c: char) {
    var u := c as int;
    || 0x9 <= u <= 0xD
    || u in {0x20, 0x85, 0xA0, 0x1680, 0x2028, 0x2029, 0x202F, 0x205F, 0x3000}
    || 0x2000 <= u <= 0x200A
  }

  predicate IsBlank(s: string) {
    forall i :: 0 <= i < |s| ==> IsWhitespace(s[i])
  }

  /** Neither end is whitespace: what trimming leaves. */
  predicate Trimmed(s: string) {
    s != "" ==> !IsWhitespace(s[0]) && !IsWhitespace(s[|s| - 1])
  }

  function TrimStart(s: string): (t: string)
    ensures |t| <= |s| && t == s[|s| - |t|..]
    ensures IsBlank(s[..|s| - |t|])
    ensures t != "" ==> !IsWhitespace(t[0])
  {
    if s != "" && IsWhitespace(s[0]) then
      var t := TrimStart(s[1..]);
      assert s[..|s| - |t|] == [s[0]] + s[1..][..|s| - 1 - |t|];
      t
    else s
  }

  function TrimEnd(s: string): (t: string)
    ensures |t| <= |s| && t == s[..|t|]
    ensures IsBlank(s[|t|..])
    ensures t != "" ==> !IsWhitespace(t[|t| - 1])
  {
    if s != "" && IsWhitespace(s[|s| - 1]) then
      var t := TrimEnd(s[..|s| - 1]);
      assert s[|t|..] == s[..|s| - 1][|t|..] + [s[|s| - 1]];
      t
    else s
  }

  function Trim(s: string): (t: string)
    ensures Trimmed(t)
    ensures t == "" <==> IsBlank(s)
    ensures forall c :: c in t ==> c in s
  {
    TrimFacts(s);
    TrimEnd(TrimStart(s))
  }

  lemma TrimFacts(s: string)
    ensures var t := TrimEnd(TrimStart(s));
            && Trimmed(t)
            && (t == "" <==> IsBlank(s))
            && (forall c :: c in t ==> c in s)
  {
    hide *;
    var lead, ink, tail := Cut(s);
    InkBetween(lead, ink, tail);
  }

  lemma InkBetween(lead: string, ink: string, tail: string)
    requires IsBlank(lead) && IsBlank(tail) && Trimmed(ink)
    ensures ink == "" <==> IsBlank(lead + ink + tail)
    ensures forall c :: c in ink ==> c in lead + ink + tail
  {
    hide IsWhitespace;
    BlankConcat(lead + ink, tail);
    BlankConcat(lead, ink);
    if ink != "" { NotBlank(ink, 0); }
  }

  lemma NotBlank(s: string, i: nat)
    requires i < |s| && !IsWhitespace(s[i])
    ensures !IsBlank(s)
  {
  }

  lemma ConcatAssoc<T>(a: seq<T>, b: seq<T>, c: seq<T>)
    ensures (a + b) + c == a + (b + c)
  {
  }

  lemma BlankConcat(a: string, b: string)
    ensures IsBlank(a + b) <==> IsBlank(a) && IsBlank(b)
  {
    if IsBlank(a + b) {
      forall i | 0 <= i < |a| ensures IsWhitespace(a[i]) { assert a[i] == (a + b)[i]; }
      forall i | 0 <= i < |b| ensures IsWhitespace(b[i]) { assert b[i] == (a + b)[|a| + i]; }
    }
  }

  /** Trimming is determined by its outcome: drop blanks on the left of a text
      that starts with ink, and only that text is left. */
  lemma {:induction false} TrimStartIs(blank: string, ink: string)
    requires IsBlank(blank)
    requires ink != "" ==> !IsWhitespace(ink[0])
    ensures TrimStart(blank + ink) == ink
  {
    if blank == "" {
      assert blank + ink == ink;
    } else {
      assert (blank + ink)[1..] == blank[1..] + ink;
      TrimStartIs(blank[1..], ink);
    }
  }

  lemma {:induction false} TrimEndIs(ink: string, blank: string)
    requires IsBlank(blank)
    requires ink != "" ==> !IsWhitespace(ink[|ink| - 1])
    ensures TrimEnd(ink + blank) == ink
  {
    if blank == "" {
      assert ink + blank == ink;
    } else {
      var n := |blank| - 1;
      assert (ink + blank)[..|ink + blank| - 1] == ink + blank[..n];
      TrimEndIs(ink, blank[..n]);
    }
  }

  /** Trimming finds the ink between two blanks. */
  lemma TrimIs(lead: string, ink: string, tail: string)
    requires IsBlank(lead) && IsBlank(tail) && Trimmed(ink)
    ensures Trim(lead + ink + tail) == ink
  {
    if ink == "" {
      assert IsBlank(lead + ink + tail);
    } else {
      assert lead + ink + tail == lead + (ink + tail);
      TrimStartIs(lead, ink + tail);
      TrimEndIs(ink, tail);
    }
  }

  /** Trimming one side first and then everything changes nothing. */
  lemma TrimTwice(s: string)
    ensures Trim(TrimStart(s)) == Trim(s) == Trim(TrimEnd(s))
  {
    TrimTwiceStart(s);
    var e := TrimEnd(s);
    SplitAt(s, e);
    TrimIgnoresTail(e, s[|e|..]);
  }

  lemma TrimTwiceStart(s: string)
    ensures Trim(TrimStart(s)) == Trim(s)
  {
    var u := TrimStart(s);
    TrimStartIs("", u);
    assert "" + u == u;
  }

  /** Blanks after a text do not matter to trimming. */
  lemma TrimIgnoresTail(e: string, tail: string)
    requires IsBlank(tail)
    ensures Trim(e + tail) == Trim(e)
  {
    var lead, t, tail0 := Cut(e);
    TrimIs(lead, t, tail0);
    BlankConcat(tail0, tail);
    TrimIs(lead, t, tail0 + tail);
    ConcatAssoc(lead + t, tail0, tail);
  }

  /** Every text is blanks around its trimmed part. */
  lemma Cut(s: string) returns (lead: string, ink: string, tail: string)
    ensures s == lead + ink + tail
    ensures IsBlank(lead) && IsBlank(tail) && Trimmed(ink)
    ensures ink == TrimEnd(TrimStart(s))
  {
    hide TrimStart, TrimEnd, IsBlank, IsWhitespace;
    var u := TrimStart(s);
    SplitAtEnd(s, u);
    ink := TrimEnd(u);
    SplitAt(u, ink);
    lead, tail := s[..|s| - |u|], u[|ink|..];
    ConcatAssoc(lead, ink, tail);
    if ink != "" { assert ink[0] == u[0]; }
  }

  lemma SplitAt(s: string, prefix: string)
    requires |prefix| <= |s| && prefix == s[..|prefix|]
    ensures s == prefix + s[|prefix|..]
  {
  }

  lemma SplitAtEnd(s: string, suffix: string)
    requires |suffix| <= |s| && suffix == s[|s| - |suffix|..]
    ensures s == s[..|s| - |suffix|] + suffix
  {
  }

  /** A non-blank separator keeps trimming to the outer side of each half. */
  lemma TrimAround(a: string, c: char, b: string)
    requires !IsWhitespace(c)
    ensures Trim(a + [c] + b) == TrimStart(a) + [c] + TrimEnd(b)
  {
    hide TrimStart, TrimEnd, IsBlank, IsWhitespace;
    var a', b' := TrimStart(a), TrimEnd(b);
    var lead, tail := a[..|a| - |a'|], b[|b'|..];
    SplitAtEnd(a, a');
    SplitAt(b, b');
    Regroup(lead, a', [c], b', tail);
    TrimStartIs(lead, a' + [c] + b);
    TrimEndIs(a' + [c] + b', tail);
  }

  lemma Regroup(lead: string, a: string, c: string, b: string, tail: string)
    ensures (lead + a) + c + (b + tail) == lead + (a + c + (b + tail))
    ensures a + c + (b + tail) == (a + c + b) + tail
  {
  }

  /** This is the first character that is not blank. */
  predicate FirstInk(s: string, k: nat) {
    k < |s| && !IsWhitespace(s[k]) && IsBlank(s[..k])
  }

  /** A trimmed text starts with the first character that is not blank. */
  lemma TrimStartsAt(s: string, k: nat)
    requires FirstInk(s, k)
    ensures Trim(s) != "" && Trim(s)[0] == s[k]
  {
    hide Trim;
    NotBlank(s, k);
    var lead, ink, tail := CutTrim(s);
    assert forall i :: 0 <= i < |lead| ==> s[i] == lead[i];
    assert s[|lead|] == ink[0];
    assert forall i :: 0 <= i < k ==> s[..k][i] == s[i];
    assert k == |lead|;
  }

  lemma BlankHolds(s: string, c: char)
    requires IsBlank(s) && !IsWhitespace(c)
    ensures c !in s
  {
  }

  lemma BlankHasNoInk(s: string, k: nat)
    requires IsBlank(s)
    ensures !FirstInk(s, k)
  {
  }

  lemma CutTrim(s: string) returns (lead: string, ink: string, tail: string)
    ensures s == lead + ink + tail && ink == Trim(s)
    ensures IsBlank(lead) && IsBlank(tail) && Trimmed(ink)
  {
    hide TrimStart, TrimEnd, IsBlank;
    lead, ink, tail := Cut(s);
  }

  lemma HasFirstInk(s: string) returns (k: nat)
    requires !IsBlank(s)
    ensures FirstInk(s, k)
  {
    var u := TrimStart(s);
    k := |s| - |u|;
  }

  // ---------------------------------------------------------------------------
  // Splitting
  // ---------------------------------------------------------------------------

  /** The first index of `c`, or the length when there is none. */
  function Find(s: string, c: char): (i: nat)
    ensures i <= |s|
    ensures i < |s| ==> s[i] == c
    ensures c !in s[..i]
    ensures i == |s| <==> c !in s
  {
    if s == "" || s[0] == c then 0
    else
      var j := Find(s[1..], c);
      assert s[..1 + j] == [s[0]] + s[1..][..j];
      assert s == [s[0]] + s[1..];
      1 + j
  }

  lemma {:induction false} FindIs(a: string, c: char, b: string)
    requires c !in a
    ensures Find(a + [c] + b, c) == |a|
  {
    if a != "" {
      assert (a + [c] + b)[1..] == a[1..] + [c] + b;
      FindIs(a[1..], c, b);
    }
  }

  lemma {:induction false} FindAtMost(s: string, c: char, k: nat)
    requires k < |s| && s[k] == c
    ensures Find(s, c) <= k
  {
    if k > 0 && s[0] != c { FindAtMost(s[1..], c, k - 1); }
  }

  /** Split at the first `c`, dropping it. */
  function SplitOnce(s: string, c: char): (r: Option<(string, string)>)
    ensures r.None? <==> c !in s
    ensures r.Some? ==> s == r.value.0 + [c] + r.value.1 && c !in r.value.0
  {
    var i := Find(s, c);
    if i == |s| then None else Some((s[..i], s[i + 1..]))
  }

  /** Split at every `c`: always at least one piece. */
  function Split(s: string, c: char): (pieces: seq<string>)
    ensures pieces != []
    ensures c !in s ==> pieces == [s]
    decreases |s|
  {
    var i := Find(s, c);
    if i == |s| then [s] else [s[..i]] + Split(s[i + 1..], c)
  }

  lemma SplitHead(a: string, c: char, b: string)
    requires c !in a
    ensures Split(a + [c] + b, c) == [a] + Split(b, c)
  {
    FindIs(a, c, b);
    var s := a + [c] + b;
    assert s[..|a|] == a && s[|a| + 1..] == b;
  }

  /** What follows a separator does not change the first piece. */
  lemma SplitFirst(a: string, c: char, b: string)
    ensures Split(a + [c] + b, c)[0] == Split(a, c)[0]
  {
    hide Split, Find;
    if c in a {
      var i := Find(a, c);
      var head, tail := a[..i], a[i + 1..];
      assert a == head + [c] + tail;
      SplitHead(head, c, tail);
      assert a + [c] + b == head + [c] + (tail + [c] + b);
      SplitHead(head, c, tail + [c] + b);
    } else {
      SplitHead(a, c, b);
    }
  }

  // ---------------------------------------------------------------------------
  // Lines
  // ---------------------------------------------------------------------------

  function StripCr(line: string): (r: string)
    ensures forall c :: c in r ==> c in line
    ensures line == r || line == r + "\r"
  {
    if line != "" && line[|line| - 1] == '\r' then line[..|line| - 1] else line
  }

  /** The lines of a text: every newline ends one, a carriage return before the
      newline goes with it, and an unterminated rest counts when not empty. */
  function Lines(s: string): seq<string>
    decreases |s|
  {
    if s == "" then []
    else
      var i := Find(s, '\n');
      if i == |s| then [s] else [StripCr(s[..i])] + Lines(s[i + 1..])
  }

  lemma {:induction false} LinesClean(s: string)
    ensures forall l :: l in Lines(s) ==> '\n' !in l
    decreases |s|
  {
    if s != "" {
      var i := Find(s, '\n');
      if i < |s| { LinesClean(s[i + 1..]); }
    }
  }

  lemma LinesHead(a: string, b: string)
    requires '\n' !in a
    ensures Lines(a + "\n" + b) == [StripCr(a)] + Lines(b)
  {
    FindIs(a, '\n', b);
    var s := a + "\n" + b;
    assert s[..|a|] == a && s[|a| + 1..] == b;
  }

  /** A line may end in a carriage return as well, which is not part of it. */
  lemma LinesCr(a: string, b: string)
    requires '\n' !in a
    ensures Lines(a + "\r\n" + b) == [a] + Lines(b)
  {
    assert a + "\r\n" + b == (a + "\r") + "\n" + b;
    LinesHead(a + "\r", b);
    assert (a + "\r")[..|a|] == a;
  }

  /** A text that ends its last line splits there. */
  lemma {:induction false} LinesAppend(a: string, b: string)
    requires a != "" ==> a[|a| - 1] == '\n'
    ensures Lines(a + b) == Lines(a) + Lines(b)
    decreases |a|
  {
    if a == "" {
      assert a + b == b;
    } else {
      var first, rest := CutLine(a);
      LinesAppend(rest, b);
      LinesCons(first, rest, b);
    }
  }

  lemma LinesCons(first: string, rest: string, b: string)
    requires '\n' !in first
    requires Lines(rest + b) == Lines(rest) + Lines(b)
    ensures Lines(first + "\n" + rest + b) == Lines(first + "\n" + rest) + Lines(b)
  {
    LinesHead(first, rest);
    LinesHead(first, rest + b);
    ConcatAssoc(first + "\n", rest, b);
    ConcatAssoc([StripCr(first)], Lines(rest), Lines(b));
  }

  lemma CutLine(a: string) returns (first: string, rest: string)
    requires a != "" && a[|a| - 1] == '\n'
    ensures a == first + "\n" + rest && '\n' !in first
    ensures rest != "" ==> rest[|rest| - 1] == '\n'
  {
    var i := Find(a, '\n');
    first, rest := a[..i], a[i + 1..];
  }

  function Join(ls: seq<string>): (s: string)
  {
    if ls == [] then ""
    else if |ls| == 1 then ls[0]
    else ls[0] + "\n" + Join(ls[1..])
  }

  /** A line that survives being joined with others and split again. */
  predicate Joinable(line: string) {
    line != "" && '\n' !in line && line[|line| - 1] != '\r'
  }

  lemma {:induction false} LinesOfJoin(ls: seq<string>)
    requires forall l :: l in ls ==> Joinable(l)
    ensures Lines(Join(ls)) == ls
  {
    if |ls| > 1 {
      assert ls[0] in ls;
      LinesOfJoin(ls[1..]);
      LinesHead(ls[0], Join(ls[1..]));
    } else if |ls| == 1 {
      assert ls[0] in ls;
    }
  }
}
