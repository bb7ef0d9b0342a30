/** The names a manifest document uses beside itself: temporary files of saves
    and quarantined copies, each carrying the process id and a counter. */
module StoreNames {
  import opened Wrappers
  import opened Decimal
  import Text

  function Tag(pid: nat, unique: nat): string {
    Print(pid) + "-" + Print(unique)
  }

  function TempName(name: string, pid: nat, unique: nat): string {
    "." + name + ".tmp-" + Tag(pid, unique)
  }

  function QuarantineName(name: string, pid: nat, unique: nat): string {
    name + ".corrupt-" + Tag(pid, unique)
  }

  /** A tag names one process and one count. */
  lemma TagInjective(p: nat, u: nat, q: nat, v: nat)
    requires Tag(p, u) == Tag(q, v)
    ensures p == q && u == v
  {
    assert forall c :: c in Print(p) || c in Print(q) ==> IsDigit(c);
    Text.FindIs(Print(p), '-', Print(u));
    Text.FindIs(Print(q), '-', Print(v));
    assert Tag(p, u) == Print(p) + ['-'] + Print(u);
    assert Tag(q, v) == Print(q) + ['-'] + Print(v);
    assert Tag(p, u)[..|Print(p)|] == Print(p) && Tag(q, v)[..|Print(q)|] == Print(q);
    assert Tag(p, u)[|Print(p)| + 1..] == Print(u) && Tag(q, v)[|Print(q)| + 1..] == Print(v);
    PrintInjective(p, q);
    PrintInjective(u, v);
  }

  lemma SamePrefix(p: string, a: string, b: string)
    requires p + a == p + b
    ensures a == b
  {
    assert (p + a)[|p|..] == a && (p + b)[|p|..] == b;
  }

  lemma TempInjective(name: string, p: nat, u: nat, q: nat, v: nat)
    requires TempName(name, p, u) == TempName(name, q, v)
    ensures p == q && u == v
  {
    SamePrefix("." + name + ".tmp-", Tag(p, u), Tag(q, v));
    TagInjective(p, u, q, v);
  }

  lemma QuarantineInjective(name: string, p: nat, u: nat, q: nat, v: nat)
    requires QuarantineName(name, p, u) == QuarantineName(name, q, v)
    ensures p == q && u == v
  {
    SamePrefix(name + ".corrupt-", Tag(p, u), Tag(q, v));
    TagInjective(p, u, q, v);
  }

  predicate TagChar(c: char) {
    IsDigit(c) || c == '-'
  }

  /** A name without its trailing digits and dashes. */
  function Stem(s: string): string {
    if s != "" && TagChar(s[|s| - 1]) then Stem(s[..|s| - 1]) else s
  }

  lemma {:induction false} StemIs(s: string, tail: string)
    requires s != "" && !TagChar(s[|s| - 1])
    requires forall c :: c in tail ==> TagChar(c)
    ensures Stem(s + tail) == s
  {
    if tail == "" {
      assert s + tail == s;
    } else {
      var n := |tail| - 1;
      assert tail[n] in tail;
      assert (s + tail)[..|s + tail| - 1] == s + tail[..n];
      StemIs(s, tail[..n]);
    }
  }

  lemma TagIsTag(p: nat, u: nat)
    ensures forall c :: c in "-" + Tag(p, u) ==> TagChar(c)
  {
  }

  /** A temporary name is never a quarantine name, and neither is the document's
      own, whatever the document is called. */
  lemma NamesApart(name: string, p: nat, u: nat, q: nat, v: nat)
    ensures TempName(name, p, u) != QuarantineName(name, q, v)
    ensures TempName(name, p, u) != name
    ensures QuarantineName(name, p, u) != name
  {
    var a, b := "." + name + ".tmp", name + ".corrupt";
    TagIsTag(p, u);
    TagIsTag(q, v);
    assert TempName(name, p, u) == a + ("-" + Tag(p, u));
    assert QuarantineName(name, q, v) == b + ("-" + Tag(q, v));
    StemIs(a, "-" + Tag(p, u));
    StemIs(b, "-" + Tag(q, v));
    assert a[|a| - 1] == 'p' && b[|b| - 1] == 't';
    assert |TempName(name, p, u)| > |name| && |QuarantineName(name, p, u)| > |name|;
  }
}
