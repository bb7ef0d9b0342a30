/** The architecture probe: one `file -b` run per path, and one run for many
    paths whose output is read line by line. */
module ArchProbe {
  import opened Wrappers
  import opened Registry
  import opened Text
  import opened PathSearch

  /** `file -b` over some operands: its output, or nothing when the run fails. */
  type FileCommand = seq<string> -> Option<string>

  predicate OccursAt(s: string, pattern: string, i: nat) {
    i + |pattern| <= |s| && s[i..i + |pattern|] == pattern
  }

  predicate Contains(s: string, pattern: string) {
    exists i: nat | i <= |s| :: OccursAt(s, pattern, i)
  }

  /** The architectures a description names. */
  function ArchesIn(text: string): seq<Arch> {
    var lower := Lower(text);
    var x64 := Contains(lower, "x86-64") || Contains(lower, "x86_64") || Contains(lower, "amd64");
    var arm := Contains(lower, "aarch64") || Contains(lower, "arm64");
    var x86 := Contains(lower, "80386") || Contains(lower, "i386") || Contains(lower, "i686") || Contains(lower, "x86");
    (if x64 then [X86_64] else []) + (if arm then [Aarch64] else []) + (if !x64 && x86 then [X86] else [])
  }

  predicate Mismatch(text: string, arch: Arch) {
    ArchesIn(text) != [] && arch !in ArchesIn(text)
  }

  /** The single-path probe: a failing run never mismatches. */
  predicate ProbeOne(file: FileCommand, arch: Arch, path: string) {
    match file([path])
    case None => false
    case Some(stdout) => Mismatch(stdout, arch)
  }

  function Inked(lines: seq<string>): seq<string> {
    if lines == [] then []
    else (if Trim(lines[0]) == "" then [] else [lines[0]]) + Inked(lines[1..])
  }

  function Pending(paths: seq<string>): (pending: seq<string>)
    ensures forall p :: p in pending <==> p in paths
    ensures forall i, j :: 0 <= i < j < |pending| ==> pending[i] != pending[j]
  {
    if paths == [] then []
    else
      var n := |paths| - 1;
      var earlier := Pending(paths[..n]);
      assert paths == paths[..n] + [paths[n]];
      if paths[n] in earlier then earlier else earlier + [paths[n]]
  }

  /** The lines of a successful run over all the paths, when there is one for
      each path. */
  function BatchLines(file: FileCommand, pending: seq<string>): (lines: Option<seq<string>>)
    ensures lines.Some? ==> |lines.value| == |pending|
  {
    match file(pending)
    case None => None
    case Some(stdout) =>
      var lines := Inked(Lines(stdout));
      if |lines| == |pending| then Some(lines) else None
  }

  function BatchAnswer(file: FileCommand, arch: Arch, pending: seq<string>, i: nat): bool
    requires i < |pending|
  {
    match BatchLines(file, pending)
    case Some(lines) => Mismatch(lines[i], arch)
    case None => ProbeOne(file, arch, pending[i])
  }

  function Answers(file: FileCommand, arch: Arch, pending: seq<string>, n: nat): map<string, bool>
    requires n <= |pending|
  {
    if n == 0 then map[]
    else Answers(file, arch, pending, n - 1)[pending[n - 1] := BatchAnswer(file, arch, pending, n - 1)]
  }

  /** One answer per path. */
  function BatchedMismatches(file: FileCommand, arch: Arch, paths: seq<string>): map<string, bool> {
    var pending := Pending(paths);
    Answers(file, arch, pending, |pending|)
  }

  method BatchedArchMismatches(file: FileCommand, arch: Arch, paths: seq<string>) returns (answers: map<string, bool>)
    ensures answers == BatchedMismatches(file, arch, paths)
  {
    hide Mismatch, ProbeOne, Inked, Lines;
    answers := map[];
    var pending: seq<string> := [];
    for i := 0 to |paths|
      invariant pending == Pending(paths[..i])
    {
      assert paths[..i + 1][..i] == paths[..i];
      if paths[i] !in answers && paths[i] !in pending { pending := pending + [paths[i]]; }
    }
    assert paths[..|paths|] == paths;
    if pending == [] { return; }
    var output := file(pending);
    if output.Some? {
      var lines := Inked(Lines(output.value));
      if |lines| == |pending| {
        for i := 0 to |pending|
          invariant answers == Answers(file, arch, pending, i)
        {
          answers := answers[pending[i] := Mismatch(lines[i], arch)];
        }
        return;
      }
    }
    for i := 0 to |pending|
      invariant answers == Answers(file, arch, pending, i)
    {
      answers := answers[pending[i] := ProbeOne(file, arch, pending[i])];
    }
  }

  // ---------------------------------------------------------------------------
  // Looking for a word in a text and in its lines
  // ---------------------------------------------------------------------------

  predicate Word(pattern: string) {
    pattern != "" && forall i :: 0 <= i < |pattern| ==> !IsWhitespace(pattern[i])
  }

  lemma ContainsLeft(a: string, b: string, pattern: string)
    requires Contains(a, pattern)
    ensures Contains(a + b, pattern)
  {
    var i: nat :| i <= |a| && OccursAt(a, pattern, i);
    assert (a + b)[i..i + |pattern|] == a[i..i + |pattern|];
    assert OccursAt(a + b, pattern, i);
  }

  lemma ContainsRight(a: string, b: string, pattern: string)
    requires Contains(b, pattern)
    ensures Contains(a + b, pattern)
  {
    var i: nat :| i <= |b| && OccursAt(b, pattern, i);
    var j := |a| + i;
    assert (a + b)[j..j + |pattern|] == b[i..i + |pattern|];
    assert OccursAt(a + b, pattern, j);
  }

  /** A word lies on one side of a blank. */
  lemma WordBesideBlank(a: string, w: char, b: string, pattern: string)
    requires Word(pattern) && IsWhitespace(w)
    ensures Contains(a + [w] + b, pattern) <==> Contains(a, pattern) || Contains(b, pattern)
  {
    var s := a + [w] + b;
    if Contains(a, pattern) {
      ContainsLeft(a, [w], pattern);
      ContainsLeft(a + [w], b, pattern);
    }
    if Contains(b, pattern) { ContainsRight(a + [w], b, pattern); }
    if Contains(s, pattern) {
      var i: nat :| i <= |s| && OccursAt(s, pattern, i);
      WordOnOneSide(a, w, b, pattern, i);
    }
  }

  lemma WordOnOneSide(a: string, w: char, b: string, pattern: string, i: nat)
    requires Word(pattern) && IsWhitespace(w) && OccursAt(a + [w] + b, pattern, i)
    ensures Contains(a, pattern) || Contains(b, pattern)
  {
    var s := a + [w] + b;
    assert forall j :: 0 <= j < |pattern| ==> pattern[j] == s[i..i + |pattern|][j] == s[i + j];
    assert s[|a|] == w;
    if i + |pattern| <= |a| {
      assert a[i..i + |pattern|] == s[i..i + |pattern|];
      assert OccursAt(a, pattern, i);
    } else {
      NotAcross(s, pattern, i, |a|);
      var k := i - |a| - 1;
      assert b[k..k + |pattern|] == s[i..i + |pattern|];
      assert OccursAt(b, pattern, k);
    }
  }

  lemma NotAcross(s: string, pattern: string, i: nat, at: nat)
    requires Word(pattern) && OccursAt(s, pattern, i) && at < |s| && IsWhitespace(s[at])
    ensures at < i || i + |pattern| <= at
  {
    assert forall j :: 0 <= j < |pattern| ==> pattern[j] == s[i..i + |pattern|][j] == s[i + j];
    if i <= at && at < i + |pattern| { OffsetIs(s, pattern, i, at - i); }
  }

  lemma OffsetIs(s: string, pattern: string, i: nat, j: nat)
    requires OccursAt(s, pattern, i) && j < |pattern|
    ensures pattern[j] == s[i + j]
  {
    assert s[i..i + |pattern|][j] == s[i + j];
  }

  lemma NoWordInBlank(s: string, pattern: string)
    requires Word(pattern) && IsBlank(s)
    ensures !Contains(s, pattern)
  {
    forall i: nat | i <= |s| ensures !OccursAt(s, pattern, i) {
      if i < |s| { NotAcrossStart(s, pattern, i); }
    }
  }

  lemma NotAcrossStart(s: string, pattern: string, i: nat)
    requires Word(pattern) && i < |s| && IsWhitespace(s[i])
    ensures !OccursAt(s, pattern, i)
  {
    if i + |pattern| <= |s| { assert s[i..i + |pattern|][0] == s[i]; }
  }

  predicate Names(text: string, pattern: string) {
    Contains(Lower(text), pattern)
  }

  lemma LowerWhitespace(c: char)
    ensures IsWhitespace(LowerChar(c)) <==> IsWhitespace(c)
    ensures IsWhitespace(c) ==> LowerChar(c) == c
  {
  }

  lemma LowerConcat(a: string, w: char, b: string)
    ensures Lower(a + [w] + b) == Lower(a) + [LowerChar(w)] + Lower(b)
  {
  }

  lemma NamesBesideBlank(a: string, w: char, b: string, pattern: string)
    requires Word(pattern) && IsWhitespace(w)
    ensures Names(a + [w] + b, pattern) <==> Names(a, pattern) || Names(b, pattern)
  {
    LowerConcat(a, w, b);
    LowerWhitespace(w);
    WordBesideBlank(Lower(a), w, Lower(b), pattern);
  }

  lemma NoNameInBlank(s: string, pattern: string)
    requires Word(pattern) && IsBlank(s)
    ensures !Names(s, pattern)
  {
    forall i | 0 <= i < |s| ensures IsWhitespace(Lower(s)[i]) { LowerWhitespace(s[i]); }
    NoWordInBlank(Lower(s), pattern);
  }

  lemma NamesIgnoresCr(line: string, pattern: string)
    requires Word(pattern)
    ensures Names(StripCr(line), pattern) <==> Names(line, pattern)
  {
    var r := StripCr(line);
    if line != r {
      assert line == r + ['\r'] + "";
      NamesBesideBlank(r, '\r', "", pattern);
      NoNameInBlank("", pattern);
    }
  }

  predicate AnyNames(lines: seq<string>, pattern: string) {
    exists i | 0 <= i < |lines| :: Names(lines[i], pattern)
  }

  lemma AnyNamesCons(line: string, lines: seq<string>, pattern: string)
    ensures AnyNames([line] + lines, pattern) <==> Names(line, pattern) || AnyNames(lines, pattern)
  {
    hide Names;
    var all := [line] + lines;
    assert all[0] == line;
    assert forall i :: 0 <= i < |lines| ==> all[i + 1] == lines[i];
    if AnyNames(all, pattern) && !Names(line, pattern) {
      var i :| 0 <= i < |all| && Names(all[i], pattern);
      assert lines[i - 1] == all[i];
    }
    if AnyNames(lines, pattern) {
      var i :| 0 <= i < |lines| && Names(lines[i], pattern);
      assert all[i + 1] == lines[i];
    }
  }

  /** A text names a word exactly when one of its inked lines does. */
  lemma {:induction false} NamesByLine(s: string, pattern: string)
    requires Word(pattern)
    ensures Names(s, pattern) <==> AnyNames(Inked(Lines(s)), pattern)
    decreases |s|
  {
    hide Names, AnyNames, Word, Trim, StripCr;
    if s == "" {
      NoNameInBlank(s, pattern);
      assert !AnyNames([], pattern) by { NothingNames(pattern); }
    } else {
      var i := Find(s, '\n');
      if i == |s| {
        InkedOne(s, pattern);
      } else {
        var a, rest := s[..i], s[i + 1..];
        assert s == a + ['\n'] + rest;
        NewlineIsBlank();
        NamesBesideBlank(a, '\n', rest, pattern);
        NamesByLine(rest, pattern);
        LinesHead(a, rest);
        NamesIgnoresCr(a, pattern);
        InkedCons(StripCr(a), Lines(rest), pattern);
      }
    }
  }

  lemma NewlineIsBlank()
    ensures IsWhitespace('\n')
  {
  }

  lemma NothingNames(pattern: string)
    ensures !AnyNames([], pattern)
  {
  }

  lemma InkedCons(line: string, lines: seq<string>, pattern: string)
    requires Word(pattern)
    ensures AnyNames(Inked([line] + lines), pattern) <==> Names(line, pattern) || AnyNames(Inked(lines), pattern)
  {
    hide Names, AnyNames, Word, Trim;
    assert ([line] + lines)[1..] == lines;
    if Trim(line) == "" {
      NoNameInBlank(line, pattern);
      assert Inked([line] + lines) == Inked(lines);
    } else {
      AnyNamesCons(line, Inked(lines), pattern);
    }
  }

  lemma InkedOne(s: string, pattern: string)
    requires Word(pattern) && Lines(s) == [s]
    ensures Names(s, pattern) <==> AnyNames(Inked(Lines(s)), pattern)
  {
    hide Names, AnyNames, Word, Trim, Lines;
    InkedCons(s, [], pattern);
    NothingNames(pattern);
    assert [s] + [] == [s];
  }

  predicate SomeNamed(s: string, patterns: seq<string>) {
    exists p | p in patterns :: Names(s, p)
  }

  /** A probe tells a mismatch exactly when the run succeeds and its output names,
      in any case, some architecture and not the host's; the 32-bit names count
      only where no 64-bit one stands. */
  lemma ProbeExact(file: FileCommand, arch: Arch, path: string)
    ensures ProbeOne(file, arch, path) <==>
              file([path]).Some? &&
              var s := file([path]).value;
              var x64 := SomeNamed(s, ["x86-64", "x86_64", "amd64"]);
              var arm := SomeNamed(s, ["aarch64", "arm64"]);
              var x86 := !x64 && SomeNamed(s, ["80386", "i386", "i686", "x86"]);
              && (x64 || arm || x86)
              && !(arch == X86_64 && x64) && !(arch == Aarch64 && arm) && !(arch == X86 && x86)
  {
    hide Names, Contains, Lower;
    if file([path]).Some? {
      var s := file([path]).value;
      NamesThree(s, "x86-64", "x86_64", "amd64");
      NamesTwo(s, "aarch64", "arm64");
      NamesFour(s, "80386", "i386", "i686", "x86");
      ArchesNamed(s);
    }
  }

  lemma ArchesNamed(s: string)
    ensures X86_64 in ArchesIn(s) <==> Names(s, "x86-64") || Names(s, "x86_64") || Names(s, "amd64")
    ensures Aarch64 in ArchesIn(s) <==> Names(s, "aarch64") || Names(s, "arm64")
    ensures X86 in ArchesIn(s) <==>
              (X86_64 !in ArchesIn(s) && (Names(s, "80386") || Names(s, "i386") || Names(s, "i686") || Names(s, "x86")))
    ensures OtherArch !in ArchesIn(s)
    ensures ArchesIn(s) == [] <==> X86_64 !in ArchesIn(s) && Aarch64 !in ArchesIn(s) && X86 !in ArchesIn(s)
  {
    hide Contains, Lower;
  }

  lemma NamesTwo(s: string, p: string, q: string)
    ensures SomeNamed(s, [p, q]) <==> Names(s, p) || Names(s, q)
  {
    hide Names;
    assert p in [p, q] && q in [p, q];
  }

  lemma NamesThree(s: string, p: string, q: string, r: string)
    ensures SomeNamed(s, [p, q, r]) <==> Names(s, p) || Names(s, q) || Names(s, r)
  {
    hide Names;
    assert p in [p, q, r] && q in [p, q, r] && r in [p, q, r];
  }

  lemma NamesFour(s: string, p: string, q: string, r: string, t: string)
    ensures SomeNamed(s, [p, q, r, t]) <==> Names(s, p) || Names(s, q) || Names(s, r) || Names(s, t)
  {
    hide Names;
    assert p in [p, q, r, t] && q in [p, q, r, t] && r in [p, q, r, t] && t in [p, q, r, t];
  }

  lemma PatternsAreWords()
    ensures Word("x86-64") && Word("x86_64") && Word("amd64") && Word("aarch64") && Word("arm64")
    ensures Word("80386") && Word("i386") && Word("i686") && Word("x86")
  {
  }

  lemma SameNames(stdout: string, line: string, pattern: string)
    requires Word(pattern) && Inked(Lines(stdout)) == [line]
    ensures Names(stdout, pattern) <==> Names(line, pattern)
  {
    hide Names, Word, Inked, Lines;
    NamesByLine(stdout, pattern);
    assert [line][0] == line;
  }

  /** An output with one inked line is classified as that line is. */
  lemma OneLineClassifies(stdout: string, line: string)
    requires Inked(Lines(stdout)) == [line]
    ensures ArchesIn(stdout) == ArchesIn(line)
  {
    hide Contains, Lower, Word, Inked, Lines;
    PatternsAreWords();
    SameNames(stdout, line, "x86-64");
    SameNames(stdout, line, "x86_64");
    SameNames(stdout, line, "amd64");
    SameNames(stdout, line, "aarch64");
    SameNames(stdout, line, "arm64");
    SameNames(stdout, line, "80386");
    SameNames(stdout, line, "i386");
    SameNames(stdout, line, "i686");
    SameNames(stdout, line, "x86");
  }

  // ---------------------------------------------------------------------------
  // The batch agrees with the single probe
  // ---------------------------------------------------------------------------

  /** What one operand's run prints: whole lines, at least one of them inked. */
  predicate Describes(stdout: string) {
    && stdout != "" && stdout[|stdout| - 1] == '\n'
    && Inked(Lines(stdout)) != []
  }

  function Outputs(file: FileCommand, paths: seq<string>): Option<string> {
    if paths == [] then Some("")
    else match (file([paths[0]]), Outputs(file, paths[1..]))
      case (Some(first), Some(rest)) => Some(first + rest)
      case _ => None
  }

  /** A run over several operands that succeeds prints what the runs over each of
      them print, one after another. */
  ghost predicate Concatenates(file: FileCommand) {
    forall paths :: paths != [] && file(paths).Some? ==>
      && file(paths) == Outputs(file, paths)
      && forall p :: p in paths ==> file([p]).Some? && Describes(file([p]).value)
  }

  lemma {:induction false} InkedConcat(a: seq<string>, b: seq<string>)
    ensures Inked(a + b) == Inked(a) + Inked(b)
  {
    hide Trim;
    if a == [] {
      assert a + b == b;
    } else {
      assert (a + b)[1..] == a[1..] + b;
      InkedConcat(a[1..], b);
    }
  }

  /** Each operand gives at least one inked line, so a line count equal to the
      operand count leaves each exactly one. */
  lemma {:induction false} OneLineEach(file: FileCommand, paths: seq<string>)
    requires forall p :: p in paths ==> file([p]).Some? && Describes(file([p]).value)
    ensures Outputs(file, paths).Some?
    ensures var lines := Inked(Lines(Outputs(file, paths).value));
            && |lines| >= |paths|
            && (|lines| == |paths| ==>
                  forall i :: 0 <= i < |paths| ==> Inked(Lines(file([paths[i]]).value)) == [lines[i]])
  {
    hide Inked, Lines;
    if paths == [] {
      assert Inked(Lines("")) == [] by { NothingInked(); }
    } else {
      var first, rest := file([paths[0]]), paths[1..];
      assert paths[0] in paths;
      OneLineEach(file, rest);
      var stdout, tail := first.value, Outputs(file, rest).value;
      LinesAppend(stdout, tail);
      InkedConcat(Lines(stdout), Lines(tail));
      var a, b := Inked(Lines(stdout)), Inked(Lines(tail));
      assert Inked(Lines(Outputs(file, paths).value)) == a + b;
      if |a + b| == |paths| {
        assert |a| == 1 && a == [a[0]];
        forall i | 0 <= i < |paths| ensures Inked(Lines(file([paths[i]]).value)) == [(a + b)[i]] {
          if i > 0 { assert paths[i] == rest[i - 1]; }
        }
      }
    }
  }

  lemma NothingInked()
    ensures Inked(Lines("")) == []
  {
  }

  lemma BatchAnswerAgrees(file: FileCommand, arch: Arch, pending: seq<string>, i: nat)
    requires Concatenates(file) && i < |pending|
    ensures BatchAnswer(file, arch, pending, i) == ProbeOne(file, arch, pending[i])
  {
    hide ArchesIn, Inked, Lines, Describes;
    if BatchLines(file, pending).Some? {
      OneLineEach(file, pending);
      var line := BatchLines(file, pending).value[i];
      assert pending[i] in pending;
      OneLineClassifies(file([pending[i]]).value, line);
    }
  }

  lemma {:induction false} AnswersAgree(file: FileCommand, arch: Arch, pending: seq<string>, n: nat)
    requires Concatenates(file) && n <= |pending|
    ensures Answers(file, arch, pending, n) == map p | p in pending[..n] :: ProbeOne(file, arch, p)
  {
    hide BatchAnswer, ProbeOne, Concatenates;
    if n > 0 {
      AnswersAgree(file, arch, pending, n - 1);
      BatchAnswerAgrees(file, arch, pending, n - 1);
      assert pending[..n] == pending[..n - 1] + [pending[n - 1]];
    }
  }

  /** The answer the batch gives each path is the single probe's: for every list,
      repeats included, and whether the batched output is usable or not. */
  lemma BatchAgrees(file: FileCommand, arch: Arch, paths: seq<string>)
    requires Concatenates(file)
    ensures BatchedMismatches(file, arch, paths) == map p | p in paths :: ProbeOne(file, arch, p)
  {
    var pending := Pending(paths);
    AnswersAgree(file, arch, pending, |pending|);
    assert pending[..|pending|] == pending;
  }
}
