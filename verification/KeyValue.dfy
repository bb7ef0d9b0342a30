/** `key = value` lines, shared by the two configuration parsers, and the
    generic `parse_kv_config` / `render_kv_config` pair. */
module KeyValue {
  import opened Wrappers
  import opened Text

  type Entry = (string, string)

  datatype Line =
    | Skipped                    // blank, or a comment
    | Pair(entry: Entry)
    | NoSeparator(text: string)

  /** What both parsers make of one line of text. */
  function ReadLine(line: string): Line {
    var text := Trim(line);
    if text == "" || text[0] == '#' then Skipped
    else match SplitOnce(text, '=')
      case Some(halves) => Pair((Trim(halves.0), Trim(halves.1)))
      case None => NoSeparator(text)
  }

  /** What both printers make of one entry. */
  function WriteEntry(e: Entry): string {
    e.0 + " = " + e.1
  }

  /** Entries that a line of text can carry. */
  predicate Clean(e: Entry) {
    && Trimmed(e.0) && Trimmed(e.1)
    && '=' !in e.0 && '\n' !in e.0 && '\n' !in e.1
    && (e.0 != "" ==> e.0[0] != '#')
  }

  /** Every entry read from a line is clean. */
  lemma ReadEntryIsClean(line: string)
    requires '\n' !in line
    ensures ReadLine(line).Pair? ==> Clean(ReadLine(line).entry)
  {
    var text := Trim(line);
    if text != "" && text[0] != '#' && '=' in text {
      var halves := SplitOnce(text, '=').value;
      var (a, b) := halves;
      assert text == a + ['='] + b;
      forall c | c in a || c in b ensures c in text { MembersOfConcat(a, '=', b, c); }
      assert Trim(a) != "" ==> Trim(a)[0] != '#' by {
        if a != "" {
          assert text[0] == a[0];
          assert !IsWhitespace(a[0]);
          TrimKeepsHead(a);
        }
      }
    }
  }

  /** How a line reads: as nothing when it is blank or a comment; else by its first
      separator, each half trimmed; else, without one, as its trimmed text. */
  lemma LineReads(line: string)
    ensures ReadLine(line).Skipped? <==> IsBlank(line) || exists k: nat :: FirstInk(line, k) && line[k] == '#'
    ensures ReadLine(line).NoSeparator? <==> !ReadLine(line).Skipped? && '=' !in line
    ensures ReadLine(line).NoSeparator? ==> ReadLine(line).text == Trim(line)
    ensures ReadLine(line).Pair? ==>
              var i := Find(line, '=');
              i < |line| && ReadLine(line).entry == (Trim(line[..i]), Trim(line[i + 1..]))
  {
    hide Trim, TrimStart, TrimEnd, IsBlank, IsWhitespace, Find;
    if !IsBlank(line) {
      var k := HasFirstInk(line);
      TrimStartsAt(line, k);
      forall j: nat | FirstInk(line, j) ensures line[j] == line[k] { TrimStartsAt(line, j); }
    } else {
      forall j: nat ensures !FirstInk(line, j) { BlankHasNoInk(line, j); }
    }
    SeparatorSurvives(line);
    EqualsIsInk();
    if '=' in line {
      var i := Find(line, '=');
      var a, b := line[..i], line[i + 1..];
      assert line == a + ['='] + b;
      TrimAround(a, '=', b);
      TrimTwice(a);
      TrimTwice(b);
      if !ReadLine(line).Skipped? { HalvesRead(line, TrimStart(a), TrimEnd(b)); }
    }
  }

  lemma EqualsIsInk()
    ensures !IsWhitespace('=')
  {
  }

  lemma HalvesRead(line: string, a: string, b: string)
    requires Trim(line) == a + ['='] + b && '=' !in a && !ReadLine(line).Skipped?
    ensures ReadLine(line) == Pair((Trim(a), Trim(b)))
  {
    hide Trim;
    if a != "" { assert Trim(line)[0] == a[0]; }
    SplitLine(line, a, b);
  }

  lemma SeparatorSurvives(line: string)
    ensures '=' in Trim(line) <==> '=' in line
  {
    hide Trim;
    if '=' in line {
      var lead, ink, tail := CutTrim(line);
      BlankHolds(lead, '=');
      BlankHolds(tail, '=');
      assert '=' in (lead + ink) + tail;
      assert '=' in lead + ink;
    }
  }

  lemma MembersOfConcat(a: string, x: char, b: string, c: char)
    ensures c in a + [x] + b <==> c in a || c == x || c in b
  {
  }

  lemma TrimKeepsHead(a: string)
    requires a != "" && !IsWhitespace(a[0])
    ensures Trim(a) != "" && Trim(a)[0] == a[0]
  {
    assert TrimStart(a) == a by { TrimStartIs("", a); assert "" + a == a; }
  }

  /** A clean entry survives being written and read. */
  lemma WriteThenReadEntry(e: Entry)
    requires Clean(e)
    ensures Joinable(WriteEntry(e))
    ensures ReadLine(WriteEntry(e)) == Pair(e)
  {
    hide Trim, TrimStart, TrimEnd, ReadLine, Joinable;
    var (k, v) := e;
    var line := WriteEntry(e);
    var a, b := k + " ", " " + v;
    assert line == a + ['='] + b;
    TrimAround(a, '=', b);
    var a', b' := TrimStart(a), TrimEnd(b);
    var text := Trim(line);
    assert text == a' + ['='] + b';
    KeySide(k);
    ValueSide(v);
    SplitLine(line, a', b');
    JoinableLine(k, v);
  }

  lemma SplitLine(line: string, a: string, b: string)
    requires Trim(line) == a + ['='] + b
    requires '=' !in a && (a != "" ==> a[0] != '#')
    ensures ReadLine(line) == Pair((Trim(a), Trim(b)))
  {
    hide Trim, Find;
    var text := Trim(line);
    FindIs(a, '=', b);
    assert text[..|a|] == a && text[|a| + 1..] == b;
  }

  lemma KeyStart(k: string)
    requires Trimmed(k)
    ensures TrimStart(k + " ") == if k == "" then "" else k + " "
  {
    hide TrimStart;
    if k == "" {
      TrimStartIs(" ", "");
      assert " " + "" == k + " ";
    } else {
      TrimStartIs("", k + " ");
      assert "" + (k + " ") == k + " ";
    }
  }

  lemma KeySide(k: string)
    requires Trimmed(k) && '=' !in k && (k != "" ==> k[0] != '#')
    ensures var a' := TrimStart(k + " ");
            '=' !in a' && (a' != "" ==> a'[0] != '#') && Trim(a') == k
  {
    hide *;
    KeyStart(k);
    KeyTrims(k);
  }

  lemma KeyTrims(k: string)
    requires Trimmed(k)
    ensures Trim(TrimStart(k + " ")) == k
  {
    hide *;
    TrimTwice(k + " ");
    TrimPadded(k);
  }

  lemma TrimPadded(ink: string)
    requires Trimmed(ink)
    ensures Trim(ink + " ") == ink && Trim(" " + ink) == ink
  {
    hide Trim, TrimStart, TrimEnd, Trimmed;
    TrimIs("", ink, " ");
    assert "" + ink == ink;
    TrimIs(" ", ink, "");
    assert (" " + ink) + "" == " " + ink;
  }

  lemma ValueSide(v: string)
    requires Trimmed(v)
    ensures Trim(TrimEnd(" " + v)) == v
  {
    hide *;
    TrimTwice(" " + v);
    TrimPadded(v);
  }

  lemma JoinableLine(k: string, v: string)
    requires '\n' !in k && '\n' !in v && Trimmed(v)
    ensures Joinable(k + " = " + v)
  {
    var line := k + " = " + v;
    assert line[|line| - 1] == if v == "" then ' ' else v[|v| - 1];
    assert IsWhitespace('\r');
  }

  // ---------------------------------------------------------------------------
  // The generic pair
  // ---------------------------------------------------------------------------

  datatype ParseError = InvalidLine(text: string)

  /** All entries in order, or the first line that is not `key = value`. */
  function ParseLines(ls: seq<string>): Result<seq<Entry>, ParseError> {
    if ls == [] then Success([])
    else match ReadLine(ls[0])
      case NoSeparator(text) => Failure(InvalidLine(text))
      case Skipped => ParseLines(ls[1..])
      case Pair(e) =>
        match ParseLines(ls[1..])
        case Failure(error) => Failure(error)
        case Success(rest) => Success([e] + rest)
  }

  function Parse(content: string): Result<seq<Entry>, ParseError> {
    ParseLines(Lines(content))
  }

  function WriteEntries(entries: seq<Entry>): (lines: seq<string>)
    ensures |lines| == |entries|
    ensures forall i :: 0 <= i < |entries| ==> lines[i] == WriteEntry(entries[i])
  {
    seq(|entries|, i requires 0 <= i < |entries| => WriteEntry(entries[i]))
  }

  function Render(entries: seq<Entry>): string {
    Join(WriteEntries(entries))
  }

  /** The parsing loop: push each entry, stop at the first bad line. */
  method ParseKvConfig(content: string) returns (r: Result<seq<Entry>, ParseError>)
    ensures r == Parse(content)
  {
    hide ReadLine;
    var entries := [];
    var lines := Lines(content);
    var i := 0;
    assert lines[0..] == lines;
    PrependNothing(ParseLines(lines));
    while i < |lines|
      invariant 0 <= i <= |lines|
      invariant ParseLines(lines) == Prepend(entries, ParseLines(lines[i..]))
    {
      assert lines[i..][0] == lines[i] && lines[i..][1..] == lines[i + 1..];
      match ReadLine(lines[i]) {
        case Skipped =>
        case Pair(e) =>
          PrependSnoc(entries, e, ParseLines(lines[i + 1..]));
          entries := entries + [e];
        case NoSeparator(text) =>
          return Failure(InvalidLine(text));
      }
      i := i + 1;
    }
    assert entries + [] == entries;
    return Success(entries);
  }

  function Prepend(entries: seq<Entry>, r: Result<seq<Entry>, ParseError>): Result<seq<Entry>, ParseError> {
    match r
    case Success(rest) => Success(entries + rest)
    case Failure(error) => Failure(error)
  }

  lemma PrependNothing(r: Result<seq<Entry>, ParseError>)
    ensures Prepend([], r) == r
  {
    if r.Success? { assert [] + r.value == r.value; }
  }

  lemma PrependSnoc(entries: seq<Entry>, e: Entry, r: Result<seq<Entry>, ParseError>)
    ensures Prepend(entries, Prepend([e], r)) == Prepend(entries + [e], r)
  {
    if r.Success? { ConcatAssoc(entries, [e], r.value); }
  }

  lemma {:induction false} ParseLinesOfEntries(entries: seq<Entry>)
    requires forall e :: e in entries ==> Clean(e)
    ensures ParseLines(WriteEntries(entries)) == Success(entries)
  {
    hide ReadLine, WriteEntry, Clean;
    if entries != [] {
      WriteThenReadEntry(entries[0]);
      ParseLinesOfEntries(entries[1..]);
      assert WriteEntries(entries)[1..] == WriteEntries(entries[1..]);
      assert entries == [entries[0]] + entries[1..];
    }
  }

  lemma {:induction false} ParseLinesClean(ls: seq<string>)
    requires forall l :: l in ls ==> '\n' !in l
    ensures ParseLines(ls).Success? ==> forall e :: e in ParseLines(ls).value ==> Clean(e)
  {
    if ls != [] {
      ReadEntryIsClean(ls[0]);
      ParseLinesClean(ls[1..]);
    }
  }

  /** Rendering and then parsing gives an entry list back, order and repeats
      included, exactly when every entry is one a line can carry. */
  lemma RenderThenParse(entries: seq<Entry>)
    ensures Parse(Render(entries)) == Success(entries) <==> forall e :: e in entries ==> Clean(e)
  {
    if forall e :: e in entries ==> Clean(e) {
      forall l | l in WriteEntries(entries) ensures Joinable(l) {
        var i :| 0 <= i < |entries| && l == WriteEntry(entries[i]);
        WriteThenReadEntry(entries[i]);
      }
      LinesOfJoin(WriteEntries(entries));
      ParseLinesOfEntries(entries);
    }
    LinesClean(Render(entries));
    ParseLinesClean(Lines(Render(entries)));
  }

  /** Whatever text the parser accepts, its entries render to a text that parses
      to the same entries. */
  lemma ParseThenRenderThenParse(content: string)
    requires Parse(content).Success?
    ensures Parse(Render(Parse(content).value)) == Parse(content)
  {
    LinesClean(content);
    ParseLinesClean(Lines(content));
    RenderThenParse(Parse(content).value);
  }

  /** The parser refuses a text exactly when some line has no separator, and
      reports the first such line. */
  lemma {:induction false} ParseFailsAtFirstBadLine(ls: seq<string>)
    ensures ParseLines(ls).Failure? <==> exists i :: 0 <= i < |ls| && ReadLine(ls[i]).NoSeparator?
    ensures ParseLines(ls).Failure? ==>
              exists i :: 0 <= i < |ls|
                && ReadLine(ls[i]) == NoSeparator(ParseLines(ls).error.text)
                && forall j :: 0 <= j < i ==> !ReadLine(ls[j]).NoSeparator?
  {
    hide ReadLine;
    if ls != [] {
      var rest := ls[1..];
      ParseFailsAtFirstBadLine(rest);
      assert forall i :: 0 <= i < |rest| ==> rest[i] == ls[i + 1];
      if ReadLine(ls[0]).NoSeparator? {
        assert ReadLine(ls[0]) == NoSeparator(ParseLines(ls).error.text);
      } else if ParseLines(rest).Failure? {
        var i :| 0 <= i < |rest| && ReadLine(rest[i]) == NoSeparator(ParseLines(rest).error.text)
                 && forall j :: 0 <= j < i ==> !ReadLine(rest[j]).NoSeparator?;
        assert ReadLine(ls[i + 1]) == NoSeparator(ParseLines(ls).error.text);
        forall j | 0 <= j < i + 1 ensures !ReadLine(ls[j]).NoSeparator? {
          if j > 0 { assert ls[j] == rest[j - 1]; }
        }
      }
    }
  }
}
