/** `auditd.conf`: typed settings, an ordered map of everything else, and the
    parser and printer between them and the text of the file. */
module AuditdConf {
  import opened Wrappers
  import opened Text
  import opened StringOrder
  import opened KeyValue
  import Decimal

  datatype AuditdConfig = AuditdConfig(
    maxLogFile: Option<nat>,
    maxLogFileAction: Option<string>,
    numLogs: Option<nat>,
    logFormat: Option<string>,
    flush: Option<string>,
    priorityBoost: Option<nat>,
    extra: map<string, string>)

  const EMPTY := AuditdConfig(None, None, None, None, None, None, map[])

  /** The keys with a field of their own; every other key goes to `extra`. */
  datatype Setting =
    MaxLogFile | MaxLogFileAction | NumLogs | LogFormat | Flush | PriorityBoost | Other

  function SettingOf(key: string): Setting {
    match key
    case "max_log_file" => MaxLogFile
    case "max_log_file_action" => MaxLogFileAction
    case "num_logs" => NumLogs
    case "log_format" => LogFormat
    case "flush" => Flush
    case "priority_boost" => PriorityBoost
    case _ => Other
  }

  function Name(setting: Setting): (key: string)
    requires setting != Other
    ensures SettingOf(key) == setting
  {
    match setting
    case MaxLogFile => "max_log_file"
    case MaxLogFileAction => "max_log_file_action"
    case NumLogs => "num_logs"
    case LogFormat => "log_format"
    case Flush => "flush"
    case PriorityBoost => "priority_boost"
  }

  lemma NameIsClean(setting: Setting)
    requires setting != Other
    ensures var key := Name(setting); Trimmed(key) && '=' !in key && '\n' !in key && key != "" && key[0] != '#'
  {
    hide SettingOf;
  }

  // ---------------------------------------------------------------------------
  // Parsing
  // ---------------------------------------------------------------------------

  /** One entry assigned: a typed key takes the last value read, and a number
      that does not parse clears its setting. */
  function Assign(c: AuditdConfig, e: Entry): AuditdConfig {
    var (k, v) := e;
    match SettingOf(k)
    case MaxLogFile => c.(maxLogFile := Decimal.Parse(v, Decimal.U64_MAX))
    case MaxLogFileAction => c.(maxLogFileAction := Some(v))
    case NumLogs => c.(numLogs := Decimal.Parse(v, Decimal.U32_MAX))
    case LogFormat => c.(logFormat := Some(v))
    case Flush => c.(flush := Some(v))
    case PriorityBoost => c.(priorityBoost := Decimal.Parse(v, Decimal.U32_MAX))
    case Other => c.(extra := c.extra[k := v])
  }

  function AssignLine(c: AuditdConfig, line: string): AuditdConfig {
    match ReadLine(line)
    case Pair(e) => Assign(c, e)
    case _ => c
  }

  function AssignLines(c: AuditdConfig, ls: seq<string>): AuditdConfig {
    if ls == [] then c else AssignLine(AssignLines(c, ls[..|ls| - 1]), ls[|ls| - 1])
  }

  /** The configuration a text denotes. */
  function Parsed(content: string): AuditdConfig {
    AssignLines(EMPTY, Lines(content))
  }

  method Parse(content: string) returns (config: AuditdConfig)
    ensures config == Parsed(content)
  {
    hide ReadLine, Assign;
    config := EMPTY;
    var lines := Lines(content);
    for i := 0 to |lines|
      invariant config == AssignLines(EMPTY, lines[..i])
    {
      assert lines[..i + 1][..i] == lines[..i];
      match ReadLine(lines[i]) {
        case Skipped =>
        case NoSeparator(_) =>
        case Pair(e) => config := Assign(config, e);
      }
    }
    assert lines[..|lines|] == lines;
  }

  // ---------------------------------------------------------------------------
  // Rendering
  // ---------------------------------------------------------------------------

  function TextEntry(setting: Setting, value: Option<string>): seq<Entry>
    requires setting != Other
  {
    if value.Some? then [(Name(setting), value.value)] else []
  }

  function NumberEntry(setting: Setting, value: Option<nat>): seq<Entry>
    requires setting != Other
  {
    if value.Some? then [(Name(setting), Decimal.Print(value.value))] else []
  }

  function TypedEntries(c: AuditdConfig): seq<Entry> {
    NumberEntry(MaxLogFile, c.maxLogFile)
    + TextEntry(MaxLogFileAction, c.maxLogFileAction)
    + NumberEntry(NumLogs, c.numLogs)
    + TextEntry(LogFormat, c.logFormat)
    + TextEntry(Flush, c.flush)
    + NumberEntry(PriorityBoost, c.priorityBoost)
  }

  function ExtraEntries(keys: seq<string>, extra: map<string, string>): seq<Entry>
    requires forall k :: k in keys ==> k in extra
  {
    seq(|keys|, i requires 0 <= i < |keys| => assert keys[i] in keys; (keys[i], extra[keys[i]]))
  }

  function EntriesOf(c: AuditdConfig): seq<Entry> {
    TypedEntries(c) + ExtraEntries(InOrder(c.extra.Keys), c.extra)
  }

  /** The text a configuration is written as. */
  function Rendered(c: AuditdConfig): string {
    KeyValue.Render(EntriesOf(c))
  }

  method Render(c: AuditdConfig) returns (content: string)
    ensures content == Rendered(c)
  {
    hide *;
    var lines := TypedLines(c);
    NothingWritten(TypedEntries(c), c.extra);
    var keys := InOrder(c.extra.Keys);
    for i := 0 to |keys|
      invariant lines == WriteEntries(TypedEntries(c) + ExtraEntries(keys[..i], c.extra))
    {
      assert keys[i] in keys;
      PushedExtra(TypedEntries(c), keys, c.extra, i);
      lines := lines + [keys[i] + " = " + c.extra[keys[i]]];
    }
    assert keys[..|keys|] == keys;
    RenderedIs(c);
    return Join(lines);
  }

  /** The typed settings that are set, pushed one after another. */
  method TypedLines(c: AuditdConfig) returns (lines: seq<string>)
    ensures lines == WriteEntries(TypedEntries(c))
  {
    hide *;
    lines := [];
    ghost var written: seq<Entry> := [];
    assert WriteEntries([]) == [] by { NothingWritten([], map[]); }
    PushedNumber(lines, written, MaxLogFile, c.maxLogFile);
    if c.maxLogFile.Some? { lines := lines + [Name(MaxLogFile) + " = " + Decimal.Print(c.maxLogFile.value)]; }
    written := written + NumberEntry(MaxLogFile, c.maxLogFile);
    PushedText(lines, written, MaxLogFileAction, c.maxLogFileAction);
    if c.maxLogFileAction.Some? { lines := lines + [Name(MaxLogFileAction) + " = " + c.maxLogFileAction.value]; }
    written := written + TextEntry(MaxLogFileAction, c.maxLogFileAction);
    PushedNumber(lines, written, NumLogs, c.numLogs);
    if c.numLogs.Some? { lines := lines + [Name(NumLogs) + " = " + Decimal.Print(c.numLogs.value)]; }
    written := written + NumberEntry(NumLogs, c.numLogs);
    PushedText(lines, written, LogFormat, c.logFormat);
    if c.logFormat.Some? { lines := lines + [Name(LogFormat) + " = " + c.logFormat.value]; }
    written := written + TextEntry(LogFormat, c.logFormat);
    PushedText(lines, written, Flush, c.flush);
    if c.flush.Some? { lines := lines + [Name(Flush) + " = " + c.flush.value]; }
    written := written + TextEntry(Flush, c.flush);
    PushedNumber(lines, written, PriorityBoost, c.priorityBoost);
    if c.priorityBoost.Some? { lines := lines + [Name(PriorityBoost) + " = " + Decimal.Print(c.priorityBoost.value)]; }
    written := written + NumberEntry(PriorityBoost, c.priorityBoost);
    TypedEntriesAre(c);
    assert [] + NumberEntry(MaxLogFile, c.maxLogFile) == NumberEntry(MaxLogFile, c.maxLogFile);
  }

  lemma NothingWritten(typed: seq<Entry>, extra: map<string, string>)
    ensures WriteEntries([]) == []
    ensures WriteEntries(typed + ExtraEntries([], extra)) == WriteEntries(typed)
  {
    assert typed + ExtraEntries([], extra) == typed;
  }

  lemma PushedNumber(lines: seq<string>, written: seq<Entry>, setting: Setting, v: Option<nat>)
    requires setting != Other && lines == WriteEntries(written)
    ensures (if v.Some? then lines + [Name(setting) + " = " + Decimal.Print(v.value)] else lines)
            == WriteEntries(written + NumberEntry(setting, v))
  {
    hide Name, Decimal.Print;
  }

  lemma PushedText(lines: seq<string>, written: seq<Entry>, setting: Setting, v: Option<string>)
    requires setting != Other && lines == WriteEntries(written)
    ensures (if v.Some? then lines + [Name(setting) + " = " + v.value] else lines)
            == WriteEntries(written + TextEntry(setting, v))
  {
    hide Name;
  }

  lemma PushedExtra(typed: seq<Entry>, keys: seq<string>, extra: map<string, string>, i: nat)
    requires forall k :: k in keys ==> k in extra
    requires i < |keys|
    ensures WriteEntries(typed + ExtraEntries(keys[..i + 1], extra))
            == WriteEntries(typed + ExtraEntries(keys[..i], extra)) + [keys[i] + " = " + extra[keys[i]]]
  {
    assert ExtraEntries(keys[..i + 1], extra) == ExtraEntries(keys[..i], extra) + [(keys[i], extra[keys[i]])];
    ConcatAssoc(typed, ExtraEntries(keys[..i], extra), [(keys[i], extra[keys[i]])]);
  }

  lemma TypedEntriesAre(c: AuditdConfig)
    ensures TypedEntries(c) == NumberEntry(MaxLogFile, c.maxLogFile)
      + TextEntry(MaxLogFileAction, c.maxLogFileAction) + NumberEntry(NumLogs, c.numLogs)
      + TextEntry(LogFormat, c.logFormat) + TextEntry(Flush, c.flush)
      + NumberEntry(PriorityBoost, c.priorityBoost)
  {
  }

  lemma RenderedIs(c: AuditdConfig)
    ensures Rendered(c) == Join(WriteEntries(TypedEntries(c) + ExtraEntries(InOrder(c.extra.Keys), c.extra)))
  {
  }

  // ---------------------------------------------------------------------------
  // Round trips
  // ---------------------------------------------------------------------------

  predicate CleanValue(v: Option<string>) {
    v.Some? ==> Trimmed(v.value) && '\n' !in v.value
  }

  predicate Fits(v: Option<nat>, max: nat) {
    v.Some? ==> v.value <= max
  }

  predicate CleanExtra(extra: map<string, string>) {
    forall k :: k in extra ==> SettingOf(k).Other? && Clean((k, extra[k]))
  }

  /** Configurations a text can denote: numbers of their widths, values without
      outer blanks or newlines, and further keys that a line can carry and that
      are not typed settings. */
  predicate WellFormed(c: AuditdConfig) {
    && Fits(c.maxLogFile, Decimal.U64_MAX)
    && Fits(c.numLogs, Decimal.U32_MAX)
    && Fits(c.priorityBoost, Decimal.U32_MAX)
    && CleanValue(c.maxLogFileAction) && CleanValue(c.logFormat) && CleanValue(c.flush)
    && CleanExtra(c.extra)
  }

  lemma AssignKeepsWellFormed(c: AuditdConfig, e: Entry)
    requires WellFormed(c) && Clean(e)
    ensures WellFormed(Assign(c, e))
  {
    hide SettingOf, Decimal.Parse, Clean, CleanValue, CleanExtra, Fits;
    if SettingOf(e.0).Other? { ExtraGrows(c.extra, e); }
    ParsedFits(e.1);
    ValueIsClean(e);
  }

  lemma ValueIsClean(e: Entry)
    requires Clean(e)
    ensures CleanValue(Some(e.1))
  {
    hide Trimmed;
  }

  lemma ExtraGrows(extra: map<string, string>, e: Entry)
    requires CleanExtra(extra) && Clean(e) && SettingOf(e.0).Other?
    ensures CleanExtra(extra[e.0 := e.1])
  {
    hide SettingOf, Clean;
  }

  lemma ParsedFits(v: string)
    ensures Fits(Decimal.Parse(v, Decimal.U64_MAX), Decimal.U64_MAX)
    ensures Fits(Decimal.Parse(v, Decimal.U32_MAX), Decimal.U32_MAX)
  {
  }

  /** Every text denotes a well-formed configuration. */
  lemma {:induction false} AssignLinesWellFormed(c: AuditdConfig, ls: seq<string>)
    requires WellFormed(c)
    requires forall l :: l in ls ==> '\n' !in l
    ensures WellFormed(AssignLines(c, ls))
  {
    hide ReadLine, Assign, WellFormed;
    if ls != [] {
      var n := |ls| - 1;
      AssignLinesWellFormed(c, ls[..n]);
      ReadEntryIsClean(ls[n]);
      match ReadLine(ls[n]) {
        case Pair(e) => AssignKeepsWellFormed(AssignLines(c, ls[..n]), e);
        case _ =>
      }
    }
  }

  function AssignAll(c: AuditdConfig, entries: seq<Entry>): AuditdConfig {
    if entries == [] then c
    else Assign(AssignAll(c, entries[..|entries| - 1]), entries[|entries| - 1])
  }

  lemma {:induction false} AssignAllConcat(c: AuditdConfig, a: seq<Entry>, b: seq<Entry>)
    ensures AssignAll(c, a + b) == AssignAll(AssignAll(c, a), b)
  {
    hide Assign;
    if b == [] {
      assert a + b == a;
    } else {
      var n := |b| - 1;
      assert (a + b)[..|a + b| - 1] == a + b[..n];
      AssignAllConcat(c, a, b[..n]);
    }
  }

  lemma {:induction false} LinesOfEntries(c: AuditdConfig, entries: seq<Entry>)
    requires forall e :: e in entries ==> Clean(e)
    ensures AssignLines(c, WriteEntries(entries)) == AssignAll(c, entries)
  {
    hide ReadLine, Assign, Clean;
    if entries != [] {
      var n := |entries| - 1;
      assert entries[n] in entries;
      WriteThenReadEntry(entries[n]);
      LinesOfEntries(c, entries[..n]);
      assert WriteEntries(entries)[..n] == WriteEntries(entries[..n]);
    }
  }

  lemma AssignNumber(c: AuditdConfig, key: Setting, v: Option<nat>)
    requires key != Other
    ensures AssignAll(c, NumberEntry(key, v)) == if v.Some? then Assign(c, (Name(key), Decimal.Print(v.value))) else c
  {
    hide Assign, Name;
    if v.Some? { assert AssignAll(c, NumberEntry(key, v)[..0]) == c; }
  }

  lemma AssignText(c: AuditdConfig, key: Setting, v: Option<string>)
    requires key != Other
    ensures AssignAll(c, TextEntry(key, v)) == if v.Some? then Assign(c, (Name(key), v.value)) else c
  {
    hide Assign, Name;
    if v.Some? { assert AssignAll(c, TextEntry(key, v)[..0]) == c; }
  }

  /** The typed entries set exactly the typed fields. */
  lemma AssignTyped(c: AuditdConfig)
    requires WellFormed(c)
    ensures AssignAll(EMPTY, TypedEntries(c)) == c.(extra := map[])
  {
    hide AssignAll, WellFormed, SettingOf, Name, Decimal.Parse, Decimal.Print;
    var e1 := NumberEntry(MaxLogFile, c.maxLogFile);
    var e2 := TextEntry(MaxLogFileAction, c.maxLogFileAction);
    var e3 := NumberEntry(NumLogs, c.numLogs);
    var e4 := TextEntry(LogFormat, c.logFormat);
    var e5 := TextEntry(Flush, c.flush);
    var e6 := NumberEntry(PriorityBoost, c.priorityBoost);
    var c1 := EMPTY.(maxLogFile := c.maxLogFile);
    var c2 := c1.(maxLogFileAction := c.maxLogFileAction);
    var c3 := c2.(numLogs := c.numLogs);
    var c4 := c3.(logFormat := c.logFormat);
    var c5 := c4.(flush := c.flush);
    NumbersPrint(c);
    AssignNumber(EMPTY, MaxLogFile, c.maxLogFile);
    AssignText(c1, MaxLogFileAction, c.maxLogFileAction);
    AssignAllConcat(EMPTY, e1, e2);
    AssignNumber(c2, NumLogs, c.numLogs);
    AssignAllConcat(EMPTY, e1 + e2, e3);
    AssignText(c3, LogFormat, c.logFormat);
    AssignAllConcat(EMPTY, e1 + e2 + e3, e4);
    AssignText(c4, Flush, c.flush);
    AssignAllConcat(EMPTY, e1 + e2 + e3 + e4, e5);
    AssignNumber(c5, PriorityBoost, c.priorityBoost);
    AssignAllConcat(EMPTY, e1 + e2 + e3 + e4 + e5, e6);
  }

  lemma NumbersPrint(c: AuditdConfig)
    requires WellFormed(c)
    ensures c.maxLogFile.Some? ==> Decimal.Parse(Decimal.Print(c.maxLogFile.value), Decimal.U64_MAX) == c.maxLogFile
    ensures c.numLogs.Some? ==> Decimal.Parse(Decimal.Print(c.numLogs.value), Decimal.U32_MAX) == c.numLogs
    ensures c.priorityBoost.Some? ==> Decimal.Parse(Decimal.Print(c.priorityBoost.value), Decimal.U32_MAX) == c.priorityBoost
  {
    if c.maxLogFile.Some? { Decimal.PrintThenParse(c.maxLogFile.value, Decimal.U64_MAX); }
    if c.numLogs.Some? { Decimal.PrintThenParse(c.numLogs.value, Decimal.U32_MAX); }
    if c.priorityBoost.Some? { Decimal.PrintThenParse(c.priorityBoost.value, Decimal.U32_MAX); }
  }

  /** Entries of further keys go to the map, one after another. */
  lemma {:induction false} AssignExtra(c: AuditdConfig, keys: seq<string>, extra: map<string, string>)
    requires forall k :: k in keys ==> k in extra && SettingOf(k).Other?
    ensures AssignAll(c, ExtraEntries(keys, extra))
            == c.(extra := c.extra + Select(keys, extra))
  {
    hide SettingOf;
    if keys == [] {
      assert Select(keys, extra) == map[];
    } else {
      var n := |keys| - 1;
      assert keys[n] in keys;
      AssignExtra(c, keys[..n], extra);
      assert ExtraEntries(keys, extra)[..n] == ExtraEntries(keys[..n], extra);
      AddKey(c.extra, keys[..n], keys[n], extra);
      assert keys == keys[..n] + [keys[n]];
    }
  }

  function Select(keys: seq<string>, extra: map<string, string>): map<string, string>
    requires forall k :: k in keys ==> k in extra
  {
    map k | k in keys :: extra[k]
  }

  lemma AddKey(m: map<string, string>, keys: seq<string>, key: string, extra: map<string, string>)
    requires key in extra && forall k :: k in keys ==> k in extra
    ensures (m + Select(keys, extra))[key := extra[key]] == m + Select(keys + [key], extra)
  {
  }

  lemma EntriesAreClean(c: AuditdConfig)
    requires WellFormed(c)
    ensures forall e :: e in EntriesOf(c) ==> Clean(e)
  {
    hide InOrder;
    var keys := InOrder(c.extra.Keys);
    forall e | e in EntriesOf(c) ensures Clean(e) {
      if e !in ExtraEntries(keys, c.extra) {
        assert e in TypedEntries(c);
        TypedEntriesClean(c, e);
      }
    }
  }

  lemma TypedEntriesClean(c: AuditdConfig, e: Entry)
    requires WellFormed(c) && e in TypedEntries(c)
    ensures Clean(e)
  {
    hide Name, Decimal.Print, SettingOf, Trimmed;
    forall n: nat ensures Trimmed(Decimal.Print(n)) && '\n' !in Decimal.Print(n) {
      DigitsAreInk(Decimal.Print(n));
    }
    forall setting | setting != Other
      ensures var key := Name(setting); Trimmed(key) && '=' !in key && '\n' !in key && (key != "" ==> key[0] != '#')
    {
      NameIsClean(setting);
    }
  }

  lemma DigitsAreInk(s: string)
    requires s != "" && Decimal.AllDigits(s)
    ensures Trimmed(s) && '\n' !in s
  {
    assert Decimal.IsDigit(s[0]) && Decimal.IsDigit(s[|s| - 1]);
  }

  /** Rendering and then parsing gives a configuration back exactly when it is
      well formed. */
  lemma RenderThenParse(c: AuditdConfig)
    ensures Parsed(Rendered(c)) == c <==> WellFormed(c)
  {
    hide AssignLines, AssignAll, WellFormed, InOrder, ReadLine;
    LinesClean(Rendered(c));
    AssignLinesWellFormed(EMPTY, Lines(Rendered(c))) by { assert WellFormed(EMPTY) by { EmptyWellFormed(); } }
    if WellFormed(c) {
      EntriesAreClean(c);
      JoinedEntries(EntriesOf(c));
      LinesOfEntries(EMPTY, EntriesOf(c));
      var keys := InOrder(c.extra.Keys);
      AssignAllConcat(EMPTY, TypedEntries(c), ExtraEntries(keys, c.extra));
      AssignTyped(c);
      ExtraKeysUntyped(c);
      AssignExtra(c.(extra := map[]), keys, c.extra);
      assert map[] + Select(keys, c.extra) == c.extra;
    }
  }

  lemma EmptyWellFormed()
    ensures WellFormed(EMPTY)
  {
  }

  lemma ExtraKeysUntyped(c: AuditdConfig)
    requires WellFormed(c)
    ensures forall k :: k in c.extra ==> SettingOf(k).Other?
  {
  }

  lemma JoinedEntries(entries: seq<Entry>)
    requires forall e :: e in entries ==> Clean(e)
    ensures Lines(KeyValue.Render(entries)) == WriteEntries(entries)
  {
    forall l | l in WriteEntries(entries) ensures Joinable(l) {
      var i :| 0 <= i < |entries| && l == WriteEntry(entries[i]);
      WriteThenReadEntry(entries[i]);
    }
    LinesOfJoin(WriteEntries(entries));
  }

  /** Whatever the text (repeated keys, overflowing numbers and values holding
      the separator included), the configuration it denotes is the one its
      rendering denotes. */
  lemma ParseThenRenderThenParse(content: string)
    ensures Parsed(Rendered(Parsed(content))) == Parsed(content)
  {
    LinesClean(content);
    AssignLinesWellFormed(EMPTY, Lines(content));
    RenderThenParse(Parsed(content));
  }

  // ---------------------------------------------------------------------------
  // Which value counts
  // ---------------------------------------------------------------------------

  /** The value on the last line that names the key. */
  function LastValue(ls: seq<string>, key: string): Option<string> {
    if ls == [] then None
    else
      var n := |ls| - 1;
      match ReadLine(ls[n])
      case Pair(e) => if e.0 == key then Some(e.1) else LastValue(ls[..n], key)
      case _ => LastValue(ls[..n], key)
  }

  function NumberIn(v: Option<string>, max: nat): Option<nat> {
    if v.None? then None else Decimal.Parse(v.value, max)
  }

  /** A setting's value, whichever field holds it, as text or as a number. */
  predicate Holds(c: AuditdConfig, key: string, v: Option<string>) {
    match SettingOf(key)
    case MaxLogFile => c.maxLogFile == NumberIn(v, Decimal.U64_MAX)
    case MaxLogFileAction => c.maxLogFileAction == v
    case NumLogs => c.numLogs == NumberIn(v, Decimal.U32_MAX)
    case LogFormat => c.logFormat == v
    case Flush => c.flush == v
    case PriorityBoost => c.priorityBoost == NumberIn(v, Decimal.U32_MAX)
    case Other => (key in c.extra <==> v.Some?) && (v.Some? ==> c.extra[key] == v.value)
  }

  lemma AssignHolds(c: AuditdConfig, e: Entry, key: string, v: Option<string>)
    requires Holds(c, key, v)
    ensures Holds(Assign(c, e), key, if e.0 == key then Some(e.1) else v)
  {
    hide Decimal.Parse;
    if SettingOf(e.0) == SettingOf(key) && SettingOf(key) != Other {
      SettingNames(e.0);
      SettingNames(key);
    }
  }

  lemma SettingNames(key: string)
    ensures SettingOf(key) != Other ==> key == Name(SettingOf(key))
  {
  }

  /** The last line that names a key decides its value, even when it is a number
      that does not parse: that clears the setting. A key on no line is unset. */
  lemma {:induction false} LastLineDecides(ls: seq<string>, key: string)
    ensures Holds(AssignLines(EMPTY, ls), key, LastValue(ls, key))
  {
    hide ReadLine, Assign, Holds;
    if ls == [] {
      assert Holds(EMPTY, key, None) by { NothingHeld(key); }
    } else {
      var n := |ls| - 1;
      LastLineDecides(ls[..n], key);
      match ReadLine(ls[n]) {
        case Pair(e) => AssignHolds(AssignLines(EMPTY, ls[..n]), e, key, LastValue(ls[..n], key));
        case _ =>
      }
    }
  }

  /** Which key sets which setting, at which width; every other key is kept as it
      stands. */
  lemma KeysSetFields(content: string)
    ensures var c, ls := Parsed(content), Lines(content);
            && c.maxLogFile == NumberIn(LastValue(ls, "max_log_file"), 0xFFFF_FFFF_FFFF_FFFF)
            && c.maxLogFileAction == LastValue(ls, "max_log_file_action")
            && c.numLogs == NumberIn(LastValue(ls, "num_logs"), 0xFFFF_FFFF)
            && c.logFormat == LastValue(ls, "log_format")
            && c.flush == LastValue(ls, "flush")
            && c.priorityBoost == NumberIn(LastValue(ls, "priority_boost"), 0xFFFF_FFFF)
            && forall key ::
                 if key in ["max_log_file", "max_log_file_action", "num_logs", "log_format", "flush", "priority_boost"]
                 then key !in c.extra
                 else (key in c.extra <==> LastValue(ls, key).Some?) && (key in c.extra ==> c.extra[key] == LastValue(ls, key).value)
  {
    hide AssignLines, LastValue, NumberIn, Lines;
    var c, ls := Parsed(content), Lines(content);
    LastLineDecides(ls, "max_log_file");
    LastLineDecides(ls, "max_log_file_action");
    LastLineDecides(ls, "num_logs");
    LastLineDecides(ls, "log_format");
    LastLineDecides(ls, "flush");
    LastLineDecides(ls, "priority_boost");
    ParsedKeepsOthers(content);
    forall key | SettingOf(key).Other?
      ensures (key in c.extra <==> LastValue(ls, key).Some?) && (key in c.extra ==> c.extra[key] == LastValue(ls, key).value)
    {
      LastLineDecides(ls, key);
    }
  }

  lemma ParsedKeepsOthers(content: string)
    ensures forall key :: key in Parsed(content).extra ==> SettingOf(key).Other?
  {
    hide SettingOf, AssignLines, Lines;
    LinesClean(content);
    EmptyWellFormed();
    AssignLinesWellFormed(EMPTY, Lines(content));
  }

  lemma NothingHeld(key: string)
    ensures Holds(EMPTY, key, None)
  {
    hide SettingOf;
  }
}
