/** Reloading the live audit rules: load every file, flush, load every file
    again, stopping at the first command that fails. */
module Reload {
  import opened Wrappers
  import opened StringOrder

  datatype Command = Load(file: string) | FlushAll

  /** One command as it was run. */
  datatype Run = Run(command: Command, ok: bool)

  /** The live rules and every command run so far. */
  datatype Kernel = Kernel(live: seq<string>, runs: seq<Run>)

  /** What the host does with each command: the rules each file holds, which of
      the commands (counted from the first ever run) succeed, and what a failing
      one leaves live. */
  datatype Host = Host(
    rulesOf: string -> seq<string>,
    succeeds: nat -> bool,
    leaves: (nat, Command, seq<string>) -> seq<string>)

  /** Rule files only add: a load that fails part way has removed nothing. */
  ghost predicate AddOnly(h: Host) {
    forall n, f, live :: live <= h.leaves(n, Load(f), live)
  }

  function Execute(h: Host, k: Kernel, c: Command): (r: (bool, Kernel))
    ensures r.1.runs == k.runs + [Run(c, r.0)]
  {
    var n := |k.runs|;
    var ok := h.succeeds(n);
    var live :=
      if !ok then h.leaves(n, c, k.live)
      else match c
        case Load(f) => k.live + h.rulesOf(f)
        case FlushAll => [];
    (ok, Kernel(live, k.runs + [Run(c, ok)]))
  }

  function LoadEach(h: Host, k: Kernel, files: seq<string>): (bool, Kernel)
    decreases |files|
  {
    if files == [] then (true, k)
    else
      var (ok, k') := Execute(h, k, Load(files[0]));
      if ok then LoadEach(h, k', files[1..]) else (false, k')
  }

  /** The reload over the sorted file names. */
  function ReloadFiles(h: Host, k: Kernel, files: seq<string>): (bool, Kernel) {
    if files == [] then Execute(h, k, FlushAll)
    else
      var (loaded, k1) := LoadEach(h, k, files);
      if !loaded then (false, k1)
      else
        var (flushed, k2) := Execute(h, k1, FlushAll);
        if !flushed then (false, k2) else LoadEach(h, k2, files)
  }

  // ---------------------------------------------------------------------------
  // The directory
  // ---------------------------------------------------------------------------

  /** The rules directory as reading it answers; an entry may itself fail. */
  datatype Directory = Missing | Unreadable | Entries(names: seq<Option<string>>)

  const RULES_EXTENSION := ".rules"

  /** The file name has the extension `rules` (a bare `.rules` has none). */
  predicate IsRulesFile(name: string) {
    |name| > |RULES_EXTENSION| && name[|name| - |RULES_EXTENSION|..] == RULES_EXTENSION
  }

  function RulesFiles(names: seq<Option<string>>): Option<seq<string>> {
    if names == [] then Some([])
    else match names[0]
      case None => None
      case Some(name) =>
        match RulesFiles(names[1..])
        case None => None
        case Some(rest) => Some(if IsRulesFile(name) then [name] + rest else rest)
  }

  /** The names the reload works through, or none when listing them fails. */
  function Files(d: Directory): Option<seq<string>> {
    match d
    case Missing => Some([])
    case Unreadable => None
    case Entries(names) =>
      match RulesFiles(names)
      case None => None
      case Some(files) => Some(Sort(files))
  }

  datatype ReloadError = Io | CommandFailed

  class AuditdManager {
    const host: Host
    var kernel: Kernel

    constructor (host: Host, kernel: Kernel)
      ensures this.host == host && this.kernel == kernel
    {
      this.host, this.kernel := host, kernel;
    }

    method RunChecked(c: Command) returns (ok: bool)
      modifies this
      ensures (ok, kernel) == Execute(host, old(kernel), c)
      ensures ok <==> host.succeeds(|old(kernel.runs)|)
      ensures kernel.runs == old(kernel.runs) + [Run(c, ok)]
      ensures ok && c.FlushAll? ==> kernel.live == []
      ensures ok && c.Load? ==> kernel.live == old(kernel.live) + host.rulesOf(c.file)
    {
      var r := Execute(host, kernel, c);
      ok, kernel := r.0, r.1;
    }

    method ReloadRulesInner(d: Directory) returns (r: Result<(), ReloadError>)
      modifies this
      ensures Files(d).None? ==> r == Failure(Io) && kernel == old(kernel)
      ensures Files(d).Some? ==>
                (r.Success?, kernel) == ReloadFiles(host, old(kernel), Files(d).value)
                && (r.Failure? ==> r.error == CommandFailed)
    {
      hide Execute, LoadEach, RulesFiles, IsRulesFile, Sort;
      var files: seq<string> := [];
      if d.Unreadable? { return Failure(Io); }
      if d.Entries? {
        NoFileYet(d.names);
        for i := 0 to |d.names|
          invariant kernel == old(kernel)
          invariant RulesFiles(d.names) == After(files, RulesFiles(d.names[i..]))
        {
          NextFile(d.names, i, files);
          match d.names[i] {
            case None => return Failure(Io);
            case Some(name) => if IsRulesFile(name) { files := files + [name]; }
          }
        }
        AllFiles(d.names, files);
        files := Sort(files);
      }
      if files == [] {
        var ok := RunChecked(FlushAll);
        return if ok then Success(()) else Failure(CommandFailed);
      }
      ghost var k0 := kernel;
      LoadEachBounds(host, kernel, files);
      for i := 0 to |files|
        invariant LoadEach(host, k0, files) == LoadEach(host, kernel, files[i..])
      {
        LoadEachNext(host, kernel, files, i);
        var ok := RunChecked(Load(files[i]));
        if !ok { return Failure(CommandFailed); }
      }
      var flushed := RunChecked(FlushAll);
      if !flushed { return Failure(CommandFailed); }
      ghost var k2 := kernel;
      LoadEachBounds(host, kernel, files);
      for i := 0 to |files|
        invariant LoadEach(host, k2, files) == LoadEach(host, kernel, files[i..])
      {
        LoadEachNext(host, kernel, files, i);
        var ok := RunChecked(Load(files[i]));
        if !ok { return Failure(CommandFailed); }
      }
      return Success(());
    }
  }

  function After(files: seq<string>, rest: Option<seq<string>>): Option<seq<string>> {
    match rest
    case None => None
    case Some(more) => Some(files + more)
  }

  lemma NoFileYet(names: seq<Option<string>>)
    ensures RulesFiles(names) == After([], RulesFiles(names[0..]))
  {
    assert names[0..] == names;
    if RulesFiles(names).Some? { assert [] + RulesFiles(names).value == RulesFiles(names).value; }
  }

  lemma NextFile(names: seq<Option<string>>, i: nat, files: seq<string>)
    requires i < |names|
    ensures After(files, RulesFiles(names[i..])) ==
            match names[i]
            case None => None
            case Some(name) => After(if IsRulesFile(name) then files + [name] else files, RulesFiles(names[i + 1..]))
  {
    hide IsRulesFile;
    assert names[i..][0] == names[i] && names[i..][1..] == names[i + 1..];
    var rest := RulesFiles(names[i + 1..]);
    if names[i].Some? && rest.Some? {
      assert files + ([names[i].value] + rest.value) == (files + [names[i].value]) + rest.value;
    }
  }

  lemma AllFiles(names: seq<Option<string>>, files: seq<string>)
    ensures After(files, RulesFiles(names[|names|..])) == Some(files)
  {
    assert files + [] == files;
  }

  lemma LoadEachBounds(h: Host, k: Kernel, files: seq<string>)
    ensures LoadEach(h, k, files) == LoadEach(h, k, files[0..])
    ensures forall k' :: LoadEach(h, k', files[|files|..]) == (true, k')
  {
    assert files[0..] == files;
  }

  lemma LoadEachNext(h: Host, k: Kernel, files: seq<string>, i: nat)
    requires i < |files|
    ensures LoadEach(h, k, files[i..])
            == var (ok, k') := Execute(h, k, Load(files[i])); if ok then LoadEach(h, k', files[i + 1..]) else (false, k')
  {
    hide Execute;
    assert files[i..][0] == files[i] && files[i..][1..] == files[i + 1..];
  }

  // ---------------------------------------------------------------------------
  // What a reload guarantees
  // ---------------------------------------------------------------------------

  function RulesOfAll(h: Host, files: seq<string>): seq<string> {
    if files == [] then [] else h.rulesOf(files[0]) + RulesOfAll(h, files[1..])
  }

  function Loads(files: seq<string>): (runs: seq<Run>)
    ensures |runs| == |files|
    ensures forall i :: 0 <= i < |files| ==> runs[i] == Run(Load(files[i]), true)
  {
    seq(|files|, i requires 0 <= i < |files| => Run(Load(files[i]), true))
  }

  /** A pass either loads every file once, in order, adding exactly their rules,
      or stops at one file after adding the rules of those before it. */
  lemma {:induction false} LoadEachOutcome(h: Host, k: Kernel, files: seq<string>) returns (done: nat)
    ensures done <= |files|
    ensures var (ok, k') := LoadEach(h, k, files);
            if ok then
              && done == |files|
              && k'.live == k.live + RulesOfAll(h, files)
              && k'.runs == k.runs + Loads(files)
            else
              && done < |files|
              && k'.runs == k.runs + Loads(files[..done]) + [Run(Load(files[done]), false)]
              && k'.live == h.leaves(|k.runs| + done, Load(files[done]), k.live + RulesOfAll(h, files[..done]))
    decreases |files|
  {
    hide Loads, RulesOfAll;
    NoLoad(h, k, files);
    if files == [] { return 0; }
    var (ok, k1) := Execute(h, k, Load(files[0]));
    if !ok { return 0; }
    var rest := LoadEachOutcome(h, k1, files[1..]);
    done := 1 + rest;
    OneMoreLoad(h, k, files, rest);
  }

  lemma NoLoad(h: Host, k: Kernel, files: seq<string>)
    ensures k.live + RulesOfAll(h, files[..0]) == k.live
    ensures k.runs + Loads(files[..0]) == k.runs
    ensures files == [] ==> files[..0] == files
  {
  }

  lemma OneMoreLoad(h: Host, k: Kernel, files: seq<string>, rest: nat)
    requires files != [] && rest <= |files| - 1
    ensures files[..1 + rest][1..] == files[1..][..rest]
    ensures k.live + RulesOfAll(h, files[..1 + rest]) == (k.live + h.rulesOf(files[0])) + RulesOfAll(h, files[1..][..rest])
    ensures k.runs + Loads(files[..1 + rest]) == (k.runs + [Run(Load(files[0]), true)]) + Loads(files[1..][..rest])
    ensures files[..|files|] == files && files[1..][..|files| - 1] == files[1..]
  {
    assert files[..1 + rest][1..] == files[1..][..rest];
  }

  /** The flush is issued only when the pass before it has loaded every file
      exactly once, successfully and in order. */
  lemma FlushAfterFullPass(h: Host, k: Kernel, files: seq<string>, i: nat)
    requires files != []
    requires var runs := ReloadFiles(h, k, files).1.runs; |k.runs| <= i < |runs| && runs[i].command == FlushAll
    ensures ReloadFiles(h, k, files).1.runs[..i] == k.runs + Loads(files)
  {
    hide LoadEach, RulesOfAll, Loads;
    var a := LoadEachOutcome(h, k, files);
    var (loaded, k1) := LoadEach(h, k, files);
    if loaded {
      var (flushed, k2) := Execute(h, k1, FlushAll);
      if flushed { var b := LoadEachOutcome(h, k2, files); }
    }
  }

  /** A failure before the flush issues no flush and keeps every rule that was
      live. */
  lemma FirstPassFailure(h: Host, k: Kernel, files: seq<string>)
    requires AddOnly(h) && files != [] && !LoadEach(h, k, files).0
    ensures var (ok, k') := ReloadFiles(h, k, files);
            && !ok
            && k.live <= k'.live
            && forall i :: |k.runs| <= i < |k'.runs| ==> k'.runs[i].command.Load?
  {
    var done := LoadEachOutcome(h, k, files);
  }

  /** Success leaves exactly the files' rules, in file order. */
  lemma FullSuccess(h: Host, k: Kernel, files: seq<string>)
    requires ReloadFiles(h, k, files).0
    ensures ReloadFiles(h, k, files).1.live == RulesOfAll(h, files)
  {
    if files != [] {
      var (_, k1) := LoadEach(h, k, files);
      var (_, k2) := Execute(h, k1, FlushAll);
      var b := LoadEachOutcome(h, k2, files);
      assert [] + RulesOfAll(h, files) == RulesOfAll(h, files);
    }
  }

  /** A failure after the flush leaves the rules of a proper prefix of the files,
      followed by whatever the failing load added: the rules that were live
      before the reload are gone. */
  lemma SecondPassFailure(h: Host, k: Kernel, files: seq<string>) returns (done: nat)
    requires AddOnly(h) && files != []
    requires LoadEach(h, k, files).0
    requires Execute(h, LoadEach(h, k, files).1, FlushAll).0
    requires !ReloadFiles(h, k, files).0
    ensures done < |files|
    ensures RulesOfAll(h, files[..done]) <= ReloadFiles(h, k, files).1.live
    ensures ReloadFiles(h, k, files).1.live
            == h.leaves(|k.runs| + |files| + 1 + done, Load(files[done]), RulesOfAll(h, files[..done]))
  {
    hide LoadEach, RulesOfAll, Loads;
    var a := LoadEachOutcome(h, k, files);
    var (_, k1) := LoadEach(h, k, files);
    var (_, k2) := Execute(h, k1, FlushAll);
    done := LoadEachOutcome(h, k2, files);
    assert [] + RulesOfAll(h, files[..done]) == RulesOfAll(h, files[..done]);
  }

  lemma {:induction false} RulesFilesMembers(names: seq<Option<string>>)
    requires RulesFiles(names).Some?
    ensures forall x :: x in RulesFiles(names).value <==> Some(x) in names && IsRulesFile(x)
  {
    if names != [] {
      assert names == [names[0]] + names[1..];
      RulesFilesMembers(names[1..]);
    }
  }

  /** The rule files of a directory are worked through in ascending name order:
      they are the readable names that end in the extension and are more than it,
      each as often as it is listed. One entry that cannot be read fails the
      listing. */
  lemma FilesInNameOrder(names: seq<Option<string>>)
    ensures Files(Entries(names)).None? <==> None in names
    ensures Files(Entries(names)).Some? ==>
              && Sorted(Files(Entries(names)).value)
              && (forall x :: multiset(Files(Entries(names)).value)[x] ==
                    if |x| > 6 && x[|x| - 6..] == ".rules" then multiset(names)[Some(x)] else 0)
    ensures Files(Missing) == Some([]) && Files(Unreadable) == None
  {
    hide Sort, RulesFiles;
    UnreadableEntry(names);
    if RulesFiles(names).Some? {
      SortSorts(RulesFiles(names).value);
      forall x ensures multiset(RulesFiles(names).value)[x] ==
                       if |x| > 6 && x[|x| - 6..] == ".rules" then multiset(names)[Some(x)] else 0
      {
        RulesFilesCounts(names, x);
      }
    }
  }

  lemma {:induction false} RulesFilesCounts(names: seq<Option<string>>, x: string)
    requires RulesFiles(names).Some?
    ensures multiset(RulesFiles(names).value)[x] == if IsRulesFile(x) then multiset(names)[Some(x)] else 0
  {
    if names != [] {
      RulesFilesCounts(names[1..], x);
      assert names == [names[0]] + names[1..];
    }
  }

  /** A reload that succeeds over a directory leaves exactly the rules of its rule
      files, in ascending order of their names, whatever order it lists them in. */
  lemma FullSuccessInNameOrder(h: Host, k: Kernel, names: seq<Option<string>>)
    requires Files(Entries(names)).Some? && ReloadFiles(h, k, Files(Entries(names)).value).0
    ensures exists files ::
              && Sorted(files)
              && (forall x :: multiset(files)[x] == if |x| > 6 && x[|x| - 6..] == ".rules" then multiset(names)[Some(x)] else 0)
              && ReloadFiles(h, k, Files(Entries(names)).value).1.live == RulesOfAll(h, files)
  {
    hide Files, ReloadFiles, RulesOfAll;
    FilesInNameOrder(names);
    FullSuccess(h, k, Files(Entries(names)).value);
  }

  predicate Distinct<T(==)>(s: seq<T>) {
    forall i, j :: 0 <= i < j < |s| ==> s[i] != s[j]
  }

  lemma {:induction false} RulesFilesDistinct(names: seq<Option<string>>)
    requires Distinct(names) && RulesFiles(names).Some?
    ensures Distinct(RulesFiles(names).value)
  {
    if names != [] {
      RulesFilesDistinct(names[1..]);
      RulesFilesMembers(names[1..]);
    }
  }

  /** The order in which the directory lists its names changes nothing. */
  lemma DirectoryOrderIrrelevant(a: seq<Option<string>>, b: seq<Option<string>>)
    requires Distinct(a) && Distinct(b)
    requires forall x :: x in a <==> x in b
    ensures Files(Entries(a)) == Files(Entries(b))
  {
    UnreadableEntry(a);
    UnreadableEntry(b);
    if RulesFiles(a).Some? {
      RulesFilesMembers(a);
      RulesFilesMembers(b);
      RulesFilesDistinct(a);
      RulesFilesDistinct(b);
      SortIgnoresOrder(RulesFiles(a).value, RulesFiles(b).value);
    }
  }

  lemma {:induction false} UnreadableEntry(names: seq<Option<string>>)
    ensures RulesFiles(names).None? <==> None in names
  {
    if names != [] {
      assert names == [names[0]] + names[1..];
      UnreadableEntry(names[1..]);
    }
  }

  // ---------------------------------------------------------------------------
  // When a rule outlives a reload
  // ---------------------------------------------------------------------------

  /** A failing command takes nothing away, and a failing load adds nothing but
      rules of its own file. */
  ghost predicate FailuresAddOwn(h: Host) {
    && AddOnly(h)
    && (forall n, live :: live <= h.leaves(n, FlushAll, live))
    && (forall n, f, live, rule :: rule in h.leaves(n, Load(f), live) ==> rule in live || rule in h.rulesOf(f))
  }

  /** A pass succeeds exactly when each of its commands does. */
  lemma {:induction false} PassSucceeds(h: Host, k: Kernel, files: seq<string>)
    ensures LoadEach(h, k, files).0 <==> forall n: nat :: |k.runs| <= n < |k.runs| + |files| ==> h.succeeds(n)
    decreases |files|
  {
    if files != [] {
      var (ok, k1) := Execute(h, k, Load(files[0]));
      PassSucceeds(h, k1, files[1..]);
      assert ok <==> h.succeeds(|k.runs|);
    }
  }

  /** A pass takes no rule away and brings none but the files' own. */
  lemma {:induction false} PassKeepsForeign(h: Host, k: Kernel, files: seq<string>, rule: string)
    requires FailuresAddOwn(h) && rule !in RulesOfAll(h, files)
    ensures rule in LoadEach(h, k, files).1.live <==> rule in k.live
    decreases |files|
  {
    if files != [] {
      var (ok, k1) := Execute(h, k, Load(files[0]));
      assert rule in k1.live <==> rule in k.live;
      PassKeepsForeign(h, k1, files[1..], rule);
    }
  }

  /** A rule that is live and in none of the files outlives a reload exactly when
      the first pass or the flush fails: when one of the first commands, one for
      each file and the flush, does. */
  lemma OldRuleSurvivesExactly(h: Host, k: Kernel, files: seq<string>, rule: string)
    requires FailuresAddOwn(h)
    requires rule in k.live && rule !in RulesOfAll(h, files)
    ensures rule in ReloadFiles(h, k, files).1.live <==> exists n: nat :: |k.runs| <= n <= |k.runs| + |files| && !h.succeeds(n)
    ensures rule in ReloadFiles(h, k, files).1.live
            <==> !LoadEach(h, k, files).0 || !Execute(h, LoadEach(h, k, files).1, FlushAll).0
  {
    hide LoadEach, RulesOfAll;
    PassSucceeds(h, k, files);
    PassKeepsForeign(h, k, files, rule);
    PassLength(h, k, files);
    var (loaded, k1) := LoadEach(h, k, files);
    if loaded {
      var (flushed, k2) := Execute(h, k1, FlushAll);
      assert flushed <==> h.succeeds(|k.runs| + |files|);
      if flushed { PassKeepsForeign(h, k2, files, rule); }
      if files == [] { NothingToLoad(h, k); }
    }
  }

  lemma PassLength(h: Host, k: Kernel, files: seq<string>)
    ensures LoadEach(h, k, files).0 ==> |LoadEach(h, k, files).1.runs| == |k.runs| + |files|
  {
    hide *;
    var done := LoadEachOutcome(h, k, files);
  }

  lemma NothingToLoad(h: Host, k: Kernel)
    ensures LoadEach(h, k, []) == (true, k)
  {
  }

  /** When the flush itself fails, the reload fails, loads nothing again, and what
      was live or has just been loaded is live. */
  lemma FailedFlush(h: Host, k: Kernel, files: seq<string>)
    requires FailuresAddOwn(h) && files != []
    requires LoadEach(h, k, files).0 && !Execute(h, LoadEach(h, k, files).1, FlushAll).0
    ensures var (ok, k') := ReloadFiles(h, k, files);
            && !ok
            && k.live + RulesOfAll(h, files) <= k'.live
            && k'.runs == k.runs + Loads(files) + [Run(FlushAll, false)]
  {
    hide LoadEach, RulesOfAll, Loads;
    var done := LoadEachOutcome(h, k, files);
  }

  /** For instance: the documentation of `reload_rules` promises that a failing
      load leaves the live rules in place; here the load after the flush fails,
      and the one rule that was live is gone. */
  lemma RulesCanBeLost(h: Host, rule: string, file: string)
    requires FailuresAddOwn(h) && h.succeeds(0) && h.succeeds(1) && !h.succeeds(2)
    requires rule !in h.rulesOf(file)
    ensures var (ok, k') := ReloadFiles(h, Kernel([rule], []), [file]); !ok && rule !in k'.live
  {
    var k := Kernel([rule], []);
    OneFile(h, file);
    OldRuleSurvivesExactly(h, k, [file], rule);
    PassSucceeds(h, k, [file]);
    var done := LoadEachOutcome(h, k, [file]);
    var (_, k2) := Execute(h, LoadEach(h, k, [file]).1, FlushAll);
    PassSucceeds(h, k2, [file]);
  }

  lemma OneFile(h: Host, file: string)
    ensures RulesOfAll(h, [file]) == h.rulesOf(file)
  {
    assert RulesOfAll(h, [file][1..]) == [];
  }
}
