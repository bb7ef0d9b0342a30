/** The record store over one manifest document: loading with its schema gate,
    quarantine of what cannot be interpreted, and saving. */
module JsonStore {
  import opened Wrappers
  import opened StoreNames

  const SCHEMA_VERSION: nat := 1

  /** A file as reading it answers: bytes that are no text, text that is no
      versioned document, or a versioned document whose body may be malformed. */
  datatype Content<+L> =
    | NotText(bytes: seq<bv8>)
    | NoDocument(text: string)
    | Document(version: nat, apps: Option<L>)

  datatype ManifestError = Io | Corrupt

  /** What loading makes of a readable file. A version other than the supported
      one is refused before the body is looked at. */
  function Interpret<L>(c: Content<L>): Result<L, ManifestError> {
    match c
    case NotText(_) => Failure(Io)
    case NoDocument(_) => Failure(Corrupt)
    case Document(version, apps) =>
      if version != SCHEMA_VERSION then Failure(Corrupt)
      else match apps
        case None => Failure(Corrupt)
        case Some(ledger) => Success(ledger)
  }

  /** Text that is not a well-formed document of the supported version. */
  predicate IsCorrupt<L>(c: Content<L>) {
    !c.NotText? && !(c.Document? && c.version == SCHEMA_VERSION && c.apps.Some?)
  }

  /** The steps of a save that can fail, with what a failing write leaves behind
      and whether the cleanup then succeeds. */
  datatype SaveFault<+L> =
    | NoFault
    | DirectoryFails
    | WriteFails(partial: Option<Content<L>>, cleaned: bool)
    | RenameFails(cleaned: bool)

  datatype LoadFault = ReadsFine | ReadFails | QuarantineFails

  datatype StoreLoad<+L> = StoreLoad(ledger: L, quarantined: Option<string>)

  /** The directory the document lives in and this process's two counters. */
  datatype Store<+L> = Store(name: string, pid: nat, files: map<string, Content<L>>, saves: nat, quarantines: nat)

  function Temp<L>(s: Store<L>): string {
    TempName(s.name, s.pid, s.saves)
  }

  function Quarantine<L>(s: Store<L>): string {
    QuarantineName(s.name, s.pid, s.quarantines)
  }

  function Without<L>(files: map<string, Content<L>>, name: string, really: bool): map<string, Content<L>> {
    if really then files - {name} else files
  }

  function Saved<L>(s: Store<L>, ledger: L, fault: SaveFault<L>): (Result<(), ManifestError>, Store<L>) {
    var bumped := s.(saves := s.saves + 1);
    var document := Document(SCHEMA_VERSION, Some(ledger));
    match fault
    case DirectoryFails => (Failure(Io), s)
    case WriteFails(partial, cleaned) =>
      var files := if partial.Some? then s.files[Temp(s) := partial.value] else s.files;
      (Failure(Io), bumped.(files := Without(files, Temp(s), cleaned)))
    case RenameFails(cleaned) =>
      (Failure(Io), bumped.(files := Without(s.files[Temp(s) := document], Temp(s), cleaned)))
    case NoFault =>
      (Success(()), bumped.(files := (s.files - {Temp(s)})[s.name := document]))
  }

  function Loaded<L>(s: Store<L>, empty: L, fault: LoadFault): (Result<StoreLoad<L>, ManifestError>, Store<L>) {
    if s.name !in s.files then
      (if fault.ReadFails? then Failure(Io) else Success(StoreLoad(empty, None)), s)
    else if fault.ReadFails? then (Failure(Io), s)
    else match Interpret(s.files[s.name])
      case Success(ledger) => (Success(StoreLoad(ledger, None)), s)
      case Failure(Io) => (Failure(Io), s)
      case Failure(Corrupt) =>
        var bumped := s.(quarantines := s.quarantines + 1);
        if fault.QuarantineFails? then (Failure(Corrupt), bumped)
        else
          (Success(StoreLoad(empty, Some(Quarantine(s)))),
           bumped.(files := (s.files - {s.name})[Quarantine(s) := s.files[s.name]]))
  }

  class JsonRecordStore<L(!new)> {
    const name: string
    const pid: nat
    const empty: L
    var files: map<string, Content<L>>
    var saves: nat
    var quarantines: nat

    constructor (name: string, pid: nat, empty: L, files: map<string, Content<L>>)
      ensures State() == Store(name, pid, files, 0, 0) && this.empty == empty
    {
      this.name, this.pid, this.empty := name, pid, empty;
      this.files, saves, quarantines := files, 0, 0;
    }

    function State(): Store<L>
      reads this
    {
      Store(name, pid, files, saves, quarantines)
    }

    method TempPath() returns (temp: string)
      modifies this`saves
      ensures temp == old(Temp(State())) && saves == old(saves) + 1
    {
      temp := TempName(name, pid, saves);
      saves := saves + 1;
    }

    method QuarantinePath() returns (path: string)
      modifies this`quarantines
      ensures path == old(Quarantine(State())) && quarantines == old(quarantines) + 1
    {
      path := QuarantineName(name, pid, quarantines);
      quarantines := quarantines + 1;
    }

    /** Save in steps: directory, temporary file, rename, cleanup on failure. */
    method Save(ledger: L, fault: SaveFault<L>) returns (r: Result<(), ManifestError>)
      modifies this
      ensures (r, State()) == Saved(old(State()), ledger, fault)
    {
      NamesApart(name, pid, saves, 0, 0);
      if fault.DirectoryFails? { return Failure(Io); }
      var temp := TempPath();
      if fault.WriteFails? {
        if fault.partial.Some? { files := files[temp := fault.partial.value]; }
        if fault.cleaned { files := files - {temp}; }
        return Failure(Io);
      }
      files := files[temp := Document(SCHEMA_VERSION, Some(ledger))];
      if fault.RenameFails? {
        if fault.cleaned { files := files - {temp}; }
        return Failure(Io);
      }
      files := (files - {temp})[name := files[temp]];
      assert files == (old(files) - {temp})[name := Document(SCHEMA_VERSION, Some(ledger))];
      return Success(());
    }

    method Load(fault: LoadFault) returns (r: Result<StoreLoad<L>, ManifestError>)
      modifies this
      ensures (r, State()) == Loaded(old(State()), empty, fault)
    {
      if fault.ReadFails? { return Failure(Io); }
      if name !in files { return Success(StoreLoad(empty, None)); }
      match Interpret(files[name]) {
        case Success(ledger) => return Success(StoreLoad(ledger, None));
        case Failure(Io) => return Failure(Io);
        case Failure(Corrupt) =>
          var quarantined := QuarantinePath();
          if fault.QuarantineFails? { return Failure(Corrupt); }
          files := (files - {name})[quarantined := files[name]];
          return Success(StoreLoad(empty, Some(quarantined)));
      }
    }
  }

  // ---------------------------------------------------------------------------
  // One operation
  // ---------------------------------------------------------------------------

  /** A save that succeeds loads back, from whatever the document was before; one
      that fails leaves every name but its own temporary one alone, and so the
      answer of the next load. */
  lemma SaveThenLoad<L>(s: Store<L>, ledger: L, fault: SaveFault<L>, empty: L)
    ensures var (r, s') := Saved(s, ledger, fault);
            if r.Success? then Loaded(s', empty, ReadsFine) == (Success(StoreLoad(ledger, None)), s')
            else forall n :: n != Temp(s) ==> (n in s'.files <==> n in s.files)
                                              && (n in s.files ==> s'.files[n] == s.files[n])
    ensures var (r, s') := Saved(s, ledger, fault);
            r.Failure? ==> Loaded(s', empty, ReadsFine).0 == Loaded(s, empty, ReadsFine).0
    ensures var (r, s') := Saved(s, ledger, fault);
            r.Success? <==> fault.NoFault?
    ensures var s' := Saved(s, ledger, fault).1;
            && (forall n :: n != Temp(s) && n != s.name ==> (n in s'.files <==> n in s.files)
                                                            && (n in s.files ==> s'.files[n] == s.files[n]))
            && (fault.NoFault? || (fault.WriteFails? && fault.cleaned) || (fault.RenameFails? && fault.cleaned) ==>
                  Temp(s) !in s'.files)
            && s'.saves == (if fault.DirectoryFails? then s.saves else s.saves + 1)
  {
    NamesApart(s.name, s.pid, s.saves, 0, 0);
  }

  /** A document is set aside exactly when it is text that is no well-formed
      document of the supported version, it can be read and the rename works; its
      bytes then stand at the quarantine name. */
  lemma QuarantineKeepsBytes<L>(s: Store<L>, empty: L, fault: LoadFault)
    requires s.name in s.files
    ensures var (r, s') := Loaded(s, empty, fault);
            (r.Success? && r.value.quarantined.Some?) <==> (IsCorrupt(s.files[s.name]) && fault.ReadsFine?)
    ensures var (r, s') := Loaded(s, empty, fault);
            if r.Success? && r.value.quarantined.Some? then
              && r.value == StoreLoad(empty, Some(Quarantine(s)))
              && s.name !in s'.files
              && Quarantine(s) in s'.files && s'.files[Quarantine(s)] == s.files[s.name]
            else s'.files == s.files
  {
    NamesApart(s.name, s.pid, 0, 0, 0);
    NamesApart(s.name, s.pid, s.quarantines, 0, 0);
  }

  /** A store without a document is an empty one. */
  lemma MissingIsEmpty<L>(s: Store<L>, empty: L)
    requires s.name !in s.files
    ensures Loaded(s, empty, ReadsFine) == (Success(StoreLoad(empty, None)), s)
  {
  }

  // ---------------------------------------------------------------------------
  // Runs
  // ---------------------------------------------------------------------------

  datatype Op<+L> =
    | Write(content: Content<L>)       // someone overwrites the document
    | Load(loadFault: LoadFault)
    | Save(ledger: L, saveFault: SaveFault<L>)

  function Step<L>(s: Store<L>, empty: L, op: Op<L>): Store<L> {
    match op
    case Write(content) => s.(files := s.files[s.name := content])
    case Load(fault) => Loaded(s, empty, fault).1
    case Save(ledger, fault) => Saved(s, ledger, fault).1
  }

  /** The operation is a load that judges the document corrupt. */
  predicate Judges<L>(s: Store<L>, op: Op<L>) {
    op.Load? && !op.loadFault.ReadFails? && s.name in s.files && IsCorrupt(s.files[s.name])
  }

  function Replay<L>(s: Store<L>, empty: L, ops: seq<Op<L>>): Store<L>
    decreases |ops|
  {
    if ops == [] then s else Replay(Step(s, empty, ops[0]), empty, ops[1..])
  }

  lemma {:induction false} ReplayInParts<L>(s: Store<L>, empty: L, ops: seq<Op<L>>, i: nat)
    requires i <= |ops|
    ensures Replay(s, empty, ops) == Replay(Replay(s, empty, ops[..i]), empty, ops[i..])
    decreases i
  {
    hide Step;
    if i == 0 {
      assert ops[0..] == ops;
    } else {
      ReplayInParts(Step(s, empty, ops[0]), empty, ops[1..], i - 1);
      assert ops[..i][1..] == ops[1..][..i - 1] && ops[1..][i - 1..] == ops[i..];
    }
  }

  /** No quarantine name still to be given out is taken. */
  ghost predicate NamesFree<L>(s: Store<L>) {
    forall k: nat :: k >= s.quarantines ==> QuarantineName(s.name, s.pid, k) !in s.files
  }

  /** An already given-out quarantine name holds these bytes. */
  ghost predicate Holds<L>(s: Store<L>, k: nat, content: Content<L>) {
    var n := QuarantineName(s.name, s.pid, k);
    k < s.quarantines && n in s.files && s.files[n] == content
  }

  lemma StepKeepsFree<L>(s: Store<L>, empty: L, op: Op<L>)
    requires NamesFree(s)
    ensures NamesFree(Step(s, empty, op))
  {
    hide QuarantineName, TempName, IsCorrupt;
    var s' := Step(s, empty, op);
    forall k: nat | k >= s'.quarantines ensures QuarantineName(s.name, s.pid, k) !in s'.files {
      NamesApart(s.name, s.pid, s.saves, s.pid, k);
      NamesApart(s.name, s.pid, k, 0, 0);
      if QuarantineName(s.name, s.pid, k) == Quarantine(s) {
        QuarantineInjective(s.name, s.pid, k, s.pid, s.quarantines);
      }
    }
  }

  lemma StepKeepsHeld<L>(s: Store<L>, empty: L, op: Op<L>, k: nat, content: Content<L>)
    requires Holds(s, k, content)
    ensures Holds(Step(s, empty, op), k, content)
  {
    hide QuarantineName, TempName, IsCorrupt;
    NamesApart(s.name, s.pid, s.saves, s.pid, k);
    NamesApart(s.name, s.pid, k, 0, 0);
    if QuarantineName(s.name, s.pid, k) == Quarantine(s) {
      QuarantineInjective(s.name, s.pid, k, s.pid, s.quarantines);
    }
  }

  lemma {:induction false} HeldForever<L>(s: Store<L>, empty: L, ops: seq<Op<L>>, k: nat, content: Content<L>)
    requires Holds(s, k, content)
    ensures Holds(Replay(s, empty, ops), k, content)
    ensures Replay(s, empty, ops).name == s.name && Replay(s, empty, ops).pid == s.pid
    decreases |ops|
  {
    hide Holds;
    if ops != [] {
      StepKeepsHeld(s, empty, ops[0], k, content);
      HeldForever(Step(s, empty, ops[0]), empty, ops[1..], k, content);
    }
  }

  lemma {:induction false} FreeForever<L>(s: Store<L>, empty: L, ops: seq<Op<L>>)
    requires NamesFree(s)
    ensures NamesFree(Replay(s, empty, ops))
    decreases |ops|
  {
    hide NamesFree, Step;
    if ops != [] {
      StepKeepsFree(s, empty, ops[0]);
      FreeForever(Step(s, empty, ops[0]), empty, ops[1..]);
    }
  }

  // ---------------------------------------------------------------------------
  // What becomes of a corrupt document
  // ---------------------------------------------------------------------------

  /** Bytes that stand at the document's name are there no longer after a load
      free of faults, a completed save, or other bytes written over them. */
  ghost predicate Decides<L>(op: Op<L>, content: Content<L>) {
    match op
    case Write(written) => written != content
    case Load(fault) => fault.ReadsFine?
    case Save(_, fault) => fault.NoFault?
  }

  /** The first operation that decides is a load, or none does. */
  ghost predicate Spares<L>(ops: seq<Op<L>>, content: Content<L>)
    decreases |ops|
  {
    if ops == [] then true
    else if Decides(ops[0], content) then ops[0].Load?
    else Spares(ops[1..], content)
  }

  ghost predicate StandsAt<L>(s: Store<L>, n: string, content: Content<L>) {
    n in s.files && s.files[n] == content
  }

  /** The bytes stand at the document's name or at a given-out quarantine name. */
  ghost predicate Kept<L>(s: Store<L>, content: Content<L>) {
    StandsAt(s, s.name, content) || exists k: nat :: Holds(s, k, content)
  }

  lemma FineLoadHolds<L>(s: Store<L>, empty: L, content: Content<L>)
    requires StandsAt(s, s.name, content) && IsCorrupt(content)
    ensures Holds(Step(s, empty, Load(ReadsFine)), s.quarantines, content)
  {
    hide QuarantineName;
    QuarantineKeepsBytes(s, empty, ReadsFine);
  }

  lemma UndecidedStays<L>(s: Store<L>, empty: L, op: Op<L>, content: Content<L>)
    requires StandsAt(s, s.name, content) && !Decides(op, content)
    ensures Step(s, empty, op).name == s.name && StandsAt(Step(s, empty, op), s.name, content)
  {
    hide QuarantineName, TempName, IsCorrupt;
    NamesApart(s.name, s.pid, s.saves, 0, 0);
  }

  lemma {:induction false} SparedIsKept<L>(s: Store<L>, empty: L, ops: seq<Op<L>>, content: Content<L>)
    requires StandsAt(s, s.name, content) && IsCorrupt(content) && Spares(ops, content)
    ensures Kept(Replay(s, empty, ops), content)
    decreases |ops|
  {
    hide Step, Holds, StandsAt, IsCorrupt;
    if ops != [] {
      var s1 := Step(s, empty, ops[0]);
      if Decides(ops[0], content) {
        FineLoadHolds(s, empty, content);
        HeldForever(s1, empty, ops[1..], s.quarantines, content);
      } else {
        UndecidedStays(s, empty, ops[0], content);
        SparedIsKept(s1, empty, ops[1..], content);
      }
    }
  }

  /** In every run, every document a load judges corrupt is still there byte for
      byte at the end: at its quarantine name when it was moved; and when the move
      failed, at its own name or a quarantine name, provided the first of the
      operations to come that loads without a fault, completes a save or writes
      other bytes is the load, or there is none. No move lands on a file that is
      there, when no name to be given out was taken at the start. */
  lemma JudgedIsKept<L>(s: Store<L>, empty: L, ops: seq<Op<L>>, i: nat)
    requires i < |ops| && Judges(Replay(s, empty, ops[..i]), ops[i])
    ensures var found, end := Replay(s, empty, ops[..i]), Replay(s, empty, ops);
            var content := found.files[found.name];
            if ops[i].loadFault.ReadsFine? then StandsAt(end, Quarantine(found), content)
            else Spares(ops[i + 1..], content) ==> Kept(end, content)
    ensures NamesFree(s) ==> Quarantine(Replay(s, empty, ops[..i])) !in Replay(s, empty, ops[..i]).files
  {
    hide Step, Spares, Kept, QuarantineName, IsCorrupt, NamesFree;
    var found := Replay(s, empty, ops[..i]);
    var content := found.files[found.name];
    ReplayInParts(s, empty, ops, i);
    assert ops[i..][0] == ops[i] && ops[i..][1..] == ops[i + 1..];
    var next := Step(found, empty, ops[i]);
    if ops[i].loadFault.ReadsFine? {
      FineLoadHolds(found, empty, content);
      HeldForever(next, empty, ops[i + 1..], found.quarantines, content);
      HeldName(found, empty, ops[i], next);
    } else {
      UndecidedStays(found, empty, ops[i], content);
      if Spares(ops[i + 1..], content) { SparedIsKept(next, empty, ops[i + 1..], content); }
    }
    if NamesFree(s) {
      FreeForever(s, empty, ops[..i]);
      NextIsFree(found);
    }
  }

  lemma NextIsFree<L>(s: Store<L>)
    requires NamesFree(s)
    ensures Quarantine(s) !in s.files
  {
  }

  lemma HeldName<L>(s: Store<L>, empty: L, op: Op<L>, s': Store<L>)
    requires s' == Step(s, empty, op)
    ensures s'.name == s.name && s'.pid == s.pid
  {
  }

  /** The operation itself puts these bytes down: as the document, or as the
      unfinished file a failing save leaves. */
  ghost predicate Supplies<L>(op: Op<L>, content: Content<L>) {
    || op == Write(content)
    || (op.Save? && op.saveFault.WriteFails? && op.saveFault.partial == Some(content))
  }

  ghost predicate Nowhere<L>(s: Store<L>, content: Content<L>) {
    forall n :: n in s.files ==> s.files[n] != content
  }

  /** No other file holds these bytes. */
  ghost predicate Sole<L>(s: Store<L>, content: Content<L>) {
    forall n :: n in s.files && s.files[n] == content ==> n == s.name
  }

  lemma {:induction false} NowhereForever<L>(s: Store<L>, empty: L, ops: seq<Op<L>>, content: Content<L>)
    requires Nowhere(s, content) && IsCorrupt(content)
    requires forall op :: op in ops ==> !Supplies(op, content)
    ensures Nowhere(Replay(s, empty, ops), content)
    decreases |ops|
  {
    hide QuarantineName, TempName;
    if ops != [] {
      assert ops[0] in ops;
      NowhereForever(Step(s, empty, ops[0]), empty, ops[1..], content);
    }
  }

  lemma ReplacedIsNowhere<L>(s: Store<L>, empty: L, op: Op<L>, content: Content<L>)
    requires Sole(s, content) && IsCorrupt(content) && !Supplies(op, content)
    ensures Decides(op, content) && !op.Load? ==> Nowhere(Step(s, empty, op), content)
    ensures !Decides(op, content) ==> Sole(Step(s, empty, op), content) && Step(s, empty, op).name == s.name
  {
    hide QuarantineName, TempName;
  }

  lemma {:induction false} ReplacedIsLost<L>(s: Store<L>, empty: L, ops: seq<Op<L>>, content: Content<L>)
    requires Sole(s, content) && IsCorrupt(content) && !Spares(ops, content)
    requires forall op :: op in ops ==> !Supplies(op, content)
    ensures Nowhere(Replay(s, empty, ops), content)
    decreases |ops|
  {
    hide Step, Sole, Nowhere, IsCorrupt, Supplies;
    assert ops[0] in ops;
    ReplacedIsNowhere(s, empty, ops[0], content);
    var s1 := Step(s, empty, ops[0]);
    if Decides(ops[0], content) {
      NowhereForever(s1, empty, ops[1..], content);
    } else {
      ReplacedIsLost(s1, empty, ops[1..], content);
    }
  }

  /** When the move failed, no other file held the bytes and no later operation
      puts them down again: they are found under any name at the end exactly when
      the first operation that decides is a load, or none does. */
  lemma UnmovedSurvivesExactly<L(!new)>(s: Store<L>, empty: L, ops: seq<Op<L>>, i: nat)
    requires i < |ops| && Judges(Replay(s, empty, ops[..i]), ops[i]) && ops[i].loadFault.QuarantineFails?
    requires var found := Replay(s, empty, ops[..i]);
             && Sole(found, found.files[found.name])
             && forall op :: op in ops[i + 1..] ==> !Supplies(op, found.files[found.name])
    ensures var found := Replay(s, empty, ops[..i]);
            !Nowhere(Replay(s, empty, ops), found.files[found.name]) <==> Spares(ops[i + 1..], found.files[found.name])
  {
    hide Step, Spares, IsCorrupt, Supplies;
    var found := Replay(s, empty, ops[..i]);
    var content := found.files[found.name];
    ReplayInParts(s, empty, ops, i);
    assert ops[i..][0] == ops[i] && ops[i..][1..] == ops[i + 1..];
    var next := Step(found, empty, ops[i]);
    UndecidedStays(found, empty, ops[i], content);
    FailedMoveKeepsFiles(found, empty, ops[i], next);
    if Spares(ops[i + 1..], content) {
      SparedIsKept(next, empty, ops[i + 1..], content);
    } else {
      ReplacedIsLost(next, empty, ops[i + 1..], content);
    }
  }

  /** For instance: a failed move, and then a save. */
  lemma UnmovedIsLostToSave<L(!new)>(s: Store<L>, empty: L, ledger: L)
    requires s.files.Keys == {s.name} && IsCorrupt(s.files[s.name])
    ensures Nowhere(Replay(s, empty, [Load(QuarantineFails), Save(ledger, NoFault)]), s.files[s.name])
  {
    var ops, content := [Load(QuarantineFails), Save(ledger, NoFault)], s.files[s.name];
    assert ops[..0] == [] && ops[1..] == [Save(ledger, NoFault)];
    UnmovedSurvivesExactly(s, empty, ops, 0);
    assert Decides(ops[1..][0], content);
  }

  lemma FailedMoveKeepsFiles<L>(s: Store<L>, empty: L, op: Op<L>, s': Store<L>)
    requires Judges(s, op) && op.loadFault.QuarantineFails? && s' == Step(s, empty, op)
    ensures s'.name == s.name && s'.files == s.files
  {
  }

  // ---------------------------------------------------------------------------
  // Documents that are no text
  // ---------------------------------------------------------------------------

  predicate NotTextThere<L>(s: Store<L>) {
    s.name in s.files && s.files[s.name].NotText?
  }

  predicate Replaces<L>(op: Op<L>) {
    op.Write? || (op.Save? && op.saveFault.NoFault?)
  }

  /** The last write or completed save, if there is one, wrote no text; without
      one, the document was no text before. */
  predicate NoTextLeft<L>(before: bool, ops: seq<Op<L>>)
    decreases |ops|
  {
    if ops == [] then before
    else NoTextLeft(if Replaces(ops[0]) then ops[0].Write? && ops[0].content.NotText? else before, ops[1..])
  }

  lemma NotTextStep<L>(s: Store<L>, empty: L, op: Op<L>)
    ensures NotTextThere(Step(s, empty, op))
            <==> if Replaces(op) then op.Write? && op.content.NotText? else NotTextThere(s)
    ensures Step(s, empty, op).name == s.name
    ensures NotTextThere(s) && !Replaces(op) ==> StandsAt(Step(s, empty, op), s.name, s.files[s.name])
  {
    hide QuarantineName, TempName;
    NamesApart(s.name, s.pid, s.saves, 0, 0);
    NamesApart(s.name, s.pid, s.quarantines, 0, 0);
  }

  /** In every run a load that can read the file ends in an I/O error exactly while
      the last bytes written or saved are no text, and moves nothing then: loads
      never get rid of such bytes, which stand until something replaces them. */
  lemma {:induction false} NotTextUntilReplaced<L>(s: Store<L>, empty: L, ops: seq<Op<L>>, fault: LoadFault)
    ensures var end := Replay(s, empty, ops);
            && (fault != ReadFails ==> (Loaded(end, empty, fault).0 == Failure(Io) <==> NoTextLeft(NotTextThere(s), ops)))
            && (NoTextLeft(NotTextThere(s), ops) ==> Loaded(end, empty, fault) == (Failure(Io), end))
            && (NotTextThere(s) && (forall op :: op in ops ==> !Replaces(op)) ==> StandsAt(end, s.name, s.files[s.name]))
    decreases |ops|
  {
    hide Step, Replaces, QuarantineName;
    if ops != [] {
      NotTextStep(s, empty, ops[0]);
      assert ops[0] in ops;
      NotTextUntilReplaced(Step(s, empty, ops[0]), empty, ops[1..], fault);
    }
  }
}
