/** Any number of savers writing the document of one directory at once, each in
    steps (temporary file, rename, cleanup on failure), with a failure or the end
    of a process possible between any two of them. A crash here is the end of a
    process: nothing is synchronised to the disk, so what a power failure leaves
    is not part of this model. */
module AtomicSave {
  import opened Wrappers
  import opened StoreNames

  datatype Phase =
    | Named                    // holds a temporary name, has not opened it
    | Writing(count: nat)      // so many characters are written
    | Failing                  // a step failed: the temporary file is to be removed

  datatype Saver = Saver(pid: nat, unique: nat, document: string, phase: Phase)

  datatype Commit = Commit(saver: nat, document: string)

  /** The directory, the savers at work by their identity, each live process's save
      counter, and the successful renames so far. */
  datatype State = State(
    name: string,
    files: map<string, string>,
    savers: map<nat, Saver>,
    counters: map<nat, nat>,
    begun: map<nat, string>,
    commits: seq<Commit>)

  const COUNTER_LIMIT: nat := 0x1_0000_0000_0000_0000

  datatype Event =
    | Begin(id: nat, pid: nat, document: string)
    | Open(id: nat)
    | WriteMore(id: nat, upTo: nat)
    | Rename(id: nat)
    | Fail(id: nat)               // the open, write or rename under way fails
    | Cleanup(id: nat, removed: bool)
    | Exit(pid: nat)              // the process ends, in whatever state its savers are

  function Counter(s: State, pid: nat): nat {
    if pid in s.counters then s.counters[pid] else 0
  }

  function Temp(s: State, saver: Saver): string {
    TempName(s.name, saver.pid, saver.unique)
  }

  /** A process's counter has not wrapped; an identity names one save. */
  predicate Enabled(s: State, e: Event) {
    match e
    case Begin(id, pid, _) => id !in s.begun && Counter(s, pid) < COUNTER_LIMIT
    case Open(id) => id in s.savers && s.savers[id].phase.Named?
    case WriteMore(id, upTo) =>
      id in s.savers && s.savers[id].phase.Writing?
      && s.savers[id].phase.count <= upTo <= |s.savers[id].document|
    case Rename(id) =>
      id in s.savers && s.savers[id].phase == Writing(|s.savers[id].document|) && Temp(s, s.savers[id]) in s.files
    case Fail(id) => id in s.savers && !s.savers[id].phase.Failing?
    case Cleanup(id, _) => id in s.savers && s.savers[id].phase.Failing?
    case Exit(_) => true
  }

  function Step(s: State, e: Event): State
    requires Enabled(s, e)
  {
    match e
    case Begin(id, pid, document) =>
      s.(savers := s.savers[id := Saver(pid, Counter(s, pid), document, Named)],
         counters := s.counters[pid := Counter(s, pid) + 1],
         begun := s.begun[id := document])
    case Open(id) =>
      s.(files := s.files[Temp(s, s.savers[id]) := ""],
         savers := s.savers[id := s.savers[id].(phase := Writing(0))])
    case WriteMore(id, upTo) =>
      s.(files := s.files[Temp(s, s.savers[id]) := s.savers[id].document[..upTo]],
         savers := s.savers[id := s.savers[id].(phase := Writing(upTo))])
    case Rename(id) =>
      var temp := Temp(s, s.savers[id]);
      s.(files := (s.files - {temp})[s.name := s.files[temp]],
         savers := s.savers - {id},
         commits := s.commits + [Commit(id, s.savers[id].document)])
    case Fail(id) =>
      s.(savers := s.savers[id := s.savers[id].(phase := Failing)])
    case Cleanup(id, removed) =>
      s.(files := if removed then s.files - {Temp(s, s.savers[id])} else s.files,
         savers := s.savers - {id})
    case Exit(pid) =>
      s.(savers := map id | id in s.savers && s.savers[id].pid != pid :: s.savers[id],
         counters := s.counters - {pid})
  }

  function Start(name: string, files: map<string, string>): State {
    State(name, files, map[], map[], map[], [])
  }

  /** Every event in turn; one that is not possible then changes nothing. */
  function Replay(s: State, events: seq<Event>): State
    decreases |events|
  {
    if events == [] then s
    else Replay(if Enabled(s, events[0]) then Step(s, events[0]) else s, events[1..])
  }

  function Lookup(files: map<string, string>, name: string): Option<string> {
    if name in files then Some(files[name]) else None
  }

  /** What the document is: the last one renamed into place, or the first. */
  function Expected(initial: Option<string>, commits: seq<Commit>): Option<string> {
    if commits == [] then initial else Some(commits[|commits| - 1].document)
  }

  // ---------------------------------------------------------------------------
  // The invariant
  // ---------------------------------------------------------------------------

  /** No two savers hold the same temporary name: counts are below the process's
      counter and, within a process, given out once. */
  predicate NamesUnique(s: State) {
    && (forall id :: id in s.savers ==> s.savers[id].unique < Counter(s, s.savers[id].pid))
    && (forall a, b :: a in s.savers && b in s.savers && a != b && s.savers[a].pid == s.savers[b].pid ==>
          s.savers[a].unique != s.savers[b].unique)
  }

  /** A saver's temporary file holds what it has written so far. */
  predicate TempHolds(s: State, id: nat)
    requires id in s.savers
  {
    var v := s.savers[id];
    v.phase.Writing? ==>
      && v.phase.count <= |v.document|
      && Lookup(s.files, Temp(s, v)) == Some(v.document[..v.phase.count])
  }

  /** Savers write, and renames have put in place, documents that saves began with. */
  predicate DocumentsBegun(s: State) {
    && (forall id :: id in s.savers ==> id in s.begun && s.begun[id] == s.savers[id].document)
    && (forall i :: 0 <= i < |s.commits| ==>
          s.commits[i].saver in s.begun && s.begun[s.commits[i].saver] == s.commits[i].document)
  }

  predicate Inv(s: State, initial: Option<string>) {
    && NamesUnique(s)
    && (forall id :: id in s.savers ==> TempHolds(s, id))
    && DocumentsBegun(s)
    && Lookup(s.files, s.name) == Expected(initial, s.commits)
  }

  lemma TempsApart(s: State, a: nat, b: nat)
    requires NamesUnique(s) && a in s.savers && b in s.savers && a != b
    ensures Temp(s, s.savers[a]) != Temp(s, s.savers[b])
    ensures Temp(s, s.savers[a]) != s.name
  {
    var u, v := s.savers[a], s.savers[b];
    NamesApart(s.name, u.pid, u.unique, 0, 0);
    if Temp(s, u) == Temp(s, v) { TempInjective(s.name, u.pid, u.unique, v.pid, v.unique); }
  }

  /** The names an event may touch: the saver's own temporary file, and the
      document when it renames. */
  function Touched(s: State, e: Event): set<string>
    requires Enabled(s, e)
  {
    match e
    case Open(id) => {Temp(s, s.savers[id])}
    case WriteMore(id, _) => {Temp(s, s.savers[id])}
    case Rename(id) => {Temp(s, s.savers[id]), s.name}
    case Cleanup(id, _) => {Temp(s, s.savers[id])}
    case _ => {}
  }

  /** Every event leaves every name it does not touch as it was. In particular a
      cleanup never touches the document nor another saver's temporary file. */
  lemma EventTouchesOwn(s: State, e: Event, name: string)
    requires Enabled(s, e) && name !in Touched(s, e)
    ensures Lookup(Step(s, e).files, name) == Lookup(s.files, name)
  {
  }

  lemma CleanupSparesOthers(s: State, id: nat, removed: bool, other: nat)
    requires NamesUnique(s) && Enabled(s, Cleanup(id, removed))
    requires other in s.savers && other != id
    ensures s.name !in Touched(s, Cleanup(id, removed))
    ensures Temp(s, s.savers[other]) !in Touched(s, Cleanup(id, removed))
  {
    TempsApart(s, id, other);
  }

  lemma NamesStayUnique(s: State, e: Event)
    requires NamesUnique(s) && Enabled(s, e)
    ensures NamesUnique(Step(s, e))
  {
    hide Temp, TempName;
    match e {
      case Begin(id, pid, document) =>
      case Exit(pid) =>
      case _ =>
    }
  }

  lemma TempsStay(s: State, initial: Option<string>, e: Event, id: nat)
    requires Inv(s, initial) && Enabled(s, e) && id in Step(s, e).savers
    ensures TempHolds(Step(s, e), id)
  {
    hide NamesUnique, TempName, Counter;
    var s' := Step(s, e);
    if id in s.savers && s'.savers[id] == s.savers[id] {
      assert TempHolds(s, id);
      match e {
        case Open(o) => TempsApart(s, id, o);
        case WriteMore(o, _) => if o != id { TempsApart(s, id, o); }
        case Rename(o) => TempsApart(s, id, o);
        case Cleanup(o, _) => TempsApart(s, id, o);
        case _ =>
      }
    }
  }

  lemma StepKeepsInv(s: State, initial: Option<string>, e: Event)
    requires Inv(s, initial) && Enabled(s, e)
    ensures Inv(Step(s, e), initial)
  {
    hide NamesUnique, TempHolds, DocumentsBegun, Step, Enabled, Lookup, Expected;
    var s' := Step(s, e);
    NamesStayUnique(s, e);
    forall id | id in s'.savers ensures TempHolds(s', id) { TempsStay(s, initial, e, id); }
    DocumentsStayBegun(s, e);
    DocumentIsExpected(s, initial, e);
  }

  lemma DocumentsStayBegun(s: State, e: Event)
    requires DocumentsBegun(s) && Enabled(s, e)
    ensures DocumentsBegun(Step(s, e))
  {
    hide Temp, Counter;
  }

  lemma DocumentIsExpected(s: State, initial: Option<string>, e: Event)
    requires Inv(s, initial) && Enabled(s, e)
    ensures Lookup(Step(s, e).files, Step(s, e).name) == Expected(initial, Step(s, e).commits)
  {
    hide NamesUnique, TempName, Counter, TempHolds, DocumentsBegun;
    match e {
      case Rename(id) => RenameCommits(s, initial, id);
      case Open(id) => TempIsNotTarget(s, id);
      case WriteMore(id, _) => TempIsNotTarget(s, id);
      case Cleanup(id, _) => TempIsNotTarget(s, id);
      case _ =>
    }
  }

  lemma TempIsNotTarget(s: State, id: nat)
    requires id in s.savers
    ensures Temp(s, s.savers[id]) != s.name
  {
    NamesApart(s.name, s.savers[id].pid, s.savers[id].unique, 0, 0);
  }

  lemma RenameCommits(s: State, initial: Option<string>, id: nat)
    requires Inv(s, initial) && Enabled(s, Rename(id))
    ensures Lookup(Step(s, Rename(id)).files, s.name) == Some(s.savers[id].document)
  {
    hide NamesUnique, TempName;
    assert TempHolds(s, id);
    var v := s.savers[id];
    assert v.document[..|v.document|] == v.document;
  }

  lemma {:induction false} ReplayKeepsInv(s: State, initial: Option<string>, events: seq<Event>)
    requires Inv(s, initial)
    ensures Inv(Replay(s, events), initial)
    decreases |events|
  {
    hide Inv, Step;
    if events != [] {
      if Enabled(s, events[0]) { StepKeepsInv(s, initial, events[0]); }
      ReplayKeepsInv(if Enabled(s, events[0]) then Step(s, events[0]) else s, initial, events[1..]);
    }
  }

  lemma {:induction false} BegunFromEvents(s: State, events: seq<Event>, id: nat)
    requires id in Replay(s, events).begun && id !in s.begun
    ensures exists pid :: Begin(id, pid, Replay(s, events).begun[id]) in events
    decreases |events|
  {
    var s1 := if Enabled(s, events[0]) then Step(s, events[0]) else s;
    if id in s1.begun {
      assert events[0].Begin? && events[0].id == id;
      BegunStays(s1, events[1..], id);
      assert Begin(id, events[0].pid, s1.begun[id]) in events;
    } else {
      BegunFromEvents(s1, events[1..], id);
      var pid :| Begin(id, pid, Replay(s, events).begun[id]) in events[1..];
      assert Begin(id, pid, Replay(s, events).begun[id]) in events;
    }
  }

  lemma {:induction false} BegunStays(s: State, events: seq<Event>, id: nat)
    requires id in s.begun
    ensures id in Replay(s, events).begun && Replay(s, events).begun[id] == s.begun[id]
    decreases |events|
  {
    if events != [] {
      BegunStays(if Enabled(s, events[0]) then Step(s, events[0]) else s, events[1..], id);
    }
  }

  /** In every interleaving the document is the initial one, or the complete
      document of the saver whose rename was the last to succeed. */
  lemma DocumentAlwaysWhole(name: string, files: map<string, string>, events: seq<Event>)
    ensures var s := Replay(Start(name, files), events);
            if s.commits == [] then Lookup(s.files, name) == Lookup(files, name)
            else
              var last := s.commits[|s.commits| - 1];
              && Lookup(s.files, name) == Some(last.document)
              && exists pid :: Begin(last.saver, pid, last.document) in events
  {
    hide Step;
    var s0 := Start(name, files);
    ReplayKeepsInv(s0, Lookup(files, name), events);
    var s := Replay(s0, events);
    NameStays(s0, events);
    if s.commits != [] {
      BegunFromEvents(s0, events, s.commits[|s.commits| - 1].saver);
    }
  }

  /** A save that nothing stops goes through: from any state its four steps are
      possible one after another, the document is then its own, and of all other
      names only its temporary file's is touched, which is gone. */
  lemma SaveCompletes(s: State, id: nat, pid: nat, document: string, name: string)
    requires id !in s.begun && Counter(s, pid) < COUNTER_LIMIT
    ensures var s' := Replay(s, [Begin(id, pid, document), Open(id), WriteMore(id, |document|)] + [Rename(id)]);
            var temp := TempName(s.name, pid, Counter(s, pid));
            && s'.commits == s.commits + [Commit(id, document)]
            && Lookup(s'.files, s.name) == Some(document)
            && temp !in s'.files
            && (name != s.name && name != temp ==> Lookup(s'.files, name) == Lookup(s.files, name))
  {
    hide TempName, Touched, Replay;
    NamesApart(s.name, pid, Counter(s, pid), 0, 0);
    assert document[..|document|] == document;
    var s1 := Step(s, Begin(id, pid, document));
    var s2 := Step(s1, Open(id));
    var s3 := Step(s2, WriteMore(id, |document|));
    ReplayThree(s, Begin(id, pid, document), Open(id), WriteMore(id, |document|), [Rename(id)]);
    ReplayOne(s3, Rename(id), []);
  }

  /** One that fails after writing some of its document and cleans up leaves every
      name but its temporary file's as it was, and that file gone. */
  lemma FailedSaveCleans(s: State, id: nat, pid: nat, document: string, upTo: nat, name: string)
    requires id !in s.begun && Counter(s, pid) < COUNTER_LIMIT && upTo <= |document|
    ensures var s' := Replay(s, [Begin(id, pid, document), Open(id), WriteMore(id, upTo)] + [Fail(id), Cleanup(id, true)]);
            var temp := TempName(s.name, pid, Counter(s, pid));
            && s'.commits == s.commits && id !in s'.savers
            && temp !in s'.files
            && (name != temp ==> Lookup(s'.files, name) == Lookup(s.files, name))
  {
    hide TempName, Touched, Replay;
    var s1 := Step(s, Begin(id, pid, document));
    var s2 := Step(s1, Open(id));
    var s3 := Step(s2, WriteMore(id, upTo));
    var s4 := Step(s3, Fail(id));
    ReplayThree(s, Begin(id, pid, document), Open(id), WriteMore(id, upTo), [Fail(id), Cleanup(id, true)]);
    assert [Fail(id), Cleanup(id, true)] == [Fail(id)] + [Cleanup(id, true)];
    ReplayOne(s3, Fail(id), [Cleanup(id, true)]);
    ReplayOne(s4, Cleanup(id, true), []);
  }

  lemma ReplayOne(s: State, e: Event, rest: seq<Event>)
    requires Enabled(s, e)
    ensures Replay(s, [e] + rest) == Replay(Step(s, e), rest)
    ensures rest == [] ==> Replay(s, [e]) == Step(s, e)
  {
    hide Step, Enabled;
    assert ([e] + rest)[1..] == rest;
    assert [e] + [] == [e];
  }

  lemma ReplayThree(s: State, a: Event, b: Event, c: Event, rest: seq<Event>)
    requires Enabled(s, a) && Enabled(Step(s, a), b) && Enabled(Step(Step(s, a), b), c)
    ensures Replay(s, [a, b, c] + rest) == Replay(Step(Step(Step(s, a), b), c), rest)
  {
    hide *;
    ReplayOne(s, a, [b, c] + rest);
    ReplayOne(Step(s, a), b, [c] + rest);
    ReplayOne(Step(Step(s, a), b), c, rest);
    assert [a, b, c] + rest == [a] + ([b, c] + rest);
    assert [b, c] + rest == [b] + ([c] + rest);
  }

  lemma {:induction false} NameStays(s: State, events: seq<Event>)
    ensures Replay(s, events).name == s.name
    decreases |events|
  {
    if events != [] {
      NameStays(if Enabled(s, events[0]) then Step(s, events[0]) else s, events[1..]);
    }
  }
}
