/** Backups beside a file, named by the epoch second they were taken, and the
    restore that picks one of them by the order of their names. */
module Backup {
  import opened Wrappers
  import opened Decimal
  import opened StringOrder

  /** The names in one directory, and what each file holds. */
  type Files = map<string, string>

  function Prefix(file: string): string {
    file + ".bak."
  }

  function BackupName(file: string, now: nat): string {
    Prefix(file) + Print(now)
  }

  predicate IsBackup(file: string, name: string) {
    Prefix(file) <= name
  }

  function Backups(files: Files, file: string): set<string> {
    set name | name in files && IsBackup(file, name)
  }

  // ---------------------------------------------------------------------------
  // The three operations
  // ---------------------------------------------------------------------------

  /** A copy of the file as it stands; a missing file leaves no copy. */
  function Created(files: Files, file: string, now: nat): Files {
    if file in files then files[BackupName(file, now) := files[file]] else files
  }

  /** The backup names from first to last in name order. */
  function Listed(files: Files, file: string): seq<string> {
    InOrder(Backups(files, file))
  }

  /** The file as the last backup in name order holds it. */
  function Restored(files: Files, file: string): Files {
    var backups := Listed(files, file);
    if backups == [] then files
    else
      assert backups[|backups| - 1] in backups;
      files[file := files[backups[|backups| - 1]]]
  }

  class Directory {
    var files: Files

    constructor (files: Files)
      ensures this.files == files
    {
      this.files := files;
    }

    method CreateBackup(file: string, now: nat) returns (name: string)
      modifies this
      ensures name == BackupName(file, now)
      ensures files == Created(old(files), file, now)
    {
      name := BackupName(file, now);
      if file in files { files := files[name := files[file]]; }
    }

    /** `entries` is the directory listing, in whatever order it comes. */
    method ListBackups(file: string, entries: seq<string>) returns (backups: seq<string>)
      requires forall x :: x in entries <==> x in files
      requires forall i, j :: 0 <= i < j < |entries| ==> entries[i] != entries[j]
      ensures backups == Listed(files, file)
    {
      hide InOrder, Sort;
      backups := [];
      for i := 0 to |entries|
        invariant forall x :: x in backups <==> x in entries[..i] && IsBackup(file, x)
        invariant forall j, k :: 0 <= j < k < |backups| ==> backups[j] != backups[k]
      {
        assert entries[..i + 1] == entries[..i] + [entries[i]];
        if IsBackup(file, entries[i]) {
          assert entries[i] !in entries[..i];
          backups := backups + [entries[i]];
        }
      }
      assert entries[..|entries|] == entries;
      ghost var found := backups;
      backups := Sort(backups);
      SortStrict(found);
      forall x ensures x in backups <==> x in InOrder(Backups(files, file)) {
        SortKeepsMembers(found, x);
      }
      InOrderSorted(Backups(files, file));
      StrictlySortedUnique(backups, InOrder(Backups(files, file)));
    }

    method RestoreBackup(file: string, entries: seq<string>)
      requires forall x :: x in entries <==> x in files
      requires forall i, j :: 0 <= i < j < |entries| ==> entries[i] != entries[j]
      modifies this
      ensures files == Restored(old(files), file)
    {
      var backups := ListBackups(file, entries);
      if backups != [] {
        assert backups[|backups| - 1] in backups;
        files := files[file := files[backups[|backups| - 1]]];
      }
    }
  }

  // ---------------------------------------------------------------------------
  // Name order and time order
  // ---------------------------------------------------------------------------

  /** The matching names are exactly the stamps of these times. */
  ghost predicate Stamps(files: Files, file: string, times: set<nat>) {
    && (forall t :: t in times ==> BackupName(file, t) in files)
    && (forall name :: name in files && IsBackup(file, name) ==> exists t :: t in times && name == BackupName(file, t))
  }

  predicate Newest(t: nat, times: set<nat>) {
    t in times && forall u :: u in times ==> u <= t
  }

  /** A common prefix does not change the order. */
  lemma {:induction false} LessUnderPrefix(p: string, a: string, b: string)
    ensures Less(p + a, p + b) <==> Less(a, b)
  {
    if p == "" {
      assert "" + a == a && "" + b == b;
    } else {
      assert (p + a)[1..] == p[1..] + a && (p + b)[1..] == p[1..] + b;
      LessUnderPrefix(p[1..], a, b);
    }
  }

  lemma NameInjective(file: string, t: nat, u: nat)
    requires BackupName(file, t) == BackupName(file, u)
    ensures t == u
  {
    assert BackupName(file, t)[|Prefix(file)|..] == Print(t);
    assert BackupName(file, u)[|Prefix(file)|..] == Print(u);
    PrintInjective(t, u);
  }

  lemma {:induction false} WiderIsLarger(t: nat, u: nat)
    requires t <= u
    ensures |Print(t)| <= |Print(u)|
  {
    if 10 <= t { WiderIsLarger(t / 10, u / 10); }
  }

  /** An older stamp sorts before a newer one exactly when it is as wide, or is
      at most the leading digits of the newer one. */
  lemma StampOrder(file: string, t: nat, u: nat)
    requires t < u
    ensures Less(BackupName(file, t), BackupName(file, u))
            <==> |Print(t)| == |Print(u)|
                 || (|Print(t)| < |Print(u)| && t <= Chop(u, |Print(u)| - |Print(t)|))
  {
    LessUnderPrefix(Prefix(file), Print(t), Print(u));
    WiderIsLarger(t, u);
    if |Print(t)| == |Print(u)| { SameWidthOrder(t, u); } else { ShorterOrder(t, u); }
  }

  /** The guard under which name order finds the newest of these times. */
  predicate WidthsAgree(times: set<nat>, newest: nat)
    requires forall t :: t in times ==> t <= newest
  {
    forall t | t in times ::
      |Print(t)| < |Print(newest)| ==> t <= Chop(newest, |Print(newest)| - |Print(t)|)
  }

  lemma LastInOrder(s: set<string>, x: string)
    requires x in s
    ensures InOrder(s)[|InOrder(s)| - 1] == x <==> forall y :: y in s && y != x ==> Less(y, x)
  {
    hide InOrder;
    var r := InOrder(s);
    InOrderSorted(s);
    assert x in r;
    var k :| 0 <= k < |r| && r[k] == x;
    var last := r[|r| - 1];
    assert last in r;
    LessIrreflexive(x);
    if last == x {
      forall y | y in s && y != x ensures Less(y, x) {
        assert y in r;
        var i :| 0 <= i < |r| && r[i] == y;
      }
    } else if Less(last, x) {
      LessTransitive(x, last, x);
    }
  }

  /** Restoring puts back the newest backup exactly when every backup with a
      narrower stamp is at most the newest one's leading digits. */
  lemma RestoresNewest(files: Files, file: string, times: set<nat>, newest: nat)
    requires Stamps(files, file, times) && Newest(newest, times)
    ensures Listed(files, file) != []
    ensures Listed(files, file)[|Listed(files, file)| - 1] == BackupName(file, newest)
            <==> WidthsAgree(times, newest)
  {
    hide InOrder;
    var s := Backups(files, file);
    var x := BackupName(file, newest);
    assert x in InOrder(s);
    LastInOrder(s, x);
    if WidthsAgree(times, newest) {
      forall y | y in s && y != x ensures Less(y, x) {
        var t :| t in times && y == BackupName(file, t);
        WiderIsLarger(t, newest);
        StampOrder(file, t, newest);
      }
    }
    if forall y :: y in s && y != x ==> Less(y, x) {
      forall t | t in times && |Print(t)| < |Print(newest)|
        ensures t <= Chop(newest, |Print(newest)| - |Print(t)|)
      {
        if BackupName(file, t) == x { NameInjective(file, t, newest); }
        assert BackupName(file, t) in s;
        StampOrder(file, t, newest);
      }
    }
  }

  /** With stamps of one width the listing runs from oldest to newest. */
  lemma ListedOldestFirst(files: Files, file: string, times: set<nat>, i: nat, j: nat, t: nat, u: nat)
    requires Stamps(files, file, times)
    requires forall a, b :: a in times && b in times ==> |Print(a)| == |Print(b)|
    requires i < |Listed(files, file)| && j < |Listed(files, file)|
    requires t in times && u in times
    requires Listed(files, file)[i] == BackupName(file, t) && Listed(files, file)[j] == BackupName(file, u)
    ensures i < j <==> t < u
  {
    hide InOrder;
    InOrderSorted(Backups(files, file));
    var a, b := BackupName(file, t), BackupName(file, u);
    LessIrreflexive(a);
    if t < u { StampOrder(file, t, u); } else if u < t { StampOrder(file, u, t); }
    if Less(a, b) && Less(b, a) { LessTransitive(a, b, a); }
  }

  function Power(k: nat): nat {
    if k == 0 then 1 else 10 * Power(k - 1)
  }

  /** A number has as many digits as the power of ten it falls under says. */
  lemma {:induction false} WidthOf(n: nat, w: nat)
    requires w > 0 && n < Power(w) && (w > 1 ==> Power(w - 1) <= n)
    ensures |Print(n)| == w
  {
    if w > 1 {
      assert 10 <= n;
      WidthOf(n / 10, w - 1);
    } else {
      assert Power(0) == 1;
    }
  }

  /** One backup in the last second before the clock gains a digit and one in the
      next second: the older copy is put back. */
  lemma WidthChangeRestoresOlder(files: Files, file: string, w: nat, last: nat)
    requires w > 0 && last == Power(w) - 1
    requires Stamps(files, file, {last, last + 1})
    ensures Restored(files, file) == files[file := files[BackupName(file, last)]]
  {
    hide InOrder, Print;
    var times: set<nat> := {last, last + 1};
    WidthOf(last, w);
    WidthOf(last + 1, w + 1);
    assert Power(w) / 10 == Power(w - 1) < last;
    assert Chop(last + 1, 1) == Chop(Power(w) / 10, 0);
    assert last in times;
    RestoresNewest(files, file, times, last + 1);
    var r := Listed(files, file);
    assert r[|r| - 1] in r;
    var t :| t in times && r[|r| - 1] == BackupName(file, t);
  }

  // ---------------------------------------------------------------------------
  // Runs
  // ---------------------------------------------------------------------------

  datatype Action = Backup(now: nat) | Edit(content: string) | Restore

  function Step(files: Files, file: string, a: Action): Files {
    match a
    case Backup(now) => Created(files, file, now)
    case Edit(content) => files[file := content]
    case Restore => Restored(files, file)
  }

  function Replay(files: Files, file: string, actions: seq<Action>): Files
    decreases |actions|
  {
    if actions == [] then files else Replay(Step(files, file, actions[0]), file, actions[1..])
  }

  /** The last backup taken in a run, with the content the file had then. */
  function LastBackup(files: Files, file: string, actions: seq<Action>, latest: Option<(nat, string)>): Option<(nat, string)>
    decreases |actions|
  {
    if actions == [] then latest
    else
      var latest' := if actions[0].Backup? && file in files then Some((actions[0].now, files[file])) else latest;
      LastBackup(Step(files, file, actions[0]), file, actions[1..], latest')
  }

  /** No clock value of the run is below `from` or of another width than `w`, and
      none comes before an earlier one. */
  predicate ClockRuns(actions: seq<Action>, from: nat, w: nat)
    decreases |actions|
  {
    actions != [] ==>
      match actions[0]
      case Backup(now) => from <= now && |Print(now)| == w && ClockRuns(actions[1..], now, w)
      case _ => ClockRuns(actions[1..], from, w)
  }

  /** The backups present are the stamps of one width up to the latest one. */
  ghost predicate Shelf(files: Files, file: string, times: set<nat>, w: nat, latest: Option<(nat, string)>) {
    && Stamps(files, file, times)
    && (forall t :: t in times ==> |Print(t)| == w)
    && (if latest.None? then times == {}
        else Newest(latest.value.0, times) && files[BackupName(file, latest.value.0)] == latest.value.1)
  }

  lemma FileIsNoBackup(file: string)
    ensures !IsBackup(file, file)
  {
  }

  lemma RestoreFromShelf(files: Files, file: string, times: set<nat>, w: nat, latest: Option<(nat, string)>)
    requires Shelf(files, file, times, w, latest)
    ensures Restored(files, file) == if latest.None? then files else files[file := latest.value.1]
  {
    hide InOrder;
    if latest.Some? {
      RestoresNewest(files, file, times, latest.value.0);
    } else {
      assert Backups(files, file) == {};
    }
  }

  lemma EditKeepsShelf(files: Files, file: string, content: string, times: set<nat>, w: nat, latest: Option<(nat, string)>)
    requires Shelf(files, file, times, w, latest)
    ensures Shelf(files[file := content], file, times, w, latest)
  {
    FileIsNoBackup(file);
    forall t | t in times ensures BackupName(file, t) != file {
      assert IsBackup(file, BackupName(file, t));
    }
  }

  lemma BackupKeepsShelf(files: Files, file: string, now: nat, times: set<nat>, w: nat, latest: Option<(nat, string)>)
    requires Shelf(files, file, times, w, latest)
    requires file in files && |Print(now)| == w && (latest.Some? ==> latest.value.0 <= now)
    ensures Shelf(Created(files, file, now), file, times + {now}, w, Some((now, files[file])))
  {
    var files' := Created(files, file, now);
    forall name | name in files' && IsBackup(file, name)
      ensures exists t :: t in times + {now} && name == BackupName(file, t)
    {
      if name == BackupName(file, now) {
        assert now in times + {now};
      } else {
        var t :| t in times && name == BackupName(file, t);
        assert t in times + {now};
      }
    }
  }

  /** In every run of backups, edits and restores under one clock width, a
      restore puts back what the file held at the latest backup. */
  lemma {:induction false} RestoreAfterRun(files: Files, file: string, actions: seq<Action>,
                                           times: set<nat>, w: nat, latest: Option<(nat, string)>)
    requires Shelf(files, file, times, w, latest)
    requires ClockRuns(actions, if latest.Some? then latest.value.0 else 0, w)
    ensures var end := Replay(files, file, actions);
            var last := LastBackup(files, file, actions, latest);
            Restored(end, file) == if last.None? then end else end[file := last.value.1]
    decreases |actions|
  {
    hide InOrder, Restored, Shelf, Created;
    if actions == [] {
      RestoreFromShelf(files, file, times, w, latest);
    } else {
      var files' := Step(files, file, actions[0]);
      match actions[0] {
        case Edit(content) =>
          EditKeepsShelf(files, file, content, times, w, latest);
          RestoreAfterRun(files', file, actions[1..], times, w, latest);
        case Restore =>
          RestoreFromShelf(files, file, times, w, latest);
          if latest.Some? { EditKeepsShelf(files, file, latest.value.1, times, w, latest); }
          RestoreAfterRun(files', file, actions[1..], times, w, latest);
        case Backup(now) =>
          if file in files {
            BackupKeepsShelf(files, file, now, times, w, latest);
            RestoreAfterRun(files', file, actions[1..], times + {now}, w, Some((now, files[file])));
          } else {
            NoFileNoBackup(files, file, now);
            ClockLater(actions[1..], now, if latest.Some? then latest.value.0 else 0, w);
            RestoreAfterRun(files', file, actions[1..], times, w, latest);
          }
      }
    }
  }

  lemma NoFileNoBackup(files: Files, file: string, now: nat)
    requires file !in files
    ensures Created(files, file, now) == files
  {
  }

  lemma {:induction false} ClockLater(actions: seq<Action>, now: nat, from: nat, w: nat)
    requires ClockRuns(actions, now, w) && from <= now
    ensures ClockRuns(actions, from, w)
    decreases |actions|
  {
    if actions != [] && !actions[0].Backup? { ClockLater(actions[1..], now, from, w); }
  }
}
