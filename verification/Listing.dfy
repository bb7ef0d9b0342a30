/** What a backend's listing reports, and looking one id up in it. */
module Listing {
  import opened Wrappers

  datatype InstalledApp = InstalledApp(id: string, version: Option<string>)

  datatype BackendStatus = Present(version: Option<string>) | Absent

  /** The rows of these ids, as a restricted listing reports them. */
  function Restrict(apps: seq<InstalledApp>, ids: seq<string>): seq<InstalledApp> {
    if apps == [] then []
    else (if apps[0].id in ids then [apps[0]] else []) + Restrict(apps[1..], ids)
  }

  /** The first row of an id decides. */
  function StatusFromListing(apps: seq<InstalledApp>, id: string): BackendStatus {
    if apps == [] then Absent
    else if apps[0].id == id then Present(apps[0].version)
    else StatusFromListing(apps[1..], id)
  }

  /** The first row of an id is its status; without a row it is absent. */
  lemma {:induction false} StatusIsFirstRow(apps: seq<InstalledApp>, id: string)
    ensures StatusFromListing(apps, id).Absent? <==> forall i :: 0 <= i < |apps| ==> apps[i].id != id
    ensures StatusFromListing(apps, id).Present? ==>
              exists i :: 0 <= i < |apps| && apps[i] == InstalledApp(id, StatusFromListing(apps, id).version)
                          && forall j :: 0 <= j < i ==> apps[j].id != id
  {
    if apps != [] {
      StatusIsFirstRow(apps[1..], id);
      assert forall i :: 0 < i < |apps| ==> apps[i] == apps[1..][i - 1];
      if apps[0].id == id {
        assert apps[0] == InstalledApp(id, StatusFromListing(apps, id).version);
      } else if StatusFromListing(apps, id).Present? {
        var i :| 0 <= i < |apps[1..]| && apps[1..][i] == InstalledApp(id, StatusFromListing(apps, id).version)
                 && forall j :: 0 <= j < i ==> apps[1..][j].id != id;
        assert apps[i + 1] == apps[1..][i] && forall j :: 0 <= j < i + 1 ==> apps[j].id != id;
      }
    }
  }

  /** Restricting keeps the rows of the ids, each in its place: it keeps one row or
      drops it, and of two lists what it keeps of each. */
  lemma RestrictKeepsRows(row: InstalledApp, a: seq<InstalledApp>, b: seq<InstalledApp>, ids: seq<string>)
    ensures Restrict([row], ids) == if row.id in ids then [row] else []
    ensures Restrict(a + b, ids) == Restrict(a, ids) + Restrict(b, ids)
  {
    assert [row][1..] == [];
    RestrictConcat(a, b, ids);
  }

  lemma {:induction false} RestrictConcat(a: seq<InstalledApp>, b: seq<InstalledApp>, ids: seq<string>)
    ensures Restrict(a + b, ids) == Restrict(a, ids) + Restrict(b, ids)
  {
    if a == [] {
      assert a + b == b;
    } else {
      RestrictConcat(a[1..], b, ids);
      assert (a + b)[1..] == a[1..] + b;
    }
  }

  lemma {:induction false} RestrictTwice(apps: seq<InstalledApp>, ids: seq<string>, id: string)
    requires id in ids
    ensures Restrict(Restrict(apps, ids), [id]) == Restrict(apps, [id])
  {
    if apps != [] {
      RestrictTwice(apps[1..], ids, id);
      var rest := Restrict(apps[1..], ids);
      if apps[0].id in ids {
        assert Restrict(apps, ids) == [apps[0]] + rest;
        assert Restrict(apps, ids)[1..] == rest;
      } else {
        assert Restrict(apps, ids) == rest;
      }
    }
  }

  /** Looking an id up in the listing restricted to it is looking it up in the
      whole listing. */
  lemma {:induction false} StatusOfRestricted(apps: seq<InstalledApp>, id: string)
    ensures StatusFromListing(Restrict(apps, [id]), id) == StatusFromListing(apps, id)
  {
    if apps != [] {
      StatusOfRestricted(apps[1..], id);
      var rest := Restrict(apps[1..], [id]);
      if apps[0].id == id {
        assert Restrict(apps, [id]) == [apps[0]] + rest;
      } else {
        assert Restrict(apps, [id]) == rest;
      }
    }
  }
}
