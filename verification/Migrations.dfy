/**
 The boot-time migration runner. Every database call may be lost, and a commit may happen
 although the boot does not live to see it; a crash is a call without an answer.
 */
module Migrations {
  import opened Common
  import opened Sorting

  /** An embedded directory entry; `version` is the number its name starts with, if it does. */
  datatype Entry = Entry(name: string, isDir: bool, version: Option<int>, body: string)

  datatype Mig = Mig(version: int, name: string, body: string)

  datatype Result = Done | Failed

  function ByVersion(): (Mig, Mig) -> bool {
    (a: Mig, b: Mig) => a.version <= b.version
  }

  predicate IsSql(e: Entry) {
    !e.isDir && |e.name| >= 4 && e.name[|e.name| - 4..] == ".sql"
  }

  predicate Malformed(entries: seq<Entry>) {
    exists i :: 0 <= i < |entries| && IsSql(entries[i]) && entries[i].version.None?
  }

  function Listed(entries: seq<Entry>): seq<Mig>
    requires !Malformed(entries)
  {
    if entries == [] then []
    else
      var e := entries[|entries| - 1];
      assert forall i :: 0 <= i < |entries| - 1 ==> entries[..|entries| - 1][i] == entries[i];
      Listed(entries[..|entries| - 1]) + if IsSql(e) then [Mig(e.version.value, e.name, e.body)] else []
  }

  /** The listed migrations are exactly the files whose name ends in ".sql". */
  lemma {:induction false} ListedIff(entries: seq<Entry>, m: Mig)
    requires !Malformed(entries)
    ensures m in Listed(entries) <==>
            exists e, stem :: e in entries && !e.isDir && e.name == stem + ".sql" && m == Mig(e.version.GetOr(0), e.name, e.body)
  {
    if entries != [] {
      var n := |entries| - 1;
      assert entries == entries[..n] + [entries[n]];
      assert forall i :: 0 <= i < n ==> entries[..n][i] == entries[i];
      ListedIff(entries[..n], m);
      SqlNames(entries[n]);
      assert IsSql(entries[n]) ==> entries[n].version.Some?;
      hide IsSql;
    }
  }

  /** One badly named file of those and nothing is run. */
  lemma MalformedIff(entries: seq<Entry>)
    ensures Malformed(entries) <==> exists e, stem :: e in entries && !e.isDir && e.name == stem + ".sql" && e.version.None?
  {
    forall e ensures IsSql(e) <==> !e.isDir && exists stem :: e.name == stem + ".sql" {
      SqlNames(e);
    }
    hide IsSql;
  }

  lemma SqlNames(e: Entry)
    ensures IsSql(e) <==> !e.isDir && exists stem :: e.name == stem + ".sql"
  {
    if IsSql(e) {
      assert e.name == e.name[..|e.name| - 4] + ".sql";
    }
  }

  /** What the migrations `list` still have to do on top of the versions `recorded`. */
  function Pending(list: seq<Mig>, recorded: set<int>): seq<Mig> {
    if list == [] then []
    else
      var n := |list| - 1;
      var before := Pending(list[..n], recorded);
      if list[n].version in recorded + Versions(list[..n]) then before else before + [list[n]]
  }

  function Versions(list: seq<Mig>): set<int> {
    set m | m in list :: m.version
  }

  /** One boot over the sorted migrations: it gets through the first `j` of them, and through
      all of them when it reports success. */
  ghost predicate Boot(list: seq<Mig>, was: Database, now: Database, j: nat, r: Result) {
    && j <= |list|
    && now.recorded == was.recorded + Versions(list[..j])
    && now.applied == was.applied + Pending(list[..j], was.recorded)
    && (r == Done ==> j == |list|)
  }

  /** What a boot of the runner may do to the database. */
  ghost predicate Booted(list: seq<Mig>, was: Database, now: Database, r: Result) {
    exists j :: Boot(list, was, now, j, r)
  }

  /** What a run over the embedded files may do: nothing, or a boot over them in some sorted order. */
  ghost predicate MayRun(entries: seq<Entry>, was: Database, now: Database, r: Result) {
    || (r == Failed && now == was)
    || (!Malformed(entries) && exists list :: SortOf(Listed(entries), list, ByVersion()) && Booted(list, was, now, r))
  }

  /** The versions in the bookkeeping table, and the bodies whose effects were committed. */
  datatype Database = Database(recorded: set<int>, applied: seq<Mig>)

  lemma OneMoreMigration(list: seq<Mig>, i: nat, recorded: set<int>)
    requires i < |list|
    ensures Versions(list[..i + 1]) == Versions(list[..i]) + {list[i].version}
    ensures Pending(list[..i + 1], recorded) ==
            if list[i].version in recorded + Versions(list[..i]) then Pending(list[..i], recorded)
            else Pending(list[..i], recorded) + [list[i]]
  {
    assert list[..i + 1] == list[..i] + [list[i]];
    assert list[..i + 1][..i] == list[..i];
  }

  class Migrator {
    var db: Database

    constructor ()
      ensures db == Database({}, [])
    {
      db := Database({}, []);
    }

    /** `fate(n)` is what becomes of the boot's n-th database call. */
    method RunMigrations(entries: seq<Entry>, fate: nat -> Fault) returns (r: Result)
      modifies this
      ensures MayRun(entries, old(db), db, r)
      ensures !Malformed(entries) && (forall n :: fate(n).Acked?) ==> r == Done
    {
      if !fate(0).Acked? {
        return Failed;
      }
      var migs := ListMigrations(entries);
      if migs.None? {
        return Failed;
      }
      var list := Sort(migs.value, ByVersion());
      r := ApplyAll(list, fate);
    }

    method ApplyAll(list: seq<Mig>, fate: nat -> Fault) returns (r: Result)
      modifies this
      ensures Booted(list, old(db), db, r)
      ensures (forall n :: fate(n).Acked?) ==> r == Done
    {
      hide *;
      NotBooted(list, db);
      var calls := 1;
      for i := 0 to |list|
        invariant Boot(list, old(db), db, i, Failed)
      {
        StoppedAt(list, old(db), db, i);
        var m := list[i];
        if !fate(calls).Acked? {
          return Failed;
        }
        calls := calls + 1;
        if m.version in db.recorded {
          Skipped(list, old(db), db, i);
          continue;
        }
        // begin, run the body, record the version: nothing is visible before the commit
        if !fate(calls).Acked? || !fate(calls + 1).Acked? || !fate(calls + 2).Acked? {
          return Failed;
        }
        var commit := fate(calls + 3);
        calls := calls + 4;
        if commit.Lost? {
          return Failed;
        }
        Committed(list, old(db), db, i);
        db := Database(db.recorded + {m.version}, db.applied + [m]);
        StoppedAt(list, old(db), db, i + 1);
        if commit.Unacked? {
          return Failed;
        }
      }
      StoppedAt(list, old(db), db, |list|);
      return Done;
    }
  }

  lemma NotBooted(list: seq<Mig>, db: Database)
    ensures Boot(list, db, db, 0, Failed)
  {
    NothingPending(list, db.recorded);
  }

  lemma StoppedAt(list: seq<Mig>, was: Database, now: Database, i: nat)
    requires Boot(list, was, now, i, Failed)
    ensures Booted(list, was, now, Failed) && (i == |list| ==> Booted(list, was, now, Done))
  {
    assert i == |list| ==> Boot(list, was, now, i, Done);
  }

  lemma Skipped(list: seq<Mig>, was: Database, now: Database, i: nat)
    requires i < |list| && Boot(list, was, now, i, Failed) && list[i].version in now.recorded
    ensures Boot(list, was, now, i + 1, Failed)
  {
    OneMoreMigration(list, i, was.recorded);
    hide Versions, Pending;
  }

  lemma Committed(list: seq<Mig>, was: Database, now: Database, i: nat)
    requires i < |list| && Boot(list, was, now, i, Failed) && list[i].version !in now.recorded
    ensures Boot(list, was, Database(now.recorded + {list[i].version}, now.applied + [list[i]]), i + 1, Failed)
  {
    OneMoreMigration(list, i, was.recorded);
    hide Versions, Pending;
  }

  /** The embedded files; one badly named file and nothing is run. */
  method ListMigrations(entries: seq<Entry>) returns (migs: Option<seq<Mig>>)
    ensures migs.None? <==> Malformed(entries)
    ensures migs.Some? ==> migs.value == Listed(entries)
  {
    var list: seq<Mig> := [];
    for i := 0 to |entries|
      invariant !Malformed(entries[..i]) && list == Listed(entries[..i])
    {
      var e := entries[i];
      OneMoreEntry(entries, i);
      if e.isDir || !(|e.name| >= 4 && e.name[|e.name| - 4..] == ".sql") {
        continue;
      }
      if e.version.None? {
        return None;
      }
      list := list + [Mig(e.version.value, e.name, e.body)];
    }
    assert entries[..|entries|] == entries;
    return Some(list);
  }

  lemma OneMoreEntry(entries: seq<Entry>, i: nat)
    requires i < |entries| && !Malformed(entries[..i])
    ensures IsSql(entries[i]) && entries[i].version.None? ==> Malformed(entries)
    ensures !(IsSql(entries[i]) && entries[i].version.None?) ==>
              && !Malformed(entries[..i + 1])
              && Listed(entries[..i + 1]) ==
                 if IsSql(entries[i]) then Listed(entries[..i]) + [Mig(entries[i].version.value, entries[i].name, entries[i].body)]
                 else Listed(entries[..i])
  {
    var e := entries[i];
    assert entries[..i + 1] == entries[..i] + [e];
    assert entries[..i + 1][..i] == entries[..i];
    assert Listed(entries[..i]) + [] == Listed(entries[..i]);
    assert forall k :: 0 <= k < i ==> entries[..i][k] == entries[k];
  }

  // ----- distinct versions -----

  /** No two files carry the same number. */
  predicate Distinct(list: seq<Mig>) {
    |Versions(list)| == |list|
  }

  predicate Ascending(list: seq<Mig>) {
    forall i, j :: 0 <= i < j < |list| ==> list[i].version < list[j].version
  }

  lemma {:induction false} VersionsAreFew(list: seq<Mig>)
    ensures |Versions(list)| <= |list|
  {
    if list != [] {
      var n := |list| - 1;
      VersionsAreFew(list[..n]);
      assert list[..|list|] == list;
      OneMoreMigration(list, n, {});
    }
  }

  lemma DistinctLast(list: seq<Mig>)
    requires Distinct(list) && list != []
    ensures Distinct(list[..|list| - 1]) && list[|list| - 1].version !in Versions(list[..|list| - 1])
  {
    var n := |list| - 1;
    assert list[..|list|] == list;
    OneMoreMigration(list, n, {});
    VersionsAreFew(list[..n]);
    hide Versions;
  }

  lemma {:induction false} DistinctPairs(list: seq<Mig>, i: nat, j: nat)
    requires Distinct(list) && i < j < |list|
    ensures list[i].version != list[j].version
  {
    var n := |list| - 1;
    DistinctLast(list);
    hide Distinct, Versions;
    if j < n {
      DistinctPairs(list[..n], i, j);
    } else {
      VersionsHas(list[..n], i);
    }
  }

  lemma SortedIsAscending(migs: seq<Mig>, list: seq<Mig>)
    requires Distinct(migs) && SortOf(migs, list, ByVersion())
    ensures Ascending(list)
  {
    SameElements(migs, list);
    assert Versions(migs) == Versions(list);
    forall i, j | 0 <= i < j < |list| ensures list[i].version < list[j].version {
      DistinctPairs(list, i, j);
      assert ByVersion()(list[i], list[j]);
    }
  }

  lemma WithoutLast(a: seq<Mig>)
    requires a != []
    ensures multiset(a) == multiset(a[..|a| - 1]) + multiset{a[|a| - 1]}
  {
    assert a == a[..|a| - 1] + [a[|a| - 1]];
  }

  lemma CancelOne(a: multiset<Mig>, b: multiset<Mig>, m: Mig)
    requires a + multiset{m} == b + multiset{m}
    ensures a == b
  {
    assert a == a + multiset{m} - multiset{m};
    assert b == b + multiset{m} - multiset{m};
  }

  /** With distinct versions there is one order to run the migrations in. */
  lemma {:induction false} AscendingIsUnique(a: seq<Mig>, b: seq<Mig>)
    requires Ascending(a) && Ascending(b) && multiset(a) == multiset(b)
    ensures a == b
  {
    SameElements(a, b);
    if a != [] {
      var n := |a| - 1;
      assert a[n] in b && b[n] in a;
      assert a[n] == b[n];
      WithoutLast(a);
      WithoutLast(b);
      CancelOne(multiset(a[..n]), multiset(b[..n]), a[n]);
      AscendingIsUnique(a[..n], b[..n]);
      assert a == a[..n] + [a[n]] && b == b[..n] + [b[n]];
    }
  }

  // ----- a fixed set of files, any sequence of boots -----

  /** The database holds exactly the first `k` migrations, each once, in order. */
  ghost predicate IsPrefix(list: seq<Mig>, db: Database) {
    exists k :: 0 <= k <= |list| && db.applied == list[..k] && db.recorded == Versions(list[..k])
  }

  lemma VersionsHas(list: seq<Mig>, i: nat)
    requires i < |list|
    ensures list[i].version in Versions(list)
  {
  }

  lemma VersionsSplit(list: seq<Mig>, k: nat, j: nat)
    requires k <= j <= |list|
    ensures Versions(list[..k]) <= Versions(list[..j])
  {
    assert list[..k] == list[..j][..k];
    assert forall m :: m in list[..k] ==> m in list[..j];
  }

  lemma NotYet(list: seq<Mig>, k: nat, j: nat)
    requires Ascending(list) && k <= j < |list|
    ensures list[j].version !in Versions(list[..k])
  {
  }

  lemma NothingPending(list: seq<Mig>, recorded: set<int>)
    ensures Pending(list[..0], recorded) == [] && Versions(list[..0]) == {}
  {
  }

  /** On top of the first `k` migrations, the first `j` leave exactly the ones in between. */
  lemma {:induction false} PendingOfPrefix(list: seq<Mig>, k: nat, j: nat)
    requires Ascending(list) && k <= |list| && j <= |list|
    ensures Pending(list[..j], Versions(list[..k])) == if j <= k then [] else list[k..j]
    ensures Versions(list[..k]) + Versions(list[..j]) == Versions(list[..if j <= k then k else j])
    decreases j
  {
    hide *;
    VersionsSplit(list, if j <= k then j else k, if j <= k then k else j);
    if j == 0 {
      NothingPending(list, Versions(list[..k]));
    } else {
      PendingOfPrefix(list, k, j - 1);
      OneMoreMigration(list, j - 1, Versions(list[..k]));
      if j <= k {
        assert list[j - 1] == list[..k][j - 1];
        VersionsHas(list[..k], j - 1);
      } else {
        NotYet(list, k, j - 1);
        NotYet(list, j - 1, j - 1);
        assert list[k..j] == list[k..j - 1] + [list[j - 1]];
      }
    }
  }

  /** A boot keeps the database a prefix, never takes a migration back, and a boot that reports
      success has run them all. */
  lemma BootKeepsPrefix(list: seq<Mig>, was: Database, now: Database, j: nat, r: Result)
    requires Ascending(list) && IsPrefix(list, was) && Boot(list, was, now, j, r)
    ensures IsPrefix(list, now) && was.applied <= now.applied
    ensures r == Done ==> now.applied == list && now.recorded == Versions(list)
  {
    hide Versions, Pending, Ascending;
    var k :| 0 <= k <= |list| && was.applied == list[..k] && was.recorded == Versions(list[..k]);
    PendingOfPrefix(list, k, j);
    var m := if j <= k then k else j;
    assert now.applied == list[..m] by {
      assert j > k ==> list[..j] == list[..k] + list[k..j];
    }
    assert j == |list| ==> list[..m] == list;
  }

  /** Once every migration is in, a boot changes nothing. */
  lemma FullStays(list: seq<Mig>, was: Database, now: Database, r: Result)
    requires Ascending(list) && IsPrefix(list, was) && was.applied == list && Booted(list, was, now, r)
    ensures IsPrefix(list, now) && now.applied == list
  {
    var j :| Boot(list, was, now, j, r);
    hide Ascending, Versions, Pending, Boot;
    BootKeepsPrefix(list, was, now, j, r);
    var k :| 0 <= k <= |list| && now.applied == list[..k] && now.recorded == Versions(list[..k]);
  }

  /** After any sequence of boots, each stopped anywhere, the committed migrations are a prefix of
      the sorted list, so none is committed twice or before a lower one; all of them once a boot
      has succeeded. */
  lemma {:induction false} BootsKeepPrefix(list: seq<Mig>, states: seq<Database>, results: seq<Result>)
    requires Ascending(list) && |states| == |results| + 1 && states[0] == Database({}, [])
    requires forall i :: 0 <= i < |results| ==> Booted(list, states[i], states[i + 1], results[i])
    ensures IsPrefix(list, states[|results|])
    ensures Done in results ==> states[|results|].applied == list
  {
    hide *;
    if results == [] {
      NothingIsPrefix(list);
    } else {
      var n := |results| - 1;
      assert results == results[..n] + [results[n]];
      BootsKeepPrefix(list, states[..n + 1], results[..n]);
      assert states[..n + 1][n] == states[n];
      if Done in results[..n] {
        FullStays(list, states[n], states[n + 1], results[n]);
      } else {
        BootedKeepsPrefix(list, states[n], states[n + 1], results[n]);
      }
    }
  }

  lemma NothingIsPrefix(list: seq<Mig>)
    ensures IsPrefix(list, Database({}, []))
  {
    assert list[..0] == [] && Versions(list[..0]) == {};
  }

  lemma BootedKeepsPrefix(list: seq<Mig>, was: Database, now: Database, r: Result)
    requires Ascending(list) && IsPrefix(list, was) && Booted(list, was, now, r)
    ensures IsPrefix(list, now) && (r == Done ==> now.applied == list)
  {
    var j :| Boot(list, was, now, j, r);
    BootKeepsPrefix(list, was, now, j, r);
  }

  lemma PrefixHasNoRepeats(list: seq<Mig>, db: Database)
    requires Ascending(list) && IsPrefix(list, db)
    ensures forall i, j :: 0 <= i < j < |db.applied| ==> db.applied[i] != db.applied[j]
  {
  }

  /** The runner sorts the files itself; without duplicate numbers there is one order for it. */
  lemma RunIsBoot(entries: seq<Entry>, list: seq<Mig>, was: Database, now: Database, r: Result)
    requires !Malformed(entries) && Distinct(Listed(entries)) && SortOf(Listed(entries), list, ByVersion())
    requires MayRun(entries, was, now, r)
    ensures Booted(list, was, now, r)
  {
    if r == Failed && now == was {
      NotBooted(list, was);
    } else {
      var other :| SortOf(Listed(entries), other, ByVersion()) && Booted(other, was, now, r);
      SortedIsAscending(Listed(entries), list);
      SortedIsAscending(Listed(entries), other);
      AscendingIsUnique(list, other);
    }
  }

  /** From an empty database, after any runs over one set of files, whatever calls were lost and
      wherever a run was stopped: the committed migrations are the first ones of the files in
      their order, none twice, and all of them once a run has succeeded. */
  lemma RunsKeepPrefix(entries: seq<Entry>, list: seq<Mig>, states: seq<Database>, results: seq<Result>)
    requires !Malformed(entries) && Distinct(Listed(entries)) && SortOf(Listed(entries), list, ByVersion())
    requires |states| == |results| + 1 && states[0] == Database({}, [])
    requires forall i :: 0 <= i < |results| ==> MayRun(entries, states[i], states[i + 1], results[i])
    ensures IsPrefix(list, states[|results|])
    ensures forall i, j :: 0 <= i < j < |states[|results|].applied| ==> states[|results|].applied[i] != states[|results|].applied[j]
    ensures Done in results ==> states[|results|].applied == list
  {
    SortedIsAscending(Listed(entries), list);
    forall i | 0 <= i < |results| ensures Booted(list, states[i], states[i + 1], results[i]) {
      RunIsBoot(entries, list, states[i], states[i + 1], results[i]);
    }
    hide *;
    BootsKeepPrefix(list, states, results);
    PrefixHasNoRepeats(list, states[|results|]);
  }

  // ----- the comment and the code -----

  /** What the comment promises: the files with a version above every recorded one. */
  function AboveHighest(list: seq<Mig>, recorded: set<int>): seq<Mig> {
    if list == [] then []
    else
      var n := |list| - 1;
      AboveHighest(list[..n], recorded) + if forall v :: v in recorded ==> list[n].version > v then [list[n]] else []
  }

  /** The runner does what its comment says exactly when no file was added below a version that
      had been recorded before. */
  lemma {:induction false} CommentHoldsIff(list: seq<Mig>, recorded: set<int>)
    requires Ascending(list)
    ensures (Pending(list, recorded) == AboveHighest(list, recorded)) <==>
            forall i, v :: 0 <= i < |list| && v in recorded && list[i].version < v ==> list[i].version in recorded
  {
    forall i ensures 0 <= i < |list| ==>
        (list[i] in Pending(list, recorded) <==> list[i].version !in recorded) &&
        (list[i] in AboveHighest(list, recorded) <==> forall v :: v in recorded ==> list[i].version > v) {
      if 0 <= i < |list| {
        InPending(list, recorded, list[i]);
        InAbove(list, recorded, list[i]);
      }
    }
    if forall i, v :: 0 <= i < |list| && v in recorded && list[i].version < v ==> list[i].version in recorded {
      SameSelection(list, recorded);
    }
  }

  /** For instance, a file 1 that is added after file 2 was run is run all the same. */
  lemma LateFileIsRun(first: Mig, second: Mig)
    requires first.version == 1 && second.version == 2
    ensures first in Pending([first, second], {2}) && first !in AboveHighest([first, second], {2})
  {
    InPending([first, second], {2}, first);
    InAbove([first, second], {2}, first);
    assert 2 in {2} && [first, second][0] == first;
  }

  lemma PendingLast(list: seq<Mig>, recorded: set<int>)
    requires Ascending(list) && list != []
    ensures var n := |list| - 1;
            && Ascending(list[..n])
            && Pending(list, recorded) == Pending(list[..n], recorded) + if list[n].version in recorded then [] else [list[n]]
  {
    NotYet(list, |list| - 1, |list| - 1);
  }

  lemma {:induction false} InPending(list: seq<Mig>, recorded: set<int>, m: Mig)
    requires Ascending(list)
    ensures m in Pending(list, recorded) <==> m in list && m.version !in recorded
  {
    if list != [] {
      var n := |list| - 1;
      PendingLast(list, recorded);
      hide Ascending, Pending;
      InPending(list[..n], recorded, m);
      assert list == list[..n] + [list[n]];
    }
  }

  lemma {:induction false} InAbove(list: seq<Mig>, recorded: set<int>, m: Mig)
    ensures m in AboveHighest(list, recorded) <==> m in list && forall v :: v in recorded ==> m.version > v
  {
    if list != [] {
      var n := |list| - 1;
      InAbove(list[..n], recorded, m);
      assert list == list[..n] + [list[n]];
    }
  }

  lemma AboveLast(list: seq<Mig>, recorded: set<int>)
    requires list != [] && forall v :: v in recorded && list[|list| - 1].version < v ==> list[|list| - 1].version in recorded
    ensures var n := |list| - 1;
            AboveHighest(list, recorded) ==
            AboveHighest(list[..n], recorded) + if list[n].version in recorded then [] else [list[n]]
  {
  }

  lemma {:induction false} SameSelection(list: seq<Mig>, recorded: set<int>)
    requires Ascending(list)
    requires forall i, v :: 0 <= i < |list| && v in recorded && list[i].version < v ==> list[i].version in recorded
    ensures Pending(list, recorded) == AboveHighest(list, recorded)
  {
    if list != [] {
      var n := |list| - 1;
      PendingLast(list, recorded);
      AboveLast(list, recorded);
      hide Ascending, Pending, AboveHighest;
      assert forall i :: 0 <= i < n ==> list[..n][i] == list[i];
      SameSelection(list[..n], recorded);
    }
  }
}
