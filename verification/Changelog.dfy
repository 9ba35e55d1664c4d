/** internal/docgen/generator.go: the list of snapshots of the API and the changelog entries made from it, over whole
  * runs. The lists of action names, which the code sorts, are sets here. */
module Changelog {
  import opened Wrappers

  datatype Snapshot = Snapshot(version: string, actions: set<string>)

  datatype Entry = Entry(version: string, added: set<string>, removed: set<string>)

  const KEPT := 50

  /** The actions of the newest snapshot. */
  function Newest(file: seq<Snapshot>): set<string> {
    if file == [] then {} else file[|file| - 1].actions
  }

  /** The first snapshot of this version from `k` on, or -1. */
  function Find(file: seq<Snapshot>, version: string, k: nat := 0): (i: int)
    requires k <= |file|
    ensures -1 <= i < |file|
    ensures i < 0 ==> forall j :: k <= j < |file| ==> file[j].version != version
    ensures 0 <= i ==> k <= i && file[i].version == version && forall j :: k <= j < i ==> file[j].version != version
    decreases |file| - k
  {
    if k == |file| then -1 else if file[k].version == version then k else Find(file, version, k + 1)
  }

  function Put(file: seq<Snapshot>, s: Snapshot): seq<Snapshot> {
    var i := Find(file, s.version);
    if i < 0 then file + [s] else file[i := s]
  }

  function Latest<T>(xs: seq<T>, n: nat): seq<T> {
    if |xs| > n then xs[|xs| - n..] else xs
  }

  /** Nothing is written outside of a repository, where the version is "-", or if nothing changed. */
  predicate Writes(file: seq<Snapshot>, version: string, actions: set<string>) {
    version != "-" && actions != Newest(file)
  }

  function Save(file: seq<Snapshot>, version: string, actions: set<string>): seq<Snapshot> {
    if Writes(file, version, actions) then Latest(Put(file, Snapshot(version, actions)), KEPT) else file
  }

  function Report(file: seq<Snapshot>, version: string, actions: set<string>): Option<Entry> {
    if Writes(file, version, actions) then Some(Entry(version, actions - Newest(file), Newest(file) - actions))
    else None
  }

  // ----- runs

  datatype Call = Call(version: string, actions: set<string>)

  function FileAfter(calls: seq<Call>, n: nat): seq<Snapshot>
    requires n <= |calls|
  {
    if n == 0 then [] else Save(FileAfter(calls, n - 1), calls[n - 1].version, calls[n - 1].actions)
  }

  function Apply(actions: set<string>, e: Option<Entry>): set<string> {
    if e.Some? then actions - e.value.removed + e.value.added else actions
  }

  /** All entries so far, replayed from nothing. */
  function Replay(calls: seq<Call>, n: nat): set<string>
    requires n <= |calls|
  {
    if n == 0 then {}
    else Apply(Replay(calls, n - 1), Report(FileAfter(calls, n - 1), calls[n - 1].version, calls[n - 1].actions))
  }

  /** No version is stored twice, and no more than the cap. */
  ghost predicate Tidy(file: seq<Snapshot>) {
    |file| <= 50 && forall i, j :: 0 <= i < j < |file| ==> file[i].version != file[j].version
  }

  lemma SaveKeepsTidy(file: seq<Snapshot>, version: string, actions: set<string>)
    requires Tidy(file)
    ensures Tidy(Save(file, version, actions))
  {
    var p := Put(file, Snapshot(version, actions));
    assert forall i, j :: 0 <= i < j < |p| ==> p[i].version != p[j].version;
  }

  /** In every run whatsoever, the stored versions are distinct and at most 50. */
  lemma {:induction false} RunIsTidy(calls: seq<Call>, n: nat)
    requires n <= |calls|
    ensures Tidy(FileAfter(calls, n))
  {
    if n == 0 {
    } else {
      RunIsTidy(calls, n - 1);
      SaveKeepsTidy(FileAfter(calls, n - 1), calls[n - 1].version, calls[n - 1].actions);
    }
  }

  /** What a save does to a file of at most 50 snapshots: if none has the version, one more at the end, for which
    * the oldest gives way when there are 50; else the first one of the version is replaced where it stands, and no
    * other changes. */
  lemma SaveIs(file: seq<Snapshot>, version: string, actions: set<string>)
    requires version != "-" && actions != (if file == [] then {} else file[|file| - 1].actions) && |file| <= 50
    ensures var r := Save(file, version, actions); var s := Snapshot(version, actions);
            && ((forall j :: 0 <= j < |file| ==> file[j].version != version) ==>
                  r == if |file| < 50 then file + [s] else file[1..] + [s])
            && (forall i :: 0 <= i < |file| && file[i].version == version
                            && (forall j :: 0 <= j < i ==> file[j].version != version) ==>
                  |r| == |file| && r[i] == s && forall j :: 0 <= j < |file| && j != i ==> r[j] == file[j])
  {
    var s := Snapshot(version, actions);
    if |file| == 50 {
      assert (file + [s])[1..] == file[1..] + [s];
    }
    assert file[|file|..] == [];
  }

  /** Nothing is saved without a repository, or if the actions are those of the last snapshot. */
  lemma NothingToSave(file: seq<Snapshot>, version: string, actions: set<string>)
    requires version == "-" || actions == if file == [] then {} else file[|file| - 1].actions
    ensures Save(file, version, actions) == file
  {
  }

  /** The version is the newest one, or is not stored. */
  ghost predicate InOrder(file: seq<Snapshot>, version: string) {
    Find(file, version) < 0 || Find(file, version) == |file| - 1
  }

  /** Replaying the log so far gives the newest snapshot. */
  ghost predicate InStep(calls: seq<Call>, n: nat)
    requires n <= |calls|
  {
    Replay(calls, n) == Newest(FileAfter(calls, n))
  }

  ghost predicate FitsAt(calls: seq<Call>, n: nat)
    requires n < |calls|
  {
    Writes(FileAfter(calls, n), calls[n].version, calls[n].actions) ==> InOrder(FileAfter(calls, n), calls[n].version)
  }

  /** A saved snapshot becomes the newest one exactly when its version comes in order. */
  lemma SavedIsNewestIff(file: seq<Snapshot>, version: string, actions: set<string>)
    requires Writes(file, version, actions)
    ensures Newest(Save(file, version, actions)) == (if InOrder(file, version) then actions else Newest(file))
  {
  }

  /** An entry always leads from the newest snapshot to the current actions. */
  lemma EntryIsTheDifference(file: seq<Snapshot>, version: string, actions: set<string>)
    requires version != "-"
    ensures Apply(Newest(file), Report(file, version, actions)) == actions
  {
  }

  lemma StepIsInStepIff(calls: seq<Call>, n: nat)
    requires n < |calls| && InStep(calls, n)
    ensures InStep(calls, n + 1) <==> FitsAt(calls, n)
  {
    var c := calls[n];
    var file := FileAfter(calls, n);
    if Writes(file, c.version, c.actions) {
      EntryIsTheDifference(file, c.version, c.actions);
      SavedIsNewestIff(file, c.version, c.actions);
    }
  }

  /** Main result: the log can be replayed at every point of a run exactly when every version for which something is
    * written is the newest stored one, or is not stored. */
  lemma {:induction false} ReplayIff(calls: seq<Call>, n: nat)
    requires n <= |calls|
    ensures (forall k :: 0 <= k <= n ==> InStep(calls, k)) <==> forall k :: 0 <= k < n ==> FitsAt(calls, k)
  {
    if n == 0 {
      assert InStep(calls, 0);
    } else {
      ReplayIff(calls, n - 1);
      if InStep(calls, n - 1) {
        StepIsInStepIff(calls, n - 1);
      }
    }
  }

  /** So after such a run the log leads to the actions of the last call that is in a repository. */
  lemma ReplayIsCurrent(calls: seq<Call>, n: nat)
    requires 0 < n <= |calls| && calls[n - 1].version != "-"
    requires forall k :: 0 <= k < n ==> FitsAt(calls, k)
    ensures Replay(calls, n) == Newest(FileAfter(calls, n)) == calls[n - 1].actions
  {
    ReplayIff(calls, n);
    assert InStep(calls, n) && FitsAt(calls, n - 1);
    var file := FileAfter(calls, n - 1);
    if Writes(file, calls[n - 1].version, calls[n - 1].actions) {
      SavedIsNewestIff(file, calls[n - 1].version, calls[n - 1].actions);
    }
  }

  /** Going back to an older version breaks it: the snapshot is replaced in place, the newest one is left as it was. */
  lemma OlderVersionIsNotReplayed(a: string, b: string)
    requires a != b
    ensures var calls := [Call("1", {a}), Call("2", {b}), Call("1", {a})];
            && Replay(calls, 3) == {a} && Newest(FileAfter(calls, 3)) == {b}
            && FileAfter(calls, 3) == FileAfter(calls, 2)
  {
    var calls := [Call("1", {a}), Call("2", {b}), Call("1", {a})];
    var one, two := Snapshot("1", {a}), Snapshot("2", {b});
    assert FileAfter(calls, 1) == [one];
    assert Replay(calls, 1) == {a};
    assert "1" != "2" && Find([one], "2") == -1;
    assert FileAfter(calls, 2) == [one, two];
    assert Replay(calls, 2) == {b};
    assert a in {a} && a !in {b};
    assert Find([one, two], "1") == 0;
  }

  // ----- what the cap leaves

  /** The snapshots a run would store without the cap. */
  function History(calls: seq<Call>, n: nat): seq<Snapshot>
    requires n <= |calls|
  {
    if n == 0 then []
    else
      var h := History(calls, n - 1);
      var c := calls[n - 1];
      if Writes(h, c.version, c.actions) then Put(h, Snapshot(c.version, c.actions)) else h
  }

  ghost predicate InHistoryOrder(calls: seq<Call>, n: nat)
    requires n < |calls|
  {
    Writes(History(calls, n), calls[n].version, calls[n].actions) ==> InOrder(History(calls, n), calls[n].version)
  }

  lemma LatestOfPut(h: seq<Snapshot>, s: Snapshot)
    requires InOrder(h, s.version)
    ensures Latest(Put(Latest(h, KEPT), s), KEPT) == Latest(Put(h, s), KEPT)
  {
    var file := Latest(h, KEPT);
    var d := |h| - |file|;
    assert forall j :: 0 <= j < |file| ==> file[j] == h[d + j];
    if Find(h, s.version) < 0 {
      assert Find(file, s.version) < 0;
    } else {
      assert Find(file, s.version) == |file| - 1;
    }
  }

  /** In a run that never writes an older version again, the file holds exactly the last 50 of all snapshots. */
  lemma {:induction false} FileIsTheLatest(calls: seq<Call>, n: nat)
    requires n <= |calls|
    requires forall k :: 0 <= k < n ==> InHistoryOrder(calls, k)
    ensures FileAfter(calls, n) == Latest(History(calls, n), KEPT)
  {
    if n == 0 {
    } else {
      FileIsTheLatest(calls, n - 1);
      assert InHistoryOrder(calls, n - 1);
      var h := History(calls, n - 1);
      assert Newest(Latest(h, KEPT)) == Newest(h);
      if Writes(h, calls[n - 1].version, calls[n - 1].actions) {
        LatestOfPut(h, Snapshot(calls[n - 1].version, calls[n - 1].actions));
      }
    }
  }

  // ----- the code

  /** The snapshot file; one that is missing holds nothing. */
  class SnapshotFile {
    var snapshots: seq<Snapshot>

    constructor ()
      ensures snapshots == []
    {
      snapshots := [];
    }

    method GenerateGlobalChangelog(version: string, files: seq<seq<string>>) returns (entry: Option<Entry>)
      modifies this
      ensures snapshots == Save(old(snapshots), version, Names(files, |files|))
      ensures entry == Report(old(snapshots), version, Names(files, |files|))
      ensures entry == None <==> version == "-" || forall a :: Listed(files, a) <==> LastHas(old(snapshots), a)
      ensures entry.Some? ==> entry.value.version == version
      ensures entry.Some? ==> forall a :: a in entry.value.added <==> Listed(files, a) && !LastHas(old(snapshots), a)
      ensures entry.Some? ==> forall a :: a in entry.value.removed <==> LastHas(old(snapshots), a) && !Listed(files, a)
    {
      ReportIs(snapshots, version, files);
      if version == "-" {
        return None;
      }
      var current := Collect(files);
      var added, removed := current, {};
      if |snapshots| > 0 {
        var previous := snapshots[|snapshots| - 1].actions;
        added := Lacking(current, previous);
        removed := Lacking(previous, current);
      }
      assert added == current - Newest(snapshots) && removed == Newest(snapshots) - current;
      if added == {} && removed == {} {
        return None;
      }
      StoreSnapshot(Snapshot(version, current));
      entry := Some(Entry(version, added, removed));
    }

    method StoreSnapshot(s: Snapshot)
      modifies this
      ensures snapshots == Latest(Put(old(snapshots), s), KEPT)
    {
      var i := 0;
      while i < |snapshots| && snapshots[i].version != s.version
        invariant i <= |snapshots| && snapshots == old(snapshots)
        invariant Find(snapshots, s.version) == Find(snapshots, s.version, i)
      {
        i := i + 1;
      }
      if i < |snapshots| {
        snapshots := snapshots[i := s];
      } else {
        snapshots := snapshots + [s];
      }
      if |snapshots| > KEPT {
        snapshots := snapshots[|snapshots| - KEPT..];
      }
    }
  }

  /** The names in the first `n` files. */
  function Names(files: seq<seq<string>>, n: nat): set<string>
    requires n <= |files|
  {
    set i, a | 0 <= i < n && a in files[i] :: a
  }

  /** The action is in one of the files. */
  ghost predicate Listed(files: seq<seq<string>>, a: string) {
    exists i :: 0 <= i < |files| && a in files[i]
  }

  /** The action is in the last stored snapshot. */
  ghost predicate LastHas(file: seq<Snapshot>, a: string) {
    file != [] && a in file[|file| - 1].actions
  }

  /** The entry lists exactly what the files have and the last snapshot has not, and the other way round; there is none
    * without a repository, or if the two are the same. */
  lemma ReportIs(file: seq<Snapshot>, version: string, files: seq<seq<string>>)
    ensures var entry := Report(file, version, Names(files, |files|));
            && (entry == None <==> version == "-" || forall a :: Listed(files, a) <==> LastHas(file, a))
            && (entry.Some? ==>
                  && entry.value.version == version
                  && (forall a :: a in entry.value.added <==> Listed(files, a) && !LastHas(file, a))
                  && (forall a :: a in entry.value.removed <==> LastHas(file, a) && !Listed(files, a)))
  {
    var current := Names(files, |files|);
    assert forall a :: a in current <==> Listed(files, a);
    assert forall a :: a in Newest(file) <==> LastHas(file, a);
    assert current == Newest(file) <==> forall a :: Listed(files, a) <==> LastHas(file, a);
  }

  method Collect(files: seq<seq<string>>) returns (current: set<string>)
    ensures current == Names(files, |files|)
  {
    current := {};
    for i := 0 to |files|
      invariant current == Names(files, i)
    {
      for j := 0 to |files[i]|
        invariant current == Names(files, i) + set a | a in files[i][..j]
      {
        current := current + {files[i][j]};
      }
      assert files[i][..|files[i]|] == files[i];
    }
  }

  /** The loop over one set that keeps what the other lacks. */
  method Lacking(xs: set<string>, ys: set<string>) returns (r: set<string>)
    ensures r == xs - ys
  {
    r := {};
    var todo := xs;
    while todo != {}
      invariant todo <= xs && r == xs - todo - ys
      decreases todo
    {
      var x :| x in todo;
      if x !in ys {
        r := r + {x};
      }
      todo := todo - {x};
    }
  }
}
