/** ws/client.go: the last log lines of a client, kept in a ring, and the guard that closes a client once. */
module LogRing {

  const SIZE := 100

  type Cells = s: seq<string> | |s| == SIZE witness Blank(SIZE)

  /** The next line goes to `idx`; `count` lines are there. */
  datatype Ring = Ring(cells: Cells, idx: nat, count: nat) {
    predicate Ok() { idx < SIZE && count <= SIZE }
  }

  function Blank(n: nat): (s: seq<string>)
    ensures |s| == n && forall i :: 0 <= i < n ==> s[i] == ""
  {
    if n == 0 then [] else Blank(n - 1) + [""]
  }

  function Empty(): (r: Ring)
    ensures r.Ok()
  {
    Ring(Blank(SIZE), 0, 0)
  }

  function Put(r: Ring, line: string): (q: Ring)
    requires r.Ok()
    ensures q.Ok()
  {
    Ring(r.cells[r.idx := line], (r.idx + 1) % SIZE, if r.count < SIZE then r.count + 1 else r.count)
  }

  function Oldest(r: Ring): (i: nat)
    requires r.Ok()
    ensures i < SIZE
  {
    (r.idx - r.count + SIZE) % SIZE
  }

  function Slot(r: Ring, i: nat): (k: nat)
    requires r.Ok()
    ensures k < SIZE
  {
    (Oldest(r) + i) % SIZE
  }

  /** What `GetRecentLogs` reads. */
  function Recent(r: Ring): (s: seq<string>)
    requires r.Ok()
    ensures |s| == r.count
  {
    seq(r.count, i requires 0 <= i < r.count => r.cells[Slot(r, i)])
  }

  /** The ring after the first `n` lines. */
  function After(lines: seq<string>, n: nat): (r: Ring)
    requires n <= |lines|
    ensures r.Ok()
  {
    if n == 0 then Empty() else Put(After(lines, n - 1), lines[n - 1])
  }

  /** Where the line before the last `j` ones is. */
  function Back(r: Ring, j: nat): (i: nat)
    requires r.Ok() && j < r.count
    ensures i < SIZE
  {
    if j < r.idx then r.idx - 1 - j else r.idx - 1 - j + SIZE
  }

  ghost predicate Keeps(r: Ring, lines: seq<string>, n: nat)
    requires r.Ok() && n <= |lines|
  {
    && r.count == (if n < SIZE then n else SIZE)
    && forall j :: 0 <= j < r.count ==> r.cells[Back(r, j)] == lines[n - 1 - j]
  }

  lemma PutKeeps(r: Ring, lines: seq<string>, n: nat)
    requires r.Ok() && n < |lines| && Keeps(r, lines, n)
    ensures Keeps(Put(r, lines[n]), lines, n + 1)
  {
    var q := Put(r, lines[n]);
    forall j | 0 <= j < q.count ensures q.cells[Back(q, j)] == lines[n - j] {
      if j == 0 {
        assert Back(q, 0) == r.idx;
      } else {
        assert Back(q, j) == Back(r, j - 1) != r.idx;
      }
    }
  }

  lemma {:induction false} RunKeeps(lines: seq<string>, n: nat)
    requires n <= |lines|
    ensures Keeps(After(lines, n), lines, n)
  {
    if n == 0 {
    } else {
      RunKeeps(lines, n - 1);
      PutKeeps(After(lines, n - 1), lines, n - 1);
    }
  }

  /** The last lines, oldest first. */
  function Last(lines: seq<string>): seq<string> {
    if |lines| <= SIZE then lines else lines[|lines| - SIZE..]
  }

  /** Reading forwards from the oldest line is counting back from the newest. */
  lemma ForwardIsBack(r: Ring, i: nat)
    requires r.Ok() && i < r.count
    ensures Slot(r, i) == Back(r, r.count - 1 - i)
  {
  }

  lemma RecentAt(r: Ring, lines: seq<string>, n: nat, i: nat)
    requires r.Ok() && n <= |lines| && Keeps(r, lines, n) && i < r.count
    ensures Recent(r)[i] == lines[n - r.count + i]
  {
    ForwardIsBack(r, i);
    var j := r.count - 1 - i;
    assert r.cells[Back(r, j)] == lines[n - 1 - j];
  }

  lemma RecentOfKeeps(r: Ring, lines: seq<string>)
    requires r.Ok() && Keeps(r, lines, |lines|)
    ensures Recent(r) == Last(lines)
  {
    forall i | 0 <= i < r.count ensures Recent(r)[i] == Last(lines)[i] {
      RecentAt(r, lines, |lines|, i);
    }
  }

  /** Main result: after any lines, the ring gives exactly the last 100 of them, oldest first. */
  lemma RecentIsLast(lines: seq<string>)
    ensures Recent(After(lines, |lines|)) == if |lines| <= 100 then lines else lines[|lines| - 100..]
  {
    RunKeeps(lines, |lines|);
    RecentOfKeeps(After(lines, |lines|), lines);
  }

  // ----- the code

  class Client {
    const recentLogs: array<string>
    var recentIdx: nat
    var recentCount: nat
    var closed: bool

    /** All lines logged so far, and how often the send channel was closed. */
    ghost var lines: seq<string>
    ghost var closings: nat

    ghost predicate Valid()
      reads this, recentLogs
    {
      && recentLogs.Length == SIZE && recentIdx < SIZE && recentCount <= SIZE
      && Ring(recentLogs[..], recentIdx, recentCount) == After(lines, |lines|)
      && closings == if closed then 1 else 0
    }

    constructor ()
      ensures Valid() && fresh(recentLogs) && lines == [] && !closed
    {
      recentLogs := new string[SIZE](_ => "");
      recentIdx, recentCount, closed, lines, closings := 0, 0, false, [], 0;
      new;
      assert recentLogs[..] == Empty().cells;
    }

    /** The text of the line is formatted before. */
    method Log(line: string)
      requires Valid()
      modifies `recentIdx, `recentCount, `lines, recentLogs
      ensures Valid() && lines == old(lines) + [line]
    {
      AfterMore(lines, line);
      recentLogs[recentIdx] := line;
      recentIdx := (recentIdx + 1) % 100;
      if recentCount < 100 {
        recentCount := recentCount + 1;
      }
      lines := lines + [line];
    }

    /** Closing a closed channel panics: so it happens once, however often this is called. */
    method Close()
      requires Valid()
      modifies this, recentLogs
      ensures Valid() && closed && closings == 1
      ensures if old(closed) then lines == old(lines) else exists line :: lines == old(lines) + [line]
    {
      if !closed {
        closed := true;
        closings := closings + 1;
        Log("Close client");
      }
    }

    method GetRecentLogs() returns (res: seq<string>)
      requires Valid()
      ensures |res| == (if |lines| < 100 then |lines| else 100) && res == lines[|lines| - |res|..]
    {
      RecentIsLast(lines);
      res := ReadAll();
    }

    /** The loop over the ring. */
    method ReadAll() returns (res: seq<string>)
      requires recentLogs.Length == SIZE && recentIdx < SIZE && recentCount <= SIZE
      ensures res == Recent(Ring(recentLogs[..], recentIdx, recentCount))
    {
      ghost var r := Ring(recentLogs[..], recentIdx, recentCount);
      var count := recentCount;
      if count == 0 {
        return [];
      }
      var logs := new string[count];
      var oldest := (recentIdx - count + 100) % 100;
      for i := 0 to count
        invariant forall k :: 0 <= k < i ==> logs[k] == recentLogs[Slot(r, k)]
      {
        var idx := (oldest + i) % 100;
        assert idx == Slot(r, i);
        logs[i] := recentLogs[idx];
      }
      res := logs[..];
    }
  }

  lemma AfterMore(lines: seq<string>, line: string)
    ensures After(lines + [line], |lines| + 1) == Put(After(lines, |lines|), line)
  {
    AfterPrefix(lines, [line], |lines|);
  }

  lemma {:induction false} AfterPrefix(lines: seq<string>, more: seq<string>, n: nat)
    requires n <= |lines|
    ensures After(lines + more, n) == After(lines, n)
  {
    if n == 0 {
    } else {
      AfterPrefix(lines, more, n - 1);
    }
  }
}
