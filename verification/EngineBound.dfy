/** How far the 8-bit cursor can be driven: the bound, the chains that reach it, and the first chain that wraps. */
module EngineBound {
  import opened Engine
  import opened EngineOrder

  function Nexts(ops: seq<Op>): nat {
    if ops == [] then 0 else (if ops[0] == Next then 1 else 0) + Nexts(ops[1..])
  }

  /** Every handler calls `Next` at most once. */
  ghost predicate NextAtMostOnce(hs: seq<Handler>) {
    forall j :: 0 <= j < |hs| && hs[j].Script? ==> Nexts(hs[j].ops) <= 1
  }

  /** The calls of `Next` written in a handler. */
  function NextsOf(h: Handler): nat {
    match h
    case Script(ops) => Nexts(ops)
    case _ => 1
  }

  /** Those written in the handlers from `i` on. */
  function NextsFrom(hs: seq<Handler>, i: nat): nat
    decreases |hs| - i
  {
    if i >= |hs| then 0 else NextsOf(hs[i]) + NextsFrom(hs, i + 1)
  }

  lemma {:induction false} FewerLater(hs: seq<Handler>, i: nat, j: nat)
    requires i <= j
    ensures NextsFrom(hs, j) <= NextsFrom(hs, i)
    decreases j - i
  {
    if i == j {
    } else {
      FewerLater(hs, i + 1, j);
    }
  }

  lemma {:induction false} OnceIsFew(hs: seq<Handler>, i: nat)
    requires NextAtMostOnce(hs) && i <= |hs|
    ensures NextsFrom(hs, i) <= |hs| - i
    decreases |hs| - i
  {
    if i == |hs| {
    } else {
      OnceIsFew(hs, i + 1);
    }
  }

  /** No handler aborts or panics of itself. */
  ghost predicate Calm(hs: seq<Handler>) {
    forall j :: 0 <= j < |hs| && hs[j].Script? ==> Abort !in hs[j].ops && Panic !in hs[j].ops
  }

  ghost predicate CursorsWithin(log: seq<Event>, peak: int) {
    forall e :: e in log && e.Cursor? ==> 0 <= e.index <= peak
  }

  /** Where an abort, or the end of the chain, can put the cursor; the calls of `Next` then drive it no further than the
    * 8 bits hold. */
  ghost predicate CapFor(hs: seq<Handler>, cap: nat) {
    (cap == 63 || (Calm(hs) && cap == |hs| - 1)) && |hs| <= cap + 1 && Peak(hs, cap) <= 127
  }

  function Peak(hs: seq<Handler>, cap: nat): nat {
    cap + NextsFrom(hs, 0) + 1
  }

  ghost predicate LogFits(hs: seq<Handler>, cap: nat, log: seq<Event>) {
    CursorsWithin(log, Peak(hs, cap)) && (Calm(hs) ==> !Halted(log))
  }

  /** Inside handler `i`, with `spare` calls of `Next` still to come from it. */
  ghost predicate Fits(hs: seq<Handler>, cap: nat, i: nat, spare: nat, s: State) {
    && LogFits(hs, cap, s.log)
    && (s.index == i || |hs| <= s.index || s.index == 63)
    && s.index <= cap + NextsFrom(hs, i) - spare
  }

  ghost predicate RunFits(hs: seq<Handler>, cap: nat, i: nat, r: Run) {
    && LogFits(hs, cap, r.s.log)
    && (Calm(hs) ==> r.out == Normal)
    && (r.out == Normal ==> Fits(hs, cap, i, 0, r.s))
  }

  lemma {:induction false} LoopFits(hs: seq<Handler>, cap: nat, s: State)
    requires |hs| <= 64 && CapFor(hs, cap) && LogFits(hs, cap, s.log) && 0 <= s.index
    ensures var r := Loop(hs, s);
            && LogFits(hs, cap, r.s.log)
            && (Calm(hs) ==> r.out == Normal)
            && (r.out == Normal ==>
                  |hs| <= r.s.index && (r.s.index == s.index || r.s.index <= cap + NextsFrom(hs, s.index) + 1))
    decreases Left(|hs|, s.index), 0, 0
  {
    if s.index < |hs| {
      FewerLater(hs, 0, s.index);
      HandlerFits(hs, cap, s.index, Start(s, s.index));
      var r := RunHandler(hs, s.index, Start(s, s.index));
      if r.out == Normal {
        LoopFits(hs, cap, Tick(r.s));
      }
    }
  }

  lemma {:induction false} NextFits(hs: seq<Handler>, cap: nat, i: nat, spare: nat, s: State)
    requires i < |hs| <= 64 && i <= s.index && CapFor(hs, cap)
    requires 1 <= spare <= NextsOf(hs[i]) && Fits(hs, cap, i, spare, s)
    ensures var r := CallNext(hs, i, s);
            && LogFits(hs, cap, r.s.log)
            && (Calm(hs) ==> r.out == Normal)
            && (r.out == Normal ==> Fits(hs, cap, i, spare - 1, r.s))
    decreases |hs| - 1 - i, 1, 0
  {
    FewerLater(hs, 0, i);
    LoopFits(hs, cap, Tick(s));
  }

  lemma {:induction false} HandlerFits(hs: seq<Handler>, cap: nat, i: nat, s: State)
    requires i < |hs| <= 64 && s.index == i && CapFor(hs, cap) && LogFits(hs, cap, s.log)
    ensures RunFits(hs, cap, i, RunHandler(hs, i, s))
    decreases |hs| - 1 - i, 3, 0
  {
    match hs[i]
    case Script(ops) => ExecFits(hs, cap, i, ops, s);
    case Telemetry => NextFits(hs, cap, i, 1, OpenSpan(s));
    case Recovery => NextFits(hs, cap, i, 1, s);
  }

  lemma {:induction false} ExecFits(hs: seq<Handler>, cap: nat, i: nat, ops: seq<Op>, s: State)
    requires i < |hs| <= 64 && i <= s.index && CapFor(hs, cap)
    requires Nexts(ops) <= NextsOf(hs[i]) && (Calm(hs) ==> Abort !in ops && Panic !in ops)
    requires Fits(hs, cap, i, Nexts(ops), s)
    ensures RunFits(hs, cap, i, Exec(hs, i, ops, s))
    decreases |hs| - 1 - i, 2, |ops|
  {
    if ops == [] {
    } else {
      match ops[0]
      case Work => ExecFits(hs, cap, i, ops[1..], s);
      case Send(code) => ExecFits(hs, cap, i, ops[1..], Respond(s, code));
      case Abort => ExecFits(hs, cap, i, ops[1..], Stop(s));
      case Panic =>
      case Next =>
        NextFits(hs, cap, i, Nexts(ops), s);
        var r := CallNext(hs, i, s);
        if r.out == Normal {
          ExecFits(hs, cap, i, ops[1..], r.s);
        }
    }
  }

  lemma DispatchFits(hs: seq<Handler>, cap: nat)
    requires 0 < |hs| <= 64 && CapFor(hs, cap)
    ensures LogFits(hs, cap, Dispatch(hs).s.log) && (Calm(hs) ==> Dispatch(hs).out == Normal)
  {
    HandlerFits(hs, cap, 0, Start(FRESH, 0));
    var r := RunHandler(hs, 0, Start(FRESH, 0));
    if r.out == Normal {
      LoopFits(hs, cap, Tick(r.s));
    }
  }

  /** Main result: with at most 64 handlers and at most 63 calls of `Next` written in them together, however they are
    * spread, the cursor stays within 64 plus that number, so it never wraps. */
  lemma CursorStaysWithin(hs: seq<Handler>)
    requires 0 < |hs| <= 64 && NextsFrom(hs, 0) <= 63
    ensures CursorsWithin(Dispatch(hs).s.log, 64 + NextsFrom(hs, 0))
  {
    DispatchFits(hs, 63);
  }

  /** If no handler aborts or panics, it stays within the length of the chain plus that number, if the 8 bits hold
    * it. */
  lemma CalmCursorStaysWithin(hs: seq<Handler>)
    requires 0 < |hs| <= 64 && Calm(hs) && |hs| + NextsFrom(hs, 0) <= 127
    ensures Dispatch(hs).out == Normal && CursorsWithin(Dispatch(hs).s.log, |hs| + NextsFrom(hs, 0))
  {
    DispatchFits(hs, |hs| - 1);
  }

  /** So if each handler calls `Next` at most once, the cursor stays within 64 + n; and if no handler aborts or panics,
    * it stays within 2n. */
  lemma CursorNeverWraps(hs: seq<Handler>)
    requires 0 < |hs| <= 63 && NextAtMostOnce(hs)
    ensures CursorsWithin(Dispatch(hs).s.log, 64 + |hs|) && 64 + |hs| <= 127
    ensures Calm(hs) ==> CursorsWithin(Dispatch(hs).s.log, 2 * |hs|)
  {
    OnceIsFew(hs, 0);
    CursorStaysWithin(hs);
    if Calm(hs) {
      CalmCursorStaysWithin(hs);
    }
  }

  /** If no handler aborts or panics, every handler runs exactly once, in order, whichever of them call `Next` and how
    * often, as long as the cursor does not wrap. */
  lemma EveryHandlerRunsOnce(hs: seq<Handler>)
    requires 0 < |hs| <= 64 && Calm(hs) && |hs| + NextsFrom(hs, 0) <= 127
    ensures Dispatch(hs).out == Normal && Starts(Dispatch(hs).s.log) == Upto(|hs|)
  {
    DispatchFits(hs, |hs| - 1);
    StartedInOrder(hs);
  }

  // ----- the bounds are reached

  /** All handlers call `Next`; the last one, if `aborting`, aborts first. */
  function Nested(n: nat, aborting: bool): seq<Handler> {
    seq(n, j => if aborting && j == n - 1 then Script([Abort, Next]) else Script([Next]))
  }

  /** The cursor when handler `j` of such a chain is done. */
  function Depth(n: nat, aborting: bool, j: nat): int {
    (if aborting then 63 else n - 1) + n - j
  }

  lemma {:induction false} NestedHandler(n: nat, aborting: bool, j: nat, s: State)
    requires j < n <= 64 && s.index == j
    ensures var r := RunHandler(Nested(n, aborting), j, s);
            r.out == Normal && r.s.index == Depth(n, aborting, j)
    decreases n - j
  {
    var hs := Nested(n, aborting);
    if j == n - 1 {
      var ops := if aborting then [Abort, Next] else [Next];
      var a := if aborting then Stop(s) else s;
      assert hs[j] == Script(ops);
      assert CallNext(hs, j, a) == Run(Tick(a), Normal);
      assert Exec(hs, j, [], Tick(a)) == Run(Tick(a), Normal);
      assert Exec(hs, j, [Next], a) == Run(Tick(a), Normal);
      if aborting {
        assert ops[1..] == [Next];
      }
    } else {
      var t := Start(Tick(s), j + 1);
      NestedHandler(n, aborting, j + 1, t);
      var r := RunHandler(hs, j + 1, t);
      assert Loop(hs, Tick(r.s)) == Run(Tick(r.s), Normal);
      assert CallNext(hs, j, s) == Run(Tick(r.s), Normal);
      assert Exec(hs, j, [], Tick(r.s)) == Run(Tick(r.s), Normal);
      assert hs[j] == Script([Next]) && [Next][1..] == [];
      assert Exec(hs, j, [Next], s) == Run(Tick(r.s), Normal);
    }
  }

  /** Both bounds are met exactly, for every length of chain. */
  lemma BoundsAreReached(n: nat, aborting: bool)
    requires 0 < n <= 63
    ensures var r := Dispatch(Nested(n, aborting));
            r.out == Normal && r.s.index == if aborting then 64 + n else 2 * n
  {
    var hs := Nested(n, aborting);
    NestedHandler(n, aborting, 0, Start(FRESH, 0));
    var r := RunHandler(hs, 0, Start(FRESH, 0));
    assert Loop(hs, Tick(r.s)) == Run(Tick(r.s), Normal);
  }

  /** One handler more and the cursor does wrap, with or without the abort: the dispatch panics on index -128. */
  lemma SixtyFourHandlersWrap(aborting: bool)
    ensures var r := Dispatch(Nested(64, aborting));
            r.out == Panicked && r.s.index == -128 && Cursor(-128) in r.s.log
  {
    var hs := Nested(64, aborting);
    NestedHandler(64, aborting, 0, Start(FRESH, 0));
    var r := RunHandler(hs, 0, Start(FRESH, 0));
    assert r.out == Normal && r.s.index == 127;
    var t := Tick(r.s);
    assert t.log[|t.log| - 1] == Cursor(-128);
    assert Loop(hs, t) == Throw(t);
    assert Dispatch(hs) == CallNext(hs, 0, r.s);
  }

  // ----- a dispatch without end

  /** Scripts that neither call `Next` nor panic. */
  ghost predicate Flat(hs: seq<Handler>) {
    forall j :: 0 <= j < |hs| ==> hs[j].Script? && Next !in hs[j].ops && Panic !in hs[j].ops
  }

  /** What such a script does. */
  function Act(ops: seq<Op>, s: State): State {
    if ops == [] then s
    else match ops[0]
      case Send(code) => Act(ops[1..], Respond(s, code))
      case Abort => Act(ops[1..], Stop(s))
      case _ => Act(ops[1..], s)
  }

  /** One turn of the loop of `Next` on a chain of such scripts, of any length: from its head to its head again. */
  ghost function Turn(hs: seq<Handler>, s: State): State
    requires Flat(hs) && 0 <= s.index < |hs|
  {
    Tick(Act(hs[s.index].ops, Start(s, s.index)))
  }

  lemma {:induction false} ActIsExec(hs: seq<Handler>, i: nat, ops: seq<Op>, s: State)
    requires i < |hs| <= 64 && i <= s.index && Next !in ops && Panic !in ops
    ensures Exec(hs, i, ops, s) == Run(Act(ops, s), Normal)
    decreases |ops|
  {
    if ops == [] {
    } else {
      match ops[0]
      case Work => ActIsExec(hs, i, ops[1..], s);
      case Send(code) => ActIsExec(hs, i, ops[1..], Respond(s, code));
      case Abort => ActIsExec(hs, i, ops[1..], Stop(s));
    }
  }

  /** For the chains the engine is defined on, this is its loop. */
  lemma TurnIsLoop(hs: seq<Handler>, s: State)
    requires |hs| <= 64 && Flat(hs) && 0 <= s.index < |hs|
    ensures Loop(hs, s) == Loop(hs, Turn(hs, s))
  {
    ActIsExec(hs, s.index, hs[s.index].ops, Start(s, s.index));
  }

  /** The loop after `k` turns, as long as its head lets it turn. */
  ghost function Turns(hs: seq<Handler>, s: State, k: nat): State
    requires Flat(hs)
  {
    if k == 0 then s
    else
      var t := Turns(hs, s, k - 1);
      if 0 <= t.index < |hs| then Turn(hs, t) else t
  }

  /** 64 handlers that do nothing, and one that aborts. */
  function SixtyFive(): (hs: seq<Handler>)
    ensures |hs| == 65 && (forall j :: 0 <= j < 64 ==> hs[j] == Script([])) && hs[64] == Script([Abort])
  {
    seq(64, _ => Script([])) + [Script([Abort])]
  }

  /** The head of the loop of `Next`, called by the dispatcher after handler 0 of that chain. */
  const AFTER_FIRST := Tick(Start(FRESH, 0))

  lemma TurnOfSixtyFive(s: State)
    requires Flat(SixtyFive()) && 0 <= s.index < 65
    ensures Turn(SixtyFive(), s).index == if s.index < 64 then s.index + 1 else 64
    ensures Starts(Turn(SixtyFive(), s).log) == Starts(s.log) + [s.index]
  {
    var i := s.index;
    LogOne(s.log, Started(i));
    if i < 64 {
      LogOne(s.log + [Started(i)], Cursor(i + 1));
    } else {
      var ops := [Abort];
      assert ops[1..] == [];
      assert Act(ops, Start(s, 64)) == Stop(Start(s, 64));
      AbortedTurn(s.log);
    }
  }

  lemma AbortedTurn(log: seq<Event>)
    ensures Starts(log + [Started(64)] + [Aborted, Cursor(63)] + [Cursor(64)]) == Starts(log) + [64]
  {
    var l := log + [Started(64)];
    LogOne(log, Started(64));
    LogOne(l, Aborted);
    LogOne(l + [Aborted], Cursor(63));
    LogOne(l + [Aborted] + [Cursor(63)], Cursor(64));
    assert l + [Aborted, Cursor(63)] == l + [Aborted] + [Cursor(63)];
  }

  /** Before handler `k + 1`, or before handler 64 once that is the last one, which has been started in every turn since
    * then. */
  ghost predicate Standing(s: State, k: nat) {
    && s.index == (if k < 64 then k + 1 else 64)
    && |Starts(s.log)| == k + 1
    && forall j :: 64 <= j <= k ==> Starts(s.log)[j] == 64
  }

  lemma StandingNext(s: State, k: nat)
    requires Flat(SixtyFive()) && Standing(s, k)
    ensures Standing(Turn(SixtyFive(), s), k + 1)
  {
    TurnOfSixtyFive(s);
  }

  lemma OneMoreTurn(hs: seq<Handler>, s: State, k: nat)
    requires Flat(hs) && 0 <= Turns(hs, s, k).index < |hs|
    ensures Turns(hs, s, k + 1) == Turn(hs, Turns(hs, s, k))
  {
  }

  /** The loop on this chain of 65 stands before a handler after any number of turns: there is always another turn, and
    * from the sixty-fourth on it starts handler 64 again. So the dispatch has no end. */
  lemma {:induction false} SixtyFifthStartsForEver(k: nat)
    ensures Flat(SixtyFive()) && Standing(Turns(SixtyFive(), AFTER_FIRST, k), k)
  {
    assert Flat(SixtyFive());
    if k == 0 {
      LogOne([], Started(0));
      LogOne([Started(0)], Cursor(1));
      assert AFTER_FIRST.log == [] + [Started(0)] + [Cursor(1)];
    } else {
      SixtyFifthStartsForEver(k - 1);
      OneMoreTurn(SixtyFive(), AFTER_FIRST, k - 1);
      StandingNext(Turns(SixtyFive(), AFTER_FIRST, k - 1), k - 1);
    }
  }
}
