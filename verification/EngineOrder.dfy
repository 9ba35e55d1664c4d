/** Which handlers a dispatch starts, and in which order. */
module EngineOrder {
  import opened Engine

  /** The handlers started, in the order of their starts. */
  function Starts(log: seq<Event>): seq<nat> {
    if log == [] then []
    else
      var last := log[|log| - 1];
      Starts(log[..|log| - 1]) + if last.Started? then [last.i] else []
  }

  predicate Halts(e: Event) { e == Aborted || e == Panicking }

  /** The chain was aborted, or a panic was raised, at some point of the log. */
  predicate Halted(log: seq<Event>) { Aborted in log || Panicking in log }

  /** Nothing is started after the first abort or panic. */
  ghost predicate QuietOnceHalted(log: seq<Event>) {
    forall p, q :: 0 <= p < q < |log| && Halts(log[p]) ==> !log[q].Started?
  }

  function Upto(k: nat): seq<nat> { seq(k, j => j) }

  ghost predicate InOrder(n: nat, log: seq<Event>) {
    Starts(log) == Upto(|Starts(log)|) && |Starts(log)| <= n && QuietOnceHalted(log)
  }

  /** While the cursor is inside the chain it tells how many handlers were started (`ahead` is 1 inside a handler
    * and 0 at the head of a loop), but for the last of 64 handlers, where an abort puts it too; once it is outside, all
    * were, unless the chain was halted. */
  ghost predicate Tracks(n: nat, s: State, ahead: nat) {
    && InOrder(n, s.log)
    && (0 <= s.index < n && !(ahead == 1 && s.index == 63 && Halted(s.log)) ==>
          |Starts(s.log)| == s.index + ahead && !Halted(s.log))
    && (!(0 <= s.index < n) && !Halted(s.log) ==> |Starts(s.log)| == n)
  }

  ghost predicate EndsWell(n: nat, r: Run) {
    InOrder(n, r.s.log) && if r.out == Normal then Tracks(n, r.s, 1) else Halted(r.s.log)
  }

  lemma {:induction false} LogOne(log: seq<Event>, e: Event)
    ensures Starts(log + [e]) == Starts(log) + if e.Started? then [e.i] else []
    ensures Halted(log + [e]) <==> Halted(log) || Halts(e)
    ensures QuietOnceHalted(log) && !(Halted(log) && e.Started?) ==> QuietOnceHalted(log + [e])
  {
    assert (log + [e])[..|log|] == log;
  }

  lemma {:induction false} StartsGrow(log: seq<Event>, more: seq<Event>)
    requires log <= more
    ensures |Starts(log)| <= |Starts(more)|
    decreases |more|
  {
    if log != more {
      StartsGrow(log, more[..|more| - 1]);
    }
  }

  // How each single call moves the invariant.

  lemma TickTracks(n: nat, s: State)
    requires n <= 64 && 0 <= s.index && Tracks(n, s, 1)
    ensures Tracks(n, Tick(s), 0)
  {
    LogOne(s.log, Cursor(Inc8(s.index)));
  }

  lemma StartTracks(n: nat, s: State)
    requires 0 <= s.index < n && Tracks(n, s, 0)
    ensures Tracks(n, Start(s, s.index), 1)
  {
    LogOne(s.log, Started(s.index));
  }

  lemma RespondTracks(n: nat, s: State, code: int)
    requires Tracks(n, s, 1)
    ensures Tracks(n, Respond(s, code), 1)
  {
    LogOne(s.log, Sent(code));
  }

  lemma StopTracks(n: nat, s: State)
    requires n <= 64 && InOrder(n, s.log)
    ensures Tracks(n, Stop(s), 1)
  {
    LogOne(s.log, Aborted);
    LogOne(s.log + [Aborted], Cursor(ABORT_INDEX));
    assert s.log + [Aborted, Cursor(ABORT_INDEX)] == s.log + [Aborted] + [Cursor(ABORT_INDEX)];
  }

  lemma ThrowEndsWell(n: nat, s: State)
    requires InOrder(n, s.log)
    ensures EndsWell(n, Throw(s))
  {
    LogOne(s.log, Panicking);
  }

  lemma RescueTracks(n: nat, s: State)
    requires n <= 64 && InOrder(n, s.log)
    ensures Tracks(n, Rescue(s), 1)
  {
    LogOne(s.log, Sent(RECOVERY_CODE));
    StopTracks(n, Respond(s, RECOVERY_CODE));
    assert Rescue(s).log == Stop(Respond(s, RECOVERY_CODE)).log;
  }

  // The invariant over whole calls, following the engine.

  lemma {:induction false} NextEndsWell(hs: seq<Handler>, i: nat, s: State)
    requires i < |hs| <= 64 && i <= s.index && Tracks(|hs|, s, 1)
    ensures EndsWell(|hs|, CallNext(hs, i, s))
    decreases |hs| - 1 - i, 1, 0
  {
    TickTracks(|hs|, s);
    LoopEndsWell(hs, Tick(s));
  }

  lemma {:induction false} LoopEndsWell(hs: seq<Handler>, s: State)
    requires |hs| <= 64 && Tracks(|hs|, s, 0)
    ensures EndsWell(|hs|, Loop(hs, s))
    decreases Left(|hs|, s.index), 0, 0
  {
    if s.index < 0 {
      ThrowEndsWell(|hs|, s);
    } else if s.index < |hs| {
      StartTracks(|hs|, s);
      var r := RunHandler(hs, s.index, Start(s, s.index));
      HandlerEndsWell(hs, s.index, Start(s, s.index));
      if r.out == Normal {
        TickTracks(|hs|, r.s);
        LoopEndsWell(hs, Tick(r.s));
      }
    }
  }

  lemma {:induction false} HandlerEndsWell(hs: seq<Handler>, i: nat, s: State)
    requires i < |hs| <= 64 && i <= s.index && Tracks(|hs|, s, 1)
    ensures EndsWell(|hs|, RunHandler(hs, i, s))
    decreases |hs| - 1 - i, 3, 0
  {
    match hs[i]
    case Script(ops) => ExecEndsWell(hs, i, ops, s);
    case Telemetry => NextEndsWell(hs, i, OpenSpan(s));
    case Recovery =>
      NextEndsWell(hs, i, s);
      var r := CallNext(hs, i, s);
      if r.out == Panicked {
        RescueTracks(|hs|, r.s);
      }
  }

  lemma {:induction false} ExecEndsWell(hs: seq<Handler>, i: nat, ops: seq<Op>, s: State)
    requires i < |hs| <= 64 && i <= s.index && Tracks(|hs|, s, 1)
    ensures EndsWell(|hs|, Exec(hs, i, ops, s))
    decreases |hs| - 1 - i, 2, |ops|
  {
    if ops == [] {
    } else {
      match ops[0]
      case Work => ExecEndsWell(hs, i, ops[1..], s);
      case Send(code) =>
        RespondTracks(|hs|, s, code);
        ExecEndsWell(hs, i, ops[1..], Respond(s, code));
      case Abort =>
        StopTracks(|hs|, s);
        ExecEndsWell(hs, i, ops[1..], Stop(s));
      case Panic => ThrowEndsWell(|hs|, s);
      case Next =>
        NextEndsWell(hs, i, s);
        var r := CallNext(hs, i, s);
        if r.out == Normal {
          ExecEndsWell(hs, i, ops[1..], r.s);
        }
    }
  }

  /** Main result: whatever the handlers do, and however often they call `Next`, the handlers started are a prefix
    * of the chain, each once and in order, none after the first abort or panic; and a chain in which neither
    * happened was run to its end. */
  lemma StartedInOrder(hs: seq<Handler>)
    requires 0 < |hs| <= 64
    ensures var log := Dispatch(hs).s.log;
            && Starts(log) == Upto(|Starts(log)|) && 1 <= |Starts(log)| <= |hs|
            && QuietOnceHalted(log)
            && (!Halted(log) ==> |Starts(log)| == |hs|)
  {
    LogOne([], Started(0));
    var s := Start(FRESH, 0);
    assert s.log == [] + [Started(0)];
    HandlerEndsWell(hs, 0, s);
    var r := RunHandler(hs, 0, s);
    if r.out == Normal {
      NextEndsWell(hs, 0, r.s);
    }
    StartsGrow(s.log, Dispatch(hs).s.log);
  }
}
