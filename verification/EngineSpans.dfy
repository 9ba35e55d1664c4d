/** The two shipped middlewares: Telemetry outermost, Recovery next, anything at all behind them. */
module EngineSpans {
  import opened Engine
  import opened EngineOrder
  import opened EngineBound
  import opened Wrappers

  /** Every panic raised so far has been answered with the recovery code since. */
  ghost predicate Answered(log: seq<Event>) {
    forall p :: 0 <= p < |log| && log[p] == Panicking ==> exists q :: p < q < |log| && log[q] == Sent(-30)
  }

  lemma AnsweredGrows(log: seq<Event>, e: Event)
    requires Answered(log) && e != Panicking
    ensures Answered(log + [e])
  {
    forall p | 0 <= p < |log| && log[p] == Panicking
      ensures exists q :: p < q < |log| + 1 && (log + [e])[q] == Sent(RECOVERY_CODE)
    {
      var q :| p < q < |log| && log[q] == Sent(RECOVERY_CODE);
      assert (log + [e])[q] == Sent(RECOVERY_CODE);
    }
  }

  lemma StopAnswered(s: State)
    requires Answered(s.log)
    ensures Answered(Stop(s).log)
  {
    AnsweredGrows(s.log, Aborted);
    AnsweredGrows(s.log + [Aborted], Cursor(ABORT_INDEX));
    assert s.log + [Aborted, Cursor(ABORT_INDEX)] == s.log + [Aborted] + [Cursor(ABORT_INDEX)];
  }

  lemma RescueAnswers(s: State)
    ensures Answered(Rescue(s).log)
  {
    var log := s.log + [Sent(RECOVERY_CODE)];
    assert log[|s.log|] == Sent(RECOVERY_CODE);
    assert Answered(log);
    StopAnswered(Respond(s, RECOVERY_CODE));
    assert Rescue(s).log == Stop(Respond(s, RECOVERY_CODE)).log;
  }

  // A call that returns, rather than panics, leaves no panic unanswered.

  lemma {:induction false} LoopAnswered(hs: seq<Handler>, s: State)
    requires |hs| <= 64 && Answered(s.log)
    ensures Loop(hs, s).out == Normal ==> Answered(Loop(hs, s).s.log)
    decreases Left(|hs|, s.index), 0, 0
  {
    if 0 <= s.index < |hs| {
      AnsweredGrows(s.log, Started(s.index));
      HandlerAnswered(hs, s.index, Start(s, s.index));
      var r := RunHandler(hs, s.index, Start(s, s.index));
      if r.out == Normal {
        AnsweredGrows(r.s.log, Cursor(Inc8(r.s.index)));
        LoopAnswered(hs, Tick(r.s));
      }
    }
  }

  lemma {:induction false} NextAnswered(hs: seq<Handler>, i: nat, s: State)
    requires i < |hs| <= 64 && i <= s.index && Answered(s.log)
    ensures CallNext(hs, i, s).out == Normal ==> Answered(CallNext(hs, i, s).s.log)
    decreases |hs| - 1 - i, 1, 0
  {
    AnsweredGrows(s.log, Cursor(Inc8(s.index)));
    LoopAnswered(hs, Tick(s));
  }

  lemma {:induction false} HandlerAnswered(hs: seq<Handler>, i: nat, s: State)
    requires i < |hs| <= 64 && i <= s.index && Answered(s.log)
    ensures RunHandler(hs, i, s).out == Normal ==> Answered(RunHandler(hs, i, s).s.log)
    decreases |hs| - 1 - i, 3, 0
  {
    match hs[i]
    case Script(ops) => ExecAnswered(hs, i, ops, s);
    case Telemetry => NextAnswered(hs, i, OpenSpan(s));
    case Recovery =>
      NextAnswered(hs, i, s);
      RescueAnswers(CallNext(hs, i, s).s);
  }

  lemma {:induction false} ExecAnswered(hs: seq<Handler>, i: nat, ops: seq<Op>, s: State)
    requires i < |hs| <= 64 && i <= s.index && Answered(s.log)
    ensures Exec(hs, i, ops, s).out == Normal ==> Answered(Exec(hs, i, ops, s).s.log)
    decreases |hs| - 1 - i, 2, |ops|
  {
    if ops == [] {
    } else {
      match ops[0]
      case Work => ExecAnswered(hs, i, ops[1..], s);
      case Send(code) =>
        AnsweredGrows(s.log, Sent(code));
        ExecAnswered(hs, i, ops[1..], Respond(s, code));
      case Abort =>
        StopAnswered(s);
        ExecAnswered(hs, i, ops[1..], Stop(s));
      case Panic =>
      case Next =>
        NextAnswered(hs, i, s);
        var r := CallNext(hs, i, s);
        if r.out == Normal {
          ExecAnswered(hs, i, ops[1..], r.s);
        }
    }
  }

  // Scripts catch no panic and touch no span: behind the last middleware, a call that returns has seen neither.

  ghost predicate ScriptsAfter(hs: seq<Handler>, i: int) {
    forall j :: i < j < |hs| && 0 <= j ==> hs[j].Script?
  }

  ghost predicate Untouched(s: State, r: Run) {
    r.s.spans == s.spans && (r.out == Normal ==> Panicking !in r.s.log)
  }

  lemma {:induction false} ScriptLoop(hs: seq<Handler>, s: State)
    requires |hs| <= 64 && Panicking !in s.log && ScriptsAfter(hs, s.index - 1)
    ensures Untouched(s, Loop(hs, s))
    decreases Left(|hs|, s.index), 0, 0
  {
    if 0 <= s.index < |hs| {
      var t := Start(s, s.index);
      ScriptExec(hs, s.index, hs[s.index].ops, t);
      var r := RunHandler(hs, s.index, t);
      if r.out == Normal {
        if Inc8(r.s.index) >= 0 {
          ScriptLoop(hs, Tick(r.s));
        }
      }
    }
  }

  lemma {:induction false} ScriptExec(hs: seq<Handler>, i: nat, ops: seq<Op>, s: State)
    requires i < |hs| <= 64 && i <= s.index && Panicking !in s.log && ScriptsAfter(hs, i)
    ensures Untouched(s, Exec(hs, i, ops, s))
    decreases |hs| - 1 - i, 2, |ops|
  {
    if ops == [] {
    } else {
      match ops[0]
      case Work => ScriptExec(hs, i, ops[1..], s);
      case Send(code) => ScriptExec(hs, i, ops[1..], Respond(s, code));
      case Abort => ScriptExec(hs, i, ops[1..], Stop(s));
      case Panic =>
      case Next =>
        if Inc8(s.index) >= 0 {
          ScriptLoop(hs, Tick(s));
        }
        var r := CallNext(hs, i, s);
        assert r == Loop(hs, Tick(s)) && Untouched(Tick(s), r);
        if r.out == Normal {
          ScriptExec(hs, i, ops[1..], r.s);
        }
    }
  }

  // ----- the two middlewares in front of any chain

  const GUARDS := [Telemetry, Recovery]

  /** What Recovery, started by Telemetry, leaves behind. */
  function Guarded(hs: seq<Handler>): Run
    requires GUARDS <= hs && |hs| <= 64
  {
    RunHandler(hs, 1, Start(Tick(OpenSpan(Start(FRESH, 0))), 1))
  }

  /** Whatever comes after it, a Telemetry at the head of the chain ends its span exactly once, with the status of the
    * last response: whether the dispatch returns or panics, and however often the handlers call `Next`. */
  lemma SpanEndsOnce(hs: seq<Handler>)
    requires 0 < |hs| <= 64 && hs[0] == Telemetry
    ensures var s := Dispatch(hs).s;
            && |s.spans| >= 1 && s.spans[0].ends == 1
            && (s.spans[0].status == Unset <==> s.response == None)
            && (s.spans[0].status == Ok <==> s.response == Some(0))
  {
    var s0 := OpenSpan(Start(FRESH, 0));
    var r := CallNext(hs, 0, s0);
    var t := CloseSpan(r.s, 0);
    assert s0.spans[0].ends == 0 && t.spans[0].ends == 1;
    assert RunHandler(hs, 0, Start(FRESH, 0)) == Run(t, r.out);
    if r.out == Normal {
      assert CallNext(hs, 0, t) == Loop(hs, Tick(t));
      assert Tick(t).index < 0 || |hs| <= Tick(t).index;
    }
  }

  /** Recovery always returns; what is left then is the closing of span 0, between two ticks of the cursor. */
  lemma DispatchGuarded(hs: seq<Handler>)
    requires GUARDS <= hs && |hs| <= 64
    ensures var g := Guarded(hs);
            && g.out == Normal && 1 <= |g.s.spans|
            && Dispatch(hs) == if g.s.index <= 125 then Run(Tick(CloseSpan(Tick(g.s), 0)), Normal)
                               else if g.s.index == 126 then Throw(Tick(CloseSpan(Tick(g.s), 0)))
                               else Run(CloseSpan(Throw(Tick(g.s)).s, 0), Panicked)
  {
    var s0 := OpenSpan(Start(FRESH, 0));
    var s1 := Start(Tick(s0), 1);
    var g := Guarded(hs);
    assert hs[0] == Telemetry && hs[1] == Recovery;
    assert g.out == Normal && (|hs| <= g.s.index || g.s.index == 63);
    assert Extends(s1, g.s);
    var r := Loop(hs, Tick(g.s));
    assert r == if g.s.index == 127 then Throw(Tick(g.s)) else Run(Tick(g.s), Normal);
    assert CallNext(hs, 0, s0) == r;
    var t := CloseSpan(r.s, 0);
    assert RunHandler(hs, 0, Start(FRESH, 0)) == Run(t, r.out);
    if r.out == Normal {
      assert CallNext(hs, 0, t) == Loop(hs, Tick(t));
    }
  }

  /** The panics that Recovery can see are answered. */
  lemma GuardedAnswers(hs: seq<Handler>)
    requires GUARDS <= hs && |hs| <= 64
    ensures Answered(Guarded(hs).s.log)
  {
    DispatchGuarded(hs);
    var s1 := Start(Tick(OpenSpan(Start(FRESH, 0))), 1);
    assert Answered(s1.log);
    HandlerAnswered(hs, 1, s1);
  }

  /** Main result: with Telemetry first and Recovery second, and whatever is behind them, the span of the request is
    * ended exactly once, its status tells the last response, and the dispatch returns exactly if Recovery leaves the
    * cursor room for the two ticks that follow, which is exactly if every panic was answered with the recovery code. */
  lemma SpanTellsTheResponse(hs: seq<Handler>)
    requires GUARDS <= hs && |hs| <= 64
    ensures var r := Dispatch(hs);
            && |r.s.spans| >= 1 && r.s.spans[0].ends == 1
            && (r.s.spans[0].status == Unset <==> r.s.response == None)
            && (r.s.spans[0].status == Ok <==> r.s.response == Some(0))
            && (r.out == Normal <==> Guarded(hs).s.index <= 125)
            && (r.out == Normal <==> Answered(r.s.log))
  {
    SpanEndsOnce(hs);
    DispatchGuarded(hs);
    GuardedAnswers(hs);
    var g := Guarded(hs).s;
    if g.index <= 125 {
      AnsweredGrows(g.log, Cursor(Inc8(g.index)));
      AnsweredGrows(Tick(g).log, Cursor(Inc8(Tick(g).index)));
    } else {
      var log := Dispatch(hs).s.log;
      assert log[|log| - 1] == Panicking;
    }
  }

  lemma HandlerIsLow(hs: seq<Handler>, i: nat, s: State)
    requires i < |hs| <= 64 && s.index == i && NextsFrom(hs, 0) <= 63 && NextsFrom(hs, i) <= 62
    requires CursorsWithin(s.log, 1) && !Halted(s.log)
    ensures var r := RunHandler(hs, i, s); r.out == Normal ==> r.s.index <= 125
  {
    HandlerFits(hs, 63, i, s);
  }

  lemma SecondStart()
    ensures var s1 := Start(Tick(OpenSpan(Start(FRESH, 0))), 1);
            s1.index == 1 && CursorsWithin(s1.log, 1) && !Halted(s1.log)
  {
    assert Start(Tick(OpenSpan(Start(FRESH, 0))), 1).log == [Started(0), Cursor(1), Started(1)];
  }

  lemma OneForTelemetry(hs: seq<Handler>)
    requires GUARDS <= hs
    ensures NextsFrom(hs, 0) == 1 + NextsFrom(hs, 1)
  {
    assert hs[0] == Telemetry;
  }

  lemma GuardedIsLow(hs: seq<Handler>)
    requires GUARDS <= hs && |hs| <= 64 && NextsFrom(hs, 0) <= 63
    ensures Guarded(hs).out == Normal ==> Guarded(hs).s.index <= 125
  {
    OneForTelemetry(hs);
    SecondStart();
    HandlerIsLow(hs, 1, Start(Tick(OpenSpan(Start(FRESH, 0))), 1));
  }

  /** It has the room if at most 63 calls of `Next` are written in the chain, those of the two middlewares included: for
    * instance if each handler calls it at most once. */
  lemma FewNextsReturn(hs: seq<Handler>)
    requires GUARDS <= hs && |hs| <= 64 && (NextsFrom(hs, 0) <= 63 || (|hs| <= 63 && NextAtMostOnce(hs)))
    ensures Dispatch(hs).out == Normal && Answered(Dispatch(hs).s.log)
  {
    if NextAtMostOnce(hs) {
      OnceIsFew(hs, 0);
    }
    GuardedIsLow(hs);
    DispatchGuarded(hs);
    SpanTellsTheResponse(hs);
  }

  // ----- a handler that calls `Next` too often

  function Repeated(k: nat): seq<Op> {
    seq(k, _ => Next)
  }

  /** At the end of a chain, each call only moves the cursor. */
  lemma {:induction false} RepeatedNext(hs: seq<Handler>, i: nat, k: nat, s: State)
    requires i < |hs| <= 64 && |hs| == i + 1 && i <= s.index && s.index + k <= 127
    ensures var r := Exec(hs, i, Repeated(k), s);
            r.out == Normal && r.s.index == s.index + k && r.s.response == s.response
  {
    if k == 0 {
    } else {
      var t := Tick(s);
      assert CallNext(hs, i, s) == Run(t, Normal);
      assert Repeated(k)[1..] == Repeated(k - 1);
      RepeatedNext(hs, i, k - 1, t);
    }
  }

  /** 123 calls of `Next` in one handler behind the two are too many: Recovery returns, and the panic of the
    * dispatcher's own `Next`, on index -128, is answered by nobody. */
  lemma TooManyNextsPanic()
    ensures var hs := GUARDS + [Script(Repeated(123))];
            var r := Dispatch(hs);
            r.out == Panicked && r.s.response == None && !Answered(r.s.log)
  {
    var hs := GUARDS + [Script(Repeated(123))];
    var s1 := Start(Tick(OpenSpan(Start(FRESH, 0))), 1);
    var s2 := Start(Tick(s1), 2);
    assert hs[1] == Recovery && hs[2] == Script(Repeated(123));
    RepeatedNext(hs, 2, 123, s2);
    var r := RunHandler(hs, 2, s2);
    assert Loop(hs, Tick(r.s)) == Run(Tick(r.s), Normal);
    assert CallNext(hs, 1, s1) == Run(Tick(r.s), Normal);
    assert Guarded(hs) == Run(Tick(r.s), Normal) && Guarded(hs).s.index == 126;
    DispatchGuarded(hs);
    var log := Dispatch(hs).s.log;
    assert log[|log| - 1] == Panicking;
  }

  // ----- a panic behind the two

  /** If the handlers behind the two are plain ones, a panic at any depth settles the request: the response is the
    * recovery code, the span is in error with exactly one error recorded; and without a panic none is. `Guarded` is
    * where Recovery returns, and if the dispatch returns there is no panic after it. */
  lemma PanicSettlesTheRequest(hs: seq<Handler>)
    requires GUARDS <= hs && |hs| <= 64 && ScriptsAfter(hs, 1)
    ensures var s := Dispatch(hs).s;
            var panicked := Panicking in Guarded(hs).s.log;
            && |s.spans| == 1
            && s.spans[0].errors == (if panicked then 1 else 0)
            && (panicked ==> s.response == Some(-30) && s.spans[0].status == Error)
            && (Dispatch(hs).out == Normal ==> (panicked <==> Panicking in s.log))
  {
    SpanEndsOnce(hs);
    DispatchGuarded(hs);
    var s1 := Start(Tick(OpenSpan(Start(FRESH, 0))), 1);
    assert hs[1] == Recovery;
    ScriptLoop(hs, Tick(s1));
    var r := CallNext(hs, 1, s1);
    assert r == Loop(hs, Tick(s1)) && r.s.spans == [Span(Unset, 0, 0)];
    assert Guarded(hs) == if r.out == Panicked then Run(Rescue(r.s), Normal) else r;
    assert r.out == Panicked ==> Panicking in Guarded(hs).s.log;
  }
}
