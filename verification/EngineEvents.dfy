/** What the log of a dispatch owes to the scripts: every response, abort and panic in it was asked for by a handler
  * that was started, and without a panic nothing that was asked for is missing. */
module EngineEvents {
  import opened Engine
  import opened EngineOrder
  import opened EngineBound
  import opened EngineSpans
  import opened EngineMeaning
  import opened Wrappers

  function Count(log: seq<Event>, e: Event): nat {
    if log == [] then 0
    else
      var n := |log| - 1;
      Count(log[..n], e) + if log[n] == e then 1 else 0
  }

  /** A response, an abort or a panic. */
  predicate Visibly(e: Event) {
    e.Sent? || e == Aborted || e == Panicking
  }

  /** How often a script asks for this. */
  function Asked(ops: seq<Op>, e: Event): nat {
    if ops == [] then 0
    else
      var mine := match ops[0]
                  case Send(code) => e == Sent(code)
                  case Abort => e == Aborted
                  case Panic => e == Panicking
                  case _ => false;
      (if mine then 1 else 0) + Asked(ops[1..], e)
  }

  /** What a handler can add: a script what it asks for, and Recovery, if `rescues`, its answer and its abort. */
  function Share(h: Handler, e: Event, rescues: bool): nat {
    match h
    case Script(ops) => Asked(ops, e)
    case Recovery => if rescues && (e == Sent(-30) || e == Aborted) then 1 else 0
    case Telemetry => 0
  }

  /** The shares of all handlers started. */
  function Due(hs: seq<Handler>, log: seq<Event>, e: Event, rescues: bool): nat {
    if log == [] then 0
    else
      var n := |log| - 1;
      Due(hs, log[..n], e, rescues) +
      if log[n].Started? && log[n].i < |hs| then Share(hs[log[n].i], e, rescues) else 0
  }

  lemma CountOne(log: seq<Event>, x: Event, e: Event)
    ensures Count(log + [x], e) == Count(log, e) + if x == e then 1 else 0
  {
    assert (log + [x])[..|log|] == log;
  }

  lemma DueOne(hs: seq<Handler>, log: seq<Event>, x: Event, e: Event, rescues: bool)
    ensures Due(hs, log + [x], e, rescues) ==
            Due(hs, log, e, rescues) + if x.Started? && x.i < |hs| then Share(hs[x.i], e, rescues) else 0
  {
    assert (log + [x])[..|log|] == log;
  }

  /** Between the two logs, where `own` is the share of what ran besides the handlers started in between: no more than
    * all shares, and exactly these if nothing panicked. */
  ghost predicate Balanced(hs: seq<Handler>, a: seq<Event>, b: seq<Event>, e: Event, most: nat, own: nat) {
    && Count(b, e) + Due(hs, a, e, true) <= Count(a, e) + most + Due(hs, b, e, true)
    && (Panicking !in b ==> Count(b, e) + Due(hs, a, e, false) == Count(a, e) + own + Due(hs, b, e, false))
  }

  lemma BalancedTwice(hs: seq<Handler>, a: seq<Event>, b: seq<Event>, c: seq<Event>, e: Event,
                      m: nat, o: nat, m': nat, o': nat)
    requires Balanced(hs, a, b, e, m, o) && Balanced(hs, b, c, e, m', o') && b <= c
    ensures Balanced(hs, a, c, e, m + m', o + o')
  {
  }

  /** One event more, which starts nothing. */
  lemma BalancedOne(hs: seq<Handler>, a: seq<Event>, x: Event, e: Event)
    requires Visibly(x)
    ensures Balanced(hs, a, a + [x], e, if x == e then 1 else 0, if x == e then 1 else 0)
  {
    CountOne(a, x, e);
    DueOne(hs, a, x, e, true);
    DueOne(hs, a, x, e, false);
  }

  /** What a started handler does is its share. */
  lemma StartedBalanced(hs: seq<Handler>, a: seq<Event>, i: nat, b: seq<Event>, e: Event)
    requires i < |hs| && Visibly(e)
    requires Balanced(hs, a + [Started(i)], b, e, Share(hs[i], e, true), Share(hs[i], e, false))
    ensures Balanced(hs, a, b, e, 0, 0)
  {
    CountOne(a, Started(i), e);
    DueOne(hs, a, Started(i), e, true);
    DueOne(hs, a, Started(i), e, false);
  }

  lemma {:induction false} RestBalanced(hs: seq<Handler>, p: Plain, e: Event)
    requires p.next <= |hs| && Visibly(e)
    ensures Balanced(hs, p.log, Rest(hs, p).p.log, e, 0, 0)
    decreases |hs| - p.next, 1, 0
  {
    if p.next == |hs| {
    } else {
      TurnBalanced(hs, p, e);
      var r := Handled(hs, p.next, p.(next := p.next + 1, log := p.log + [Started(p.next)]));
      assert Rest(hs, p) == if r.out == Panicked then r else Rest(hs, r.p);
      if r.out == Normal {
        RestBalanced(hs, r.p, e);
        BalancedTwice(hs, p.log, r.p.log, Rest(hs, r.p).p.log, e, 0, 0, 0, 0);
      }
    }
  }

  lemma {:induction false} TurnBalanced(hs: seq<Handler>, p: Plain, e: Event)
    requires p.next < |hs| && Visibly(e)
    ensures var r := Handled(hs, p.next, p.(next := p.next + 1, log := p.log + [Started(p.next)]));
            Balanced(hs, p.log, r.p.log, e, 0, 0)
    decreases |hs| - p.next, 0, 0
  {
    var i := p.next;
    var q := p.(next := i + 1, log := p.log + [Started(i)]);
    HandledBalanced(hs, i, q, e);
    StartedBalanced(hs, p.log, i, Handled(hs, i, q).p.log, e);
  }

  lemma {:induction false} HandledBalanced(hs: seq<Handler>, i: nat, p: Plain, e: Event)
    requires i < p.next <= |hs| && Visibly(e)
    ensures Balanced(hs, p.log, Handled(hs, i, p).p.log, e, Share(hs[i], e, true), Share(hs[i], e, false))
    decreases |hs| - p.next, 3, 0
  {
    match hs[i]
    case Script(ops) => PerformedBalanced(hs, ops, p, e);
    case Telemetry => RestBalanced(hs, p.(spans := p.spans + [Span(Unset, 0, 0)]), e);
    case Recovery =>
      RestBalanced(hs, p, e);
      var r := Rest(hs, p);
      if r.out == Panicked {
        RescuedBalanced(hs, r.p.log, e);
        BalancedTwice(hs, p.log, r.p.log, r.p.log + [Sent(-30), Aborted], e, 0, 0, Share(Recovery, e, true), 0);
      }
  }

  lemma RescuedBalanced(hs: seq<Handler>, log: seq<Event>, e: Event)
    requires Panicking in log
    ensures Balanced(hs, log, log + [Sent(-30), Aborted], e, Share(Recovery, e, true), 0)
  {
    var more := log + [Sent(-30)];
    assert log + [Sent(-30), Aborted] == more + [Aborted];
    CountOne(log, Sent(-30), e);
    CountOne(more, Aborted, e);
    DueOne(hs, log, Sent(-30), e, true);
    DueOne(hs, more, Aborted, e, true);
    assert Panicking in more + [Aborted];
  }

  lemma {:induction false} PerformedBalanced(hs: seq<Handler>, ops: seq<Op>, p: Plain, e: Event)
    requires p.next <= |hs| && Visibly(e)
    ensures Balanced(hs, p.log, Performed(hs, ops, p).p.log, e, Asked(ops, e), Asked(ops, e))
    decreases |hs| - p.next, 2, |ops|
  {
    if ops == [] {
    } else if ops[0] == Panic {
      BalancedOne(hs, p.log, Panicking, e);
    } else if ops[0] == Next {
      RestBalanced(hs, p, e);
      var r := Rest(hs, p);
      if r.out == Normal {
        PerformedBalanced(hs, ops[1..], r.p, e);
        BalancedTwice(hs, p.log, r.p.log, Performed(hs, ops[1..], r.p).p.log, e,
                      0, 0, Asked(ops[1..], e), Asked(ops[1..], e));
      }
    } else {
      var q := SimplyPlain(|hs|, ops[0], p);
      assert Performed(hs, ops, p) == Performed(hs, ops[1..], q);
      PerformedBalanced(hs, ops[1..], q, e);
      var one := Asked(ops, e) - Asked(ops[1..], e);
      SimplyBalanced(hs, ops[0], p, e, one);
      BalancedTwice(hs, p.log, q.log, Performed(hs, ops, p).p.log, e, one, one, Asked(ops[1..], e), Asked(ops[1..], e));
    }
  }

  lemma SimplyBalanced(hs: seq<Handler>, op: Op, p: Plain, e: Event, one: int)
    requires Visibly(e) && op != Next && op != Panic
    requires one == if (op.Send? && e == Sent(op.code)) || (op == Abort && e == Aborted) then 1 else 0
    ensures Balanced(hs, p.log, SimplyPlain(|hs|, op, p).log, e, one, one)
  {
    match op
    case Send(code) => BalancedOne(hs, p.log, Sent(code), e);
    case Abort => BalancedOne(hs, p.log, Aborted, e);
    case _ =>
  }

  lemma {:induction false} SameCount(log: seq<Event>, e: Event)
    requires Visibly(e)
    ensures Count(Visible(log), e) == Count(log, e)
  {
    if log == [] {
    } else {
      var front, x := log[..|log| - 1], log[|log| - 1];
      SameCount(front, e);
      if x.Cursor? {
        assert Visible(front) + [] == Visible(front);
      } else {
        CountOne(Visible(front), x, e);
      }
    }
  }

  lemma {:induction false} SameDue(hs: seq<Handler>, log: seq<Event>, e: Event, rescues: bool)
    ensures Due(hs, Visible(log), e, rescues) == Due(hs, log, e, rescues)
  {
    if log == [] {
    } else {
      var front, x := log[..|log| - 1], log[|log| - 1];
      SameDue(hs, front, e, rescues);
      if x.Cursor? {
        assert Visible(front) + [] == Visible(front);
      } else {
        DueOne(hs, Visible(front), x, e, rescues);
      }
    }
  }

  lemma {:induction false} CountIff(log: seq<Event>, e: Event)
    ensures Count(log, e) > 0 <==> e in log
  {
    if log == [] {
    } else {
      var n := |log| - 1;
      CountIff(log[..n], e);
      assert log == log[..n] + [log[n]];
    }
  }

  /** Main result: in a dispatch with room for the cursor, no response, abort or panic occurs more often than the
    * handlers started ask for it, and Recovery for its own; and if nothing panicked, each occurs exactly as often
    * as the scripts started ask for it. */
  lemma EventsAreAsked(hs: seq<Handler>, e: Event)
    requires 0 < |hs| <= 64 && HasRoom(hs) && Visibly(e)
    ensures var log := Dispatch(hs).s.log;
            && Count(log, e) <= Due(hs, log, e, true)
            && (Panicking !in log ==> Count(log, e) == Due(hs, log, e, false))
  {
    var log := Dispatch(hs).s.log;
    DispatchIsMeant(hs);
    RestBalanced(hs, Plain(0, None, [], []), e);
    SameCount(log, e);
    SameDue(hs, log, e, true);
    SameDue(hs, log, e, false);
    SameCount(log, Panicking);
    CountIff(log, Panicking);
    CountIff(Visible(log), Panicking);
  }

  // ----- in terms of the scripts

  /** The handler was started, and calls this. */
  ghost predicate Calls(hs: seq<Handler>, log: seq<Event>, j: nat, op: Op) {
    j in Starts(log) && j < |hs| && hs[j].Script? && op in hs[j].ops
  }

  function EventOf(op: Op): (e: Event)
    requires op.Send? || op == Abort || op == Panic
    ensures Visibly(e)
  {
    match op
    case Send(code) => Sent(code)
    case Abort => Aborted
    case Panic => Panicking
  }

  lemma {:induction false} AskedIff(ops: seq<Op>, op: Op)
    requires op.Send? || op == Abort || op == Panic
    ensures Asked(ops, EventOf(op)) > 0 <==> op in ops
  {
    if ops == [] {
    } else {
      AskedIff(ops[1..], op);
      assert ops == [ops[0]] + ops[1..];
    }
  }

  lemma {:induction false} DueIff(hs: seq<Handler>, log: seq<Event>, op: Op)
    requires op.Send? || op == Abort || op == Panic
    ensures Due(hs, log, EventOf(op), false) > 0 <==> exists j: nat :: Calls(hs, log, j, op)
  {
    if log == [] {
    } else {
      var n := |log| - 1;
      var x := log[n];
      assert log == log[..n] + [x];
      DueIff(hs, log[..n], op);
      LogOne(log[..n], x);
      assert forall j: nat :: Calls(hs, log[..n], j, op) ==> Calls(hs, log, j, op);
      if x.Started? && x.i < |hs| && hs[x.i].Script? {
        AskedIff(hs[x.i].ops, op);
        assert Calls(hs, log, x.i, op) <==> op in hs[x.i].ops;
      }
      assert forall j: nat :: Calls(hs, log, j, op) ==> Calls(hs, log[..n], j, op) || (x.Started? && x.i == j);
    }
  }

  /** Recovery adds nothing but its own answer and abort. */
  lemma {:induction false} DueWithoutRescues(hs: seq<Handler>, log: seq<Event>, e: Event)
    requires e != Sent(-30) && e != Aborted
    ensures Due(hs, log, e, true) == Due(hs, log, e, false)
  {
    if log == [] {
    } else {
      DueWithoutRescues(hs, log[..|log| - 1], e);
    }
  }

  /** Something panics exactly if a handler that panics was started. */
  lemma PanicsIff(hs: seq<Handler>)
    requires 0 < |hs| <= 64 && HasRoom(hs)
    ensures var log := Dispatch(hs).s.log; Panicking in log <==> exists j: nat :: Calls(hs, log, j, Panic)
  {
    var log := Dispatch(hs).s.log;
    EventsAreAsked(hs, Panicking);
    CountIff(log, Panicking);
    DueIff(hs, log, Panic);
    DueWithoutRescues(hs, log, Panicking);
  }

  /** Apart from Recovery, only what a handler that was started sends is sent, and if nothing panics, all of it; and so
    * for aborts. */
  lemma OccursIff(hs: seq<Handler>, op: Op)
    requires 0 < |hs| <= 64 && HasRoom(hs) && (op.Send? || op == Abort)
    ensures var log := Dispatch(hs).s.log; var e := EventOf(op);
            && (e in log && e != Sent(-30) && e != Aborted ==> exists j: nat :: Calls(hs, log, j, op))
            && (Panicking !in log ==> (e in log <==> exists j: nat :: Calls(hs, log, j, op)))
  {
    var log := Dispatch(hs).s.log;
    var e := EventOf(op);
    EventsAreAsked(hs, e);
    CountIff(log, e);
    DueIff(hs, log, op);
    if e != Sent(-30) && e != Aborted {
      DueWithoutRescues(hs, log, e);
    }
  }

  /** A panicking handler behind the two middlewares, among plain ones: the request is answered with -30, and the
    * span is in error, with one error recorded. */
  lemma PanicIsAnswered(hs: seq<Handler>, j: nat)
    requires GUARDS <= hs && |hs| <= 64 && NextsFrom(hs, 0) <= 63 && ScriptsAfter(hs, 1)
    requires Calls(hs, Dispatch(hs).s.log, j, Panic)
    ensures var r := Dispatch(hs);
            && r.out == Normal && r.s.response == Some(-30)
            && |r.s.spans| == 1 && r.s.spans[0] == Span(Error, 1, 1)
  {
    PanicsIff(hs);
    FewNextsReturn(hs);
    SpanEndsOnce(hs);
    PanicSettlesTheRequest(hs);
  }

  // ----- the response

  /** The code sent last. */
  function LastSent(log: seq<Event>): Option<int> {
    if log == [] then None
    else
      var n := |log| - 1;
      if log[n].Sent? then Some(log[n].code) else LastSent(log[..n])
  }

  ghost predicate Tells(s: State) {
    s.response == LastSent(s.log)
  }

  lemma TellsOne(log: seq<Event>, e: Event)
    ensures LastSent(log + [e]) == if e.Sent? then Some(e.code) else LastSent(log)
  {
    assert (log + [e])[..|log|] == log;
  }

  lemma StartTells(s: State, i: nat)
    requires Tells(s)
    ensures Tells(Start(s, i))
  {
    TellsOne(s.log, Started(i));
  }

  lemma TickTells(s: State)
    requires Tells(s)
    ensures Tells(Tick(s))
  {
    TellsOne(s.log, Cursor(Inc8(s.index)));
  }

  lemma ThrowTells(s: State)
    requires Tells(s)
    ensures Tells(Throw(s).s)
  {
    TellsOne(s.log, Panicking);
  }

  lemma RespondTells(s: State, code: int)
    ensures Tells(Respond(s, code))
  {
    TellsOne(s.log, Sent(code));
  }

  lemma StopTells(s: State)
    requires Tells(s)
    ensures Tells(Stop(s))
  {
    TellsOne(s.log, Aborted);
    TellsOne(s.log + [Aborted], Cursor(ABORT_INDEX));
    assert s.log + [Aborted, Cursor(ABORT_INDEX)] == s.log + [Aborted] + [Cursor(ABORT_INDEX)];
  }

  lemma RescueTells(s: State)
    ensures Tells(Rescue(s))
  {
    RespondTells(s, RECOVERY_CODE);
    var t := Respond(s, RECOVERY_CODE);
    StopTells(t);
    assert Rescue(s).log == Stop(t).log && Rescue(s).response == t.response;
  }

  lemma {:induction false} LoopTells(hs: seq<Handler>, s: State)
    requires |hs| <= 64 && Tells(s)
    ensures Tells(Loop(hs, s).s)
    decreases Left(|hs|, s.index), 0, 0
  {
    if s.index < 0 {
      ThrowTells(s);
    } else if s.index < |hs| {
      StartTells(s, s.index);
      HandlerTells(hs, s.index, Start(s, s.index));
      var r := RunHandler(hs, s.index, Start(s, s.index));
      if r.out == Normal {
        TickTells(r.s);
        LoopTells(hs, Tick(r.s));
      }
    }
  }

  lemma {:induction false} NextTells(hs: seq<Handler>, i: nat, s: State)
    requires i < |hs| <= 64 && i <= s.index && Tells(s)
    ensures Tells(CallNext(hs, i, s).s)
    decreases |hs| - 1 - i, 1, 0
  {
    TickTells(s);
    LoopTells(hs, Tick(s));
  }

  lemma {:induction false} HandlerTells(hs: seq<Handler>, i: nat, s: State)
    requires i < |hs| <= 64 && i <= s.index && Tells(s)
    ensures Tells(RunHandler(hs, i, s).s)
    decreases |hs| - 1 - i, 3, 0
  {
    match hs[i]
    case Script(ops) => ExecTells(hs, i, ops, s);
    case Telemetry => NextTells(hs, i, OpenSpan(s));
    case Recovery =>
      NextTells(hs, i, s);
      RescueTells(CallNext(hs, i, s).s);
  }

  lemma {:induction false} ExecTells(hs: seq<Handler>, i: nat, ops: seq<Op>, s: State)
    requires i < |hs| <= 64 && i <= s.index && Tells(s)
    ensures Tells(Exec(hs, i, ops, s).s)
    decreases |hs| - 1 - i, 2, |ops|
  {
    if ops == [] {
    } else {
      match ops[0]
      case Work => ExecTells(hs, i, ops[1..], s);
      case Send(code) =>
        RespondTells(s, code);
        ExecTells(hs, i, ops[1..], Respond(s, code));
      case Abort =>
        StopTells(s);
        ExecTells(hs, i, ops[1..], Stop(s));
      case Panic => ThrowTells(s);
      case Next =>
        NextTells(hs, i, s);
        var r := CallNext(hs, i, s);
        if r.out == Normal {
          ExecTells(hs, i, ops[1..], r.s);
        }
    }
  }

  /** For any chain of up to 64 and any ending, the response is the one sent last. */
  lemma ResponseIsLastSent(hs: seq<Handler>)
    requires 0 < |hs| <= 64
    ensures Dispatch(hs).s.response == LastSent(Dispatch(hs).s.log)
  {
    TellsOne([], Started(0));
    var s := Start(FRESH, 0);
    assert s.log == [] + [Started(0)];
    HandlerTells(hs, 0, s);
    var r := RunHandler(hs, 0, s);
    if r.out == Normal {
      NextTells(hs, 0, r.s);
    }
  }
}
