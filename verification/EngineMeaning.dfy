/** What a dispatch is meant to do, without a cursor: `Next` runs the handlers that were not started yet, one after the
  * other, and an abort leaves none of them. As long as the cursor does not wrap, the engine does exactly this. */
module EngineMeaning {
  import opened Engine
  import opened EngineOrder
  import opened EngineBound
  import opened Wrappers

  /** `next` is the first handler that was not started yet. */
  datatype Plain = Plain(next: nat, response: Option<int>, spans: seq<Span>, log: seq<Event>)

  datatype PlainRun = PlainRun(p: Plain, out: Outcome)

  /** `q` comes after `p`. */
  ghost predicate Later(n: nat, p: Plain, q: Plain) {
    p.next <= q.next <= n && |p.spans| <= |q.spans| && p.log <= q.log
  }

  /** After a panic: the last span started is in error, the request is answered, and no handler is left. */
  function Rescued(n: nat, p: Plain): (q: Plain)
    requires p.next <= n
    ensures Later(n, p, q)
  {
    var k := |p.spans| - 1;
    Plain(n, Some(-30), if k < 0 then [] else p.spans[k := Span(Error, p.spans[k].errors + 1, p.spans[k].ends)],
          p.log + [Sent(-30), Aborted])
  }

  /** `Next`, and the rest of a dispatch. */
  function Rest(hs: seq<Handler>, p: Plain): (r: PlainRun)
    requires p.next <= |hs|
    ensures Later(|hs|, p, r.p) && (r.out == Normal ==> r.p.next == |hs|)
    ensures r.out == Panicked ==> Panicking in r.p.log
    decreases |hs| - p.next, 1, 0
  {
    if p.next == |hs| then PlainRun(p, Normal)
    else
      var r := Handled(hs, p.next, p.(next := p.next + 1, log := p.log + [Started(p.next)]));
      if r.out == Panicked then r else Rest(hs, r.p)
  }

  function Handled(hs: seq<Handler>, i: nat, p: Plain): (r: PlainRun)
    requires i < p.next <= |hs|
    ensures Later(|hs|, p, r.p)
    ensures r.out == Panicked ==> Panicking in r.p.log
    decreases |hs| - p.next, 3, 0
  {
    match hs[i]
    case Script(ops) => Performed(hs, ops, p)
    case Telemetry =>
      var k := |p.spans|;
      var r := Rest(hs, p.(spans := p.spans + [Span(Unset, 0, 0)]));
      var status := if r.p.response == None then Unset else if r.p.response == Some(0) then Ok else Error;
      PlainRun(r.p.(spans := r.p.spans[k := Span(status, r.p.spans[k].errors, r.p.spans[k].ends + 1)]), r.out)
    case Recovery =>
      var r := Rest(hs, p);
      if r.out == Panicked then PlainRun(Rescued(|hs|, r.p), Normal) else r
  }

  function Performed(hs: seq<Handler>, ops: seq<Op>, p: Plain): (r: PlainRun)
    requires p.next <= |hs|
    ensures Later(|hs|, p, r.p)
    ensures r.out == Panicked ==> Panicking in r.p.log
    decreases |hs| - p.next, 2, |ops|
  {
    if ops == [] then PlainRun(p, Normal)
    else match ops[0]
      case Work => Performed(hs, ops[1..], p)
      case Send(code) => Performed(hs, ops[1..], p.(response := Some(code), log := p.log + [Sent(code)]))
      case Abort => Performed(hs, ops[1..], p.(next := |hs|, log := p.log + [Aborted]))
      case Panic => PlainRun(p.(log := p.log + [Panicking]), Panicked)
      case Next =>
        var r := Rest(hs, p);
        if r.out == Panicked then r else Performed(hs, ops[1..], r.p)
  }

  function Meant(hs: seq<Handler>): PlainRun {
    Rest(hs, Plain(0, None, [], []))
  }

  // ----- the engine does this

  /** The log without the writes to the cursor. */
  function Visible(log: seq<Event>): seq<Event> {
    if log == [] then []
    else
      var n := |log| - 1;
      Visible(log[..n]) + if log[n].Cursor? then [] else [log[n]]
  }

  lemma VisibleOne(log: seq<Event>, e: Event)
    ensures Visible(log + [e]) == if e.Cursor? then Visible(log) else Visible(log) + [e]
  {
    assert (log + [e])[..|log|] == log;
  }

  ghost predicate Shows(s: State, p: Plain) {
    p.response == s.response && p.spans == s.spans && p.log == Visible(s.log)
  }

  function Min(a: int, b: int): int {
    if a < b then a else b
  }

  /** The cursor stands at the handler to be started, or one before it inside a handler (`ahead` is 1), or past all. */
  ghost predicate Stands(n: nat, s: State, p: Plain, ahead: nat) {
    Shows(s, p) && 0 <= s.index && p.next == Min(s.index + ahead, n)
  }

  ghost predicate Does(n: nat, r: Run, q: PlainRun) {
    r.out == q.out && Shows(r.s, q.p) && (r.out == Normal ==> Stands(n, r.s, q.p, 1))
  }

  lemma TickStands(n: nat, s: State, p: Plain)
    requires Stands(n, s, p, 1) && s.index < 127
    ensures Stands(n, Tick(s), p, 0)
  {
    VisibleOne(s.log, Cursor(Inc8(s.index)));
  }

  lemma StartStands(n: nat, s: State, p: Plain)
    requires Stands(n, s, p, 0) && s.index < n
    ensures p.next == s.index
    ensures Stands(n, Start(s, s.index), p.(next := p.next + 1, log := p.log + [Started(p.next)]), 1)
  {
    VisibleOne(s.log, Started(s.index));
  }

  lemma RespondStands(n: nat, s: State, p: Plain, code: int)
    requires Stands(n, s, p, 1)
    ensures Stands(n, Respond(s, code), p.(response := Some(code), log := p.log + [Sent(code)]), 1)
  {
    VisibleOne(s.log, Sent(code));
  }

  lemma StopStands(n: nat, s: State, p: Plain)
    requires n <= 64 && Shows(s, p)
    ensures Stands(n, Stop(s), p.(next := n, log := p.log + [Aborted]), 1)
  {
    VisibleOne(s.log, Aborted);
    VisibleOne(s.log + [Aborted], Cursor(ABORT_INDEX));
    assert s.log + [Aborted, Cursor(ABORT_INDEX)] == s.log + [Aborted] + [Cursor(ABORT_INDEX)];
  }

  lemma RescueStands(n: nat, s: State, p: Plain)
    requires p.next <= n <= 64 && Shows(s, p)
    ensures Stands(n, Rescue(s), Rescued(n, p), 1)
  {
    var marked := s.(spans := Rescued(n, p).spans);
    VisibleOne(s.log, Sent(RECOVERY_CODE));
    StopStands(n, Respond(marked, RECOVERY_CODE), Plain(p.next, Some(-30), marked.spans, p.log + [Sent(-30)]));
    assert p.log + [Sent(-30)] + [Aborted] == p.log + [Sent(-30), Aborted];
  }

  /** After a handler the cursor has room for the tick that follows. */
  lemma HandlerLeavesRoom(hs: seq<Handler>, cap: nat, i: nat, s: State)
    requires i < |hs| <= 64 && s.index == i && CapFor(hs, cap) && LogFits(hs, cap, s.log)
    ensures var r := RunHandler(hs, i, s);
            LogFits(hs, cap, r.s.log) && (r.out == Normal ==> r.s.index < 127 && LogFits(hs, cap, Tick(r.s).log))
  {
    FewerLater(hs, 0, i);
    HandlerFits(hs, cap, i, s);
  }

  lemma {:induction false} LoopDoes(hs: seq<Handler>, cap: nat, s: State, p: Plain)
    requires |hs| <= 64 && CapFor(hs, cap) && LogFits(hs, cap, s.log) && Stands(|hs|, s, p, 0)
    ensures Does(|hs|, Loop(hs, s), Rest(hs, p))
    decreases Left(|hs|, s.index), 0, 0
  {
    if s.index < |hs| {
      StartDoes(hs, cap, s, p);
      var r := RunHandler(hs, s.index, Start(s, s.index));
      if r.out == Normal {
        var q := Handled(hs, p.next, p.(next := p.next + 1, log := p.log + [Started(p.next)])).p;
        TickStands(|hs|, r.s, q);
        LoopDoes(hs, cap, Tick(r.s), q);
      }
    }
  }

  /** One turn of the loop, up to the tick. */
  lemma {:induction false} StartDoes(hs: seq<Handler>, cap: nat, s: State, p: Plain)
    requires 0 <= s.index < |hs| <= 64 && CapFor(hs, cap) && LogFits(hs, cap, s.log) && Stands(|hs|, s, p, 0)
    ensures var r := RunHandler(hs, s.index, Start(s, s.index));
            && p.next == s.index
            && Does(|hs|, r, Handled(hs, p.next, p.(next := p.next + 1, log := p.log + [Started(p.next)])))
            && (r.out == Normal ==> r.s.index < 127 && LogFits(hs, cap, Tick(r.s).log))
    decreases |hs| - 1 - s.index, 4, 0
  {
    var i := s.index;
    StartStands(|hs|, s, p);
    HandlerLeavesRoom(hs, cap, i, Start(s, i));
    HandlerDoes(hs, cap, i, Start(s, i), p.(next := i + 1, log := p.log + [Started(i)]));
  }

  lemma {:induction false} NextDoes(hs: seq<Handler>, cap: nat, i: nat, spare: nat, s: State, p: Plain)
    requires i < |hs| <= 64 && i <= s.index && CapFor(hs, cap)
    requires 1 <= spare <= NextsOf(hs[i]) && Fits(hs, cap, i, spare, s) && Stands(|hs|, s, p, 1)
    ensures Does(|hs|, CallNext(hs, i, s), Rest(hs, p))
    decreases |hs| - 1 - i, 1, 0
  {
    FewerLater(hs, 0, i);
    TickStands(|hs|, s, p);
    LoopDoes(hs, cap, Tick(s), p);
  }

  lemma {:induction false} HandlerDoes(hs: seq<Handler>, cap: nat, i: nat, s: State, p: Plain)
    requires i < |hs| <= 64 && s.index == i && CapFor(hs, cap) && LogFits(hs, cap, s.log)
    requires i < p.next && Stands(|hs|, s, p, 1)
    ensures Does(|hs|, RunHandler(hs, i, s), Handled(hs, i, p))
    decreases |hs| - 1 - i, 3, 0
  {
    match hs[i]
    case Script(ops) => ExecDoes(hs, cap, i, ops, s, p);
    case Telemetry => NextDoes(hs, cap, i, 1, OpenSpan(s), p.(spans := p.spans + [Span(Unset, 0, 0)]));
    case Recovery =>
      NextDoes(hs, cap, i, 1, s, p);
      RecoveryDoes(hs, i, s, p);
  }

  /** What Recovery makes of the outcome of its `Next`. */
  lemma RecoveryDoes(hs: seq<Handler>, i: nat, s: State, p: Plain)
    requires i < |hs| <= 64 && i <= s.index && i < p.next <= |hs| && hs[i] == Recovery
    requires Does(|hs|, CallNext(hs, i, s), Rest(hs, p))
    ensures Does(|hs|, RunHandler(hs, i, s), Handled(hs, i, p))
  {
    var r, q := CallNext(hs, i, s), Rest(hs, p);
    assert RunHandler(hs, i, s) == if r.out == Panicked then Run(Rescue(r.s), Normal) else r;
    assert Handled(hs, i, p) == if q.out == Panicked then PlainRun(Rescued(|hs|, q.p), Normal) else q;
    RescueStands(|hs|, r.s, q.p);
  }

  /** The calls other than `Next` and a panic. */
  function Simply(op: Op, s: State): State {
    match op
    case Send(code) => Respond(s, code)
    case Abort => Stop(s)
    case _ => s
  }

  function SimplyPlain(n: nat, op: Op, p: Plain): Plain {
    match op
    case Send(code) => p.(response := Some(code), log := p.log + [Sent(code)])
    case Abort => p.(next := n, log := p.log + [Aborted])
    case _ => p
  }

  lemma SimplyStands(n: nat, op: Op, s: State, p: Plain)
    requires n <= 64 && Stands(n, s, p, 1) && op != Next && op != Panic
    ensures Stands(n, Simply(op, s), SimplyPlain(n, op, p), 1)
  {
    match op
    case Send(code) => RespondStands(n, s, p, code);
    case Abort => StopStands(n, s, p);
    case _ =>
  }

  lemma SimplyFits(hs: seq<Handler>, cap: nat, i: nat, ops: seq<Op>, s: State)
    requires i < |hs| <= 64 && i <= s.index && CapFor(hs, cap) && ops != [] && ops[0] != Next && ops[0] != Panic
    requires Nexts(ops) <= NextsOf(hs[i]) && (Calm(hs) ==> Abort !in ops && Panic !in ops)
    requires Fits(hs, cap, i, Nexts(ops), s)
    ensures i <= Simply(ops[0], s).index && Fits(hs, cap, i, Nexts(ops[1..]), Simply(ops[0], s))
    ensures Exec(hs, i, ops, s) == Exec(hs, i, ops[1..], Simply(ops[0], s))
  {
    assert Nexts(ops[1..]) == Nexts(ops) && NextsOf(hs[i]) <= NextsFrom(hs, i);
    FewerLater(hs, 0, i);
  }

  lemma {:induction false} ExecDoes(hs: seq<Handler>, cap: nat, i: nat, ops: seq<Op>, s: State, p: Plain)
    requires i < |hs| <= 64 && i <= s.index && CapFor(hs, cap)
    requires Nexts(ops) <= NextsOf(hs[i]) && (Calm(hs) ==> Abort !in ops && Panic !in ops)
    requires Fits(hs, cap, i, Nexts(ops), s) && Stands(|hs|, s, p, 1)
    ensures Does(|hs|, Exec(hs, i, ops, s), Performed(hs, ops, p))
    decreases |hs| - 1 - i, 2, |ops|, 1
  {
    if ops == [] {
    } else if ops[0] == Panic {
      VisibleOne(s.log, Panicking);
    } else if ops[0] == Next {
      NextThenDoes(hs, cap, i, ops, s, p);
    } else {
      var t, q := Simply(ops[0], s), SimplyPlain(|hs|, ops[0], p);
      SimplyFits(hs, cap, i, ops, s);
      SimplyStands(|hs|, ops[0], s, p);
      ExecDoes(hs, cap, i, ops[1..], t, q);
      assert Performed(hs, ops, p) == Performed(hs, ops[1..], q);
    }
  }

  lemma {:induction false} NextThenDoes(hs: seq<Handler>, cap: nat, i: nat, ops: seq<Op>, s: State, p: Plain)
    requires i < |hs| <= 64 && i <= s.index && CapFor(hs, cap) && ops != [] && ops[0] == Next
    requires Nexts(ops) <= NextsOf(hs[i]) && (Calm(hs) ==> Abort !in ops && Panic !in ops)
    requires Fits(hs, cap, i, Nexts(ops), s) && Stands(|hs|, s, p, 1)
    ensures Does(|hs|, Exec(hs, i, ops, s), Performed(hs, ops, p))
    decreases |hs| - 1 - i, 2, |ops|, 0
  {
    NextFits(hs, cap, i, Nexts(ops), s);
    NextDoes(hs, cap, i, Nexts(ops), s, p);
    var r, q := CallNext(hs, i, s), Rest(hs, p);
    assert Exec(hs, i, ops, s) == if r.out == Panicked then r else Exec(hs, i, ops[1..], r.s);
    assert Performed(hs, ops, p) == if q.out == Panicked then q else Performed(hs, ops[1..], q.p);
    if r.out == Normal {
      ExecDoes(hs, cap, i, ops[1..], r.s, q.p);
    }
  }

  /** The cursor has room for the calls of `Next` that are written in the chain. */
  ghost predicate HasRoom(hs: seq<Handler>) {
    NextsFrom(hs, 0) <= 63 || (Calm(hs) && |hs| + NextsFrom(hs, 0) <= 127)
  }

  /** Where the two stand when handler 0 has been started. */
  lemma FirstStands(n: nat)
    requires 0 < n
    ensures Stands(n, Start(FRESH, 0), Plain(1, None, [], [Started(0)]), 1)
  {
    VisibleOne([], Started(0));
    assert Start(FRESH, 0).log == [] + [Started(0)] == [Started(0)];
  }

  /** Main result: with room for the cursor, the engine ends as it is meant to, with the same response, the same spans
    * and the same events in the same order. */
  lemma DispatchIsMeant(hs: seq<Handler>)
    requires 0 < |hs| <= 64 && HasRoom(hs)
    ensures var r := Dispatch(hs); var q := Meant(hs);
            && r.out == q.out && r.s.response == q.p.response && r.s.spans == q.p.spans
            && Visible(r.s.log) == q.p.log
  {
    var cap := if NextsFrom(hs, 0) <= 63 then 63 else |hs| - 1;
    var s, p := Start(FRESH, 0), Plain(1, None, [], [Started(0)]);
    FirstStands(|hs|);
    HandlerLeavesRoom(hs, cap, 0, s);
    HandlerDoes(hs, cap, 0, s, p);
    var r, q := RunHandler(hs, 0, s), Handled(hs, 0, p);
    assert Plain(0, None, [], []).log + [Started(0)] == [Started(0)];
    assert Meant(hs) == if q.out == Panicked then q else Rest(hs, q.p);
    if r.out == Normal {
      TickStands(|hs|, r.s, q.p);
      LoopDoes(hs, cap, Tick(r.s), q.p);
      assert Dispatch(hs) == Loop(hs, Tick(r.s));
    }
  }
}
