/** The middleware engine: the re-entrant cursor of ws/context.go, the dispatcher that starts it, and the
  * two shipped middlewares that wrap it with defer / recover.
  *
  * A handler is the script of calls it makes on its context. `Next` is re-entrant: a handler calls it while
  * outer `Next` loops are still running on the same 8-bit cursor. */
module Engine {
  import opened Wrappers

  /** The signed 8-bit cursor; incrementing it wraps. */
  type Int8 = x: int | -128 <= x < 128

  const ABORT_INDEX: Int8 := 63
  const RECOVERY_CODE := -30
  const UNSUPPORTED_CODE := -1005

  function Inc8(x: Int8): Int8 {
    if x == 127 then -128 else x + 1
  }

  datatype Op = Work | Send(code: int) | Next | Abort | Panic

  datatype Handler = Script(ops: seq<Op>) | Telemetry | Recovery

  datatype Status = Unset | Ok | Error

  datatype Span = Span(status: Status, errors: nat, ends: nat)

  /** What can be observed of a run, in order. `Cursor` records every write to the cursor. */
  datatype Event = Started(i: nat) | Cursor(index: Int8) | Aborted | Panicking | Sent(code: int)

  datatype State = State(index: Int8, response: Option<int>, spans: seq<Span>, log: seq<Event>)

  datatype Outcome = Normal | Panicked

  datatype Run = Run(s: State, out: Outcome)

  // ----- the calls a handler can make, one at a time

  function Tick(s: State): State {
    s.(index := Inc8(s.index), log := s.log + [Cursor(Inc8(s.index))])
  }

  function Start(s: State, i: nat): State {
    s.(log := s.log + [Started(i)])
  }

  function Respond(s: State, code: int): State {
    s.(response := Some(code), log := s.log + [Sent(code)])
  }

  function Stop(s: State): State {
    s.(index := ABORT_INDEX, log := s.log + [Aborted, Cursor(ABORT_INDEX)])
  }

  function Throw(s: State): Run {
    Run(s.(log := s.log + [Panicking]), Panicked)
  }

  /** `t` comes after `s`: the log has grown, and no span known before was ended in between. */
  ghost predicate Extends(s: State, t: State) {
    s.log <= t.log && |s.spans| <= |t.spans| && forall j :: 0 <= j < |s.spans| ==> t.spans[j].ends == s.spans[j].ends
  }

  /** The deferred function of Recovery, when it has caught a panic: mark the span of the current context (the
    * last one started, or the no-op span), answer, and abort. */
  function Rescue(s: State): (t: State)
    ensures |t.spans| == |s.spans| && Extends(s, t)
  {
    var marked := if s.spans == [] then s else
                  var k := |s.spans| - 1;
                  s.(spans := s.spans[k := s.spans[k].(errors := s.spans[k].errors + 1, status := Error)]);
    Stop(Respond(marked, RECOVERY_CODE))
  }

  function StatusOf(response: Option<int>): Status {
    match response
    case None => Unset
    case Some(code) => if code == 0 then Ok else Error
  }

  function OpenSpan(s: State): State {
    s.(spans := s.spans + [Span(Unset, 0, 0)])
  }

  /** The deferred function of Telemetry for its own span `k`. */
  function CloseSpan(s: State, k: nat): State
    requires k < |s.spans|
  {
    s.(spans := s.spans[k := s.spans[k].(status := StatusOf(s.response), ends := s.spans[k].ends + 1)])
  }

  // ----- the engine

  /** How many handlers a loop standing at `index` can still start. */
  function Left(n: nat, index: int): nat {
    if 0 <= index < n then n - index else 0
  }

  /** `Next`, called by handler `i`. Up to 64 handlers every run ends: an abort puts the cursor at 63, so the
    * next tick leaves the chain. (A 65th handler that aborts is started again, for ever.) */
  function CallNext(hs: seq<Handler>, i: nat, s: State): (r: Run)
    requires i < |hs| <= 64 && i <= s.index
    ensures r.out == Normal ==> |hs| <= r.s.index
    ensures r.out == Panicked ==> Panicking in r.s.log
    ensures Extends(s, r.s)
    decreases |hs| - 1 - i, 1, 0
  {
    Loop(hs, Tick(s))
  }

  /** The loop of `Next`. A cursor that has wrapped is negative, and indexing the chain with it panics. */
  function Loop(hs: seq<Handler>, s: State): (r: Run)
    requires |hs| <= 64
    ensures r.out == Normal ==> |hs| <= r.s.index
    ensures r.out == Panicked ==> Panicking in r.s.log
    ensures Extends(s, r.s)
    decreases Left(|hs|, s.index), 0, 0
  {
    if |hs| <= s.index then Run(s, Normal)
    else if s.index < 0 then Throw(s)
    else
      var r := RunHandler(hs, s.index, Start(s, s.index));
      if r.out == Panicked then r else Loop(hs, Tick(r.s))
  }

  function RunHandler(hs: seq<Handler>, i: nat, s: State): (r: Run)
    requires i < |hs| <= 64 && i <= s.index
    ensures r.out == Normal ==> i <= r.s.index
    ensures r.out == Panicked ==> Panicking in r.s.log
    ensures Extends(s, r.s)
    decreases |hs| - 1 - i, 3, 0
  {
    match hs[i]
    case Script(ops) => Exec(hs, i, ops, s)
    case Recovery =>
      var r := CallNext(hs, i, s);
      if r.out == Panicked then Run(Rescue(r.s), Normal) else r
    case Telemetry =>
      var r := CallNext(hs, i, OpenSpan(s));
      Run(CloseSpan(r.s, |s.spans|), r.out)
  }

  function Exec(hs: seq<Handler>, i: nat, ops: seq<Op>, s: State): (r: Run)
    requires i < |hs| <= 64 && i <= s.index
    ensures r.out == Normal ==> i <= r.s.index
    ensures r.out == Panicked ==> Panicking in r.s.log
    ensures Extends(s, r.s)
    decreases |hs| - 1 - i, 2, |ops|
  {
    if ops == [] then Run(s, Normal)
    else match ops[0]
      case Work => Exec(hs, i, ops[1..], s)
      case Send(code) => Exec(hs, i, ops[1..], Respond(s, code))
      case Abort => Exec(hs, i, ops[1..], Stop(s))
      case Panic => Throw(s)
      case Next =>
        var r := CallNext(hs, i, s);
        if r.out == Panicked then r else Exec(hs, i, ops[1..], r.s)
  }

  const FRESH := State(0, None, [], [])

  /** The end of `Dispatcher`: handler 0 is started by hand, then `Next` runs what is left. */
  function Dispatch(hs: seq<Handler>): Run
    requires 0 < |hs| <= 64
  {
    var r := RunHandler(hs, 0, Start(FRESH, 0));
    if r.out == Panicked then r else CallNext(hs, 0, r.s)
  }

  // ----- the engine as the source runs it, on one mutable context

  class Context {
    const handlers: seq<Handler>
    var index: Int8
    var response: Option<int>
    var spans: seq<Span>
    ghost var log: seq<Event>

    constructor (handlers: seq<Handler>)
      ensures this.handlers == handlers && View() == FRESH
    {
      this.handlers := handlers;
      index, response, spans, log := 0, None, [], [];
    }

    ghost function View(): State
      reads this
    {
      State(index, response, spans, log)
    }

    method SetCursor(x: Int8)
      modifies this`index, this`log
      ensures View() == old(View()).(index := x, log := old(log) + [Cursor(x)])
    {
      index := x;
      log := log + [Cursor(x)];
    }

    method Abort()
      modifies this`index, this`log
      ensures View() == Stop(old(View()))
    {
      log := log + [Aborted];
      SetCursor(ABORT_INDEX);
    }

    method SendCode(code: int)
      modifies this`response, this`log
      ensures View() == Respond(old(View()), code)
    {
      response := Some(code);
      log := log + [Sent(code)];
    }

    method Next(ghost i: nat) returns (out: Outcome)
      requires i < |handlers| <= 64 && i <= index
      modifies this
      ensures Run(View(), out) == CallNext(handlers, i, old(View()))
      decreases |handlers| - 1 - i, 1, 0
    {
      SetCursor(Inc8(index));
      ghost var entry := View();
      while index < |handlers|
        invariant i < index || index < 0
        invariant Loop(handlers, View()) == Loop(handlers, entry)
        decreases Left(|handlers|, index), if index < 0 then 1 else 0
      {
        if index < 0 {
          log := log + [Panicking];
          return Panicked;
        }
        log := log + [Started(index)];
        var o := Handle(index);
        if o == Panicked {
          return Panicked;
        }
        SetCursor(Inc8(index));
      }
      return Normal;
    }

    method Handle(i: nat) returns (out: Outcome)
      requires i < |handlers| <= 64 && i <= index
      modifies this
      ensures Run(View(), out) == RunHandler(handlers, i, old(View()))
      decreases |handlers| - 1 - i, 3, 0
    {
      match handlers[i]
      case Script(ops) => out := Perform(i, ops);
      case Recovery =>
        out := Next(i);
        if out == Panicked {
          if spans != [] {
            var k := |spans| - 1;
            spans := spans[k := spans[k].(errors := spans[k].errors + 1, status := Error)];
          }
          SendCode(RECOVERY_CODE);
          Abort();
          out := Normal;
        }
      case Telemetry =>
        var k := |spans|;
        spans := spans + [Span(Unset, 0, 0)];
        out := Next(i);
        spans := spans[k := spans[k].(status := StatusOf(response), ends := spans[k].ends + 1)];
    }

    method Perform(i: nat, ops: seq<Op>) returns (out: Outcome)
      requires i < |handlers| <= 64 && i <= index
      modifies this
      ensures Run(View(), out) == Exec(handlers, i, ops, old(View()))
      decreases |handlers| - 1 - i, 2, |ops|
    {
      if ops == [] {
        return Normal;
      }
      match ops[0] {
        case Work =>
        case Send(code) => SendCode(code);
        case Abort => Abort();
        case Panic =>
          log := log + [Panicking];
          return Panicked;
        case Next =>
          var o := Next(i);
          if o == Panicked {
            return Panicked;
          }
      }
      out := Perform(i, ops[1..]);
    }
  }

  /** The part of a client that the dispatcher reads and writes; `sent` holds the codes it was answered with
    * outside any handler. Time 0 is the zero time. */
  class Caller {
    var banned: bool
    var lastRequest: int
    var lastHeartbeat: int
    var sent: seq<int>
  }

  const BANNED_CODE := -1001
  const PONG_CODE := 0

  /** `Dispatcher` after parsing: `ran` is the context of the run, if the request got as far as a chain. */
  method Dispatcher(c: Caller, routes: map<string, seq<Handler>>, action: string, now: int)
    returns (ran: Context?, out: Outcome)
    requires forall a :: a in routes ==> |routes[a]| <= 64
    modifies c
    ensures action == "ping" ==> ran == null && c.lastHeartbeat == now && c.lastRequest == old(c.lastRequest)
                                 && c.sent == old(c.sent) + [0]
    ensures action != "ping" && c.banned ==> ran == null && c.lastHeartbeat == old(c.lastHeartbeat)
                                             && c.lastRequest == old(c.lastRequest)
                                             && c.sent == old(c.sent) + [-1001]
    ensures action != "ping" && !c.banned ==>
              c.lastRequest == now &&
              c.lastHeartbeat == (if old(c.lastHeartbeat) == 0 then now else old(c.lastHeartbeat))
    ensures action != "ping" && !c.banned && (action !in routes || routes[action] == []) ==>
              ran == null && c.sent == old(c.sent) + [-1005]
    ensures action != "ping" && !c.banned && action in routes && routes[action] != [] ==>
              ran != null && fresh(ran) && c.sent == old(c.sent) && Run(ran.View(), out) == Dispatch(routes[action])
    ensures c.banned == old(c.banned)
  {
    ran, out := null, Normal;
    if action == "ping" {
      c.lastHeartbeat := now;
      c.sent := c.sent + [PONG_CODE];
      return;
    }
    if c.banned {
      c.sent := c.sent + [BANNED_CODE];
      return;
    }
    c.lastRequest := now;
    if c.lastHeartbeat == 0 {
      c.lastHeartbeat := now;
    }
    if action !in routes || routes[action] == [] {
      c.sent := c.sent + [UNSUPPORTED_CODE];
      return;
    }
    ran := new Context(routes[action]);
    ran.log := ran.log + [Started(0)];
    out := ran.Handle(0);
    if out == Normal {
      out := ran.Next(0);
    }
  }
}
