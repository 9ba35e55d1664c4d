/** The documentation against the routers themselves: a plain registration function, run on routers with shared backing
  * arrays, registers the chains that the analysis reads off its source. */
module DocgenRuns {
  import opened Docgen
  import R = RouterState

  /** The handler each argument stands for, the name of each handler, the spare cells the runtime allocates, and the
    * handlers of each route. */
  datatype Setting = Setting(
    handler: Expr -> R.Handler,
    nameOf: R.Handler -> string,
    spare: R.World -> seq<R.Handler>,
    own: Stmt -> seq<R.Handler>)

  /** Handlers go by the names their expressions have. */
  ghost predicate Named(g: Setting) {
    forall e :: g.nameOf(g.handler(e)) == Label(e)
  }

  function Handlers(g: Setting, args: seq<Expr>): seq<R.Handler> {
    seq<R.Handler>(|args|, i requires 0 <= i < |args| => g.handler(args[i]))
  }

  function Names(g: Setting, hs: seq<R.Handler>): seq<string> {
    seq(|hs|, i requires 0 <= i < |hs| => g.nameOf(hs[i]))
  }

  lemma NamesOfConcat(g: Setting, a: seq<R.Handler>, b: seq<R.Handler>)
    ensures Names(g, a + b) == Names(g, a) + Names(g, b)
  {
  }

  lemma NamesOfHandlers(g: Setting, args: seq<Expr>)
    requires Named(g)
    ensures Names(g, Handlers(g, args)) == Labels(args)
  {
  }

  /** The routers, and the one each variable holds. */
  datatype Machine = Machine(w: R.World, vars: map<Name, nat>)

  const START := Machine(R.NOTHING, map[])

  ghost predicate Declared(m: Machine, x: Name) {
    x in m.vars && m.vars[x] < |m.w.routers|
  }

  /** A plain expression over declared variables. */
  ghost predicate CanMake(m: Machine, e: Expr) {
    Plain(e) && R.Sound(m.w) && (e.sel == "Use" && e.recv.Ident? ==> Declared(m, e.recv.name))
  }

  /** Evaluate the expression: its router is the last one. */
  ghost function Make(g: Setting, m: Machine, e: Expr): R.World
    requires CanMake(m, e)
  {
    if e.sel != "Use" then R.NewRouter(m.w)
    else if e.recv.Ident? then R.Use(m.w, m.vars[e.recv.name], Handlers(g, e.args), g.spare(m.w))
    else
      var w := R.NewRouter(m.w);
      R.Use(w, |m.w.routers|, Handlers(g, e.args), g.spare(w))
  }

  /** An `Add` is on a declared variable, and its name is new; a name that is not would panic. */
  ghost predicate CanDo(m: Machine, s: Stmt) {
    R.Sound(m.w) &&
    if s.Assign? then CanMake(m, s.value)
    else Listed(s) && s.recv.Ident? && Declared(m, s.recv.name) &&
         R.NameOf(m.w, m.vars[s.recv.name], s.name) !in m.w.routes
  }

  ghost function Next(g: Setting, m: Machine, s: Stmt): Machine
    requires CanDo(m, s)
  {
    if s.Assign? then
      var w := Make(g, m, s.value);
      Machine(w, if s.target.Some? then m.vars[s.target.value := |w.routers| - 1] else m.vars)
    else m.(w := R.Add(m.w, m.vars[s.recv.name], s.name, g.own(s)))
  }

  ghost predicate IsRun(g: Setting, body: seq<Stmt>, ms: seq<Machine>) {
    && |ms| == |body| + 1 && ms[0] == START
    && forall i :: 0 <= i < |body| ==> CanDo(ms[i], body[i]) && ms[i + 1] == Next(g, ms[i], body[i])
  }

  /** The registered chains are in arrays of their own, and there are no groups. */
  ghost predicate Ungrouped(w: R.World) {
    R.Sound(w) && R.Sealed(w) && forall i :: 0 <= i < |w.routers| ==> w.routers[i].groups.len == 0
  }

  /** The step that the statement takes on an existing router, if any. */
  ghost function UseOf(g: Setting, m: Machine, s: Stmt): (e: R.Step)
    requires CanDo(m, s)
    ensures R.Allowed(m.w, e)
  {
    if s.Assign? && s.value.sel == "Use" && s.value.recv.Ident? then
      R.Using(m.vars[s.value.recv.name], Handlers(g, s.value.args), g.spare(m.w))
    else R.New
  }

  /** The statement overwrites no cell in which another router holds something else. */
  ghost predicate Harmless(g: Setting, m: Machine, s: Stmt)
    requires CanDo(m, s)
  {
    R.Harmless(m.w, UseOf(g, m, s))
  }

  ghost predicate Holds(g: Setting, w: R.World, i: nat, chain: seq<string>) {
    i < |w.routers| && Names(g, w.routers[i].wanted) == chain
  }

  /** Each variable holds a router with its chain. */
  ghost predicate Matches(g: Setting, m: Machine, env: Chains) {
    m.vars.Keys == env.Keys && forall x :: x in env ==> Holds(g, m.w, m.vars[x], env[x])
  }

  // ----- what the statements do to the routers

  lemma StepKeepsUngrouped(w: R.World, e: R.Step)
    requires R.Allowed(w, e) && Ungrouped(w) && !e.Grouping?
    ensures Ungrouped(R.Take(w, e))
  {
    R.StepKeepsSealed(w, e);
  }

  lemma MakeIsUngrouped(g: Setting, m: Machine, e: Expr)
    requires Ungrouped(m.w) && CanMake(m, e)
    ensures Ungrouped(Make(g, m, e))
  {
    if e.sel == "Use" && e.recv.Ident? {
      StepKeepsUngrouped(m.w, R.Using(m.vars[e.recv.name], Handlers(g, e.args), g.spare(m.w)));
    } else {
      StepKeepsUngrouped(m.w, R.New);
      if e.sel == "Use" {
        var w := R.NewRouter(m.w);
        StepKeepsUngrouped(w, R.Using(|m.w.routers|, Handlers(g, e.args), g.spare(w)));
      }
    }
  }

  lemma NextIsUngrouped(g: Setting, m: Machine, s: Stmt)
    requires Ungrouped(m.w) && CanDo(m, s)
    ensures Ungrouped(Next(g, m, s).w)
  {
    if s.Assign? {
      MakeIsUngrouped(g, m, s.value);
    } else {
      StepKeepsUngrouped(m.w, R.Adding(m.vars[s.recv.name], s.name, g.own(s)));
    }
  }

  lemma {:induction false} RunIsUngrouped(g: Setting, body: seq<Stmt>, ms: seq<Machine>, n: nat)
    requires IsRun(g, body, ms) && n <= |body|
    ensures Ungrouped(ms[n].w)
  {
    if n == 0 {
    } else {
      RunIsUngrouped(g, body, ms, n - 1);
      NextIsUngrouped(g, ms[n - 1], body[n - 1]);
    }
  }

  /** A new router has an array of its own. */
  lemma UseOfNewIsHarmless(w: R.World, middleware: seq<R.Handler>, spare: seq<R.Handler>)
    requires R.Sound(w)
    ensures var v := R.NewRouter(w); var e := R.Using(|w.routers|, middleware, spare);
            R.Allowed(v, e) && R.Harmless(v, e)
  {
  }

  lemma MakeIsFaithfulIff(g: Setting, m: Machine, s: Stmt)
    requires R.Faithful(m.w) && s.Assign? && CanDo(m, s)
    ensures R.Faithful(Make(g, m, s.value)) <==> Harmless(g, m, s)
  {
    R.StepIsFaithfulIff(m.w, UseOf(g, m, s));
    if s.value.sel == "Use" && !s.value.recv.Ident? {
      var w := R.NewRouter(m.w);
      var e := R.Using(|m.w.routers|, Handlers(g, s.value.args), g.spare(w));
      UseOfNewIsHarmless(m.w, Handlers(g, s.value.args), g.spare(w));
      R.StepIsFaithfulIff(w, e);
    }
  }

  /** A statement leaves every router as it is meant to be exactly if it overwrites nothing. */
  lemma NextIsFaithfulIff(g: Setting, m: Machine, s: Stmt)
    requires R.Faithful(m.w) && CanDo(m, s)
    ensures R.Faithful(Next(g, m, s).w) <==> Harmless(g, m, s)
  {
    if s.Assign? {
      MakeIsFaithfulIff(g, m, s);
    } else {
      R.StepIsFaithfulIff(m.w, R.Adding(m.vars[s.recv.name], s.name, g.own(s)));
    }
  }

  ghost predicate HarmlessAt(g: Setting, body: seq<Stmt>, ms: seq<Machine>, n: nat)
    requires IsRun(g, body, ms) && n < |body|
  {
    Harmless(g, ms[n], body[n])
  }

  /** No statement before `n` overwrites anything. */
  ghost predicate AllHarmless(g: Setting, body: seq<Stmt>, ms: seq<Machine>, n: nat)
    requires IsRun(g, body, ms) && n <= |body|
  {
    forall k :: 0 <= k < n ==> HarmlessAt(g, body, ms, k)
  }

  lemma AllHarmlessMore(g: Setting, body: seq<Stmt>, ms: seq<Machine>, n: nat)
    requires IsRun(g, body, ms) && 0 < n <= |body|
    ensures AllHarmless(g, body, ms, n) <==> AllHarmless(g, body, ms, n - 1) && HarmlessAt(g, body, ms, n - 1)
  {
  }

  lemma {:induction false} RunIsFaithful(g: Setting, body: seq<Stmt>, ms: seq<Machine>, n: nat)
    requires IsRun(g, body, ms) && n <= |body| && AllHarmless(g, body, ms, n)
    ensures R.Faithful(ms[n].w)
  {
    if n == 0 {
    } else {
      AllHarmlessMore(g, body, ms, n);
      RunIsFaithful(g, body, ms, n - 1);
      NextIsFaithfulIff(g, ms[n - 1], body[n - 1]);
    }
  }

  // ----- the variables hold what they are meant to hold

  /** The steps that make a router keep what the others are meant to hold. */
  ghost predicate Extends(v: R.World, w: R.World) {
    |w.routers| <= |v.routers| && forall i :: 0 <= i < |w.routers| ==> v.routers[i].wanted == w.routers[i].wanted
  }

  lemma UseIs(g: Setting, w: R.World, i: nat, args: seq<Expr>, spare: seq<R.Handler>, chain: seq<string>)
    requires Named(g) && R.Sound(w) && Holds(g, w, i, chain)
    ensures var v := R.Use(w, i, Handlers(g, args), spare);
            Extends(v, w) && Holds(g, v, |v.routers| - 1, chain + Labels(args))
  {
    NamesOfHandlers(g, args);
    NamesOfConcat(g, w.routers[i].wanted, Handlers(g, args));
  }

  lemma NewIs(g: Setting, w: R.World)
    ensures var v := R.NewRouter(w); Extends(v, w) && Holds(g, v, |w.routers|, [])
  {
  }

  lemma UseOfNewIs(g: Setting, w: R.World, args: seq<Expr>, spare: seq<R.Handler>)
    requires Named(g) && R.Sound(w)
    ensures var v := R.Use(R.NewRouter(w), |w.routers|, Handlers(g, args), spare);
            Extends(v, w) && Holds(g, v, |v.routers| - 1, Labels(args))
  {
    var n := R.NewRouter(w);
    NewIs(g, w);
    UseIs(g, n, |w.routers|, args, spare, []);
    assert [] + Labels(args) == Labels(args);
  }

  lemma UseMakes(g: Setting, m: Machine, env: Chains, e: Expr)
    requires Named(g) && Matches(g, m, env) && CanMake(m, e) && e.sel == "Use" && e.recv.Ident?
    ensures var v := Make(g, m, e); Extends(v, m.w) && Holds(g, v, |v.routers| - 1, Chain(env, e))
  {
    UseIs(g, m.w, m.vars[e.recv.name], e.args, g.spare(m.w), env[e.recv.name]);
  }

  lemma MakeIs(g: Setting, m: Machine, env: Chains, e: Expr)
    requires Named(g) && Matches(g, m, env) && CanMake(m, e)
    ensures var v := Make(g, m, e); Extends(v, m.w) && Holds(g, v, |v.routers| - 1, Chain(env, e))
  {
    if e.sel != "Use" {
      NewIs(g, m.w);
    } else if e.recv.Ident? {
      UseMakes(g, m, env, e);
    } else {
      UseOfNewIs(g, m.w, e.args, g.spare(R.NewRouter(m.w)));
      assert Chain(env, e.recv) == [];
    }
  }

  lemma StaysMatched(g: Setting, m: Machine, env: Chains, v: R.World)
    requires Matches(g, m, env) && Extends(v, m.w)
    ensures Matches(g, Machine(v, m.vars), env)
  {
    forall x | x in env ensures Holds(g, v, m.vars[x], env[x]) {
      assert Holds(g, m.w, m.vars[x], env[x]);
    }
  }

  lemma AssignMatches(g: Setting, m: Machine, env: Chains, x: Name, i: nat, chain: seq<string>)
    requires Matches(g, m, env) && Holds(g, m.w, i, chain)
    ensures Matches(g, m.(vars := m.vars[x := i]), env[x := chain])
  {
  }

  /** One statement keeps the variables in step with the chains they are meant to have. */
  lemma NextMatches(g: Setting, m: Machine, env: Chains, s: Stmt)
    requires Named(g) && Matches(g, m, env) && CanDo(m, s)
    ensures Matches(g, Next(g, m, s), Do(env, s))
  {
    var w := Next(g, m, s).w;
    if s.Assign? {
      MakeIs(g, m, env, s.value);
    }
    StaysMatched(g, m, env, w);
    if s.Assign? && s.target.Some? {
      AssignMatches(g, Machine(w, m.vars), env, s.target.value, |w.routers| - 1, Chain(env, s.value));
    }
  }

  lemma {:induction false} RunMatches(g: Setting, body: seq<Stmt>, ms: seq<Machine>, n: nat)
    requires Named(g) && IsRun(g, body, ms) && n <= |body|
    ensures Matches(g, ms[n], Run(body, n))
  {
    if n == 0 {
    } else {
      RunMatches(g, body, ms, n - 1);
      NextMatches(g, ms[n - 1], Run(body, n - 1), body[n - 1]);
    }
  }

  // ----- the routes

  ghost predicate Serves(g: Setting, w: R.World, name: string, chain: seq<string>) {
    R.Sound(w) && name in w.routes && Names(g, R.Cells(w.handlers, w.routes[name])) == chain
  }

  /** The router that the `Add` is on holds the middlewares it is meant to hold, by name. */
  ghost predicate HoldsItsOwn(g: Setting, m: Machine, s: Stmt)
    requires s.Add? && CanDo(m, s)
  {
    var r := m.w.routers[m.vars[s.recv.name]];
    Names(g, R.Cells(m.w.handlers, r.members)) == Names(g, r.wanted)
  }

  lemma SameFrontIff(a: seq<string>, b: seq<string>, c: seq<string>)
    ensures a + c == b + c <==> a == b
  {
    if a + c == b + c {
      assert (a + c)[..|a|] == (b + c)[..|b|];
    }
  }

  lemma AddServesIff(g: Setting, m: Machine, env: Chains, s: Stmt)
    requires Ungrouped(m.w) && Matches(g, m, env) && s.Add? && CanDo(m, s)
    ensures s.name in Next(g, m, s).w.routes
    ensures Serves(g, Next(g, m, s).w, s.name, Get(env, s.recv.name) + Names(g, g.own(s))) <==> HoldsItsOwn(g, m, s)
  {
    var i := m.vars[s.recv.name];
    var chain := R.Cells(m.w.handlers, m.w.routers[i].members);
    assert Holds(g, m.w, i, env[s.recv.name]);
    assert R.NameOf(m.w, i, s.name) == s.name;
    R.AddRegisters(m.w, i, s.name, g.own(s));
    R.StepKeepsSealed(m.w, R.Adding(i, s.name, g.own(s)));
    NamesOfConcat(g, chain, g.own(s));
    SameFrontIff(Names(g, chain), env[s.recv.name], Names(g, g.own(s)));
  }

  /** A registered chain stays as it is. */
  lemma NextServesIff(g: Setting, m: Machine, s: Stmt, name: string, chain: seq<string>)
    requires Ungrouped(m.w) && CanDo(m, s) && name in m.w.routes
    ensures name in Next(g, m, s).w.routes && (Serves(g, Next(g, m, s).w, name, chain) <==> Serves(g, m.w, name, chain))
  {
    if s.Add? {
      R.StepKeepsRoutes(m.w, R.Adding(m.vars[s.recv.name], s.name, g.own(s)), name);
    } else {
      var e := s.value;
      if e.sel == "Use" && e.recv.Ident? {
        R.StepKeepsRoutes(m.w, R.Using(m.vars[e.recv.name], Handlers(g, e.args), g.spare(m.w)), name);
      } else {
        R.StepKeepsRoutes(m.w, R.New, name);
        R.StepKeepsSealed(m.w, R.New);
        var w := R.NewRouter(m.w);
        if e.sel == "Use" {
          R.StepKeepsRoutes(w, R.Using(|m.w.routers|, Handlers(g, e.args), g.spare(w)), name);
        }
      }
    }
  }

  ghost predicate HoldsItsOwnAt(g: Setting, body: seq<Stmt>, ms: seq<Machine>, k: nat)
    requires IsRun(g, body, ms) && k < |body| && body[k].Add?
  {
    HoldsItsOwn(g, ms[k], body[k])
  }

  /** What body[k] registers, by name. */
  ghost function ChainOf(g: Setting, body: seq<Stmt>, k: nat): seq<string>
    requires k < |body| && body[k].Add? && body[k].recv.Ident?
  {
    Get(Run(body, k), body[k].recv.name) + Names(g, g.own(body[k]))
  }

  /** The route that body[k] adds is served by its chain. */
  ghost predicate Served(g: Setting, body: seq<Stmt>, w: R.World, k: nat)
    requires k < |body| && body[k].Add? && body[k].recv.Ident?
  {
    Serves(g, w, body[k].name, ChainOf(g, body, k))
  }

  lemma AddedServesIff(g: Setting, body: seq<Stmt>, ms: seq<Machine>, k: nat)
    requires Named(g) && IsRun(g, body, ms) && k < |body| && body[k].Add?
    ensures body[k].recv.Ident? && body[k].name in ms[k + 1].w.routes
    ensures Served(g, body, ms[k + 1].w, k) <==> HoldsItsOwnAt(g, body, ms, k)
  {
    RunIsUngrouped(g, body, ms, k);
    RunMatches(g, body, ms, k);
    AddServesIff(g, ms[k], Run(body, k), body[k]);
  }

  lemma LaterServesIff(g: Setting, body: seq<Stmt>, ms: seq<Machine>, k: nat, n: nat)
    requires IsRun(g, body, ms) && n < |body| && k < |body| && body[k].Add? && body[k].recv.Ident?
    requires body[k].name in ms[n].w.routes
    ensures body[k].name in ms[n + 1].w.routes
    ensures Served(g, body, ms[n + 1].w, k) <==> Served(g, body, ms[n].w, k)
  {
    RunIsUngrouped(g, body, ms, n);
    NextServesIff(g, ms[n], body[n], body[k].name, ChainOf(g, body, k));
  }

  lemma {:induction false} RouteServesIff(g: Setting, body: seq<Stmt>, ms: seq<Machine>, k: nat, n: nat)
    requires Named(g) && IsRun(g, body, ms) && k < n <= |body| && body[k].Add?
    ensures body[k].recv.Ident? && body[k].name in ms[n].w.routes
    ensures Served(g, body, ms[n].w, k) <==> HoldsItsOwnAt(g, body, ms, k)
  {
    if k == n - 1 {
      AddedServesIff(g, body, ms, k);
    } else {
      RouteServesIff(g, body, ms, k, n - 1);
      LaterServesIff(g, body, ms, k, n - 1);
    }
  }

  lemma RunIsPlain(g: Setting, body: seq<Stmt>, ms: seq<Machine>)
    requires IsRun(g, body, ms)
    ensures forall k :: 0 <= k < |body| && body[k].Assign? ==> Plain(body[k].value)
  {
    forall k | 0 <= k < |body| && body[k].Assign? ensures Plain(body[k].value) {
      assert CanDo(ms[k], body[k]);
    }
  }

  /** Main result: when a plain registration function has run, a route whose variable is not assigned after it was
    * added is served by the middlewares that the documentation gives for it, followed by its own handlers, exactly if
    * the router held its own middlewares when the route was added; whatever happens to the router afterwards. */
  lemma RouteIsServedAsDocumentedIff(g: Setting, body: seq<Stmt>, ms: seq<Machine>, k: nat)
    requires Named(g) && IsRun(g, body, ms) && k < |body| && body[k].Add? && AddedLast(body, k)
    ensures Serves(g, ms[|body|].w, body[k].name,
                   Get(Analysed(body, |body|), body[k].recv.name) + Names(g, g.own(body[k]))) <==>
            HoldsItsOwnAt(g, body, ms, k)
  {
    RunIsPlain(g, body, ms);
    PlainFunctionsAreRight(body);
    assert CanDo(ms[k], body[k]);
    AddedLastIsSettled(body, k);
    RouteServesIff(g, body, ms, k, |body|);
  }

  /** So it is for every such route before which no statement overwrites anything. */
  lemma RoutesAreServedAsDocumented(g: Setting, body: seq<Stmt>, ms: seq<Machine>, k: nat)
    requires Named(g) && IsRun(g, body, ms) && k < |body| && body[k].Add? && AddedLast(body, k)
    requires AllHarmless(g, body, ms, k)
    ensures Serves(g, ms[|body|].w, body[k].name,
                   Get(Analysed(body, |body|), body[k].recv.name) + Names(g, g.own(body[k])))
  {
    RouteIsServedAsDocumentedIff(g, body, ms, k);
    RunIsFaithful(g, body, ms, k);
    assert CanDo(ms[k], body[k]);
    assert R.Holds(ms[k].w, ms[k].vars[body[k].recv.name]);
  }

  // ----- one router from each

  /** If the statement makes a router from another, it is the first made from that. */
  ghost predicate OneChildEach(g: Setting, m: Machine, s: Stmt)
    requires CanDo(m, s)
  {
    R.OneChildEach(m.w, UseOf(g, m, s))
  }

  lemma NextKeepsTips(g: Setting, m: Machine, s: Stmt)
    requires R.Tips(m.w) && CanDo(m, s) && OneChildEach(g, m, s)
    ensures R.Tips(Next(g, m, s).w) && Harmless(g, m, s)
  {
    var e := UseOf(g, m, s);
    R.OneChildIsHarmless(m.w, e);
    R.StepKeepsTips(m.w, e);
    if s.Add? {
      R.StepKeepsTips(m.w, R.Adding(m.vars[s.recv.name], s.name, g.own(s)));
    } else if s.value.sel == "Use" && !s.value.recv.Ident? {
      var w := R.NewRouter(m.w);
      R.StepKeepsTips(w, R.Using(|m.w.routers|, Handlers(g, s.value.args), g.spare(w)));
    }
  }

  ghost predicate OneChildAt(g: Setting, body: seq<Stmt>, ms: seq<Machine>, k: nat)
    requires IsRun(g, body, ms) && k < |body|
  {
    OneChildEach(g, ms[k], body[k])
  }

  lemma StepKeepsTips(g: Setting, body: seq<Stmt>, ms: seq<Machine>, k: nat)
    requires IsRun(g, body, ms) && k < |body| && R.Tips(ms[k].w) && OneChildAt(g, body, ms, k)
    ensures R.Tips(ms[k + 1].w) && HarmlessAt(g, body, ms, k)
  {
    NextKeepsTips(g, ms[k], body[k]);
  }

  lemma {:induction false} OneChildRun(g: Setting, body: seq<Stmt>, ms: seq<Machine>, n: nat)
    requires IsRun(g, body, ms) && n <= |body| && forall k :: 0 <= k < n ==> OneChildAt(g, body, ms, k)
    ensures R.Tips(ms[n].w) && AllHarmless(g, body, ms, n)
  {
    if n == 0 {
    } else {
      OneChildRun(g, body, ms, n - 1);
      StepKeepsTips(g, body, ms, n - 1);
      AllHarmlessMore(g, body, ms, n);
    }
  }

  /** A function that makes at most one router from each overwrites nothing, whatever capacities the runtime picks. */
  lemma OneChildIsServedAsDocumented(g: Setting, body: seq<Stmt>, ms: seq<Machine>, k: nat)
    requires Named(g) && IsRun(g, body, ms) && k < |body| && body[k].Add? && AddedLast(body, k)
    requires forall i :: 0 <= i < k ==> OneChildAt(g, body, ms, i)
    ensures Serves(g, ms[|body|].w, body[k].name,
                   Get(Analysed(body, |body|), body[k].recv.name) + Names(g, g.own(body[k])))
  {
    OneChildRun(g, body, ms, k);
    RoutesAreServedAsDocumented(g, body, ms, k);
  }
}
