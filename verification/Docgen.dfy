/** internal/docgen/parser.go: the middleware chains that the documentation reads off the source of a function that
  * registers routes, against the chains the function builds when it runs. */
module Docgen {
  import opened Wrappers

  /** A Go identifier. */
  type Name = s: string | s != "" witness "r"

  /** `recv.sel(args)` is a call; everything that is neither this nor a variable is known by its text only. */
  datatype Expr = Ident(name: Name) | Call(recv: Expr, sel: string, args: seq<Expr>) | Other(text: string)

  /** An assignment, whose target may be no variable, or `recv.Add(name, handlers..)`, where a name that is not a string
    * literal is empty. */
  datatype Stmt = Assign(target: Option<Name>, value: Expr) | Add(recv: Expr, name: string, handlers: nat)

  /** The chain of each variable, by the names of its middlewares. */
  type Chains = map<Name, seq<string>>

  datatype Doc = Doc(name: string, chain: seq<string>)

  function Get(m: Chains, x: Name): seq<string> {
    if x in m then m[x] else []
  }

  // ----- what runs

  function Label(e: Expr): string {
    match e
    case Ident(x) => x
    case Call(_, sel, _) => sel
    case Other(text) => text
  }

  function Labels(args: seq<Expr>): seq<string> {
    seq(|args|, i requires 0 <= i < |args| => Label(args[i]))
  }

  /** The middlewares of the router an expression makes; a value that is no router has none. `Use` appends to those of
    * its receiver, `Group` keeps them. */
  function Chain(env: Chains, e: Expr): seq<string> {
    match e
    case Ident(x) => Get(env, x)
    case Other(_) => []
    case Call(recv, sel, args) =>
      if sel == "Use" then Chain(env, recv) + Labels(args)
      else if sel == "Group" then Chain(env, recv)
      else []
  }

  function Do(env: Chains, s: Stmt): Chains {
    if s.Assign? && s.target.Some? then env[s.target.value := Chain(env, s.value)] else env
  }

  /** The variables after the first `n` statements. */
  function Run(body: seq<Stmt>, n: nat): Chains
    requires n <= |body|
  {
    if n == 0 then map[] else Do(Run(body, n - 1), body[n - 1])
  }

  // ----- what the analysis sees

  function Kept(args: seq<Expr>, n: nat): seq<string>
    requires n <= |args|
  {
    if n == 0 then [] else Kept(args, n - 1) + if args[n - 1].Call? then [args[n - 1].sel] else []
  }

  datatype VarInfo = VarInfo(varName: Name, parentVar: string, middlewares: seq<string>, isNewRouter: bool)

  function Info(x: Name, e: Expr): VarInfo {
    if e.Call? && e.sel == "NewRouter" then VarInfo(x, "", [], true)
    else if e.Call? && e.sel == "Use" then
      VarInfo(x, if e.recv.Ident? then e.recv.name else "", Kept(e.args, |e.args|), false)
    else VarInfo(x, "", [], false)
  }

  /** What the first pass has collected after `n` statements. */
  function Infos(body: seq<Stmt>, n: nat): seq<VarInfo>
    requires n <= |body|
  {
    if n == 0 then []
    else
      var s := body[n - 1];
      Infos(body, n - 1) + if s.Assign? && s.target.Some? then [Info(s.target.value, s.value)] else []
  }

  function Enter(m: Chains, info: VarInfo): Chains {
    m[info.varName := if info.isNewRouter then []
                      else if info.parentVar != "" then Get(m, info.parentVar) + info.middlewares
                      else info.middlewares]
  }

  /** What the second pass has built from the first `n` records. */
  function Built(infos: seq<VarInfo>, n: nat): Chains
    requires n <= |infos|
  {
    if n == 0 then map[] else Enter(Built(infos, n - 1), infos[n - 1])
  }

  /** The result of both passes over the first `n` statements. */
  function Analysed(body: seq<Stmt>, n: nat): Chains
    requires n <= |body|
  {
    Built(Infos(body, n), |Infos(body, n)|)
  }

  lemma {:induction false} BuiltOfPrefix(infos: seq<VarInfo>, more: seq<VarInfo>, n: nat)
    requires n <= |infos|
    ensures Built(infos + more, n) == Built(infos, n)
  {
    if n == 0 {
    } else {
      BuiltOfPrefix(infos, more, n - 1);
    }
  }

  /** The passes can be taken as one. */
  lemma AnalysedStep(body: seq<Stmt>, n: nat)
    requires n < |body|
    ensures var s := body[n];
            Analysed(body, n + 1) ==
            if s.Assign? && s.target.Some? then Enter(Analysed(body, n), Info(s.target.value, s.value))
            else Analysed(body, n)
  {
    var s := body[n];
    var infos := Infos(body, n);
    if s.Assign? && s.target.Some? {
      BuiltOfPrefix(infos, [Info(s.target.value, s.value)], |infos|);
    } else {
      assert infos + [] == infos;
    }
  }

  // ----- when the two agree

  ghost predicate AllCalls(args: seq<Expr>) {
    forall i :: 0 <= i < |args| ==> args[i].Call?
  }

  lemma {:induction false} KeptIff(args: seq<Expr>, n: nat)
    requires n <= |args|
    ensures |Kept(args, n)| <= n
    ensures Kept(args, n) == Labels(args)[..n] <==> forall i :: 0 <= i < n ==> args[i].Call?
    ensures |Kept(args, n)| == n <==> forall i :: 0 <= i < n ==> args[i].Call?
  {
    if n == 0 {
    } else {
      KeptIff(args, n - 1);
      assert Labels(args)[..n] == Labels(args)[..n - 1] + [Label(args[n - 1])];
    }
  }

  lemma KeptOfFirst(args: seq<Expr>, more: seq<Expr>, n: nat)
    requires n <= |args|
    ensures Kept(args + more, n) == Kept(args, n)
    decreases n
  {
    if n == 0 {
    } else {
      KeptOfFirst(args, more, n - 1);
    }
  }

  /** The arguments are looked at one by one: a call adds its selector, anything else nothing. */
  lemma KeptIs(args: seq<Expr>, arg: Expr)
    ensures Kept([], 0) == []
    ensures var all := args + [arg];
            Kept(all, |all|) == Kept(args, |args|) + if arg.Call? then [arg.sel] else []
  {
    KeptOfFirst(args, [arg], |args|);
  }

  lemma {:induction false} KeptOfBoth(args: seq<Expr>, more: seq<Expr>)
    ensures Kept(args + more, |args + more|) == Kept(args, |args|) + Kept(more, |more|)
    decreases |more|
  {
    if more == [] {
      assert args + more == args;
    } else {
      var front, last := more[..|more| - 1], more[|more| - 1];
      KeptOfBoth(args, front);
      assert more == front + [last] && args + more == args + front + [last];
      KeptIs(args + front, last);
      KeptIs(front, last);
    }
  }

  /** What the analysis makes of one more statement, by cases. */
  lemma AnalysedMore(body: seq<Stmt>, n: nat)
    requires n < |body|
    ensures var s := body[n]; var m := Analysed(body, n);
            Analysed(body, n + 1) ==
            if s.Add? || s.target.None? then m
            else
              m[s.target.value :=
                match s.value
                case Call(Ident(y), "Use", args) => (if y in m then m[y] else []) + Kept(args, |args|)
                case Call(_, "Use", args) => Kept(args, |args|)
                case _ => []]
  {
    AnalysedStep(body, n);
  }

  /** The analysis follows `Use` on a variable, and on an expression without middlewares; anything else it takes for a
    * router without middlewares. */
  ghost predicate Seen(env: Chains, e: Expr) {
    if e.Call? && e.sel == "Use" then AllCalls(e.args) && (e.recv.Ident? || Chain(env, e.recv) == [])
    else Chain(env, e) == []
  }

  /** One assignment, from chains that are right: what it enters is right exactly when the expression is one the
    * analysis can follow. */
  lemma EntersRightIff(env: Chains, x: Name, e: Expr)
    ensures Enter(env, Info(x, e)) == Do(env, Assign(Some(x), e)) <==> Seen(env, e)
  {
    var got := Enter(env, Info(x, e))[x];
    var want := Chain(env, e);
    assert Enter(env, Info(x, e)) == env[x := got] && Do(env, Assign(Some(x), e)) == env[x := want];
    assert got == want <==> env[x := got] == env[x := want] by {
      assert env[x := got][x] == got && env[x := want][x] == want;
    }
    if e.Call? && e.sel == "Use" {
      var n := |e.args|;
      KeptIff(e.args, n);
      assert Labels(e.args)[..n] == Labels(e.args);
      if e.recv.Ident? {
        var parent := Get(env, e.recv.name);
        assert got == parent + Kept(e.args, n) && want == parent + Labels(e.args);
        assert |got| == |parent| + |Kept(e.args, n)| && |want| == |parent| + n;
      } else {
        assert |want| == |Chain(env, e.recv)| + n && |got| <= n;
        assert Chain(env, e.recv) == [] ==> want == Labels(e.args);
      }
    }
  }

  ghost predicate SeenAt(body: seq<Stmt>, k: nat)
    requires k < |body|
  {
    body[k].Assign? && body[k].target.Some? ==> Seen(Run(body, k), body[k].value)
  }

  /** The analysis of the first `k` statements is right. */
  ghost predicate RightAt(body: seq<Stmt>, k: nat)
    requires k <= |body|
  {
    Analysed(body, k) == Run(body, k)
  }

  lemma RightAfterIff(body: seq<Stmt>, k: nat)
    requires k < |body| && RightAt(body, k)
    ensures RightAt(body, k + 1) <==> SeenAt(body, k)
  {
    AnalysedStep(body, k);
    var s := body[k];
    if s.Assign? && s.target.Some? {
      EntersRightIff(Run(body, k), s.target.value, s.value);
      assert s == Assign(Some(s.target.value), s.value);
    }
  }

  /** Main result: the analysis is right about every prefix of a function exactly when it can follow every assignment
    * in it. */
  lemma {:induction false} RightThroughoutIff(body: seq<Stmt>, n: nat)
    requires n <= |body|
    ensures (forall k :: 0 <= k <= n ==> RightAt(body, k)) <==> forall k :: 0 <= k < n ==> SeenAt(body, k)
  {
    if n == 0 {
      assert RightAt(body, 0);
    } else {
      RightThroughoutIff(body, n - 1);
      if RightAt(body, n - 1) {
        RightAfterIff(body, n - 1);
      }
    }
  }

  /** `ws.NewRouter()`. */
  ghost predicate MakesRouter(e: Expr) {
    e.Call? && e.sel == "NewRouter"
  }

  /** `NewRouter()`, `NewRouter().Use(..)` or `x.Use(..)`, where each middleware is written `pkg.F(..)`. */
  ghost predicate Plain(e: Expr) {
    MakesRouter(e) || (e.Call? && e.sel == "Use" && (e.recv.Ident? || MakesRouter(e.recv)) && AllCalls(e.args))
  }

  /** So the analysis is right about every function written that way, whatever it assigns twice. */
  lemma PlainFunctionsAreRight(body: seq<Stmt>)
    requires forall k :: 0 <= k < |body| && body[k].Assign? ==> Plain(body[k].value)
    ensures Analysed(body, |body|) == Run(body, |body|)
  {
    forall k | 0 <= k < |body| ensures SeenAt(body, k) {
      assert body[k].Assign? ==> Plain(body[k].value);
    }
    RightThroughoutIff(body, |body|);
    assert RightAt(body, |body|);
  }

  /** `r := ws.NewRouter().Use(a)`, then `g := e`. */
  function Example(r: Name, a: Expr, g: Name, e: Expr): (body: seq<Stmt>)
    ensures |body| == 2
  {
    [Assign(Some(r), Call(Call(Ident("ws"), "NewRouter", []), "Use", [a])), Assign(Some(g), e)]
  }

  lemma ExampleChains(r: Name, a: Expr, g: Name, e: Expr)
    requires r != g && a.Call?
    ensures Run(Example(r, a, g, e), 2)[g] == Chain(map[r := [a.sel]], e)
    ensures Analysed(Example(r, a, g, e), 2) == Enter(map[r := [a.sel]], Info(g, e))
  {
    var body := Example(r, a, g, e);
    assert Labels([a]) == [a.sel] && Kept([a], 1) == [a.sel];
    assert Run(body, 0) == map[] && Analysed(body, 0) == map[];
    AnalysedStep(body, 0);
    var none: Chains := map[];
    assert Chain(none, Call(Ident("ws"), "NewRouter", [])) == [];
    assert Chain(none, body[0].value) == [a.sel];
    assert Run(body, 1) == Analysed(body, 1) == map[r := [a.sel]];
    AnalysedStep(body, 1);
  }

  /** A group of a router with middlewares, a second name for it, and a second `Use` in one expression: the analysis
    * loses the chain of the router `r`. */
  lemma ChainsAreLost(r: Name, g: Name, a: Expr, b: Expr, name: Expr)
    requires r != g && a.Call? && b.Call?
    ensures var body := Example(r, a, g, Call(Ident(r), "Group", [name]));
            Run(body, 2)[g] == [a.sel] && Analysed(body, 2)[g] == []
    ensures var body := Example(r, a, g, Ident(r));
            Run(body, 2)[g] == [a.sel] && Analysed(body, 2)[g] == []
    ensures var body := Example(r, a, g, Call(Call(Ident(r), "Use", [a]), "Use", [b]));
            Run(body, 2)[g] == [a.sel, a.sel, b.sel] && Analysed(body, 2)[g] == [b.sel]
  {
    ExampleChains(r, a, g, Call(Ident(r), "Group", [name]));
    ExampleChains(r, a, g, Ident(r));
    ExampleChains(r, a, g, Call(Call(Ident(r), "Use", [a]), "Use", [b]));
    assert Kept([b], 1) == [b.sel] && Labels([a]) == [a.sel] && Labels([b]) == [b.sel];
  }

  // ----- the documented routes

  /** An `Add` that the documentation lists. */
  predicate Listed(s: Stmt) {
    s.Add? && s.name != "" && s.handlers > 0
  }

  /** The routes among the first `n` statements, with the chains of the variables as they are in `m`. */
  function Documented(body: seq<Stmt>, m: Chains, n: nat): seq<Doc>
    requires n <= |body|
  {
    if n == 0 then []
    else
      var s := body[n - 1];
      Documented(body, m, n - 1) +
      if Listed(s) then [Doc(s.name, if s.recv.Ident? then Get(m, s.recv.name) else [])] else []
  }

  /** One more statement is one more documented route if it is an `Add` of a named route with a handler: with the
    * chain of the variable, if it is on one. */
  lemma DocumentedMore(body: seq<Stmt>, m: Chains, n: nat)
    requires n < |body|
    ensures Documented(body, m, 0) == []
    ensures var s := body[n];
            Documented(body, m, n + 1) == Documented(body, m, n) +
            match s
            case Add(Ident(x), name, handlers) =>
              if name != "" && handlers >= 1 then [Doc(name, if x in m then m[x] else [])] else []
            case Add(_, name, handlers) => if name != "" && handlers >= 1 then [Doc(name, [])] else []
            case Assign(_, _) => []
  {
  }

  /** The middlewares the same routes have when they are registered. */
  function Registered(body: seq<Stmt>, n: nat): seq<Doc>
    requires n <= |body|
  {
    if n == 0 then []
    else
      var s := body[n - 1];
      Registered(body, n - 1) + if Listed(s) then [Doc(s.name, Chain(Run(body, n - 1), s.recv))] else []
  }

  /** The variable an `Add` is called on is not assigned again later: the chain it has in the end is the one the route
    * got. */
  ghost predicate Settled(body: seq<Stmt>, k: nat)
    requires k < |body|
  {
    Listed(body[k]) ==>
      if body[k].recv.Ident? then Get(Run(body, |body|), body[k].recv.name) == Get(Run(body, k), body[k].recv.name)
      else Chain(Run(body, k), body[k].recv) == []
  }

  lemma {:induction false} NotAssignedAgain(body: seq<Stmt>, k: nat, n: nat, x: Name)
    requires k <= n <= |body|
    requires forall j :: k <= j < n && body[j].Assign? ==> body[j].target != Some(x)
    ensures Get(Run(body, n), x) == Get(Run(body, k), x)
  {
    if k < n {
      NotAssignedAgain(body, k, n - 1, x);
    }
  }

  lemma {:induction false} DocumentedIff(body: seq<Stmt>, n: nat)
    requires n <= |body|
    ensures |Documented(body, Run(body, |body|), n)| == |Registered(body, n)|
    ensures Documented(body, Run(body, |body|), n) == Registered(body, n)
            <==> forall k :: 0 <= k < n ==> Settled(body, k)
  {
    if n == 0 {
    } else {
      DocumentedIff(body, n - 1);
      var m := Run(body, |body|);
      var a, b := Documented(body, m, n - 1), Registered(body, n - 1);
      var s := body[n - 1];
      if Listed(s) {
        var p := Doc(s.name, if s.recv.Ident? then Get(m, s.recv.name) else []);
        var q := Doc(s.name, Chain(Run(body, n - 1), s.recv));
        assert (a + [p])[..|a|] == a && (b + [q])[..|b|] == b && (a + [p])[|a|] == p && (b + [q])[|b|] == q;
        assert p == q <==> Settled(body, n - 1);
      }
    }
  }

  /** No variable is assigned after a route was added through it. */
  ghost predicate AddedLast(body: seq<Stmt>, k: nat)
    requires k < |body|
  {
    Listed(body[k]) ==>
      body[k].recv.Ident? &&
      forall j :: k <= j < |body| && body[j].Assign? ==> body[j].target != Some(body[k].recv.name)
  }

  lemma AddedLastIsSettled(body: seq<Stmt>, k: nat)
    requires k < |body| && AddedLast(body, k)
    ensures Settled(body, k)
  {
    if Listed(body[k]) {
      NotAssignedAgain(body, k, |body|, body[k].recv.name);
    }
  }

  /** Main result: for a function written plainly, where no variable is assigned after a route was added through it, the
    * documented chains are those the routes are registered with. */
  lemma DocumentationIsRight(body: seq<Stmt>)
    requires forall k :: 0 <= k < |body| && body[k].Assign? ==> Plain(body[k].value)
    requires forall k :: 0 <= k < |body| ==> AddedLast(body, k)
    ensures Documented(body, Analysed(body, |body|), |body|) == Registered(body, |body|)
  {
    PlainFunctionsAreRight(body);
    forall k | 0 <= k < |body| ensures Settled(body, k) {
      AddedLastIsSettled(body, k);
    }
    DocumentedIff(body, |body|);
  }

  /** A plain function that gives a variable another router after a route was added through the first one: the route is
    * documented without its middleware. */
  lemma ReassignedIsWrong(r: Name, a: Expr, name: string)
    requires a.Call? && name != ""
    ensures var made := Call(Ident("ws"), "NewRouter", []);
            var body := [Assign(Some(r), Call(made, "Use", [a])), Add(Ident(r), name, 1), Assign(Some(r), made)];
            && (forall k :: 0 <= k < 3 && body[k].Assign? ==> Plain(body[k].value))
            && Registered(body, 3) == [Doc(name, [a.sel])]
            && Documented(body, Analysed(body, 3), 3) == [Doc(name, [])]
  {
    var made := Call(Ident("ws"), "NewRouter", []);
    var body := [Assign(Some(r), Call(made, "Use", [a])), Add(Ident(r), name, 1), Assign(Some(r), made)];
    PlainFunctionsAreRight(body);
    var none: Chains := map[];
    assert Labels([a]) == [a.sel] && Chain(none, made) == [];
    assert Chain(none, body[0].value) == [a.sel];
    assert Run(body, 0) == none && Run(body, 1) == map[r := [a.sel]];
    assert Run(body, 2) == Run(body, 1);
    assert Run(body, 3)[r] == [];
    assert Listed(body[1]) && Chain(Run(body, 1), body[1].recv) == [a.sel];
    assert Registered(body, 1) == [];
    assert Registered(body, 2) == Registered(body, 1) + [Doc(name, Chain(Run(body, 1), body[1].recv))];
    assert Registered(body, 3) == Registered(body, 2) + [];
    var m := Run(body, 3);
    assert Documented(body, m, 1) == [];
    assert Documented(body, m, 2) == Documented(body, m, 1) + [Doc(name, Get(m, r))];
    assert Documented(body, m, 3) == Documented(body, m, 2) + [];
  }

  // ----- the code

  method ExtractMiddlewares(args: seq<Expr>) returns (middlewares: seq<string>)
    ensures middlewares == Kept(args, |args|)
  {
    middlewares := [];
    for i := 0 to |args|
      invariant middlewares == Kept(args, i)
    {
      if args[i].Call? {
        middlewares := middlewares + [args[i].sel];
      }
    }
  }

  method BuildMiddlewareMap(body: seq<Stmt>) returns (middlewareMap: Chains)
    ensures middlewareMap == Analysed(body, |body|)
  {
    var varInfos: seq<VarInfo> := [];
    for i := 0 to |body|
      invariant varInfos == Infos(body, i)
    {
      if body[i].Assign? && body[i].target.Some? {
        var info := VarInfo(body[i].target.value, "", [], false);
        var rhs := body[i].value;
        if rhs.Call? {
          if rhs.sel == "NewRouter" {
            info := info.(isNewRouter := true);
          } else if rhs.sel == "Use" {
            if rhs.recv.Ident? {
              info := info.(parentVar := rhs.recv.name);
            }
            var middlewares := ExtractMiddlewares(rhs.args);
            info := info.(middlewares := middlewares);
          }
        }
        varInfos := varInfos + [info];
      }
    }
    middlewareMap := map[];
    for i := 0 to |varInfos|
      invariant middlewareMap == Built(varInfos, i)
    {
      var info := varInfos[i];
      if info.isNewRouter {
        middlewareMap := middlewareMap[info.varName := []];
      } else if info.parentVar != "" {
        var parentChain := if info.parentVar in middlewareMap then middlewareMap[info.parentVar] else [];
        middlewareMap := middlewareMap[info.varName := parentChain + info.middlewares];
      } else {
        middlewareMap := middlewareMap[info.varName := info.middlewares];
      }
    }
  }

  /** `ParseRouterFile`, as far as the chains of the routes are concerned. */
  method ParseRouterFile(body: seq<Stmt>) returns (actions: seq<Doc>)
    ensures actions == Documented(body, Analysed(body, |body|), |body|)
  {
    var middlewareMap := BuildMiddlewareMap(body);
    actions := [];
    for i := 0 to |body|
      invariant actions == Documented(body, middlewareMap, i)
    {
      if Listed(body[i]) {
        var chain := [];
        if body[i].recv.Ident? && body[i].recv.name in middlewareMap {
          chain := middlewareMap[body[i].recv.name];
        }
        actions := actions + [Doc(body[i].name, chain)];
      }
    }
  }
}
