/** Routers as values that share backing arrays: ws/router.go with the memory behind Go's slices made explicit. */
module RouterState {
  import opened Strings

  /** A handler function, by identity. */
  type Handler = nat

  /** A slice of the array `id`: its first `len` cells. The capacity is the length of the array. */
  datatype Slice = Slice(id: nat, len: nat)

  /** All arrays ever allocated, by number. */
  type Memory<T> = seq<seq<T>>

  ghost predicate In<T>(mem: Memory<T>, s: Slice) {
    s.id < |mem| && s.len <= |mem[s.id]|
  }

  function Cells<T>(mem: Memory<T>, s: Slice): seq<T>
    requires In(mem, s)
  {
    mem[s.id][..s.len]
  }

  predicate Fits<T>(mem: Memory<T>, s: Slice, n: nat)
    requires In(mem, s)
  {
    s.len + n <= |mem[s.id]|
  }

  datatype Grown<T> = Grown(mem: Memory<T>, s: Slice)

  /** Go's `append`: in place while the capacity lasts, else into a new array. `spare` are the cells the runtime
    * allocates beyond what is needed, and their contents. */
  function Append<T>(mem: Memory<T>, s: Slice, xs: seq<T>, spare: seq<T>): (r: Grown<T>)
    requires In(mem, s)
    ensures In(r.mem, r.s) && Cells(r.mem, r.s) == Cells(mem, s) + xs
  {
    if Fits(mem, s, |xs|) then
      Grown(mem[s.id := mem[s.id][..s.len] + xs + mem[s.id][s.len + |xs|..]], Slice(s.id, s.len + |xs|))
    else
      Grown(mem + [mem[s.id][..s.len] + xs + spare], Slice(|mem|, s.len + |xs|))
  }

  /** What an append to `s` does to another slice: it is overwritten from `s.len` on, if it shares the array, is
    * longer, and the append is in place; otherwise it is as before. */
  lemma AppendSeenBy<T>(mem: Memory<T>, s: Slice, xs: seq<T>, spare: seq<T>, t: Slice)
    requires In(mem, s) && In(mem, t)
    ensures var r := Append(mem, s, xs, spare);
            && In(r.mem, t)
            && forall k :: 0 <= k < t.len ==>
                 Cells(r.mem, t)[k] ==
                 if t.id == s.id && Fits(mem, s, |xs|) && s.len <= k < s.len + |xs| then xs[k - s.len]
                 else Cells(mem, t)[k]
  {
  }

  /** An append never changes the slice it was made on, nor any shorter one of the same array. */
  lemma AppendKeepsPrefixes<T>(mem: Memory<T>, s: Slice, xs: seq<T>, spare: seq<T>, t: Slice)
    requires In(mem, s) && In(mem, t) && (t.id != s.id || t.len <= s.len)
    ensures In(Append(mem, s, xs, spare).mem, t) && Cells(Append(mem, s, xs, spare).mem, t) == Cells(mem, t)
  {
    AppendSeenBy(mem, s, xs, spare, t);
  }

  /** It changes another slice exactly when that one reaches into the cells written, and holds something else there. */
  lemma AppendChangesIff<T>(mem: Memory<T>, s: Slice, xs: seq<T>, spare: seq<T>, t: Slice)
    requires In(mem, s) && In(mem, t)
    ensures var r := Append(mem, s, xs, spare);
            In(r.mem, t) && (Cells(r.mem, t) != Cells(mem, t) <==>
              t.id == s.id && Fits(mem, s, |xs|) &&
              exists k :: s.len <= k < t.len && k < s.len + |xs| && Cells(mem, t)[k] != xs[k - s.len])
  {
    AppendSeenBy(mem, s, xs, spare, t);
  }

  // ----- routers

  /** `Routers`, which is passed by value. `wanted` and `path` are a record of what its two slices are meant to hold,
    * `used` of whether another router was made from it, and `parent` of the router it was made from, -1 if none. */
  datatype Router = Router(
    members: Slice,
    groups: Slice,
    wanted: seq<Handler>,
    path: seq<string>,
    used: bool,
    parent: int)

  datatype World = World(
    handlers: Memory<Handler>, names: Memory<string>,
    routers: seq<Router>, routes: map<string, Slice>)

  const NOTHING := World([], [], [], map[])

  ghost predicate Sound(w: World) {
    && (forall i :: 0 <= i < |w.routers| ==> In(w.handlers, w.routers[i].members) && In(w.names, w.routers[i].groups))
    && (forall n :: n in w.routes ==> In(w.handlers, w.routes[n]))
  }

  /** The arrays of the registered chains belong to no router. */
  ghost predicate Sealed(w: World) {
    forall n, i :: n in w.routes && 0 <= i < |w.routers| ==> w.routers[i].members.id != w.routes[n].id
  }

  /** The name a route is registered under. */
  function FullName(groups: seq<string>, name: string): string {
    if groups == [] then name else Join(groups, ".") + "." + name
  }

  /** A route outside of groups has its own name, and one in a group has the group's name and a dot in front. */
  lemma GroupIsPrefix(groups: seq<string>, group: string, name: string)
    ensures FullName([], name) == name
    ensures FullName(groups + [group], name) == FullName(groups, group + "." + name)
  {
    assert (groups + [group])[..|groups|] == groups;
    if groups != [] {
      var path := Join(groups, ".");
      assert path + "." + group + "." + name == path + "." + (group + "." + name);
    }
  }

  /** Routes of two groups side by side have different names. */
  lemma LastGroupTells(groups: seq<string>, d: string, e: string, name: string)
    requires d != e
    ensures FullName(groups + [d], name) != FullName(groups + [e], name)
  {
    var path := if groups == [] then "" else Join(groups, ".") + ".";
    forall x: string ensures FullName(groups + [x], name) == path + x + ("." + name) {
      assert (groups + [x])[..|groups|] == groups;
      assert path + x + "." + name == path + x + ("." + name);
    }
    var s, t := path + d + ("." + name), path + e + ("." + name);
    assert s[|path|..|s| - |name| - 1] == d && t[|path|..|t| - |name| - 1] == e;
  }

  function NewRouter(w: World): World {
    w.(handlers := w.handlers + [[]], names := w.names + [[]],
       routers := w.routers + [Router(Slice(|w.handlers|, 0), Slice(|w.names|, 0), [], [], false, -1)])
  }

  function MarkUsed(w: World, i: nat): seq<Router>
    requires i < |w.routers|
  {
    w.routers[i := w.routers[i].(used := true)]
  }

  function Use(w: World, i: nat, middleware: seq<Handler>, spare: seq<Handler>): World
    requires Sound(w) && i < |w.routers|
  {
    var r := w.routers[i];
    var g := Append(w.handlers, r.members, middleware, spare);
    w.(handlers := g.mem,
       routers := MarkUsed(w, i) + [r.(members := g.s, wanted := r.wanted + middleware, used := false, parent := i)])
  }

  function Group(w: World, i: nat, name: string, spare: seq<string>): World
    requires Sound(w) && i < |w.routers|
  {
    var r := w.routers[i];
    var g := Append(w.names, r.groups, [name], spare);
    w.(names := g.mem,
       routers := MarkUsed(w, i) + [r.(groups := g.s, path := r.path + [name], used := false, parent := i)])
  }

  function NameOf(w: World, i: nat, name: string): string
    requires Sound(w) && i < |w.routers|
  {
    FullName(Cells(w.names, w.routers[i].groups), name)
  }

  /** `Add` copies the members into an array of its own, just large enough for the handlers as well. A name that is
    * registered already panics. */
  function Add(w: World, i: nat, name: string, fns: seq<Handler>): World
    requires Sound(w) && i < |w.routers| && NameOf(w, i, name) !in w.routes
  {
    var chain := Cells(w.handlers, w.routers[i].members) + fns;
    w.(handlers := w.handlers + [chain], routes := w.routes[NameOf(w, i, name) := Slice(|w.handlers|, |chain|)])
  }

  // ----- runs

  datatype Step =
    | New
    | Using(i: nat, middleware: seq<Handler>, spare: seq<Handler>)
    | Grouping(i: nat, name: string, room: seq<string>)
    | Adding(i: nat, name: string, fns: seq<Handler>)

  ghost predicate Allowed(w: World, e: Step) {
    Sound(w) && (!e.New? ==> e.i < |w.routers|) && (e.Adding? ==> NameOf(w, e.i, e.name) !in w.routes)
  }

  function Take(w: World, e: Step): World
    requires Allowed(w, e)
  {
    match e
    case New => NewRouter(w)
    case Using(i, middleware, spare) => Use(w, i, middleware, spare)
    case Grouping(i, name, room) => Group(w, i, name, room)
    case Adding(i, name, fns) => Add(w, i, name, fns)
  }

  ghost predicate IsRun(es: seq<Step>, ws: seq<World>) {
    && |ws| == |es| + 1 && ws[0] == NOTHING
    && forall i :: 0 <= i < |es| ==> Allowed(ws[i], es[i]) && ws[i + 1] == Take(ws[i], es[i])
  }

  lemma StepKeepsSound(w: World, e: Step)
    requires Allowed(w, e)
    ensures Sound(Take(w, e))
  {
  }

  lemma StepKeepsSealed(w: World, e: Step)
    requires Allowed(w, e) && Sealed(w)
    ensures Sound(Take(w, e)) && Sealed(Take(w, e))
  {
    StepKeepsSound(w, e);
    var v := Take(w, e);
    forall n, i | n in v.routes && 0 <= i < |v.routers| ensures v.routers[i].members.id != v.routes[n].id {
      assert i < |w.routers| && n in w.routes ==> w.routers[i].members.id != w.routes[n].id;
    }
  }

  lemma {:induction false} RunIsSealed(es: seq<Step>, ws: seq<World>, i: nat)
    requires IsRun(es, ws) && i < |ws|
    ensures Sound(ws[i]) && Sealed(ws[i])
  {
    if i == 0 {
    } else {
      RunIsSealed(es, ws, i - 1);
      StepKeepsSealed(ws[i - 1], es[i - 1]);
    }
  }

  /** No step changes a chain that is registered. */
  lemma StepKeepsRoutes(w: World, e: Step, n: string)
    requires Allowed(w, e) && Sealed(w) && n in w.routes
    ensures var v := Take(w, e);
            Sound(v) && n in v.routes && Cells(v.handlers, v.routes[n]) == Cells(w.handlers, w.routes[n])
  {
    StepKeepsSealed(w, e);
    if e.Using? {
      AppendKeepsPrefixes(w.handlers, w.routers[e.i].members, e.middleware, e.spare, w.routes[n]);
    }
  }

  /** `Add` registers this route only, with the members of the router and then the handlers. */
  lemma AddRegisters(w: World, i: nat, name: string, fns: seq<Handler>)
    requires Sound(w) && i < |w.routers| && NameOf(w, i, name) !in w.routes
    ensures var v := Add(w, i, name, fns); var n := NameOf(w, i, name);
            && n in v.routes && In(v.handlers, v.routes[n])
            && Cells(v.handlers, v.routes[n]) == Cells(w.handlers, w.routers[i].members) + fns
            && v.routes - {n} == w.routes && v.routers == w.routers
  {
  }

  /** A new router has no middlewares, and its routes have their own names. */
  lemma NewRouterMakes(w: World, name: string)
    requires Sound(w)
    ensures var v := NewRouter(w); var n := |w.routers|;
            && Sound(v) && |v.routers| == n + 1 && v.routers[..n] == w.routers && v.routes == w.routes
            && Cells(v.handlers, v.routers[n].members) == [] && NameOf(v, n, name) == name
            && v.routers[n].parent == -1 && v.routers[n].wanted == [] && v.routers[n].path == []
  {
  }

  /** `Use` makes one more router, with the middlewares behind those of the other, whose routes have the same names; the
    * other one keeps its own slices. */
  lemma UseMakes(w: World, i: nat, middleware: seq<Handler>, spare: seq<Handler>, name: string)
    requires Sound(w) && i < |w.routers|
    ensures var v := Use(w, i, middleware, spare); var n := |w.routers|;
            && Sound(v) && |v.routers| == n + 1 && v.routes == w.routes
            && Cells(v.handlers, v.routers[n].members) == Cells(w.handlers, w.routers[i].members) + middleware
            && NameOf(v, n, name) == NameOf(w, i, name)
            && v.routers[n].parent == i && v.routers[n].path == w.routers[i].path
            && v.routers[n].wanted == w.routers[i].wanted + middleware
            && forall j :: 0 <= j < n ==>
                 v.routers[j].members == w.routers[j].members && v.routers[j].groups == w.routers[j].groups
  {
  }

  /** `Group` makes one more router, with the same middlewares, whose routes have the group's name and a dot in front of
    * theirs; the other one keeps its own slices. */
  lemma GroupMakes(w: World, i: nat, group: string, room: seq<string>, name: string)
    requires Sound(w) && i < |w.routers|
    ensures var v := Group(w, i, group, room); var n := |w.routers|;
            && Sound(v) && |v.routers| == n + 1 && v.routes == w.routes
            && Cells(v.handlers, v.routers[n].members) == Cells(w.handlers, w.routers[i].members)
            && NameOf(v, n, name) == NameOf(w, i, group + "." + name)
            && v.routers[n].parent == i && v.routers[n].path == w.routers[i].path + [group]
            && v.routers[n].wanted == w.routers[i].wanted
            && forall j :: 0 <= j < n ==>
                 v.routers[j].members == w.routers[j].members && v.routers[j].groups == w.routers[j].groups
  {
    GroupIsPrefix(Cells(w.names, w.routers[i].groups), group, name);
  }

  /** A registered chain stays what it is for the rest of the run. */
  lemma {:induction false} RouteStays(es: seq<Step>, ws: seq<World>, n: string, k: nat, j: nat)
    requires IsRun(es, ws) && k <= j < |ws| && n in ws[k].routes
    ensures Sound(ws[k]) && Sound(ws[j]) && n in ws[j].routes
    ensures Cells(ws[j].handlers, ws[j].routes[n]) == Cells(ws[k].handlers, ws[k].routes[n])
  {
    RunIsSealed(es, ws, k);
    if k < j {
      RouteStays(es, ws, n, k, j - 1);
      RunIsSealed(es, ws, j - 1);
      StepKeepsRoutes(ws[j - 1], es[j - 1], n);
    }
  }

  /** Main result for routes: at every later point of any run, the chain registered by an `Add` is the members of the
    * router at the time, followed by the handlers. */
  lemma RouteIsForEver(es: seq<Step>, ws: seq<World>, k: nat, j: nat, n: string)
    requires IsRun(es, ws) && k < j < |ws| && es[k].Adding? && n == NameOf(ws[k], es[k].i, es[k].name)
    ensures Sound(ws[j]) && n in ws[j].routes
    ensures Cells(ws[j].handlers, ws[j].routes[n]) == Cells(ws[k].handlers, ws[k].routers[es[k].i].members) + es[k].fns
  {
    AddRegisters(ws[k], es[k].i, es[k].name, es[k].fns);
    RouteStays(es, ws, n, k + 1, j);
  }

  // ----- ancestors

  /** `s` comes after `p`: in an array allocated later, or in the same one and ending no earlier. */
  ghost predicate Follows(p: Slice, s: Slice) {
    p.id < s.id || (p.id == s.id && p.len <= s.len)
  }

  ghost predicate ParentOk(w: World, i: nat)
    requires i < |w.routers|
  {
    var k := w.routers[i].parent;
    -1 <= k < i && (k >= 0 ==> Follows(w.routers[k].members, w.routers[i].members) &&
                               Follows(w.routers[k].groups, w.routers[i].groups))
  }

  /** Every router was made from an earlier one, or from none, and its slices come after that one's. */
  ghost predicate Lineage(w: World) {
    forall i :: 0 <= i < |w.routers| ==> ParentOk(w, i)
  }

  lemma StepKeepsLineage(w: World, e: Step)
    requires Allowed(w, e) && Lineage(w)
    ensures Lineage(Take(w, e))
  {
    var v := Take(w, e);
    forall i | 0 <= i < |v.routers| ensures ParentOk(v, i) {
      assert i < |w.routers| ==> ParentOk(w, i);
    }
  }

  lemma {:induction false} RunHasLineage(es: seq<Step>, ws: seq<World>, n: nat)
    requires IsRun(es, ws) && n < |ws|
    ensures Lineage(ws[n])
  {
    if n == 0 {
    } else {
      RunHasLineage(es, ws, n - 1);
      StepKeepsLineage(ws[n - 1], es[n - 1]);
    }
  }

  /** Router `i` is `j`, or was made from it in one or more steps. */
  ghost predicate Ancestor(w: World, j: nat, i: nat)
    requires i < |w.routers|
    decreases i
  {
    i == j || (var k := w.routers[i].parent; 0 <= k < i && Ancestor(w, j, k))
  }

  lemma {:induction false} AncestorsComeBefore(w: World, j: nat, i: nat)
    requires i < |w.routers| && Lineage(w) && Ancestor(w, j, i)
    ensures j <= i
    ensures Follows(w.routers[j].members, w.routers[i].members) && Follows(w.routers[j].groups, w.routers[i].groups)
    decreases i
  {
    if i != j {
      assert ParentOk(w, i);
      AncestorsComeBefore(w, j, w.routers[i].parent);
    }
  }

  /** Main result for `Use`: at every point of every run it changes the middlewares neither of the router it is called
    * on, nor of any that one was made from. */
  lemma UseKeepsAncestors(es: seq<Step>, ws: seq<World>, n: nat, i: nat, j: nat,
                          middleware: seq<Handler>, spare: seq<Handler>)
    requires IsRun(es, ws) && n < |ws| && i < |ws[n].routers| && Ancestor(ws[n], j, i)
    ensures Sound(ws[n]) && j < |ws[n].routers|
    ensures var w := ws[n]; var v := Use(w, i, middleware, spare);
            In(v.handlers, v.routers[j].members) &&
            Cells(v.handlers, v.routers[j].members) == Cells(w.handlers, w.routers[j].members)
  {
    var w := ws[n];
    RunIsSealed(es, ws, n);
    RunHasLineage(es, ws, n);
    AncestorsComeBefore(w, j, i);
    AppendKeepsPrefixes(w.handlers, w.routers[i].members, middleware, spare, w.routers[j].members);
  }

  /** And `Group` changes their group paths as little. */
  lemma GroupKeepsAncestors(es: seq<Step>, ws: seq<World>, n: nat, i: nat, j: nat, name: string, room: seq<string>)
    requires IsRun(es, ws) && n < |ws| && i < |ws[n].routers| && Ancestor(ws[n], j, i)
    ensures Sound(ws[n]) && j < |ws[n].routers|
    ensures var w := ws[n]; var v := Group(w, i, name, room);
            In(v.names, v.routers[j].groups) &&
            Cells(v.names, v.routers[j].groups) == Cells(w.names, w.routers[j].groups)
  {
    var w := ws[n];
    RunIsSealed(es, ws, n);
    RunHasLineage(es, ws, n);
    AncestorsComeBefore(w, j, i);
    AppendKeepsPrefixes(w.names, w.routers[i].groups, [name], room, w.routers[j].groups);
  }

  // ----- what the routers are meant to hold

  ghost predicate Holds(w: World, j: nat)
    requires Sound(w) && j < |w.routers|
  {
    Cells(w.handlers, w.routers[j].members) == w.routers[j].wanted &&
    Cells(w.names, w.routers[j].groups) == w.routers[j].path
  }

  /** Every router holds what it is meant to hold. */
  ghost predicate Faithful(w: World) {
    Sound(w) && forall j :: 0 <= j < |w.routers| ==> Holds(w, j)
  }

  /** Another router's members reach into the spare cells that `Use` on router `i` would write, with other contents. */
  ghost predicate Clobbers(w: World, i: nat, middleware: seq<Handler>, j: nat)
    requires Sound(w) && i < |w.routers| && j < |w.routers|
  {
    var s := w.routers[i].members;
    var t := w.routers[j].members;
    && t.id == s.id && Fits(w.handlers, s, |middleware|)
    && exists k :: s.len <= k < t.len && k < s.len + |middleware| && Cells(w.handlers, t)[k] != middleware[k - s.len]
  }

  /** When `Use` leaves all routers as they are meant to be. */
  lemma UseIsFaithfulIff(w: World, i: nat, middleware: seq<Handler>, spare: seq<Handler>)
    requires Faithful(w) && i < |w.routers|
    ensures Faithful(Use(w, i, middleware, spare)) <==>
            forall j :: 0 <= j < |w.routers| ==> !Clobbers(w, i, middleware, j)
  {
    var v := Use(w, i, middleware, spare);
    var n := |w.routers|;
    assert Sound(v);
    assert Holds(w, i);
    forall j | 0 <= j < n ensures Holds(v, j) <==> !Clobbers(w, i, middleware, j) {
      assert Holds(w, j);
      AppendChangesIff(w.handlers, w.routers[i].members, middleware, spare, w.routers[j].members);
    }
    assert Holds(v, n);
  }

  /** A router with three middlewares, and a spare cell for the fourth: in Go the capacity of a slice of handlers grows
    * 1, 2, 4. */
  ghost function WithThreeMembers(a: Handler, b: Handler, c: Handler): (w: World)
    ensures Sound(w) && |w.routers| == 4 && w.routers[3].members.len == 3 && Fits(w.handlers, w.routers[3].members, 1)
    ensures Cells(w.handlers, w.routers[3].members) == [a, b, c]
  {
    var w2 := Use(Use(NewRouter(NOTHING), 0, [a], []), 1, [b], []);
    assert Cells(w2.handlers, w2.routers[2].members) == [a, b];
    Use(w2, 2, [c], [0])
  }

  /** Two routers made from it write the fourth cell in turn, and the first one ends up with the second's. */
  lemma SiblingsShareTheLastCell(a: Handler, b: Handler, c: Handler, d: Handler, e: Handler)
    requires d != e
    ensures var w1 := Use(WithThreeMembers(a, b, c), 3, [d], []);
            var w2 := Use(w1, 3, [e], []);
            && Cells(w1.handlers, w1.routers[4].members) == [a, b, c, d]
            && Cells(w2.handlers, w2.routers[4].members) == [a, b, c, e]
  {
    var w0 := WithThreeMembers(a, b, c);
    var w1 := Use(w0, 3, [d], []);
    assert w1.routers[3].members == w0.routers[3].members;
    assert Cells(w1.handlers, w1.routers[3].members) == [a, b, c] by {
      AppendKeepsPrefixes(w0.handlers, w0.routers[3].members, [d], [], w0.routers[3].members);
    }
    var w2 := Use(w1, 3, [e], []);
    assert w2.routers[4].members == w2.routers[5].members == w1.routers[4].members;
  }

  /** Another router's group path reaches into the spare cell that `Group` on router `i` would write, with another
    * name. */
  ghost predicate Renames(w: World, i: nat, name: string, j: nat)
    requires Sound(w) && i < |w.routers| && j < |w.routers|
  {
    var s := w.routers[i].groups;
    var t := w.routers[j].groups;
    t.id == s.id && Fits(w.names, s, 1) && s.len < t.len && Cells(w.names, t)[s.len] != name
  }

  /** When `Group` leaves all routers as they are meant to be. */
  lemma GroupIsFaithfulIff(w: World, i: nat, name: string, room: seq<string>)
    requires Faithful(w) && i < |w.routers|
    ensures Faithful(Group(w, i, name, room)) <==> forall j :: 0 <= j < |w.routers| ==> !Renames(w, i, name, j)
  {
    var v := Group(w, i, name, room);
    var n := |w.routers|;
    assert Sound(v);
    assert Holds(w, i);
    forall j | 0 <= j < n ensures Holds(v, j) <==> !Renames(w, i, name, j) {
      assert Holds(w, j);
      AppendChangesIff(w.names, w.routers[i].groups, [name], room, w.routers[j].groups);
    }
    assert Holds(v, n);
  }

  /** A router in three groups, with a spare cell for the fourth. */
  ghost function InThreeGroups(a: string, b: string, c: string): (w: World)
    ensures Sound(w) && |w.routers| == 4 && w.routers[3].groups.len == 3 && Fits(w.names, w.routers[3].groups, 1)
    ensures Cells(w.names, w.routers[3].groups) == [a, b, c]
  {
    var w2 := Group(Group(NewRouter(NOTHING), 0, a, []), 1, b, []);
    assert Cells(w2.names, w2.routers[2].groups) == [a, b];
    Group(w2, 2, c, [""])
  }

  lemma TwoGroupsShareTheLastCell(a: string, b: string, c: string, d: string, e: string)
    ensures var w1 := Group(InThreeGroups(a, b, c), 3, d, []);
            var w2 := Group(w1, 3, e, []);
            && Cells(w1.names, w1.routers[4].groups) == [a, b, c, d]
            && Cells(w2.names, w2.routers[4].groups) == [a, b, c, e]
  {
    var w0 := InThreeGroups(a, b, c);
    var w1 := Group(w0, 3, d, []);
    assert w1.routers[3].groups == w0.routers[3].groups;
    assert Cells(w1.names, w1.routers[3].groups) == [a, b, c] by {
      AppendKeepsPrefixes(w0.names, w0.routers[3].groups, [d], [], w0.routers[3].groups);
    }
    var w2 := Group(w1, 3, e, []);
    assert w2.routers[4].groups == w2.routers[5].groups == w1.routers[4].groups;
  }

  /** Two groups of it: a route added to the first one afterwards is registered under the second one's name. */
  lemma SiblingGroupsShareTheLastName(a: string, b: string, c: string, d: string, e: string, name: string)
    requires d != e
    ensures var w1 := Group(InThreeGroups(a, b, c), 3, d, []);
            var w2 := Group(w1, 3, e, []);
            && Cells(w1.names, w1.routers[4].groups) == [a, b, c, d]
            && Cells(w2.names, w2.routers[4].groups) == [a, b, c, e]
            && NameOf(w1, 4, name) == FullName([a, b, c, d], name)
            && NameOf(w2, 4, name) == FullName([a, b, c, e], name) != NameOf(w1, 4, name)
  {
    TwoGroupsShareTheLastCell(a, b, c, d, e);
    LastGroupTells([a, b, c], d, e, name);
    assert [a, b, c] + [d] == [a, b, c, d] && [a, b, c] + [e] == [a, b, c, e];
  }

  // ----- runs that overwrite nothing

  /** The step writes no cell in which another router holds something else. */
  ghost predicate Harmless(w: World, e: Step)
    requires Allowed(w, e)
  {
    match e
    case Using(i, middleware, _) => forall j :: 0 <= j < |w.routers| ==> !Clobbers(w, i, middleware, j)
    case Grouping(i, name, _) => forall j :: 0 <= j < |w.routers| ==> !Renames(w, i, name, j)
    case _ => true
  }

  lemma OthersKeepFaithful(w: World, e: Step)
    requires Allowed(w, e) && Faithful(w) && !e.Using? && !e.Grouping?
    ensures Faithful(Take(w, e))
  {
    var v := Take(w, e);
    forall j | 0 <= j < |v.routers| ensures Holds(v, j) {
      assert j < |w.routers| ==> Holds(w, j);
    }
  }

  lemma StepIsFaithfulIff(w: World, e: Step)
    requires Allowed(w, e) && Faithful(w)
    ensures Faithful(Take(w, e)) <==> Harmless(w, e)
  {
    match e
    case Using(i, middleware, spare) => UseIsFaithfulIff(w, i, middleware, spare);
    case Grouping(i, name, room) => GroupIsFaithfulIff(w, i, name, room);
    case _ => OthersKeepFaithful(w, e);
  }

  ghost predicate FaithfulAt(ws: seq<World>, n: nat)
    requires n < |ws|
  {
    Faithful(ws[n])
  }

  ghost predicate HarmlessAt(es: seq<Step>, ws: seq<World>, n: nat)
    requires IsRun(es, ws) && n < |es|
  {
    Harmless(ws[n], es[n])
  }

  lemma FaithfulAfterIff(es: seq<Step>, ws: seq<World>, n: nat)
    requires IsRun(es, ws) && n < |es| && FaithfulAt(ws, n)
    ensures FaithfulAt(ws, n + 1) <==> HarmlessAt(es, ws, n)
  {
    StepIsFaithfulIff(ws[n], es[n]);
  }

  /** Every router is as it is meant to be at every point up to `n`. */
  ghost predicate AlwaysFaithful(ws: seq<World>, n: nat)
    requires n < |ws|
  {
    forall k :: 0 <= k <= n ==> FaithfulAt(ws, k)
  }

  /** No step before `n` overwrites anything. */
  ghost predicate AllHarmless(es: seq<Step>, ws: seq<World>, n: nat)
    requires IsRun(es, ws) && n < |ws|
  {
    forall k :: 0 <= k < n ==> HarmlessAt(es, ws, k)
  }

  lemma AlwaysFaithfulMore(ws: seq<World>, n: nat)
    requires 0 < n < |ws|
    ensures AlwaysFaithful(ws, n) <==> AlwaysFaithful(ws, n - 1) && FaithfulAt(ws, n)
  {
  }

  lemma AllHarmlessMore(es: seq<Step>, ws: seq<World>, n: nat)
    requires IsRun(es, ws) && 0 < n < |ws|
    ensures AllHarmless(es, ws, n) <==> AllHarmless(es, ws, n - 1) && HarmlessAt(es, ws, n - 1)
  {
  }

  /** Main result for routers: over any run, every router holds the middlewares and the groups it is meant to hold at
    * every point, exactly if no step overwrites a cell of another router. */
  lemma {:induction false} RunIsFaithfulIff(es: seq<Step>, ws: seq<World>, n: nat)
    requires IsRun(es, ws) && n < |ws|
    ensures AlwaysFaithful(ws, n) <==> AllHarmless(es, ws, n)
  {
    if n == 0 {
      assert FaithfulAt(ws, 0);
    } else {
      RunIsFaithfulIff(es, ws, n - 1);
      AlwaysFaithfulMore(ws, n);
      AllHarmlessMore(es, ws, n);
      if AlwaysFaithful(ws, n - 1) {
        assert FaithfulAt(ws, n - 1);
        FaithfulAfterIff(es, ws, n - 1);
      }
    }
  }

  // ----- one child for each router is always safe

  /** If `r` is unused, it is the last one of its arrays as far as `q` goes. */
  ghost predicate IsTip(r: Router, q: Router) {
    !r.used ==>
      && (q.members.id == r.members.id ==> q.used && q.members.len <= r.members.len)
      && (q.groups.id == r.groups.id ==> q.used && q.groups.len <= r.groups.len)
  }

  /** An unused router is the last one of its arrays. */
  ghost predicate Tips(w: World) {
    forall i, j :: 0 <= i < |w.routers| && 0 <= j < |w.routers| && i != j ==> IsTip(w.routers[i], w.routers[j])
  }

  /** No router is made from one that was used before. */
  ghost predicate OneChildEach(w: World, e: Step) {
    (e.Using? || e.Grouping?) && e.i < |w.routers| ==> !w.routers[e.i].used
  }

  /** A router made from the unused router `k` takes over from it. */
  lemma ChildKeepsTips(w: World, k: nat, child: Router, v: World)
    requires Sound(w) && Tips(w) && k < |w.routers| && !w.routers[k].used
    requires v.routers == MarkUsed(w, k) + [child]
    requires var r := w.routers[k];
             && (child.members.id == r.members.id ==> child.members.len >= r.members.len)
             && (child.members.id == r.members.id || child.members.id >= |w.handlers|)
             && (child.groups.id == r.groups.id ==> child.groups.len >= r.groups.len)
             && (child.groups.id == r.groups.id || child.groups.id >= |w.names|)
    ensures Tips(v)
  {
    var n := |w.routers|;
    forall i, j | 0 <= i < |v.routers| && 0 <= j < |v.routers| && i != j ensures IsTip(v.routers[i], v.routers[j]) {
      if i < n && j < n {
        assert IsTip(w.routers[i], w.routers[j]);
      } else if i < n && i != k {
        assert IsTip(w.routers[i], w.routers[k]);
      } else if j < n && j != k {
        assert IsTip(w.routers[k], w.routers[j]);
      }
    }
  }

  lemma StepKeepsTips(w: World, e: Step)
    requires Allowed(w, e) && Tips(w) && OneChildEach(w, e)
    ensures Tips(Take(w, e))
  {
    var v := Take(w, e);
    match e
    case Using(i, middleware, spare) => ChildKeepsTips(w, i, v.routers[|w.routers|], v);
    case Grouping(i, name, room) => ChildKeepsTips(w, i, v.routers[|w.routers|], v);
    case _ =>
      forall i, j | 0 <= i < |w.routers| && 0 <= j < |w.routers| && i != j ensures IsTip(v.routers[i], v.routers[j]) {
        assert IsTip(w.routers[i], w.routers[j]);
      }
  }

  /** The only slice that reaches beyond that of an unused router is its own. */
  lemma OneChildIsHarmless(w: World, e: Step)
    requires Allowed(w, e) && Tips(w) && OneChildEach(w, e)
    ensures Harmless(w, e)
  {
    if e.Using? || e.Grouping? {
      forall j | 0 <= j < |w.routers| && j != e.i
        ensures w.routers[j].members.id == w.routers[e.i].members.id ==>
                  w.routers[j].members.len <= w.routers[e.i].members.len
        ensures w.routers[j].groups.id == w.routers[e.i].groups.id ==>
                  w.routers[j].groups.len <= w.routers[e.i].groups.len
      {
        assert IsTip(w.routers[e.i], w.routers[j]);
      }
    }
  }

  /** So it is in a run that makes at most one router from each, whatever capacities the runtime picks. */
  lemma {:induction false} OneChildRunIsFaithful(es: seq<Step>, ws: seq<World>, i: nat)
    requires IsRun(es, ws) && i < |ws|
    requires forall k :: 0 <= k < i ==> OneChildEach(ws[k], es[k])
    ensures Faithful(ws[i]) && Tips(ws[i])
  {
    if i == 0 {
    } else {
      OneChildRunIsFaithful(es, ws, i - 1);
      OneChildIsHarmless(ws[i - 1], es[i - 1]);
      StepIsFaithfulIff(ws[i - 1], es[i - 1]);
      StepKeepsTips(ws[i - 1], es[i - 1]);
    }
  }
}
