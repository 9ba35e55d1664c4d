/** Routers over real arrays: `Use` and `Group` append in place while the capacity lasts, `Add` copies. */
module Router {
  import opened RouterState
  import opened Strings
  import opened Wrappers

  /** A Go slice: the first `len` cells of an array. */
  datatype GoSlice<T> = GoSlice(arr: array<T>, len: nat) {
    ghost predicate Ok() {
      len <= arr.Length
    }

    ghost function View(): seq<T>
      requires Ok()
      reads arr
    {
      arr[..len]
    }
  }

  /** `r` is what the append of the value model makes of `s`: the same cells of the same array if there is room, and
    * otherwise a new array with the old one unchanged. What is behind the cells of `r` is as the runtime left it. */
  twostate predicate Appended<T>(s: GoSlice<T>, xs: seq<T>, new r: GoSlice<T>)
    reads s.arr, r.arr
  {
    && s.Ok() && r.Ok() && r.len == s.len + |xs|
    && Append([old(s.arr[..])], Slice(0, s.len), xs, r.arr[r.len..]) ==
       if r.arr == s.arr then Grown([s.arr[..]], Slice(0, r.len)) else Grown([s.arr[..], r.arr[..]], Slice(1, r.len))
  }

  /** Another slice of the same array is changed by the append exactly when it reaches into the cells written, and held
    * something else there. */
  twostate lemma SharersSee<T>(s: GoSlice<T>, xs: seq<T>, new r: GoSlice<T>, t: GoSlice<T>)
    requires Appended(s, xs, r) && t.arr == s.arr && t.Ok()
    ensures t.View() != old(t.View()) <==>
            r.arr == s.arr && exists k :: s.len <= k < t.len && k < s.len + |xs| && old(t.View())[k] != xs[k - s.len]
  {
    AppendChangesIff([old(s.arr[..])], Slice(0, s.len), xs, r.arr[r.len..], Slice(0, t.len));
  }

  /** A larger array that begins with the cells of the slice. */
  method Enlarged<T(0)>(s: GoSlice<T>, cap: nat) returns (arr: array<T>)
    requires s.Ok() && s.len <= cap
    ensures fresh(arr) && arr.Length == cap && arr[..s.len] == s.View()
  {
    arr := new T[cap];
    for k := 0 to s.len
      invariant arr[..k] == s.arr[..k]
    {
      arr[k] := s.arr[k];
    }
  }

  method Write<T>(arr: array<T>, at: nat, xs: seq<T>)
    requires at + |xs| <= arr.Length
    modifies arr
    ensures arr[..] == old(arr[..at]) + xs + old(arr[at + |xs|..])
  {
    for k := 0 to |xs|
      invariant forall j :: 0 <= j < arr.Length ==> arr[j] == if at <= j < at + k then xs[j - at] else old(arr[j])
    {
      arr[at + k] := xs[k];
    }
  }

  /** `append(s, xs...)`; the runtime picks any capacity that is large enough. */
  method GoAppend<T(0)>(s: GoSlice<T>, xs: seq<T>) returns (r: GoSlice<T>)
    requires s.Ok()
    modifies s.arr
    ensures Appended(s, xs, r) && (r.arr == s.arr || fresh(r.arr))
    ensures r.View() == old(s.View()) + xs && s.View() == old(s.View())
  {
    var n := s.len + |xs|;
    var arr := s.arr;
    if n > arr.Length {
      var cap: nat :| cap >= n;
      arr := Enlarged(s, cap);
    }
    Write(arr, s.len, xs);
    r := GoSlice(arr, n);
  }

  /** `make` an array just large enough, `copy` the members into it, and `append` the handlers: this fits. */
  method CopyAndAppend(members: GoSlice<Handler>, fns: seq<Handler>) returns (chain: GoSlice<Handler>)
    requires members.Ok()
    ensures chain.Ok() && fresh(chain.arr) && chain.View() == members.View() + fns
  {
    var n := members.len;
    var made := new Handler[n + |fns|];
    for k := 0 to n
      invariant made[..k] == members.arr[..k]
    {
      made[k] := members.arr[k];
    }
    chain := GoAppend(GoSlice(made, n), fns);
  }

  datatype Routers = Routers(members: GoSlice<Handler>, groups: GoSlice<string>) {
    ghost predicate Ok() {
      members.Ok() && groups.Ok()
    }
  }

  /** `ActionManager`: the route map. `chains` is what the routes held when they were registered, `sealed` the arrays
    * made for them. */
  class ActionManager {
    var handlerMap: map<string, GoSlice<Handler>>
    ghost var chains: map<string, seq<Handler>>
    ghost var sealed: set<array<Handler>>

    ghost predicate Valid()
      reads this, sealed
    {
      && handlerMap.Keys == chains.Keys
      && forall n :: n in handlerMap ==>
           handlerMap[n].Ok() && handlerMap[n].arr in sealed && handlerMap[n].View() == chains[n]
    }

    constructor ()
      ensures Valid() && chains == map[] && sealed == {}
    {
      handlerMap, chains, sealed := map[], map[], {};
    }

    /** A router whose array is not one of the registered chains; routers never get at those. */
    ghost predicate Serves(r: Routers)
      reads this
    {
      r.Ok() && r.members.arr !in sealed
    }

    method Has(name: string) returns (b: bool)
      requires Valid()
      ensures b <==> name in chains
    {
      b := name in handlerMap;
    }

    method Handlers(name: string) returns (chain: seq<Handler>)
      requires Valid()
      ensures chain == if name in chains then chains[name] else []
    {
      if name in handlerMap {
        var s := handlerMap[name];
        chain := s.arr[..s.len];
      } else {
        chain := [];
      }
    }

    method NewRouter() returns (r: Routers)
      requires Valid()
      ensures Valid() && Serves(r) && fresh(r.members.arr) && fresh(r.groups.arr)
      ensures r.members.View() == [] && r.groups.View() == []
    {
      var members := new Handler[0];
      var groups := new string[0];
      r := Routers(GoSlice(members, 0), GoSlice(groups, 0));
    }

    /** The receiver is passed by value: the caller's router keeps its slices, and no registered chain changes. The
      * members of the two share an array exactly as the append of the value model says. */
    method Use(r: Routers, middleware: seq<Handler>) returns (q: Routers)
      requires Valid() && Serves(r)
      modifies r.members.arr
      ensures Valid() && Serves(q) && q.groups == r.groups
      ensures Appended(r.members, middleware, q.members) && (q.members.arr == r.members.arr || fresh(q.members.arr))
      ensures q.members.View() == old(r.members.View()) + middleware
      ensures r.members.View() == old(r.members.View())
    {
      var members := GoAppend(r.members, middleware);
      q := r.(members := members);
    }

    method Group(r: Routers, name: string) returns (q: Routers)
      requires Valid() && Serves(r)
      modifies r.groups.arr
      ensures Valid() && Serves(q) && q.members == r.members
      ensures Appended(r.groups, [name], q.groups) && (q.groups.arr == r.groups.arr || fresh(q.groups.arr))
      ensures q.groups.View() == old(r.groups.View()) + [name]
      ensures r.groups.View() == old(r.groups.View())
    {
      var groups := GoAppend(r.groups, [name]);
      q := r.(groups := groups);
    }

    /** A duplicate route panics, and changes nothing. */
    method Add(r: Routers, name: string, fns: seq<Handler>) returns (res: Result<(), string>)
      requires Valid() && Serves(r)
      modifies this
      ensures Valid() && Serves(r)
      ensures var n := FullName(r.groups.View(), name);
              if n in old(chains) then res == Failure("Duplicate route: " + n) && chains == old(chains)
              else res == Success(()) && chains == old(chains)[n := r.members.View() + fns]
    {
      var full := name;
      if r.groups.len != 0 {
        full := Join(r.groups.arr[..r.groups.len], ".") + "." + name;
      }
      if full in handlerMap {
        return Failure("Duplicate route: " + full);
      }
      var chain := CopyAndAppend(r.members, fns);
      handlerMap := handlerMap[full := chain];
      sealed := sealed + {chain.arr};
      chains := chains[full := chain.View()];
      return Success(());
    }
  }
}
