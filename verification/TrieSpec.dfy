/** The trie of utils/tree/trie_tree.go as a value: a finite map from paths to node contents. Strings are
  * sequences of runes. */
module TrieSpec {

  type Word = seq<char>

  datatype Payload = Nil | Of(v: int)

  datatype Entry = Entry(isWord: bool, payload: Payload, count: int)

  type Shape = map<Word, Entry>

  const EMPTY: Shape := map[[] := Entry(false, Nil, 0)]

  /** The runes that label the branches under `p`. */
  function Kids(t: Shape, p: Word): set<char> {
    set k: char | p + [k] in t
  }

  function Parent(p: Word): Word
    requires p != []
  {
    p[..|p| - 1]
  }

  ghost predicate CountOk(t: Shape, p: Word)
    requires p in t
  {
    t[p].count == |Kids(t, p)|
  }

  /** The structure, where the node at `open` may still be a leaf that ends no word. */
  ghost predicate WellFormedBut(t: Shape, open: Word) {
    && [] in t && !t[[]].isWord
    && (forall p, k :: p + [k] in t ==> p in t)
    && (forall p {:trigger CountOk(t, p)} :: p in t ==> CountOk(t, p))
    && (forall p :: p in t && p != [] && p != open && t[p].count == 0 ==> t[p].isWord)
  }

  /** Paths are closed under prefixes, `Count` is the number of children, every leaf but the root ends a word. */
  ghost predicate WellFormed(t: Shape) {
    WellFormedBut(t, [])
  }

  /** The map the trie stands for. */
  function Words(t: Shape): map<Word, Payload> {
    map w | w in t && t[w].isWord :: t[w].payload
  }

  // ----- Insert

  /** One turn of the loop of `Insert`: make sure there is a child `k` under `p`. */
  function Branch(t: Shape, p: Word, k: char): Shape
    requires p in t
  {
    if p + [k] in t then t else t[p + [k] := Entry(false, Nil, 0)][p := t[p].(count := t[p].count + 1)]
  }

  function Grow(t: Shape, p: Word, rest: Word): (u: Shape)
    requires p in t
    ensures p + rest in u
    decreases |rest|
  {
    if rest == [] then
      assert p + rest == p;
      t
    else
      assert p + rest == p + [rest[0]] + rest[1..];
      Grow(Branch(t, p, rest[0]), p + [rest[0]], rest[1..])
  }

  function InsertS(t: Shape, w: Word, x: Payload): Shape
    requires [] in t
  {
    if w == [] then t
    else
      var u := Grow(t, [], w);
      assert [] + w == w;
      u[w := u[w].(isWord := true, payload := x)]
  }

  lemma BranchKids(t: Shape, p: Word, k: char)
    requires p in t && p + [k] !in t && forall q, x :: q + [x] in t ==> q in t
    ensures var u := Branch(t, p, k);
            && Kids(u, p) == Kids(t, p) + {k}
            && Kids(u, p + [k]) == {}
            && forall q :: q != p && q != p + [k] ==> Kids(u, q) == Kids(t, q)
  {
    forall q, x: char ensures q + [x] == p + [k] <==> q == p && x == k {
      assert Parent(q + [x]) == q && Parent(p + [k]) == p && (q + [x])[|q|] == x;
    }
  }

  lemma BranchWords(t: Shape, p: Word, k: char)
    requires p in t
    ensures Words(Branch(t, p, k)) == Words(t)
  {
  }

  lemma BranchCloses(t: Shape, p: Word, k: char)
    requires p in t && forall q, x :: q + [x] in t ==> q in t
    ensures forall q, x :: q + [x] in Branch(t, p, k) ==> q in Branch(t, p, k)
  {
    forall q, x | q + [x] in Branch(t, p, k) ensures q in Branch(t, p, k) {
      assert Parent(q + [x]) == q && Parent(p + [k]) == p;
    }
  }

  lemma BranchCounts(t: Shape, p: Word, k: char)
    requires p in t && p + [k] !in t && WellFormedBut(t, p)
    ensures var u := Branch(t, p, k); forall q :: q in u ==> CountOk(u, q)
  {
    assert CountOk(t, p) && k !in Kids(t, p);
    BranchKids(t, p, k);
    var u := Branch(t, p, k);
    forall q | q in u ensures CountOk(u, q) {
      assert q in t ==> CountOk(t, q);
    }
  }

  lemma BranchWellFormed(t: Shape, p: Word, k: char)
    requires p in t && WellFormedBut(t, p)
    ensures WellFormedBut(Branch(t, p, k), p + [k]) && Words(Branch(t, p, k)) == Words(t)
  {
    BranchWords(t, p, k);
    if p + [k] in t {
      assert CountOk(t, p) && k in Kids(t, p);
    } else {
      BranchCounts(t, p, k);
      BranchCloses(t, p, k);
      assert CountOk(t, p) && t[p].count >= 0;
    }
  }

  lemma {:induction false} GrowWellFormed(t: Shape, p: Word, rest: Word)
    requires p in t && WellFormedBut(t, p)
    ensures WellFormedBut(Grow(t, p, rest), p + rest) && Words(Grow(t, p, rest)) == Words(t)
    decreases |rest|
  {
    if rest == [] {
      assert p + rest == p;
    } else {
      BranchWellFormed(t, p, rest[0]);
      assert p + rest == p + [rest[0]] + rest[1..];
      GrowWellFormed(Branch(t, p, rest[0]), p + [rest[0]], rest[1..]);
    }
  }

  /** Setting the mark of a node that has a child, or of the open leaf, closes the structure. */
  lemma MarkWellFormed(t: Shape, open: Word, w: Word, e: Entry)
    requires WellFormedBut(t, open) && w in t && w != [] && e.count == t[w].count
    requires e.isWord || t[w].count > 0
    requires open == w || open == []
    ensures WellFormed(t[w := e])
  {
    var u := t[w := e];
    assert u.Keys == t.Keys;
    forall p | p in u ensures CountOk(u, p) {
      assert Kids(u, p) == Kids(t, p) && CountOk(t, p);
    }
  }

  /** `Insert` is map update on non-empty words and keeps the structure. */
  lemma InsertIsUpdate(t: Shape, w: Word, x: Payload)
    requires WellFormed(t)
    ensures WellFormed(InsertS(t, w, x))
    ensures Words(InsertS(t, w, x)) == if w == [] then Words(t) else Words(t)[w := x]
  {
    if w != [] {
      assert [] + w == w;
      GrowWellFormed(t, [], w);
      var u := Grow(t, [], w);
      MarkWellFormed(u, w, w, u[w].(isWord := true, payload := x));
    }
  }

  /** What a node holds for a search; a path that is missing holds nothing. */
  function Held(t: Shape, q: Word): Entry {
    if q in t then t[q].(count := 0) else Entry(false, Nil, 0)
  }

  lemma BranchHolds(t: Shape, p: Word, k: char, q: Word)
    requires p in t
    ensures var u := Branch(t, p, k); (q in u <==> q in t || q == p + [k]) && Held(u, q) == Held(t, q)
  {
  }

  lemma {:induction false} GrowHolds(t: Shape, p: Word, rest: Word, q: Word)
    requires p in t
    ensures var u := Grow(t, p, rest); (q in u <==> q in t || (p <= q && q <= p + rest)) && Held(u, q) == Held(t, q)
    decreases |rest|
  {
    if rest == [] {
      assert p + rest == p;
      assert p <= q && q <= p ==> q == p;
    } else {
      var c := p + [rest[0]];
      BranchHolds(t, p, rest[0], q);
      assert p + rest == c + rest[1..];
      GrowHolds(Branch(t, p, rest[0]), c, rest[1..], q);
      assert p <= q && q <= p + rest && q != p ==> c <= q by {
        if p <= q && q <= p + rest && q != p {
          assert q[|p|] == (p + rest)[|p|] == rest[0];
        }
      }
    }
  }

  /** An insert makes the nodes on the path to the word, sets mark and payload of the last one, and changes what no
    * other node holds. */
  lemma InsertHolds(t: Shape, w: Word, x: Payload, q: Word)
    requires [] in t && w != []
    ensures var u := InsertS(t, w, x);
            && (q in u <==> q in t || q <= w)
            && Held(u, q) == if q == w then Entry(true, x, 0) else Held(t, q)
  {
    assert [] + w == w;
    GrowHolds(t, [], w, q);
  }

  // ----- Del

  /** What the source asks of a call of `Del`: the path exists, and does not end in a branching node. */
  ghost predicate CanDel(t: Shape, w: Word) {
    w == [] || (w in t && t[w].count <= 1)
  }

  predicate Branches(t: Shape, p: Word) { p in t && t[p].count > 1 }

  /** The length of the deepest branching prefix of `w` among the first `n`, or 0 for the root. */
  function BranchLen(t: Shape, w: Word, n: nat): (b: nat)
    requires n <= |w|
    ensures b <= n && (b == 0 || Branches(t, w[..b]))
  {
    if n == 0 then 0
    else if Branches(t, w[..n]) then n
    else BranchLen(t, w, n - 1)
  }

  function Deepest(t: Shape, w: Word): (b: nat)
    requires w != [] && CanDel(t, w)
    ensures b < |w| && (b == 0 || Branches(t, w[..b]))
  {
    assert w[..|w|] == w;
    BranchLen(t, w, |w|)
  }

  lemma {:induction false} SlimBelow(t: Shape, w: Word, n: nat, j: nat)
    requires n <= |w| && BranchLen(t, w, n) < j <= n
    ensures !Branches(t, w[..j])
  {
    if j < n {
      SlimBelow(t, w, n - 1, j);
    }
  }

  lemma {:induction false} PathExists(t: Shape, w: Word, j: nat)
    requires WellFormed(t) && w in t && j <= |w|
    ensures w[..j] in t
    decreases |w|
  {
    assert w[..|w|] == w;
    if j < |w| {
      assert w == Parent(w) + [w[|w| - 1]];
      PathExists(t, Parent(w), j);
      assert Parent(w)[..j] == w[..j];
    }
  }

  /** Cut off the subtree at `c`. */
  function Prune(t: Shape, c: Word): Shape
    requires c != [] && Parent(c) in t
  {
    (map q | q in t && !(c <= q) :: t[q])[Parent(c) := t[Parent(c)].(count := t[Parent(c)].count - 1)]
  }

  function DelS(t: Shape, w: Word): Shape
    requires [] in t && CanDel(t, w)
  {
    if w == [] then t
    else if t[w].count > 0 then t[w := t[w].(isWord := false)]
    else
      var b := Deepest(t, w);
      assert Parent(w[..b + 1]) == w[..b];
      Prune(t, w[..b + 1])
  }

  lemma PruneKids(t: Shape, p: Word, k: char)
    requires p in t && p + [k] in t
    ensures Parent(p + [k]) == p
    ensures var u := Prune(t, p + [k]);
            && Kids(u, p) == Kids(t, p) - {k}
            && forall q :: q in u && q != p ==> Kids(u, q) == Kids(t, q)
  {
    var c := p + [k];
    assert Parent(c) == p;
    forall q, x: char ensures c <= q + [x] <==> (q == p && x == k) || c <= q {
      assert Parent(q + [x]) == q && (q + [x])[|q|] == x;
    }
  }

  /** Below the cut there is only the path to `w`. */
  lemma {:induction false} OnlyTheChain(t: Shape, w: Word, q: Word)
    requires WellFormed(t) && w != [] && CanDel(t, w) && t[w].count == 0
    requires q in t && w[..Deepest(t, w) + 1] <= q
    ensures q <= w
    decreases |q|
  {
    var c := w[..Deepest(t, w) + 1];
    if q != c {
      var p := Parent(q);
      var k := q[|p|];
      assert q == p + [k] && c <= p;
      OnlyTheChain(t, w, p);
      assert k in Kids(t, p) && CountOk(t, p);
      assert p == w[..|p|];
      SlimBelow(t, w, |w|, |p|);
      if p != w {
        PathExists(t, w, |p| + 1);
        var k' := w[|p|];
        assert w[..|p| + 1] == p + [k'];
        assert k' in Kids(t, p);
        AtMostOne(Kids(t, p), k, k');
      }
    }
  }

  lemma AtMostOne(s: set<char>, a: char, b: char)
    requires |s| <= 1 && a in s && b in s
    ensures a == b
  {
    if a != b {
      assert {a, b} <= s;
      SubsetSize({a, b}, s);
    }
  }

  lemma {:induction false} SubsetSize(a: set<char>, b: set<char>)
    requires a <= b
    ensures |a| <= |b|
  {
    if a == {} {
    } else {
      var x :| x in a;
      SubsetSize(a - {x}, b - {x});
    }
  }

  /** From the prefix of length `j` on, the path to `w` has no branch to the side. */
  ghost predicate Slim(t: Shape, w: Word, j: nat) {
    forall k :: j <= k < |w| ==> |Kids(t, w[..k])| <= 1
  }

  /** The words `Del` takes out: `w`, and when `w` ends in a leaf, every prefix of `w` from which on no path
    * branches off. */
  ghost function Lost(t: Shape, w: Word): set<Word> {
    set v | v in Words(t).Keys && (v == w || (Kids(t, w) == {} && v <= w && Slim(t, w, |v|)))
  }

  /** These are the prefixes below the deepest branching one. */
  lemma BelowIsSlim(t: Shape, w: Word, j: nat)
    requires WellFormed(t) && w != [] && CanDel(t, w) && 0 < j <= |w|
    ensures Deepest(t, w) < j <==> Slim(t, w, j)
  {
    var b := Deepest(t, w);
    assert w[..|w|] == w;
    forall k | 0 <= k <= |w| ensures w[..k] in t && |Kids(t, w[..k])| == t[w[..k]].count {
      PathExists(t, w, k);
      assert CountOk(t, w[..k]);
    }
    if b < j {
      forall k | j <= k < |w| ensures |Kids(t, w[..k])| <= 1 {
        SlimBelow(t, w, |w|, k);
      }
    } else {
      assert Branches(t, w[..b]);
    }
  }

  lemma PruneWellFormed(t: Shape, p: Word, k: char)
    requires WellFormed(t) && p in t && p + [k] in t && (p == [] || t[p].count > 1)
    ensures Parent(p + [k]) == p && WellFormed(Prune(t, p + [k]))
  {
    PruneKids(t, p, k);
    var c := p + [k];
    var u := Prune(t, c);
    assert k in Kids(t, p) && CountOk(t, p);
    forall q | q in u ensures CountOk(u, q) {
      assert CountOk(t, q);
    }
  }

  lemma PruneWords(t: Shape, p: Word, k: char)
    requires p in t
    ensures Parent(p + [k]) == p
    ensures Words(Prune(t, p + [k])) == map v | v in Words(t) && !(p + [k] <= v) :: Words(t)[v]
  {
  }

  lemma LostIsBelowTheCut(t: Shape, w: Word, v: Word)
    requires WellFormed(t) && w != [] && CanDel(t, w) && t[w].count == 0 && v in Words(t)
    ensures w[..Deepest(t, w) + 1] <= v <==> v in Lost(t, w)
  {
    assert CountOk(t, w) && v != [];
    if w[..Deepest(t, w) + 1] <= v {
      OnlyTheChain(t, w, v);
    }
    if v <= w {
      BelowIsSlim(t, w, |v|);
      BelowIsSlim(t, w, |w|);
    }
  }

  /** The words left after `Del`. */
  lemma DelWords(t: Shape, w: Word, v: Word)
    requires WellFormed(t) && w != [] && CanDel(t, w)
    ensures v in Words(DelS(t, w)) <==> v in Words(t) && v !in Lost(t, w)
    ensures v in Words(DelS(t, w)) ==> Words(DelS(t, w))[v] == Words(t)[v]
  {
    assert CountOk(t, w);
    if t[w].count == 0 {
      var b := Deepest(t, w);
      assert w[..b + 1] == w[..b] + [w[b]];
      PruneWords(t, w[..b], w[b]);
      if v in Words(t) {
        LostIsBelowTheCut(t, w, v);
      }
    }
  }

  /** The branch that is cut exists. */
  lemma CutExists(t: Shape, w: Word)
    requires WellFormed(t) && w != [] && CanDel(t, w)
    ensures var b := Deepest(t, w);
            w[..b + 1] == w[..b] + [w[b]] && w[..b + 1] in t && w[..b] in t && (w[..b] == [] || t[w[..b]].count > 1)
  {
    PathExists(t, w, Deepest(t, w) + 1);
  }

  /** When `w` ends in a leaf, the branch below the deepest branching prefix is cut. */
  lemma DelIsPrune(t: Shape, w: Word)
    requires [] in t && w != [] && CanDel(t, w) && t[w].count <= 0 && w[..Deepest(t, w)] in t
    ensures var b := Deepest(t, w); var c := w[..b] + [w[b]];
            Parent(c) == w[..b] && DelS(t, w) == Prune(t, c)
  {
    var b := Deepest(t, w);
    assert w[..b + 1] == w[..b] + [w[b]];
  }

  lemma DelWellFormed(t: Shape, w: Word)
    requires WellFormed(t) && w != [] && CanDel(t, w)
    ensures WellFormed(DelS(t, w))
  {
    if t[w].count > 0 {
      MarkWellFormed(t, [], w, t[w].(isWord := false));
    } else {
      var b := Deepest(t, w);
      CutExists(t, w);
      PruneWellFormed(t, w[..b], w[b]);
    }
  }

  /** `Del` keeps the structure and removes exactly the words of `Lost`, each other word keeping its payload. */
  lemma DelRemovesLost(t: Shape, w: Word)
    requires WellFormed(t) && w != [] && CanDel(t, w)
    ensures WellFormed(DelS(t, w)) && Words(DelS(t, w)) == Words(t) - Lost(t, w)
  {
    DelWellFormed(t, w);
    var left := Words(DelS(t, w));
    forall v ensures v in left <==> v in Words(t) && v !in Lost(t, w)
             ensures v in left ==> left[v] == Words(t)[v]
    {
      DelWords(t, w, v);
    }
  }

  /** What always holds: the deleted word is gone, and a word that is not a prefix of it is untouched. */
  lemma DelSparesOthers(t: Shape, w: Word)
    requires WellFormed(t) && w != [] && CanDel(t, w)
    ensures w !in Words(DelS(t, w))
    ensures forall v :: !(v <= w) ==> (v in Words(DelS(t, w)) <==> v in Words(t))
    ensures forall v :: !(v <= w) && v in Words(t) ==> Words(DelS(t, w))[v] == Words(t)[v]
  {
    DelRemovesLost(t, w);
  }

  /** A word with a child loses only its mark: its node stays, with the payload. */
  lemma DelLeavesPayload(t: Shape, w: Word)
    requires WellFormed(t) && w != [] && CanDel(t, w) && Kids(t, w) != {}
    ensures var u := DelS(t, w);
            && u.Keys == t.Keys && !u[w].isWord && u[w].payload == t[w].payload
            && forall p :: p in t && p != w ==> u[p] == t[p]
  {
    assert CountOk(t, w);
  }

  /** The test under which `Del` is safe: it only clears a mark, or after every stored proper prefix of `w` a path
    * branches off. */
  ghost predicate NoPrefixAtRisk(t: Shape, w: Word) {
    Kids(t, w) != {} || forall j :: 0 < j < |w| && w[..j] in Words(t) ==> !Slim(t, w, j)
  }

  lemma LostOnlyIt(t: Shape, w: Word)
    requires WellFormed(t)
    ensures Lost(t, w) <= {w} <==> NoPrefixAtRisk(t, w)
  {
    if NoPrefixAtRisk(t, w) {
      forall v | v in Lost(t, w) ensures v == w {
        assert v == w[..|v|];
      }
    } else {
      var j :| 0 < j < |w| && w[..j] in Words(t) && Slim(t, w, j);
      assert w[..j] <= w && |w[..j]| == j && w[..j] in Lost(t, w);
    }
  }

  lemma SameRemoval(m: map<Word, Payload>, gone: set<Word>, w: Word)
    requires gone <= m.Keys && (w in m ==> w in gone)
    ensures m - gone == m - {w} <==> gone <= {w}
  {
    if gone <= {w} {
      assert m - gone == m - {w};
    } else {
      var v :| v in gone && v != w;
      assert v in m - {w} && v !in m - gone;
    }
  }

  /** `Del` is map removal exactly when no stored prefix is at risk. */
  lemma DelIsRemovalIff(t: Shape, w: Word)
    requires WellFormed(t) && w != [] && CanDel(t, w)
    ensures Words(DelS(t, w)) == Words(t) - {w} <==> NoPrefixAtRisk(t, w)
  {
    DelRemovesLost(t, w);
    LostOnlyIt(t, w);
    SameRemoval(Words(t), Lost(t, w), w);
  }

  /** Deleting "ab" from a trie holding "a" and "ab" loses "a" as well. */
  lemma DelCanLoseAPrefix()
    ensures var t := InsertS(InsertS(EMPTY, "a", Of(1)), "ab", Of(2));
            && WellFormed(t) && CanDel(t, "ab")
            && Words(t) == map["a" := Of(1), "ab" := Of(2)] && "a" !in Words(DelS(t, "ab"))
  {
    var t1 := InsertS(EMPTY, "a", Of(1));
    var t := InsertS(t1, "ab", Of(2));
    EmptyWellFormed();
    InsertIsUpdate(EMPTY, "a", Of(1));
    InsertIsUpdate(t1, "ab", Of(2));
    TwoStepShape();
    assert CountOk(t, "ab");
    BelowIsSlim(t, "ab", 1);
    assert "a" in Lost(t, "ab");
    DelRemovesLost(t, "ab");
  }

  lemma TwoStepShape()
    ensures var t := InsertS(InsertS(EMPTY, "a", Of(1)), "ab", Of(2));
            t.Keys == {[], "a", "ab"} && t["ab"].count == 0 && Deepest(t, "ab") == 0
  {
    assert "a"[1..] == [] && "ab"[1..] == ['b'] && ['b'][1..] == [];
    assert [] + ['a'] == "a" && "a" + ['b'] == "ab";
    var t1 := InsertS(EMPTY, "a", Of(1));
    assert Grow(EMPTY, [], "a") == Branch(EMPTY, [], 'a');
    assert t1.Keys == {[], "a"} && t1["a"].count == 0;
    var u := Grow(t1, "a", ['b']);
    assert u == Branch(t1, "a", 'b');
    assert Grow(t1, [], "ab") == u;
    var t := InsertS(t1, "ab", Of(2));
    assert t.Keys == {[], "a", "ab"} && t["a"].count == 1;
    assert "ab"[..1] == "a" && "ab"[..2] == "ab" && !Branches(t, "a") && !Branches(t, "ab");
    assert BranchLen(t, "ab", 1) == 0;
  }

  lemma EmptyWellFormed()
    ensures WellFormed(EMPTY) && Words(EMPTY) == map[]
  {
    assert Kids(EMPTY, []) == {};
  }

  // ----- whole runs

  datatype Call = Insert(w: Word, x: Payload) | Del(w: Word)

  ghost predicate Allowed(t: Shape, c: Call) {
    c.Insert? || CanDel(t, c.w)
  }

  function Apply(t: Shape, c: Call): Shape
    requires [] in t && Allowed(t, c)
  {
    match c
    case Insert(w, x) => InsertS(t, w, x)
    case Del(w) => DelS(t, w)
  }

  /** `ts` are the states of a run of `calls` from the empty trie. */
  ghost predicate IsRun(calls: seq<Call>, ts: seq<Shape>) {
    && |ts| == |calls| + 1 && ts[0] == EMPTY
    && forall i :: 0 <= i < |calls| ==> [] in ts[i] && Allowed(ts[i], calls[i]) && ts[i + 1] == Apply(ts[i], calls[i])
  }

  /** Every state of every run is well-formed. */
  lemma {:induction false} RunKeepsShape(calls: seq<Call>, ts: seq<Shape>, i: nat)
    requires IsRun(calls, ts) && i < |ts|
    ensures WellFormed(ts[i])
  {
    if i == 0 {
      EmptyWellFormed();
    } else {
      RunKeepsShape(calls, ts, i - 1);
      match calls[i - 1]
      case Insert(w, x) => InsertIsUpdate(ts[i - 1], w, x);
      case Del(w) =>
        if w == [] {
        } else {
          DelRemovesLost(ts[i - 1], w);
        }
    }
  }

  function Update(m: map<Word, Payload>, c: Call): map<Word, Payload> {
    match c
    case Insert(w, x) => if w == [] then m else m[w := x]
    case Del(w) => m - {w}
  }

  /** The plain map a run of calls should produce. */
  function Replay(calls: seq<Call>): map<Word, Payload> {
    if calls == [] then map[]
    else
      Update(Replay(calls[..|calls| - 1]), calls[|calls| - 1])
  }

  /** The run stands for the plain map at this point. */
  ghost predicate IsMapAt(calls: seq<Call>, ts: seq<Shape>, i: nat)
    requires IsRun(calls, ts) && i < |ts|
  {
    Words(ts[i]) == Replay(calls[..i])
  }

  /** If the call is a delete, no stored prefix is at risk. */
  ghost predicate SafeCall(t: Shape, c: Call)
    requires Allowed(t, c)
  {
    c.Del? && c.w != [] ==> NoPrefixAtRisk(t, c.w)
  }

  ghost predicate SafeAt(calls: seq<Call>, ts: seq<Shape>, i: nat)
    requires IsRun(calls, ts) && i < |calls|
  {
    SafeCall(ts[i], calls[i])
  }

  lemma CallIsMapIff(t: Shape, c: Call)
    requires WellFormed(t) && Allowed(t, c)
    ensures Words(Apply(t, c)) == Update(Words(t), c) <==> SafeCall(t, c)
  {
    match c
    case Insert(w, x) => InsertIsUpdate(t, w, x);
    case Del(w) =>
      if w != [] {
        DelIsRemovalIff(t, w);
      } else {
        assert [] !in Words(t);
      }
  }

  lemma IsMapAfterIff(calls: seq<Call>, ts: seq<Shape>, i: nat)
    requires IsRun(calls, ts) && i < |calls| && IsMapAt(calls, ts, i)
    ensures IsMapAt(calls, ts, i + 1) <==> SafeAt(calls, ts, i)
  {
    RunKeepsShape(calls, ts, i);
    CallIsMapIff(ts[i], calls[i]);
    assert calls[..i + 1][..i] == calls[..i];
  }

  /** The run stands for the plain map at every point up to `n`. */
  ghost predicate AlwaysMap(calls: seq<Call>, ts: seq<Shape>, n: nat)
    requires IsRun(calls, ts) && n < |ts|
  {
    forall i :: 0 <= i <= n ==> IsMapAt(calls, ts, i)
  }

  /** No delete before `n` has a stored prefix at risk. */
  ghost predicate NoneAtRisk(calls: seq<Call>, ts: seq<Shape>, n: nat)
    requires IsRun(calls, ts) && n < |ts|
  {
    forall i :: 0 <= i < n ==> SafeAt(calls, ts, i)
  }

  lemma AlwaysMapMore(calls: seq<Call>, ts: seq<Shape>, n: nat)
    requires IsRun(calls, ts) && 0 < n < |ts|
    ensures AlwaysMap(calls, ts, n) <==> AlwaysMap(calls, ts, n - 1) && IsMapAt(calls, ts, n)
  {
  }

  lemma NoneAtRiskMore(calls: seq<Call>, ts: seq<Shape>, n: nat)
    requires IsRun(calls, ts) && 0 < n < |ts|
    ensures NoneAtRisk(calls, ts, n) <==> NoneAtRisk(calls, ts, n - 1) && SafeAt(calls, ts, n - 1)
  {
  }

  lemma AlwaysMapStep(calls: seq<Call>, ts: seq<Shape>, n: nat)
    requires IsRun(calls, ts) && 0 < n < |ts| && AlwaysMap(calls, ts, n - 1)
    ensures IsMapAt(calls, ts, n) <==> SafeAt(calls, ts, n - 1)
  {
    assert IsMapAt(calls, ts, n - 1);
    IsMapAfterIff(calls, ts, n - 1);
  }

  lemma StartIsMap(calls: seq<Call>, ts: seq<Shape>)
    requires IsRun(calls, ts)
    ensures AlwaysMap(calls, ts, 0) && NoneAtRisk(calls, ts, 0)
  {
    EmptyWellFormed();
    assert IsMapAt(calls, ts, 0);
  }

  /** Main result for runs: a run stands for the plain map at every point if and only if no delete in it has a stored
    * prefix at risk. */
  lemma {:induction false} RunIsMapIff(calls: seq<Call>, ts: seq<Shape>, n: nat)
    requires IsRun(calls, ts) && n < |ts|
    ensures AlwaysMap(calls, ts, n) <==> NoneAtRisk(calls, ts, n)
  {
    if n == 0 {
      StartIsMap(calls, ts);
    } else {
      RunIsMapIff(calls, ts, n - 1);
      AlwaysMapMore(calls, ts, n);
      NoneAtRiskMore(calls, ts, n);
      if AlwaysMap(calls, ts, n - 1) {
        AlwaysMapStep(calls, ts, n);
      }
    }
  }
}
