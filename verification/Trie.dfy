/** The trie of utils/tree/trie_tree.go as linked nodes that `Insert` and `Del` change in place. */
module Trie {
  import opened TrieSpec

  class Node {
    var val: char
    var depth: int
    var count: int
    var payload: Payload
    var child: map<char, Node>
    var isWord: bool
    /** Where the node hangs. */
    ghost const path: Word

    constructor (ghost path: Word)
      ensures this.path == path && depth == 0 && Data() == Entry(false, Nil, 0) && forall k :: Kid(k) == null
    {
      count, depth, payload, child, isWord := 0, 0, Nil, map[], false;
      this.path := path;
    }

    method Label(k: char, depth: int)
      modifies this`val, this`depth
      ensures val == k && this.depth == depth
    {
      val := k;
      this.depth := depth;
    }

    function Kid(k: char): Node?
      reads this`child
    {
      if k in child then child[k] else null
    }

    ghost function Data(): Entry
      reads this`isWord, this`payload, this`count
    {
      Entry(isWord, payload, count)
    }

    method AddChild(k: char, next: Node)
      modifies this`child, this`count
      ensures Data() == old(Data()).(count := old(count) + 1)
      ensures forall x :: Kid(x) == if x == k then next else old(Kid(x))
    {
      child := child[k := next];
      count := count + 1;
    }

    method DropChild(k: char)
      modifies this`child, this`count
      ensures Data() == old(Data()).(count := old(count) - 1)
      ensures forall x :: Kid(x) == if x == k then null else old(Kid(x))
    {
      child := child - {k};
      count := count - 1;
    }
  }

  /** `res` holds the payloads of the words `s` of `m`, each once; `ws` is the order they come in. */
  ghost predicate Lists(m: map<Word, Payload>, s: set<Word>, res: seq<Payload>, ws: seq<Word>) {
    && |res| == |ws|
    && (forall i, j :: 0 <= i < j < |ws| ==> ws[i] != ws[j])
    && (forall w :: w in ws <==> w in s)
    && (forall i :: 0 <= i < |ws| ==> ws[i] in m && res[i] == m[ws[i]])
  }

  lemma ListsBoth(m: map<Word, Payload>, s: set<Word>, res: seq<Payload>, ws: seq<Word>,
                  s': set<Word>, res': seq<Payload>, ws': seq<Word>)
    requires Lists(m, s, res, ws) && Lists(m, s', res', ws') && s !! s'
    ensures Lists(m, s + s', res + res', ws + ws')
  {
    forall i, j | 0 <= i < j < |ws + ws'| ensures (ws + ws')[i] != (ws + ws')[j] {
      assert i < |ws| ==> ws[i] in s;
      assert j >= |ws| ==> ws'[j - |ws|] in s';
    }
  }

  /** The stored words that extend `p`. */
  ghost function Extending(m: map<Word, Payload>, p: Word): set<Word> {
    set w | w in m.Keys && p <= w
  }

  /** Those of them that do not go through a child in `todo`. */
  ghost function Done(m: map<Word, Payload>, p: Word, todo: set<char>): set<Word> {
    set w | w in m.Keys && p <= w && (|p| < |w| ==> w[|p|] !in todo)
  }

  lemma DoneOneMore(m: map<Word, Payload>, p: Word, todo: set<char>, k: char)
    requires k in todo
    ensures Done(m, p, todo - {k}) == Done(m, p, todo) + Extending(m, p + [k])
    ensures Done(m, p, todo) !! Extending(m, p + [k])
  {
    forall w ensures p + [k] <= w <==> p <= w && |p| < |w| && w[|p|] == k {
    }
  }

  ghost function At(nodes: map<Word, Node>, p: Word): Node? {
    if p in nodes then nodes[p] else null
  }

  class Trie {
    const root: Node
    /** The node at each path, and what it holds. */
    ghost var nodes: map<Word, Node>
    ghost var view: Shape
    /** All nodes ever hung in the trie. */
    ghost var repr: set<Node>

    /** Every node holds what `view` says, and knows its place. */
    ghost predicate Tied()
      reads this, repr
    {
      && nodes.Keys == view.Keys
      && forall p :: p in nodes ==>
           nodes[p] in repr && nodes[p].path == p && nodes[p].depth == |p| && nodes[p].Data() == view[p]
    }

    /** Children are where the paths say. */
    ghost predicate Linked()
      reads this, repr
      requires Tied()
    {
      && (forall p, k {:trigger nodes[p].Kid(k)} :: p in nodes ==> nodes[p].Kid(k) == At(nodes, p + [k]))
      && (forall p, k {:trigger p + [k] in nodes} :: p + [k] in nodes ==> p in nodes && nodes[p + [k]].val == k)
    }

    ghost predicate Valid()
      reads this, repr
    {
      [] in nodes && root == nodes[[]] && Tied() && Linked()
    }

    constructor ()
      ensures Valid() && view == EMPTY && fresh(repr)
    {
      root := new Node([]);
      new;
      nodes := map[[] := root];
      view := EMPTY;
      repr := {root};
    }

    /** A new node at `c`, not yet hung anywhere. */
    method Place(ghost c: Word, k: char, depth: int) returns (next: Node)
      requires Tied() && c !in nodes && depth == |c|
      modifies this`nodes, this`view, this`repr
      ensures Tied() && fresh(next) && repr == old(repr) + {next} && nodes == old(nodes)[c := next]
      ensures view == old(view)[c := Entry(false, Nil, 0)]
      ensures next.val == k && forall x :: next.Kid(x) == null
    {
      next := new Node(c);
      next.Label(k, depth);
      nodes := nodes[c := next];
      view := view[c := Entry(false, Nil, 0)];
      repr := repr + {next};
    }

    /** Hang `next`, as child `k`, on the node at `p`. */
    method Hang(node: Node, ghost p: Word, k: char, next: Node)
      requires Tied() && p in nodes && node == nodes[p]
      modifies this`view, node`child, node`count
      ensures Tied() && view == old(view)[p := old(view)[p].(count := old(view)[p].count + 1)]
      ensures forall x :: node.Kid(x) == if x == k then next else old(node.Kid(x))
    {
      node.AddChild(k, next);
      view := view[p := node.Data()];
    }

    method Attach(node: Node, ghost p: Word, ghost c: Word, k: char) returns (next: Node)
      requires Tied() && p in nodes && node == nodes[p] && c !in nodes && |c| == |p| + 1
      modifies this, node`child, node`count
      ensures Tied() && fresh(next) && repr == old(repr) + {next} && nodes == old(nodes)[c := next]
      ensures view == old(view)[c := Entry(false, Nil, 0)][p := old(view)[p].(count := old(view)[p].count + 1)]
      ensures next.val == k && forall x :: next.Kid(x) == null
      ensures forall x :: node.Kid(x) == if x == k then next else old(node.Kid(x))
      ensures forall q, x {:trigger nodes[q].Kid(x)} :: q in old(nodes) && q != p ==>
                nodes[q].Kid(x) == old(nodes[q].Kid(x))
    {
      next := Place(c, k, node.depth + 1);
      Hang(node, p, k, next);
    }

    /** Take child `k` from the node at `p`. */
    method Drop(node: Node, ghost p: Word, k: char)
      requires Tied() && p in nodes && node == nodes[p]
      modifies this`view, node`child, node`count
      ensures Tied() && view == old(view)[p := old(view)[p].(count := old(view)[p].count - 1)]
      ensures forall x :: node.Kid(x) == if x == k then null else old(node.Kid(x))
    {
      node.DropChild(k);
      view := view[p := node.Data()];
    }

    /** What hangs from `c` on is no longer part of the trie. */
    ghost method Forget(c: Word)
      requires Tied()
      modifies this`nodes, this`view
      ensures Tied() && nodes == map q | q in old(nodes) && !(c <= q) :: old(nodes)[q]
      ensures view == map q | q in old(view) && !(c <= q) :: old(view)[q]
    {
      nodes := map q | q in nodes && !(c <= q) :: nodes[q];
      view := map q | q in view && !(c <= q) :: view[q];
    }

    static lemma SameChild(p: Word, k: char)
      ensures forall q, x: char :: q + [x] == p + [k] <==> q == p && x == k
    {
      forall q, x: char ensures q + [x] == p + [k] <==> q == p && x == k {
        assert Parent(q + [x]) == q && Parent(p + [k]) == p && (q + [x])[|q|] == x;
      }
    }

    /** One turn of the loop of `Insert`. */
    method Step(node: Node, ghost p: Word, k: char) returns (next: Node)
      requires Valid() && p in nodes && node == nodes[p]
      modifies this, node
      ensures Valid() && view == Branch(old(view), p, k)
      ensures p + [k] in nodes && next == nodes[p + [k]]
      ensures fresh(repr - old(repr))
    {
      assert node.Kid(k) == At(nodes, p + [k]);
      if k in node.child {
        next := node.child[k];
      } else {
        next := HangLinked(node, p, p + [k], k);
      }
    }

    method HangLinked(node: Node, ghost p: Word, ghost c: Word, k: char) returns (next: Node)
      requires Valid() && p in nodes && node == nodes[p] && c == p + [k] && c !in nodes
      modifies this, node
      ensures Valid() && fresh(next) && repr == old(repr) + {next} && nodes == old(nodes)[c := next]
      ensures view == old(view)[c := Entry(false, Nil, 0)][p := old(view)[p].(count := old(view)[p].count + 1)]
    {
      next := Attach(node, p, c, k);
      HangsAlone(old(nodes), p, c, k, next, nodes);
      assert forall q, x {:trigger nodes[q].Kid(x)} :: q in nodes ==> nodes[q].Kid(x) == At(nodes, q + [x]);
    }

    static lemma HangsAlone(nodes: map<Word, Node>, p: Word, c: Word, k: char, next: Node, m: map<Word, Node>)
      requires c == p + [k] && p in nodes && c !in nodes && forall q, x :: q + [x] in nodes ==> q in nodes
      requires m == nodes[c := next]
      ensures forall q, x {:trigger At(m, q + [x])} :: At(m, q + [x]) ==
                if q == p && x == k then next else if q == c then null else At(nodes, q + [x])
      ensures forall q, x {:trigger q + [x] in m} :: q + [x] in m ==>
                q in nodes && (q + [x] in nodes || (q == p && x == k))
    {
      SameChild(p, k);
      forall x: char ensures c + [x] !in nodes && c + [x] != c {
        assert |c + [x]| == |c| + 1;
      }
    }

    /** Set the mark and the payload of the node at `p`. */
    method Mark(node: Node, ghost p: Word, isWord: bool, x: Payload)
      requires Tied() && p in nodes && node == nodes[p]
      modifies this`view, node`payload, node`isWord
      ensures Tied() && view == old(view)[p := old(view)[p].(isWord := isWord, payload := x)]
    {
      node.payload := x;
      node.isWord := isWord;
      view := view[p := view[p].(isWord := isWord, payload := x)];
    }

    /** Marking keeps the links. */
    method MarkWord(node: Node, ghost p: Word, isWord: bool, x: Payload)
      requires Valid() && p in nodes && node == nodes[p]
      modifies this`view, node`payload, node`isWord
      ensures Valid() && view == old(view)[p := old(view)[p].(isWord := isWord, payload := x)]
    {
      Mark(node, p, isWord, x);
    }

    method Insert(str: Word, x: Payload)
      requires Valid()
      modifies this, repr
      ensures Valid() && view == InsertS(old(view), str, x)
      ensures fresh(repr - old(repr))
    {
      if |str| == 0 {
        return;
      }
      var node := Reach(str);
      MarkWord(node, str, true, x);
    }

    /** The loop of `Insert`: the node at the end of the path, which is built where it is missing. */
    method Reach(str: Word) returns (node: Node)
      requires Valid()
      modifies this, repr
      ensures Valid() && str in nodes && node == nodes[str] && view == Grow(old(view), [], str)
      ensures fresh(repr - old(repr))
    {
      node := root;
      for i := 0 to |str|
        invariant Valid() && str[..i] in nodes && node == nodes[str[..i]]
        invariant Grow(view, str[..i], str[i..]) == Grow(old(view), [], str)
        invariant fresh(repr - old(repr))
      {
        node := StepOn(node, str, i);
      }
      assert str[..|str|] == str;
    }

    method StepOn(node: Node, str: Word, i: nat) returns (next: Node)
      requires Valid() && i < |str| && str[..i] in nodes && node == nodes[str[..i]]
      modifies this, repr
      ensures Valid() && str[..i + 1] in nodes && next == nodes[str[..i + 1]]
      ensures Grow(view, str[..i + 1], str[i + 1..]) == Grow(old(view), str[..i], str[i..])
      ensures fresh(repr - old(repr))
    {
      assert str[i..][0] == str[i] && str[i..][1..] == str[i + 1..] && str[..i + 1] == str[..i] + [str[i]];
      next := Step(node, str[..i], str[i]);
    }

    /** Walk down from the root; `node` is nil when the path is missing. */
    method Walk(str: Word) returns (node: Node?)
      requires Valid()
      ensures node == if str in nodes then nodes[str] else null
    {
      node := root;
      for i := 0 to |str|
        invariant str[..i] in nodes && node == nodes[str[..i]]
      {
        assert str[..i + 1] == str[..i] + [str[i]] && node.Kid(str[i]) == At(nodes, str[..i + 1]);
        if str[i] !in node.child {
          Missing(str, i + 1);
          return null;
        }
        node := node.child[str[i]];
      }
      assert str[..|str|] == str;
    }

    lemma Missing(str: Word, n: nat)
      requires Valid() && n <= |str| && str[..n] !in nodes
      ensures str !in nodes
      decreases |str|
    {
      assert str[..|str|] == str;
      if n < |str| {
        assert str == Parent(str) + [str[|str| - 1]] && Parent(str)[..n] == str[..n];
        Missing(Parent(str), n);
      }
    }

    method Find(str: Word) returns (ok: bool, x: Payload)
      requires Valid()
      ensures ok <==> str in Words(view)
      ensures ok ==> x == Words(view)[str]
      ensures x == if str in view then view[str].payload else Nil
    {
      var node := Walk(str);
      if node == null {
        return false, Nil;
      }
      return node.isWord, node.payload;
    }

    /** The payloads of the stored words that extend `prefix`, each word once. */
    method FindAll(prefix: Word) returns (res: seq<Payload>)
      requires Valid()
      ensures exists ws :: Lists(Words(view), Extending(Words(view), prefix), res, ws)
    {
      var node := Walk(prefix);
      if node == null {
        forall w | w in nodes && prefix <= w ensures false {
          assert w[..|prefix|] == prefix;
          Missing(w, |prefix|);
        }
        assert Lists(Words(view), Extending(Words(view), prefix), [], []);
        return [];
      }
      ghost var ws;
      res, ws := Collect(node, prefix);
    }

    /** The nodes from `p` on. */
    ghost function Under(p: Word): set<Word>
      reads this
    {
      set q | q in nodes.Keys && p <= q
    }

    method Collect(node: Node, ghost p: Word) returns (res: seq<Payload>, ghost ws: seq<Word>)
      requires Valid() && p in nodes && node == nodes[p]
      ensures Lists(Words(view), Extending(Words(view), p), res, ws)
      decreases Under(p)
    {
      ghost var m := Words(view);
      res, ws := [], [];
      if node.isWord {
        res, ws := [node.payload], [p];
      }
      var todo := node.child.Keys;
      NoneButIt(p);
      while todo != {}
        invariant todo <= node.child.Keys
        invariant Lists(m, Done(m, p, todo), res, ws)
        decreases todo
      {
        var k :| k in todo;
        assert node.Kid(k) == At(nodes, p + [k]);
        assert p in Under(p) && p !in Under(p + [k]) && Under(p + [k]) <= Under(p);
        var more, ms := Collect(node.child[k], p + [k]);
        DoneOneMore(m, p, todo, k);
        ListsBoth(m, Done(m, p, todo), res, ws, Extending(m, p + [k]), more, ms);
        res, ws, todo := res + more, ws + ms, todo - {k};
      }
      assert Done(m, p, {}) == Extending(m, p);
    }

    /** Before any child is visited only the word at `p` itself can be listed. */
    lemma NoneButIt(p: Word)
      requires Valid() && p in nodes
      ensures Done(Words(view), p, nodes[p].child.Keys) == if nodes[p].isWord then {p} else {}
    {
      forall w | w in Words(view) && p <= w && w != p ensures w !in Done(Words(view), p, nodes[p].child.Keys) {
        assert w[..|p| + 1] == p + [w[|p|]];
        assert nodes[p].Kid(w[|p|]) == At(nodes, p + [w[|p|]]);
        if p + [w[|p|]] !in nodes {
          Missing(w, |p| + 1);
        }
      }
    }

    method Del(str: Word)
      requires Valid() && CanDel(view, str)
      modifies this, repr
      ensures Valid() && view == DelS(old(view), str)
      ensures repr == old(repr)
    {
      if |str| == 0 {
        return;
      }
      var node, lastBranch, delVal := Descend(str);
      if node.count > 0 {
        MarkWord(node, str, false, node.payload);
      } else {
        if lastBranch == null {
          lastBranch := root;
          delVal := str[0];
        }
        CutChain(str, lastBranch, delVal);
      }
    }

    method CutChain(str: Word, lastBranch: Node, delVal: char)
      requires Valid() && str != [] && CanDel(view, str) && view[str].count <= 0
      requires var b := Deepest(view, str); str[..b] in nodes && lastBranch == nodes[str[..b]] && delVal == str[b]
      modifies this, repr
      ensures Valid() && view == DelS(old(view), str) && repr == old(repr)
    {
      ghost var b := Deepest(view, str);
      DelIsPrune(view, str);
      CutAt(lastBranch, str[..b], delVal);
    }

    /** The loop of `Del`. */
    method Descend(str: Word) returns (node: Node, lastBranch: Node?, delVal: char)
      requires Valid() && str != [] && CanDel(view, str)
      ensures node == nodes[str] && BranchSeen(str, Deepest(view, str), lastBranch, delVal)
    {
      node, lastBranch, delVal := root, null, 'x';
      for i := 0 to |str|
        invariant str[..i] in nodes && node == nodes[str[..i]]
        invariant BranchSeen(str, BranchLen(view, str, i), lastBranch, delVal)
      {
        PathNode(str, i);
        var child := node.child[str[i]];
        if child.count > 1 {
          assert str[..|str|] == str;
          lastBranch := child;
          delVal := str[i + 1];
        }
        node := child;
      }
      assert str[..|str|] == str;
    }

    /** What the loop of `Del` remembers of the deepest branching prefix, of length `b`. */
    ghost predicate BranchSeen(str: Word, b: nat, lastBranch: Node?, delVal: char)
      reads this
    {
      if b == 0 then lastBranch == null
      else b < |str| && str[..b] in nodes && lastBranch == nodes[str[..b]] && delVal == str[b]
    }

    /** One step down the path to a node that exists. */
    lemma PathNode(str: Word, i: nat)
      requires Valid() && i < |str| && str in nodes && str[..i] in nodes
      ensures str[..i + 1] in nodes && str[i] in nodes[str[..i]].child
      ensures nodes[str[..i]].child[str[i]] == nodes[str[..i + 1]]
    {
      assert str[..i + 1] == str[..i] + [str[i]] && nodes[str[..i]].Kid(str[i]) == At(nodes, str[..i + 1]);
      if str[..i + 1] !in nodes {
        Missing(str, i + 1);
      }
    }

    method Detach(node: Node, ghost p: Word, ghost c: Word, k: char)
      requires Tied() && p in nodes && node == nodes[p] && !(c <= p)
      modifies this`nodes, this`view, node`child, node`count
      ensures Tied() && nodes == map q | q in old(nodes) && !(c <= q) :: old(nodes)[q]
      ensures view == (map q | q in old(view) && !(c <= q) :: old(view)[q])
                      [p := old(view)[p].(count := old(view)[p].count - 1)]
      ensures forall x :: node.Kid(x) == if x == k then null else old(node.Kid(x))
      ensures forall q, x {:trigger nodes[q].Kid(x)} :: q in nodes && q != p ==> nodes[q].Kid(x) == old(nodes[q].Kid(x))
    {
      Forget(c);
      Drop(node, p, k);
    }

    method CutAt(at: Node, ghost p: Word, k: char)
      requires Valid() && p in nodes && at == nodes[p]
      modifies this, at
      ensures Parent(p + [k]) == p && Valid() && view == Prune(old(view), p + [k])
      ensures repr == old(repr)
    {
      assert Parent(p + [k]) == p;
      CutLinked(at, p, p + [k], k);
    }

    method CutLinked(at: Node, ghost p: Word, ghost c: Word, k: char)
      requires Valid() && p in nodes && at == nodes[p] && c == p + [k] && !(c <= p)
      modifies this, at
      ensures Valid() && repr == old(repr)
      ensures view == (map q | q in old(view) && !(c <= q) :: old(view)[q])
                      [p := old(view)[p].(count := old(view)[p].count - 1)]
    {
      PrefixOfChild(p, k);
      Detach(at, p, c, k);
    }

    static lemma PrefixOfChild(p: Word, k: char)
      ensures forall q, x: char :: p + [k] <= q + [x] <==> (q == p && x == k) || p + [k] <= q
    {
      forall q, x: char ensures p + [k] <= q + [x] <==> (q == p && x == k) || p + [k] <= q {
        assert Parent(q + [x]) == q && (q + [x])[|q|] == x && Parent(p + [k]) == p;
      }
    }
  }
}
