/** The explicit stack of the free and unlink traversals: 129 slots are enough for every
    IPv6 trie, and one fewer is not. */
module TrieStack {
  import opened Common
  import opened TrieTree
  import opened TrieOps
  import opened TrieHeap

  const MAX_ALLOWEDIPS_DEPTH := 129

  function Max(a: nat, b: nat): (m: nat) {
    if a < b then b else a
  }

  // ---------------------------------------------------------------- forests

  /** All nodes of the trees waiting on the stack. */
  function ForestAddrs(gs: seq<Tree>): (s: set<Addr>) {
    if gs == [] then {} else ForestAddrs(gs[..|gs| - 1]) + Addrs(gs[|gs| - 1])
  }

  predicate ForestDistinct(gs: seq<Tree>) {
    gs == [] ||
    (&& Distinct(gs[|gs| - 1]) && Addrs(gs[|gs| - 1]) !! ForestAddrs(gs[..|gs| - 1])
     && ForestDistinct(gs[..|gs| - 1]))
  }

  function ForestSize(gs: seq<Tree>): (n: nat) {
    if gs == [] then 0 else ForestSize(gs[..|gs| - 1]) + Size(gs[|gs| - 1])
  }

  /** The stack height the traversal of `t` reaches when `base` entries lie below it. */
  function PeakOf(t: Tree, base: nat): (n: nat) {
    if t.Nil? then base
    else
      var l := if t.left.Node? then 1 else 0;
      var r := if t.right.Node? then 1 else 0;
      Max(base + l + r, Max(PeakOf(t.left, base), PeakOf(t.right, base + l)))
  }

  function ForestPeak(gs: seq<Tree>): (n: nat) {
    if gs == [] then 0 else Max(ForestPeak(gs[..|gs| - 1]), PeakOf(gs[|gs| - 1], |gs| - 1))
  }

  /** The waiting trees after a push of a possibly missing child. */
  function Pushed(gs: seq<Tree>, c: Tree): (r: seq<Tree>) {
    if c.Nil? then gs else gs + [c]
  }

  lemma PushedFacts(gs: seq<Tree>, c: Tree)
    ensures ForestAddrs(Pushed(gs, c)) == ForestAddrs(gs) + Addrs(c)
    ensures ForestSize(Pushed(gs, c)) == ForestSize(gs) + Size(c)
    ensures ForestDistinct(gs) && Distinct(c) && Addrs(c) !! ForestAddrs(gs) ==> ForestDistinct(Pushed(gs, c))
    ensures ForestPeak(Pushed(gs, c)) == if c.Nil? then ForestPeak(gs) else Max(ForestPeak(gs), PeakOf(c, |gs|))
  {
    if c.Node? {
      assert (gs + [c])[..|gs + [c]| - 1] == gs;
    }
  }

  // ---------------------------------------------------------------- the bound

  /** Stack heights never exceed one more than the key width ... */
  lemma {:induction false} PeakBound(t: Tree, w: nat, base: nat)
    requires Ordered(t, w) && t.Node? && base <= t.cidr
    ensures PeakOf(t, base) <= w + 1
  {
    var l := if t.left.Node? then 1 else 0;
    if t.left.Node? {
      PrefixTransitive(Prefix(t), Prefix(t), false, Prefix(t.left));
      PeakBound(t.left, w, base);
    }
    if t.right.Node? {
      PrefixTransitive(Prefix(t), Prefix(t), true, Prefix(t.right));
      PeakBound(t.right, w, base + l);
    }
  }

  /** The bit pattern 1...1 0...0 with `c` ones. */
  function Ones(c: nat, w: nat): (k: Key)
    requires c <= w
  {
    seq(w, i requires 0 <= i < w => i < c)
  }

  /** The worst trie: a spine along the ones, with a leaf hanging off every node. */
  function Spine(c: nat, w: nat): (t: Tree)
    requires c < w
    decreases w - c
  {
    var leaf := Node(2 * c + 1, Ones(c, w), c + 1, Some(0), Nil, Nil);
    var rest := if c + 1 < w then Spine(c + 1, w) else Node(2 * c + 2, Ones(w, w), w, Some(0), Nil, Nil);
    Node(2 * c, Ones(c, w), c, None, leaf, rest)
  }

  /** ... and the spine reaches exactly that height, so 129 slots are tight for 128 bits. */
  lemma {:induction false} SpinePeak(c: nat, w: nat)
    requires c < w
    ensures Ordered(Spine(c, w), w) && Compressed(Spine(c, w))
    ensures PeakOf(Spine(c, w), c) == w + 1
    decreases w - c
  {
    var t := Spine(c, w);
    assert t.left.bits[..c + 1] == t.bits[..c] + [false];
    assert Ones(c + 1, w)[..c + 1] == t.bits[..c] + [true];
    assert PeakOf(t.left, c) == c && Compressed(t.left) && Ordered(t.left, w);
    if c + 1 < w {
      SpinePeak(c + 1, w);
    } else {
      assert t.right.bits[..w] == t.bits[..c] + [true];
      assert PeakOf(t.right, c + 1) == c + 1 && Compressed(t.right) && Ordered(t.right, w);
    }
  }

  // ---------------------------------------------------------------- the traversal

  /** The stack array mirrors the waiting trees; entry i lies at least i bits deep. */
  ghost predicate OnStack(m: Nodes, stack: seq<Addr>, gs: seq<Tree>, w: nat) {
    && |stack| >= |gs|
    && forall i :: 0 <= i < |gs| ==>
         (gs[i].Node? && Shape(m, Some(stack[i]), gs[i]) && Ordered(gs[i], w) && gs[i].cidr >= i)
  }

  /** `push_rcu`: a missing child is skipped, a present one fits because it lies deep enough. */
  method PushRcu(stack: array<Addr>, len: nat, p: Option<Addr>, m: Nodes, w: nat, ghost gs: seq<Tree>, ghost c: Tree)
    returns (len': nat)
    requires stack.Length == MAX_ALLOWEDIPS_DEPTH && w <= 128 && len == |gs| && OnStack(m, stack[..], gs, w)
    requires Shape(m, p, c) && Ordered(c, w) && (c.Node? ==> c.cidr >= len)
    modifies stack
    ensures len' == |Pushed(gs, c)| && OnStack(m, stack[..], Pushed(gs, c), w)
  {
    len' := len;
    if p.Some? {
      stack[len] := p.value;
      len' := len + 1;
    }
  }

  /** What has been visited and what still waits, together. */
  ghost predicate Progress(t: Tree, gs: seq<Tree>, visited: seq<Addr>, peak: nat) {
    && ForestDistinct(gs)
    && (forall a :: a in Addrs(t) <==> a in visited || a in ForestAddrs(gs))
    && (forall a :: a in visited ==> a !in ForestAddrs(gs))
    && NoDup(visited)
    && Max(peak, ForestPeak(gs)) == PeakOf(t, 0)
  }

  lemma {:induction false} ExpandPeak(gs: seq<Tree>, cur: Tree, below: seq<Tree>)
    requires gs != [] && cur == gs[|gs| - 1] && cur.Node? && below == gs[..|gs| - 1]
    ensures var gs' := Pushed(Pushed(below, cur.left), cur.right);
            Max(|gs'|, ForestPeak(gs')) == ForestPeak(gs)
  {
    PushedFacts(below, cur.left);
    PushedFacts(Pushed(below, cur.left), cur.right);
    var b := |below|;
    var l := if cur.left.Node? then 1 else 0;
    assert |Pushed(below, cur.left)| == b + l;
    assert ForestPeak(gs) == Max(ForestPeak(below), PeakOf(cur, b));
    assert cur.left.Nil? ==> PeakOf(cur.left, b) == b;
    assert cur.right.Nil? ==> PeakOf(cur.right, b + l) == b + l;
  }

  lemma {:induction false} ExpandForest(gs: seq<Tree>, cur: Tree, below: seq<Tree>)
    requires gs != [] && cur == gs[|gs| - 1] && cur.Node? && below == gs[..|gs| - 1] && ForestDistinct(gs)
    ensures var gs' := Pushed(Pushed(below, cur.left), cur.right);
            && ForestDistinct(gs') && ForestSize(gs') < ForestSize(gs)
            && ForestAddrs(gs) == ForestAddrs(gs') + {cur.addr} && cur.addr !in ForestAddrs(gs')
  {
    LastTree(gs);
    NodeParts(cur);
    PushedFacts(below, cur.left);
    PushedFacts(Pushed(below, cur.left), cur.right);
    Regroup(ForestAddrs(below), cur.addr, Addrs(cur.left), Addrs(cur.right), Addrs(cur));
  }

  lemma {:induction false} LastTree(gs: seq<Tree>)
    requires gs != [] && ForestDistinct(gs)
    ensures var cur, below := gs[|gs| - 1], gs[..|gs| - 1];
            && ForestDistinct(below) && Distinct(cur) && Addrs(cur) !! ForestAddrs(below)
            && ForestAddrs(gs) == ForestAddrs(below) + Addrs(cur) && ForestSize(gs) == ForestSize(below) + Size(cur)
  {
  }

  lemma Regroup(b: set<Addr>, a: Addr, l: set<Addr>, r: set<Addr>, c: set<Addr>)
    requires c == {a} + l + r && l !! r && a !in l && a !in r && c !! b
    ensures b + c == (b + l) + r + {a} && a !in (b + l) + r && l !! b && r !! b + l
  {
  }

  lemma {:induction false} NodeParts(t: Tree)
    requires t.Node? && Distinct(t)
    ensures Addrs(t) == {t.addr} + Addrs(t.left) + Addrs(t.right) && Addrs(t.left) !! Addrs(t.right)
    ensures t.addr !in Addrs(t.left) && t.addr !in Addrs(t.right) && Distinct(t.left) && Distinct(t.right)
    ensures Size(t) == 1 + Size(t.left) + Size(t.right)
  {
  }

  lemma {:induction false} Expand(t: Tree, gs: seq<Tree>, visited: seq<Addr>, peak: nat, cur: Tree, below: seq<Tree>)
    requires Progress(t, gs, visited, peak) && gs != [] && cur == gs[|gs| - 1] && cur.Node? && below == gs[..|gs| - 1]
    ensures var gs' := Pushed(Pushed(below, cur.left), cur.right);
            Progress(t, gs', visited + [cur.addr], Max(peak, |gs'|)) && ForestSize(gs') < ForestSize(gs)
  {
    ExpandPeak(gs, cur, below);
    ExpandForest(gs, cur, below);
  }

  /** The walk shared by `root_free_rcu` and `root_remove_peer_lists`: no slot beyond 129 is
      ever written, every node is visited exactly once, and the height is as computed. */
  method Traverse(m: Nodes, root: Addr, w: nat, ghost t: Tree) returns (visited: seq<Addr>, ghost peak: nat)
    requires t.Node? && Shape(m, Some(root), t) && Ordered(t, w) && Distinct(t) && w <= 128
    ensures forall a :: a in visited <==> a in Addrs(t)
    ensures NoDup(visited)
    ensures peak == PeakOf(t, 0) <= 129
  {
    var stack := new Addr[MAX_ALLOWEDIPS_DEPTH];
    stack[0] := root;
    var len := 1;
    ghost var gs := Pushed([], t);
    PushedFacts([], t);
    visited, peak := [], 0;
    while len > 0
      invariant len == |gs| && stack.Length == MAX_ALLOWEDIPS_DEPTH
      invariant OnStack(m, stack[..], gs, w)
      invariant Progress(t, gs, visited, peak)
      decreases ForestSize(gs)
    {
      ghost var cur, below := gs[len - 1], gs[..len - 1];
      Expand(t, gs, visited, peak, cur, below);
      var node := stack[len - 1];
      assert node == cur.addr;
      len := Replace(stack, len, m, w, gs, cur, below);
      gs := Pushed(Pushed(below, cur.left), cur.right);
      visited := visited + [node];
      peak := Max(peak, len);
    }
    PeakBound(t, w, 0);
  }

  /** One round: the top of the stack makes room for its children. */
  method Replace(stack: array<Addr>, len: nat, m: Nodes, w: nat, ghost gs: seq<Tree>, ghost cur: Tree, ghost below: seq<Tree>)
    returns (len': nat)
    requires stack.Length == MAX_ALLOWEDIPS_DEPTH && w <= 128 && len == |gs| > 0 && OnStack(m, stack[..], gs, w)
    requires cur == gs[len - 1] && below == gs[..len - 1]
    modifies stack
    ensures var gs' := Pushed(Pushed(below, cur.left), cur.right); len' == |gs'| && OnStack(m, stack[..], gs', w)
  {
    Deepen(cur, w);
    len' := len - 1;
    var node := stack[len'];
    assert OnStack(m, stack[..], below, w);
    len' := PushRcu(stack, len', m[node].bit0, m, w, below, cur.left);
    len' := PushRcu(stack, len', m[node].bit1, m, w, Pushed(below, cur.left), cur.right);
  }

  lemma Deepen(t: Tree, w: nat)
    requires t.Node? && Ordered(t, w)
    ensures t.left.Node? ==> t.cidr < t.left.cidr <= w
    ensures t.right.Node? ==> t.cidr < t.right.cidr <= w
  {
    if t.left.Node? { PrefixTransitive(Prefix(t), Prefix(t), false, Prefix(t.left)); }
    if t.right.Node? { PrefixTransitive(Prefix(t), Prefix(t), true, Prefix(t.right)); }
  }
}
