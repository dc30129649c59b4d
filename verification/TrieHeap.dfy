/** The trie in memory: node records at addresses, child links, and the packed parent link
    that names the slot a node hangs from.  The lemmas say what a pointer write does to the
    tree a reader sees. */
module TrieHeap {
  import opened Common
  import opened TrieTree
  import opened TrieOps

  datatype Family = V4 | V6

  function Width(f: Family): (w: nat) {
    match f case V4 => 32 case V6 => 128
  }

  /** What `parent_bit_packed` denotes: a root pointer (low bits 2) or a child link (0 or 1). */
  datatype Slot = Root(family: Family) | Link(node: Addr, bit: bool)

  datatype HNode = HNode(
    peer: Option<Peer>, bit0: Option<Addr>, bit1: Option<Addr>,
    cidr: nat, bits: Key, parent: Slot)

  type Nodes = map<Addr, HNode>

  /** Everything a concurrent reader can look at. */
  datatype Mem = Mem(root4: Option<Addr>, root6: Option<Addr>, nodes: Nodes)

  function RootOf(m: Mem, f: Family): (p: Option<Addr>) {
    match f case V4 => m.root4 case V6 => m.root6
  }

  function Bit(n: HNode, b: bool): (p: Option<Addr>) {
    if b then n.bit1 else n.bit0
  }

  function SetBit(n: HNode, b: bool, p: Option<Addr>): (r: HNode) {
    if b then n.(bit1 := p) else n.(bit0 := p)
  }

  /** A node record after a store of `q` through slot `s` (root slots live outside nodes). */
  function Stored(a: Addr, x: HNode, s: Slot, q: Option<Addr>): (r: HNode) {
    if s.Link? && s.node == a then SetBit(x, s.bit, q) else x
  }

  /** `y` is `x` up to the parent link, which readers never follow. */
  predicate SameForReaders(x: HNode, y: HNode) {
    y == x.(parent := y.parent)
  }

  // ---------------------------------------------------------------- representation

  /** `p` points to the tree `t` by child links. */
  ghost predicate Shape(m: Nodes, p: Option<Addr>, t: Tree)
    decreases t
  {
    match t
    case Nil => p.None?
    case Node(a, bits, cidr, peer, l, r) =>
      && p == Some(a) && a in m
      && m[a].bits == bits && m[a].cidr == cidr && m[a].peer == peer
      && Shape(m, m[a].bit0, l) && Shape(m, m[a].bit1, r)
  }

  /** Every node of `t` knows the slot it hangs from. */
  ghost predicate Linked(m: Nodes, s: Slot, t: Tree)
    decreases t
  {
    match t
    case Nil => true
    case Node(a, _, _, _, l, r) =>
      && a in m && m[a].parent == s
      && Linked(m, Link(a, false), l) && Linked(m, Link(a, true), r)
  }

  function SlotOf(s: Slot, t: Tree, path: seq<bool>): (r: Slot)
    requires OnTree(t, path)
    decreases path
  {
    if path == [] then s else SlotOf(Link(t.addr, path[0]), Child(t, path[0]), path[1..])
  }

  /** `path` one step longer. */
  lemma {:induction false} StepPath(s: Slot, t: Tree, path: seq<bool>, b: bool)
    requires OnTree(t, path) && Get(t, path).Node?
    ensures OnTree(t, path + [b]) && Get(t, path + [b]) == Child(Get(t, path), b)
    ensures SlotOf(s, t, path + [b]) == Link(Get(t, path).addr, b)
    decreases path
  {
    if path == [] {
      assert (path + [b])[1..] == [];
    } else {
      assert (path + [b])[1..] == path[1..] + [b];
      StepPath(Link(t.addr, path[0]), Child(t, path[0]), path[1..], b);
    }
  }

  lemma {:induction false} GetAddrs(t: Tree, path: seq<bool>)
    requires OnTree(t, path)
    ensures Addrs(Get(t, path)) <= Addrs(t)
    ensures Distinct(t) ==> Distinct(Get(t, path))
  {
    if path != [] { GetAddrs(Child(t, path[0]), path[1..]); }
  }

  /** The slot at a path: its owner is outside the subtree, and it holds the subtree. */
  lemma {:induction false} GetShape(m: Nodes, s: Slot, p: Option<Addr>, t: Tree, path: seq<bool>)
    requires Shape(m, p, t) && Linked(m, s, t) && Distinct(t) && OnTree(t, path)
    ensures var sub := Get(t, path);
            var slot := SlotOf(s, t, path);
            Linked(m, slot, sub) &&
            (path == [] ==> slot == s && Shape(m, p, sub)) &&
            (path != [] ==> (slot.Link? && slot.node in Addrs(t) && slot.node !in Addrs(sub) &&
                             slot.node in m && Shape(m, Bit(m[slot.node], slot.bit), sub)))
    decreases path
  {
    if path != [] {
      var b := path[0];
      GetShape(m, Link(t.addr, b), Bit(m[t.addr], b), Child(t, b), path[1..]);
      GetAddrs(Child(t, b), path[1..]);
    }
  }

  /** Memory unchanged on a tree except for parent links: a reader sees the same tree. */
  lemma {:induction false} FrameShape(m: Nodes, n: Nodes, p: Option<Addr>, t: Tree)
    requires Shape(m, p, t)
    requires forall a :: a in Addrs(t) && a in m ==> a in n && SameForReaders(m[a], n[a])
    ensures Shape(n, p, t)
    decreases t
  {
    if t.Node? {
      FrameShape(m, n, m[t.addr].bit0, t.left);
      FrameShape(m, n, m[t.addr].bit1, t.right);
    }
  }

  lemma {:induction false} FrameLinked(m: Nodes, n: Nodes, s: Slot, t: Tree)
    requires Linked(m, s, t)
    requires forall a :: a in Addrs(t) && a in m ==> a in n && n[a].parent == m[a].parent
    ensures Linked(n, s, t)
    decreases t
  {
    if t.Node? {
      FrameLinked(m, n, Link(t.addr, false), t.left);
      FrameLinked(m, n, Link(t.addr, true), t.right);
    }
  }

  /** Re-hanging a subtree: only its root's parent link changes. */
  lemma Rehang(m: Nodes, n: Nodes, s: Slot, s': Slot, t: Tree)
    requires Linked(m, s, t) && t.Node? && Distinct(t)
    requires forall a :: a in Addrs(t) && a != t.addr && a in m ==> a in n && n[a].parent == m[a].parent
    requires t.addr in n && n[t.addr].parent == s'
    ensures Linked(n, s', t)
  {
    FrameLinked(m, n, Link(t.addr, false), t.left);
    FrameLinked(m, n, Link(t.addr, true), t.right);
  }

  /** One store through the slot at `path` replaces exactly that subtree for readers. */
  lemma {:induction false} PutShape(m: Nodes, n: Nodes, s: Slot, p: Option<Addr>, t: Tree,
                                    path: seq<bool>, q: Option<Addr>, sub: Tree)
    requires Shape(m, p, t) && Distinct(t) && OnTree(t, path) && Shape(n, q, sub)
    requires forall a :: a in Addrs(t) && a !in Addrs(Get(t, path)) && a in m ==>
               a in n && SameForReaders(Stored(a, m[a], SlotOf(s, t, path), q), n[a])
    ensures Shape(n, if path == [] then q else p, Put(t, path, sub))
    decreases path
  {
    if path != [] {
      var b, a := path[0], t.addr;
      var c := Child(t, b);
      GetAddrs(c, path[1..]);
      GetSlotOwner(Link(a, b), c, path[1..]);
      var slot := SlotOf(s, t, path);
      assert slot == SlotOf(Link(a, b), c, path[1..]);
      assert a !in Addrs(Get(t, path));
      FrameShape(m, n, Bit(m[a], !b), Child(t, !b));
      PutShape(m, n, Link(a, b), Bit(m[a], b), c, path[1..], q, sub);
    }
  }

  lemma {:induction false} GetSlotOwner(s: Slot, t: Tree, path: seq<bool>)
    requires OnTree(t, path)
    ensures SlotOf(s, t, path) == s || (SlotOf(s, t, path).Link? && SlotOf(s, t, path).node in Addrs(t))
    ensures path == [] ==> SlotOf(s, t, path) == s
    ensures path != [] ==> SlotOf(s, t, path).Link? && SlotOf(s, t, path).node in Addrs(t)
    decreases path
  {
    if path != [] { GetSlotOwner(Link(t.addr, path[0]), Child(t, path[0]), path[1..]); }
  }

  lemma {:induction false} PutLinked(m: Nodes, n: Nodes, s: Slot, t: Tree, path: seq<bool>, sub: Tree)
    requires Linked(m, s, t) && Distinct(t) && OnTree(t, path)
    requires forall a :: a in Addrs(t) && a !in Addrs(Get(t, path)) && a in m ==>
               a in n && n[a].parent == m[a].parent
    requires Linked(n, SlotOf(s, t, path), sub)
    ensures Linked(n, s, Put(t, path, sub))
    decreases path
  {
    if path != [] {
      var b := path[0];
      GetAddrs(Child(t, b), path[1..]);
      FrameLinked(m, n, Link(t.addr, !b), Child(t, !b));
      PutLinked(m, n, Link(t.addr, b), Child(t, b), path[1..], sub);
    }
  }

  lemma {:induction false} PutAddrs(t: Tree, path: seq<bool>, sub: Tree)
    requires OnTree(t, path) && Distinct(t) && Distinct(sub)
    requires Addrs(sub) !! Addrs(t) - Addrs(Get(t, path))
    ensures Distinct(Put(t, path, sub))
    ensures Addrs(Put(t, path, sub)) == Addrs(t) - Addrs(Get(t, path)) + Addrs(sub)
  {
    if path != [] {
      GetAddrs(Child(t, path[0]), path[1..]);
      PutAddrs(Child(t, path[0]), path[1..], sub);
    }
  }

  /** Every node address names a path. */
  lemma {:induction false} PathOf(t: Tree, a: Addr) returns (path: seq<bool>)
    requires a in Addrs(t)
    ensures OnTree(t, path) && Get(t, path).Node? && Get(t, path).addr == a
  {
    if a == t.addr {
      path := [];
    } else {
      var b := a in Addrs(t.right);
      var rest := PathOf(Child(t, b), a);
      path := [b] + rest;
      assert path[1..] == rest;
    }
  }

  lemma {:induction false} ShapeAt(m: Nodes, p: Option<Addr>, t: Tree, a: Addr)
    requires Shape(m, p, t) && a in Addrs(t)
    ensures a in m
    decreases t
  {
    if a in Addrs(t.left) { ShapeAt(m, m[t.addr].bit0, t.left, a); }
    else if a in Addrs(t.right) { ShapeAt(m, m[t.addr].bit1, t.right, a); }
  }

  // ---------------------------------------------------------------- removal as stores

  /** Which single store `RemoveAt` amounts to. */
  lemma {:induction false} RemoveIsPut(t: Tree, path: seq<bool>)
    requires OnTree(t, path) && Get(t, path).Node?
    ensures path == [] ==> RemoveAt(t, path) == Put(t, path, Splice(Get(t, path)))
    ensures path != [] ==>
              var up := path[..|path| - 1];
              OnTree(t, up) && Get(t, up).Node? &&
              Get(t, path) == Child(Get(t, up), path[|path| - 1]) &&
              RemoveAt(t, path) ==
                (if IsLeaf(Get(t, path)) && Get(t, up).peer.None?
                 then Put(t, up, Child(Get(t, up), !path[|path| - 1]))
                 else Put(t, path, Splice(Get(t, path))))
  {
    if |path| == 1 {
      assert path[..0] == [];
    } else if |path| > 1 {
      RemoveIsPut(Child(t, path[0]), path[1..]);
      assert path[1..][..|path| - 2] == path[..|path| - 1][1..];
    }
  }

  /** Replacing a subtree by one that only lost the entry `k` only loses `k` overall. */
  lemma {:induction false} PutLoses(t: Tree, path: seq<bool>, sub: Tree, w: nat, k: Key, q: Key)
    requires Ordered(t, w) && OnTree(t, path) && Get(t, path).Node?
    requires k == Prefix(Get(t, path))
    requires EntryOf(sub, q) == if q == k then None else EntryOf(Get(t, path), q)
    ensures EntryOf(Put(t, path, sub), q) == if q == k then None else EntryOf(t, q)
  {
    if path != [] {
      GetOrdered(t, path, w);
      PrefixTransitive(Prefix(t), Prefix(t), path[0], k);
      if Prefix(t) <= q && |Prefix(t)| < |q| && q[|Prefix(t)|] == path[0] {
        PutLoses(Child(t, path[0]), path[1..], sub, w, k, q);
      } else {
        assert q != k;
      }
    }
  }

  lemma {:induction false} PutOrdered(t: Tree, path: seq<bool>, sub: Tree, w: nat, p: Key)
    requires Ordered(t, w) && OnTree(t, path) && Get(t, path).Node? && Ordered(sub, w)
    requires Under(t, p)
    requires forall x :: Under(Get(t, path), x) ==> Under(sub, x)
    ensures Ordered(Put(t, path, sub), w) && Under(Put(t, path, sub), p)
  {
    if path != [] {
      PutOrdered(Child(t, path[0]), path[1..], sub, w, Prefix(t) + [path[0]]);
    }
  }

  /** Both transient trees of a removal (peer cleared; then spliced out) are ordered and
      already stand for the table without the entry. */
  lemma RemovalStep(t: Tree, path: seq<bool>, sub: Tree, w: nat)
    requires Ordered(t, w) && OnTree(t, path) && Get(t, path).Node?
    requires sub == Get(t, path).(peer := None) || sub == Splice(Get(t, path))
    ensures Ordered(Put(t, path, sub), w)
    ensures TableOf(Put(t, path, sub)) == TableOf(t) - {Prefix(Get(t, path))}
  {
    var s := Get(t, path);
    GetOrdered(t, path, w);
    forall x | Under(s, x) ensures Under(sub, x) {
      if sub.Node? && sub == s.left { PrefixTransitive(x, Prefix(s), false, Prefix(sub)); }
      if sub.Node? && sub == s.right { PrefixTransitive(x, Prefix(s), true, Prefix(sub)); }
    }
    PutOrdered(t, path, sub, w, []);
    var r := Put(t, path, sub);
    forall q ensures q in TableOf(r) <==> q in TableOf(t) - {Prefix(s)}
             ensures q in TableOf(r) ==> q in TableOf(t) && TableOf(r)[q] == TableOf(t)[q]
    {
      TableEntry(r, w, q);
      TableEntry(t, w, q);
      SpliceEntry(s, w, q);
      assert EntryOf(s.(peer := None), q) == if q == Prefix(s) then None else EntryOf(s, q);
      PutLoses(t, path, sub, w, Prefix(s), q);
    }
  }
}

/** One family's trie in memory, and how the operations move it from one tree to the next. */
module TrieMem {
  import opened Common
  import opened TrieTree
  import opened TrieOps
  import opened TrieHeap

  ghost predicate Represents(m: Mem, f: Family, t: Tree) {
    && Shape(m.nodes, RootOf(m, f), t)
    && Linked(m.nodes, Root(f), t)
    && Ordered(t, Width(f)) && Compressed(t) && Distinct(t)
  }

  /** What a reader that starts at the root now finds: an ordered trie for `table`. */
  ghost predicate Reads(m: Mem, f: Family, table: Table) {
    exists t :: Shape(m.nodes, RootOf(m, f), t) && Ordered(t, Width(f)) && TableOf(t) == table
  }

  /** A reader never sees anything but the table before or the table after. */
  ghost predicate ReadsOneOf(m: Mem, f: Family, before: Table, after: Table) {
    Reads(m, f, before) || Reads(m, f, after)
  }

  lemma FrameRepresents(m: Mem, n: Mem, f: Family, t: Tree)
    requires Represents(m, f, t) && RootOf(n, f) == RootOf(m, f)
    requires forall a :: a in Addrs(t) && a in m.nodes ==> a in n.nodes && n.nodes[a] == m.nodes[a]
    ensures Represents(n, f, t)
  {
    FrameShape(m.nodes, n.nodes, RootOf(m, f), t);
    FrameLinked(m.nodes, n.nodes, Root(f), t);
  }

  lemma FrameReads(m: Mem, n: Mem, f: Family, t: Tree)
    requires Represents(m, f, t) && RootOf(n, f) == RootOf(m, f)
    requires forall a :: a in Addrs(t) && a in m.nodes ==> a in n.nodes && SameForReaders(m.nodes[a], n.nodes[a])
    ensures Reads(n, f, TableOf(t))
  {
    FrameShape(m.nodes, n.nodes, RootOf(m, f), t);
  }

  /** `g` is complete in memory `n` and hangs from the slot at `path`; the rest of `t` is as in `m`. */
  ghost predicate Published(m: Mem, n: Mem, f: Family, t: Tree, path: seq<bool>, g: Tree)
    requires OnTree(t, path)
  {
    var slot := SlotOf(Root(f), t, path);
    && g.Node? && Shape(n.nodes, Some(g.addr), g) && Linked(n.nodes, slot, g)
    && RootOf(n, f) == (if path == [] then Some(g.addr) else RootOf(m, f))
    && forall x :: x in Addrs(t) && x !in Addrs(Get(t, path)) && x in m.nodes ==>
         (x in n.nodes && n.nodes[x] == Stored(x, m.nodes[x], slot, Some(g.addr)))
  }

  /** The final store of an insertion publishes `Insert` of the old tree. */
  lemma PublishGraft(m: Mem, n: Mem, f: Family, t: Tree, key: Key, cidr: nat, peer: Peer, a: Addr, mid: Addr,
                     path: seq<bool>, d: Tree, g: Tree)
    requires Represents(m, f, t) && |key| == Width(f) && cidr <= Width(f)
    requires a !in Addrs(t) && mid !in Addrs(t) && a != mid
    requires path == StopPath(t, key, cidr) && d == Get(t, path)
    requires Ordered(d, |key|) && !Descends(d, key, cidr) && g == Graft(d, key, cidr, peer, a, mid)
    requires Published(m, n, f, t, path, g)
    ensures Represents(n, f, Insert(t, key, cidr, peer, a, mid))
    ensures Addrs(t) <= Addrs(Insert(t, key, cidr, peer, a, mid)) <= Addrs(t) + {a, mid}
    ensures a in Addrs(Insert(t, key, cidr, peer, a, mid))
    ensures TableOf(Insert(t, key, cidr, peer, a, mid)) == TableOf(t)[key[..cidr] := peer]
  {
    GraftedTree(t, key, cidr, peer, a, mid, path, d, g);
    PutShape(m.nodes, n.nodes, Root(f), RootOf(m, f), t, path, Some(g.addr), g);
    PutLinked(m.nodes, n.nodes, Root(f), t, path, g);
  }

  /** What the insertion does to the tree, memory aside. */
  lemma GraftedTree(t: Tree, key: Key, cidr: nat, peer: Peer, a: Addr, mid: Addr, path: seq<bool>, d: Tree, g: Tree)
    requires Ordered(t, |key|) && Compressed(t) && Distinct(t) && cidr <= |key|
    requires a !in Addrs(t) && mid !in Addrs(t) && a != mid
    requires path == StopPath(t, key, cidr) && d == Get(t, path)
    requires Ordered(d, |key|) && !Descends(d, key, cidr) && g == Graft(d, key, cidr, peer, a, mid)
    ensures var r := Insert(t, key, cidr, peer, a, mid);
            && r == Put(t, path, g) && Ordered(r, |key|) && Compressed(r) && Distinct(r)
            && Addrs(t) <= Addrs(r) <= Addrs(t) + {a, mid} && a in Addrs(r)
            && TableOf(r) == TableOf(t)[key[..cidr] := peer]
  {
    GetAddrs(t, path);
    GraftAddrs(d, key, cidr, peer, a, mid);
    InsertIsPut(t, key, cidr, peer, a, mid);
    InsertCorrect(t, key, cidr, peer, a, mid);
    PutAddrs(t, path, g);
  }

  lemma GraftAddrs(d: Tree, key: Key, cidr: nat, peer: Peer, a: Addr, mid: Addr)
    requires Ordered(d, |key|) && cidr <= |key| && !Descends(d, key, cidr)
    requires Distinct(d) && a !in Addrs(d) && mid !in Addrs(d) && a != mid
    ensures var g := Graft(d, key, cidr, peer, a, mid);
            g.Node? && Distinct(g) && Addrs(g) == Addrs(d) + {a} + (if g.addr == mid then {mid} else {})
  {
    var g := Graft(d, key, cidr, peer, a, mid);
    var leaf := Leaf(a, key, cidr, peer);
    ChildlessAddrs(leaf);
    if d.Node? {
      if cidr <= CommonBits(d.bits, key) {
        GraftAbove(d, key, cidr);
        NodeAddrs(g, d, Nil, d.bits[cidr]);
      } else {
        NodeAddrs(g, leaf, d, key[CommonBits(d.bits, key)]);
      }
    }
  }

  lemma ChildlessAddrs(t: Tree)
    requires t.Node? && t.left.Nil? && t.right.Nil?
    ensures Addrs(t) == {t.addr} && Distinct(t)
  {
  }

  lemma {:induction false} NodeAddrs(g: Tree, x: Tree, y: Tree, b: bool)
    requires g.Node? && Child(g, b) == x && Child(g, !b) == y
    requires Distinct(x) && Distinct(y) && Addrs(x) !! Addrs(y)
    requires g.addr !in Addrs(x) && g.addr !in Addrs(y)
    ensures Distinct(g) && Addrs(g) == {g.addr} + Addrs(x) + Addrs(y)
  {
    assert Addrs(g) == {g.addr} + Addrs(g.left) + Addrs(g.right);
    assert (x == g.left && y == g.right) || (x == g.right && y == g.left);
  }

  lemma PeerStored(m: Nodes, n: Nodes, slot: Slot, d: Tree, peer: Peer)
    requires d.Node? && Distinct(d) && Shape(m, Some(d.addr), d) && Linked(m, slot, d)
    requires n == m[d.addr := m[d.addr].(peer := Some(peer))]
    ensures Shape(n, Some(d.addr), d.(peer := Some(peer))) && Linked(n, slot, d.(peer := Some(peer)))
  {
    FrameShape(m, n, m[d.addr].bit0, d.left);
    FrameShape(m, n, m[d.addr].bit1, d.right);
    FrameLinked(m, n, slot, d);
  }

  /** An exact match only replaces the peer of one node. */
  lemma PublishPeer(m: Mem, n: Mem, f: Family, t: Tree, key: Key, cidr: nat, peer: Peer, a: Addr, mid: Addr)
    requires Represents(m, f, t) && |key| == Width(f) && cidr <= Width(f)
    requires var d := Get(t, StopPath(t, key, cidr));
             && Ordered(d, |key|) && IsExact(d, key, cidr) && d.addr in m.nodes
             && n == m.(nodes := m.nodes[d.addr := m.nodes[d.addr].(peer := Some(peer))])
    ensures Represents(n, f, Insert(t, key, cidr, peer, a, mid))
    ensures Addrs(Insert(t, key, cidr, peer, a, mid)) == Addrs(t)
  {
    var path := StopPath(t, key, cidr);
    var d := Get(t, path);
    var e := d.(peer := Some(peer));
    GetAddrs(t, path);
    GetShape(m.nodes, Root(f), RootOf(m, f), t, path);
    InsertIsPut(t, key, cidr, peer, a, mid);
    InsertCorrect(t, key, cidr, peer, a, mid);
    PutAddrs(t, path, e);
    var slot := SlotOf(Root(f), t, path);
    PeerStored(m.nodes, n.nodes, slot, d, peer);
    assert path != [] ==> Bit(m.nodes[slot.node], slot.bit) == Some(d.addr);
    PutShape(m.nodes, n.nodes, Root(f), RootOf(m, f), t, path, Some(d.addr), e);
    PutLinked(m.nodes, n.nodes, Root(f), t, path, e);
  }

  /** A finished replacement at `path`: the links and the parent links agree on `Put`. */
  lemma PublishPut(m: Mem, n: Mem, f: Family, t: Tree, path: seq<bool>, q: Option<Addr>, sub: Tree)
    requires Represents(m, f, t) && OnTree(t, path) && Distinct(sub)
    requires Addrs(sub) <= Addrs(Get(t, path))
    requires var slot := SlotOf(Root(f), t, path);
             && Shape(n.nodes, q, sub) && Linked(n.nodes, slot, sub)
             && RootOf(n, f) == (if path == [] then q else RootOf(m, f))
             && forall x :: x in Addrs(t) && x !in Addrs(Get(t, path)) && x in m.nodes ==>
                  (x in n.nodes && n.nodes[x] == Stored(x, m.nodes[x], slot, q))
    ensures var r := Put(t, path, sub);
            Shape(n.nodes, RootOf(n, f), r) && Linked(n.nodes, Root(f), r) && Distinct(r) &&
            Addrs(r) == Addrs(t) - Addrs(Get(t, path)) + Addrs(sub)
  {
    PutAddrs(t, path, sub);
    PutShape(m.nodes, n.nodes, Root(f), RootOf(m, f), t, path, q, sub);
    PutLinked(m.nodes, n.nodes, Root(f), t, path, sub);
  }

  /** Clearing the peer is the moment of removal; the node is still linked. */
  lemma PublishClear(m: Mem, n: Mem, f: Family, t: Tree, path: seq<bool>)
    requires Represents(m, f, t) && OnTree(t, path)
    requires var s := Get(t, path);
             && s.Node? && s.addr in m.nodes
             && n == m.(nodes := m.nodes[s.addr := m.nodes[s.addr].(peer := None)])
    ensures Reads(n, f, TableOf(t) - {Prefix(Get(t, path))})
    ensures var s := Get(t, path);
            s.left.Node? && s.right.Node? ==>
              Represents(n, f, RemoveAt(t, path)) && Addrs(RemoveAt(t, path)) == Addrs(t)
  {
    var s := Get(t, path);
    var e := s.(peer := None);
    var slot := SlotOf(Root(f), t, path);
    GetAddrs(t, path);
    GetShape(m.nodes, Root(f), RootOf(m, f), t, path);
    FrameShape(m.nodes, n.nodes, m.nodes[s.addr].bit0, s.left);
    FrameShape(m.nodes, n.nodes, m.nodes[s.addr].bit1, s.right);
    FrameLinked(m.nodes, n.nodes, slot, s);
    assert Linked(n.nodes, slot, e) && Shape(n.nodes, Some(s.addr), e);
    PublishPut(m, n, f, t, path, Some(s.addr), e);
    RemovalStep(t, path, e, Width(f));
    if s.left.Node? && s.right.Node? {
      RemoveIsPut(t, path);
      RemoveCorrect(t, path, Width(f));
    }
  }

  /** The memory after hanging `child` from the slot at `path` instead of what was there. */
  ghost predicate Hung(m: Mem, n: Mem, f: Family, t: Tree, path: seq<bool>, child: Option<Addr>, keep: set<Addr>)
    requires OnTree(t, path)
  {
    var slot := SlotOf(Root(f), t, path);
    && RootOf(n, f) == (if path == [] then child else RootOf(m, f))
    && forall x :: x in keep && x in m.nodes ==>
         (x in n.nodes && n.nodes[x] ==
            Stored(x, if Some(x) == child then m.nodes[x].(parent := slot) else m.nodes[x], slot, child))
  }

  /** Moving a deeper subtree up into the slot at `path`. */
  lemma Hoist(m: Mem, n: Mem, f: Family, t: Tree, path: seq<bool>, from: Slot, child: Option<Addr>, sub: Tree)
    requires Represents(m, f, t) && OnTree(t, path)
    requires Shape(m.nodes, child, sub) && Linked(m.nodes, from, sub) && Distinct(sub)
    requires Addrs(sub) <= Addrs(Get(t, path))
    requires Hung(m, n, f, t, path, child, Addrs(t) - Addrs(Get(t, path)) + Addrs(sub))
    ensures var r := Put(t, path, sub);
            Shape(n.nodes, RootOf(n, f), r) && Linked(n.nodes, Root(f), r) && Distinct(r) &&
            Addrs(r) == Addrs(t) - Addrs(Get(t, path)) + Addrs(sub)
  {
    var slot := SlotOf(Root(f), t, path);
    GetShape(m.nodes, Root(f), RootOf(m, f), t, path);
    assert slot.Link? ==> slot.node !in Addrs(sub);
    assert child == if sub.Node? then Some(sub.addr) else None;
    FrameShape(m.nodes, n.nodes, child, sub);
    if sub.Node? {
      Rehang(m.nodes, n.nodes, from, slot, sub);
    }
    PublishPut(m, n, f, t, path, child, sub);
  }

  lemma SpliceOnlyChild(m: Nodes, slot: Slot, s: Tree, child: Option<Addr>)
    requires s.Node? && Distinct(s) && !(s.left.Node? && s.right.Node?)
    requires Shape(m, Some(s.addr), s) && Linked(m, slot, s)
    requires child == (if s.left.Node? then m[s.addr].bit0 else m[s.addr].bit1)
    ensures var sub := Splice(s);
            Shape(m, child, sub) && Linked(m, Link(s.addr, s.left.Nil?), sub) && Distinct(sub) &&
            Addrs(sub) == Addrs(s) - {s.addr}
  {
  }

  /** Splicing the node out changes the shape a reader walks, not what it finds. */
  lemma PublishSplice(m: Mem, n: Mem, f: Family, t: Tree, path: seq<bool>, child: Option<Addr>)
    requires Represents(m, f, t) && OnTree(t, path)
    requires var s := Get(t, path);
             && s.Node? && !(s.left.Node? && s.right.Node?) && s.addr in m.nodes
             && child == (if s.left.Node? then m.nodes[s.addr].bit0 else m.nodes[s.addr].bit1)
             && Hung(m, n, f, t, path, child, Addrs(t) - {s.addr})
    ensures Reads(n, f, TableOf(t) - {Prefix(Get(t, path))})
    ensures RemoveAt(t, path) == Put(t, path, Splice(Get(t, path))) ==>
              Represents(n, f, RemoveAt(t, path)) && Addrs(RemoveAt(t, path)) == Addrs(t) - {Get(t, path).addr}
  {
    HoistChild(m, n, f, t, path, Get(t, path), child);
    RemovalStep(t, path, Splice(Get(t, path)), Width(f));
    RemoveCorrect(t, path, Width(f));
  }

  /** The only child takes the place of its parent. */
  lemma HoistChild(m: Mem, n: Mem, f: Family, t: Tree, path: seq<bool>, s: Tree, child: Option<Addr>)
    requires Represents(m, f, t) && OnTree(t, path) && s == Get(t, path) && s.Node? && !(s.left.Node? && s.right.Node?)
    requires s.addr in m.nodes && child == (if s.left.Node? then m.nodes[s.addr].bit0 else m.nodes[s.addr].bit1)
    requires Hung(m, n, f, t, path, child, Addrs(t) - {s.addr})
    ensures var r := Put(t, path, Splice(s));
            && Shape(n.nodes, RootOf(n, f), r) && Linked(n.nodes, Root(f), r) && Distinct(r)
            && Addrs(r) == Addrs(t) - {s.addr}
  {
    var sub := Splice(s);
    GetAddrs(t, path);
    GetShape(m.nodes, Root(f), RootOf(m, f), t, path);
    SpliceOnlyChild(m.nodes, SlotOf(Root(f), t, path), s, child);
    assert Addrs(t) - Addrs(s) + Addrs(sub) == Addrs(t) - {s.addr};
    Hoist(m, n, f, t, path, Link(s.addr, s.left.Nil?), child, sub);
  }

  /** Dropping a peerless parent that is left with one child. */
  lemma PublishParentFree(m: Mem, n: Mem, f: Family, t: Tree, path: seq<bool>, child: Option<Addr>)
    requires Represents(m, f, t) && OnTree(t, path) && path != []
    requires var s := Get(t, path);
             var up, b := path[..|path| - 1], path[|path| - 1];
             && IsLeaf(s) && OnTree(t, up) && Get(t, up).Node?
             && var d := Get(t, up);
             && s == Child(d, b) && d.peer.None? && d.addr in m.nodes
             && child == Bit(m.nodes[d.addr], !b)
             && Hung(m, n, f, t, up, child, Addrs(t) - {s.addr, d.addr})
    ensures Represents(n, f, RemoveAt(t, path))
    ensures Addrs(RemoveAt(t, path)) ==
              Addrs(t) - {Get(t, path).addr} - {Get(t, path[..|path| - 1]).addr}
  {
    var up, b := path[..|path| - 1], path[|path| - 1];
    HoistSibling(m, n, f, t, up, b, Get(t, up), Get(t, path), child);
    RemoveIsPut(t, path);
    RemoveCorrect(t, path, Width(f));
  }

  /** The sibling of a childless node takes their parent's place. */
  lemma HoistSibling(m: Mem, n: Mem, f: Family, t: Tree, up: seq<bool>, b: bool, d: Tree, s: Tree, child: Option<Addr>)
    requires Represents(m, f, t) && OnTree(t, up) && d == Get(t, up) && d.Node? && s == Child(d, b) && IsLeaf(s)
    requires d.addr in m.nodes && child == Bit(m.nodes[d.addr], !b)
    requires Hung(m, n, f, t, up, child, Addrs(t) - {s.addr, d.addr})
    ensures var r := Put(t, up, Child(d, !b));
            && Shape(n.nodes, RootOf(n, f), r) && Linked(n.nodes, Root(f), r) && Distinct(r)
            && Addrs(r) == Addrs(t) - {s.addr} - {d.addr}
  {
    var sub := Child(d, !b);
    GetAddrs(t, up);
    GetShape(m.nodes, Root(f), RootOf(m, f), t, up);
    ChildlessAddrs(s);
    NodeAddrs(d, s, sub, b);
    assert Addrs(sub) == Addrs(d) - {d.addr} - {s.addr};
    assert Addrs(t) - Addrs(d) + Addrs(sub) == Addrs(t) - {s.addr, d.addr};
    Hoist(m, n, f, t, up, Link(d.addr, !b), child, sub);
  }
}
