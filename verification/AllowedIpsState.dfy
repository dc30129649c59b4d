/** The state of the allowed-IPs table: two tries in shared node memory, each peer's list of nodes,
    the walks over a trie, and what a log of memories must satisfy for its readers. */
module AllowedIpsState {
  import opened Common
  import opened TrieTree
  import opened TrieOps
  import opened TrieHeap
  import opened TrieMem

  function Other(f: Family): (g: Family) {
    match f case V4 => V6 case V6 => V4
  }

  datatype Status = Ok | Einval | Enomem

  // ---------------------------------------------------------------- peer lists

  type Lists = map<Peer, seq<Addr>>

  function ListOf(lists: Lists, p: Peer): (s: seq<Addr>) {
    if p in lists then lists[p] else []
  }

  ghost predicate OnList(lists: Lists, p: Peer, a: Addr) {
    a in ListOf(lists, p)
  }

  ghost predicate Carries(nodes: Nodes, live: set<Addr>, p: Peer, a: Addr) {
    a in live && a in nodes && nodes[a].peer == Some(p)
  }

  /** Each list holds exactly the live nodes that carry its peer, each once. */
  ghost predicate ListsExact(lists: Lists, nodes: Nodes, live: set<Addr>) {
    && (forall p: Peer :: NoDup(ListOf(lists, p)))
    && (forall p: Peer, a: Addr :: OnList(lists, p, a) <==> Carries(nodes, live, p, a))
  }

  function Append(lists: Lists, p: Peer, a: Addr): (r: Lists) {
    lists[p := ListOf(lists, p) + [a]]
  }

  /** `list_del`: a node that carries a peer leaves that peer's list. */
  function Unlist(lists: Lists, p: Option<Peer>, a: Addr): (r: Lists) {
    if p.None? then lists else lists[p.value := Without(ListOf(lists, p.value), a)]
  }

  lemma AppendExact(lists: Lists, n: Nodes, live: set<Addr>, n': Nodes, live': set<Addr>, p: Peer, a: Addr)
    requires ListsExact(lists, n, live)
    requires a !in live && a in live' && a in n' && n'[a].peer == Some(p)
    requires forall x :: x != a && x in live && x in n ==> x in live' && x in n' && n'[x].peer == n[x].peer
    requires forall x :: x != a && x in live' && x in n' && n'[x].peer.Some? ==> x in live && x in n && n'[x].peer == n[x].peer
    ensures ListsExact(Append(lists, p, a), n', live')
  {
    assert !OnList(lists, p, a);
    forall r: Peer, x: Addr ensures OnList(Append(lists, p, a), r, x) <==> Carries(n', live', r, x) {
      assert OnList(lists, r, x) <==> Carries(n, live, r, x);
    }
    forall r: Peer ensures NoDup(ListOf(Append(lists, p, a), r)) {
      assert NoDup(ListOf(lists, r));
    }
  }

  lemma UnlistExact(lists: Lists, n: Nodes, live: set<Addr>, n': Nodes, live': set<Addr>, a: Addr)
    requires ListsExact(lists, n, live)
    requires a in live && a in n
    requires a !in live' || (a in n' && n'[a].peer == None)
    requires forall x :: x != a && x in live && x in n && n[x].peer.Some? ==> x in live' && x in n' && n'[x].peer == n[x].peer
    requires forall x :: x != a && x in live' && x in n' && n'[x].peer.Some? ==> x in live && x in n && n'[x].peer == n[x].peer
    ensures ListsExact(Unlist(lists, n[a].peer, a), n', live')
  {
    var lists' := Unlist(lists, n[a].peer, a);
    forall r: Peer, x: Addr ensures OnList(lists', r, x) <==> Carries(n', live', r, x) {
      assert OnList(lists, r, x) <==> Carries(n, live, r, x);
    }
    forall r: Peer ensures NoDup(ListOf(lists', r)) {
      WithoutNoDup(ListOf(lists, r), a);
    }
  }

  // ---------------------------------------------------------------- lookup helper

  ghost predicate SameFound(m: Nodes, x: Option<Addr>, y: Option<Peer>) {
    (x.None? && y.None?) || (x.Some? && y.Some? && x.value in m && m[x.value].peer == y)
  }

  lemma {:induction false} FindCarriesPeer(m: Nodes, p: Option<Addr>, t: Tree, key: Key, x: Option<Addr>, y: Option<Peer>)
    requires Shape(m, p, t) && Ordered(t, |key|) && SameFound(m, x, y)
    ensures SameFound(m, Find(t, key, x), FindPeer(t, key, y))
    decreases t
  {
    if t.Node? && PrefixMatches(t.bits, t.cidr, key) && t.cidr != |key| {
      var b := key[t.cidr];
      FindCarriesPeer(m, Bit(m[t.addr], b), Child(t, b), key,
                      if t.peer.Some? then Some(t.addr) else x, if t.peer.Some? then t.peer else y);
    }
  }

  // ---------------------------------------------------------------- walks

  /** `find_node` on the memory a reader sees. */
  method FindNode(m: Mem, f: Family, key: Key, ghost t: Tree) returns (r: Option<Addr>)
    requires |key| == Width(f)
    requires Shape(m.nodes, RootOf(m, f), t) && Ordered(t, Width(f))
    ensures r == Find(t, key, None)
  {
    ghost var cur := t;
    var node := RootOf(m, f);
    r := None;
    while node.Some? && PrefixMatches(m.nodes[node.value].bits, m.nodes[node.value].cidr, key)
      invariant Shape(m.nodes, node, cur) && Ordered(cur, |key|)
      invariant Find(t, key, None) == Find(cur, key, r)
      decreases cur
    {
      var n := m.nodes[node.value];
      if n.peer.Some? {
        r := node;
      }
      if n.cidr == |key| {
        return;
      }
      node := Bit(n, key[n.cidr]);
      cur := Child(cur, key[n.cidr]);
    }
  }

  /** A lookup on any memory from which an ordered trie for `table` can be read is
      longest-prefix match on `table`, for every key. */
  method Lookup(m: Mem, f: Family, key: Key, ghost table: Table) returns (peer: Option<Peer>)
    requires |key| == Width(f) && Reads(m, f, table)
    ensures peer == LongestMatch(table, key)
  {
    ghost var t :| Shape(m.nodes, RootOf(m, f), t) && Ordered(t, Width(f)) && TableOf(t) == table;
    var node := FindNode(m, f, key, t);
    FindCarriesPeer(m.nodes, RootOf(m, f), t, key, None, None);
    LookupIsLongestMatch(t, key);
    peer := if node.Some? then m.nodes[node.value].peer else None;
  }

  /** What `node_placement` reports about the slot where a new prefix belongs. */
  ghost predicate Placed(m: Mem, f: Family, t: Tree, key: Key, cidr: nat, exact: bool, node: Option<Addr>)
    requires Ordered(t, |key|) && cidr <= |key|
  {
    var path := StopPath(t, key, cidr);
    var d := Get(t, path);
    var slot := SlotOf(Root(f), t, path);
    && Ordered(d, |key|)
    && (exact <==> IsExact(d, key, cidr))
    && (exact ==> node == Some(d.addr))
    && (!exact ==> !Descends(d, key, cidr) && Above(m, f, t, key, path, slot, node))
  }

  /** `node` owns the slot at `path`, in the direction of the key; no node means the root. */
  ghost predicate Above(m: Mem, f: Family, t: Tree, key: Key, path: seq<bool>, slot: Slot, node: Option<Addr>) {
    match node
    case None => path == [] && slot == Root(f)
    case Some(a) =>
      && path != [] && a in Addrs(t) && a in m.nodes && m.nodes[a].cidr < |key|
      && slot == Link(a, key[m.nodes[a].cidr])
  }

  /** The walk state: the subtree `cur` at `path` is where the search stands. */
  ghost predicate Walking(m: Mem, f: Family, t: Tree, key: Key, cidr: nat, path: seq<bool>, cur: Tree, n: Option<Addr>)
    requires Ordered(t, |key|) && cidr <= |key|
  {
    && OnTree(t, path) && Get(t, path) == cur
    && Shape(m.nodes, n, cur) && Ordered(cur, |key|)
    && StopPath(t, key, cidr) == path + StopPath(cur, key, cidr)
  }

  lemma WalkStep(m: Mem, f: Family, t: Tree, key: Key, cidr: nat, path: seq<bool>, cur: Tree, n: Option<Addr>)
    requires Ordered(t, |key|) && cidr <= |key| && Walking(m, f, t, key, cidr, path, cur, n)
    requires Descends(cur, key, cidr) && cur.cidr != cidr
    ensures var b := key[cur.cidr];
            && Walking(m, f, t, key, cidr, path + [b], Child(cur, b), Bit(m.nodes[cur.addr], b))
            && Above(m, f, t, key, path + [b], SlotOf(Root(f), t, path + [b]), n)
  {
    var b := key[cur.cidr];
    StepPath(Root(f), t, path, b);
    StopStep(cur, key, cidr, path);
    assert n == Some(cur.addr) && SlotOf(Root(f), t, path + [b]) == Link(cur.addr, b);
    assert cur.addr in Addrs(t) by {
      GetAddrs(t, path);
      assert cur.addr in Addrs(cur);
    }
  }

  lemma {:induction false} StopStep(cur: Tree, key: Key, cidr: nat, path: seq<bool>)
    requires Ordered(cur, |key|) && cidr <= |key| && Descends(cur, key, cidr) && cur.cidr != cidr
    ensures var b := key[cur.cidr];
            Ordered(Child(cur, b), |key|) &&
            path + StopPath(cur, key, cidr) == path + [b] + StopPath(Child(cur, b), key, cidr)
  {
    var b := key[cur.cidr];
    var rest := StopPath(Child(cur, b), key, cidr);
    assert StopPath(cur, key, cidr) == [b] + rest;
    assert path + ([b] + rest) == (path + [b]) + rest;
  }

  lemma WalkEnd(m: Mem, f: Family, t: Tree, key: Key, cidr: nat, path: seq<bool>, cur: Tree, n: Option<Addr>)
    requires Ordered(t, |key|) && cidr <= |key| && Walking(m, f, t, key, cidr, path, cur, n)
    requires !Descends(cur, key, cidr) || cur.cidr == cidr
    ensures StopPath(t, key, cidr) == path
  {
    assert path + [] == path;
  }

  method NodePlacement(m: Mem, f: Family, key: Key, cidr: nat, ghost t: Tree) returns (exact: bool, node: Option<Addr>)
    requires |key| == Width(f) && cidr <= |key|
    requires Shape(m.nodes, RootOf(m, f), t) && Ordered(t, Width(f))
    ensures Placed(m, f, t, key, cidr, exact, node)
  {
    ghost var cur, path := t, [];
    var n := RootOf(m, f);
    node, exact := None, false;
    assert [] + StopPath(t, key, cidr) == StopPath(t, key, cidr);
    while n.Some? && m.nodes[n.value].cidr <= cidr && PrefixMatches(m.nodes[n.value].bits, m.nodes[n.value].cidr, key)
      invariant Walking(m, f, t, key, cidr, path, cur, n)
      invariant Above(m, f, t, key, path, SlotOf(Root(f), t, path), node)
      decreases cur
    {
      node := n;
      var c := m.nodes[n.value].cidr;
      if c == cidr {
        WalkEnd(m, f, t, key, cidr, path, cur, n);
        return true, node;
      }
      WalkStep(m, f, t, key, cidr, path, cur, n);
      n := Bit(m.nodes[n.value], key[c]);
      path, cur := path + [key[c]], Child(cur, key[c]);
    }
    exact := false;
    WalkEnd(m, f, t, key, cidr, path, cur, n);
  }

  // ---------------------------------------------------------------- grafts in memory

  lemma LeafInMemory(n: Nodes, key: Key, cidr: nat, peer: Peer, a: Addr, slot: Slot)
    requires a in n && n[a] == HNode(Some(peer), None, None, cidr, key, slot)
    ensures Shape(n, Some(a), Leaf(a, key, cidr, peer)) && Linked(n, slot, Leaf(a, key, cidr, peer))
  {
  }

  lemma MovedUnder(m: Nodes, n: Nodes, from: Slot, to: Slot, d: Tree)
    requires d.Node? && Distinct(d) && Shape(m, Some(d.addr), d) && Linked(m, from, d)
    requires d.addr in n && n[d.addr] == m[d.addr].(parent := to)
    requires forall x :: x in Addrs(d) && x != d.addr && x in m ==> x in n && n[x] == m[x]
    ensures Shape(n, Some(d.addr), d) && Linked(n, to, d)
  {
    FrameShape(m, n, Some(d.addr), d);
    Rehang(m, n, from, to, d);
  }

  lemma NodeInMemory(n: Nodes, g: Tree, slot: Slot)
    requires g.Node? && g.addr in n
    requires var x := n[g.addr];
             && x.bits == g.bits && x.cidr == g.cidr && x.peer == g.peer && x.parent == slot
             && Shape(n, x.bit0, g.left) && Shape(n, x.bit1, g.right)
    requires Linked(n, Link(g.addr, false), g.left) && Linked(n, Link(g.addr, true), g.right)
    ensures Shape(n, Some(g.addr), g) && Linked(n, slot, g)
  {
  }

  // ---------------------------------------------------------------- states

  /** The table's memory, lists and allocator, with the trees the memory stands for. */
  datatype State = State(mem: Mem, lists: Lists, next: Addr, tree4: Tree, tree6: Tree)

  function TreeIn(s: State, f: Family): (t: Tree) {
    match f case V4 => s.tree4 case V6 => s.tree6
  }

  function WithTree(s: State, f: Family, t: Tree): (r: State) {
    match f case V4 => s.(tree4 := t) case V6 => s.(tree6 := t)
  }

  function LiveIn(s: State): (live: set<Addr>) {
    Addrs(s.tree4) + Addrs(s.tree6)
  }

  ghost predicate ValidState(s: State) {
    && Represents(s.mem, V4, s.tree4) && Represents(s.mem, V6, s.tree6)
    && Addrs(s.tree4) !! Addrs(s.tree6)
    && (forall a :: a in s.mem.nodes ==> a < s.next)
    && LiveIn(s) <= s.mem.nodes.Keys
    && ListsExact(s.lists, s.mem.nodes, LiveIn(s))
  }

  function TableIn(s: State, f: Family): (t: Table) {
    TableOf(TreeIn(s, f))
  }

  /** Every recorded memory reads as the table before or after, and the other family's
      table is never disturbed. */
  ghost predicate Atomic(f: Family, before: State, after: State, log: seq<Mem>) {
    forall i :: 0 <= i < |log| ==>
      ReadsOneOf(log[i], f, TableIn(before, f), TableIn(after, f)) &&
      Reads(log[i], Other(f), TableIn(before, Other(f)))
  }

  /** A completed operation on family `f`. */
  ghost predicate Turned(f: Family, before: State, after: State, table: Table, log: seq<Mem>) {
    && ValidState(after)
    && TableIn(after, f) == table
    && TableIn(after, Other(f)) == TableIn(before, Other(f))
    && Atomic(f, before, after, log)
  }

  /** Writes that do not touch what a reader follows leave both tables as they were. */
  lemma Undisturbed(s: State, n: Mem, f: Family)
    requires ValidState(s) && n.root4 == s.mem.root4 && n.root6 == s.mem.root6
    requires forall x :: x in LiveIn(s) && x in s.mem.nodes ==>
               x in n.nodes && SameForReaders(s.mem.nodes[x], n.nodes[x])
    ensures Reads(n, f, TableIn(s, f)) && Reads(n, Other(f), TableIn(s, Other(f)))
  {
    FrameReads(s.mem, n, f, TreeIn(s, f));
    FrameReads(s.mem, n, Other(f), TreeIn(s, Other(f)));
  }

  /** Everything outside the touched part: peers, the other family, the allocator. */
  ghost predicate Elsewhere(s: State, n: Mem, f: Family, peer: Peer) {
    && RootOf(n, Other(f)) == RootOf(s.mem, Other(f))
    && s.mem.nodes.Keys <= n.nodes.Keys <= s.mem.nodes.Keys + {s.next, s.next + 1}
    && (forall x :: x in s.mem.nodes ==> n.nodes[x].peer == s.mem.nodes[x].peer)
    && (forall x :: x in Addrs(TreeIn(s, Other(f))) && x in s.mem.nodes ==> n.nodes[x] == s.mem.nodes[x])
    && s.next in n.nodes && n.nodes[s.next].peer == Some(peer)
    && (s.next + 1 in n.nodes ==> n.nodes[s.next + 1].peer == None)
  }

  /** Putting a family's new tree together with everything else. */
  lemma Assemble(s: State, n: Mem, lists: Lists, next: Addr, f: Family, t: Tree)
    requires ValidState(s) && Represents(n, f, t)
    requires RootOf(n, Other(f)) == RootOf(s.mem, Other(f))
    requires Addrs(t) !! Addrs(TreeIn(s, Other(f)))
    requires forall x :: x in Addrs(TreeIn(s, Other(f))) && x in s.mem.nodes ==>
               x in n.nodes && n.nodes[x] == s.mem.nodes[x]
    requires forall a :: a in n.nodes ==> a < next
    requires ListsExact(lists, n.nodes, Addrs(t) + Addrs(TreeIn(s, Other(f))))
    ensures ValidState(WithTree(State(n, lists, next, s.tree4, s.tree6), f, t))
    ensures Reads(n, f, TableOf(t)) && Reads(n, Other(f), TableIn(s, Other(f)))
  {
    var o := TreeIn(s, Other(f));
    FrameRepresents(s.mem, n, Other(f), o);
    var r := WithTree(State(n, lists, next, s.tree4, s.tree6), f, t);
    assert LiveIn(r) == Addrs(t) + Addrs(o);
    forall x | x in Addrs(t) ensures x in n.nodes {
      ShapeAt(n.nodes, RootOf(n, f), t, x);
    }
    forall x | x in Addrs(o) ensures x in n.nodes {
      ShapeAt(n.nodes, RootOf(n, Other(f)), o, x);
    }
  }

  lemma {:induction false} CompleteInsert(s: State, n: Mem, f: Family, key: Key, cidr: nat, peer: Peer,
                                          path: seq<bool>, t: Tree, d: Tree, g: Tree) returns (r: Tree)
    requires ValidState(s) && |key| == Width(f) && cidr <= |key| && t == TreeIn(s, f)
    requires Ordered(t, |key|) && path == StopPath(t, key, cidr) && d == Get(t, path)
    requires Ordered(d, |key|) && !Descends(d, key, cidr) && g == Graft(d, key, cidr, peer, s.next, s.next + 1)
    requires Published(s.mem, n, f, t, path, g)
    requires Elsewhere(s, n, f, peer)
    ensures ValidState(WithTree(State(n, Append(s.lists, peer, s.next), s.next + 2, s.tree4, s.tree6), f, r))
    ensures TableOf(r) == TableOf(t)[key[..cidr] := peer]
    ensures Reads(n, f, TableOf(r)) && Reads(n, Other(f), TableIn(s, Other(f)))
  {
    TreeFacts(s, f);
    r := PublishedTree(s.mem, n, f, key, cidr, peer, path, t, d, g, s.next);
    FinishInsert(s, n, f, peer, r);
  }

  lemma {:induction false} PublishedTree(m: Mem, n: Mem, f: Family, key: Key, cidr: nat, peer: Peer,
                                         path: seq<bool>, t: Tree, d: Tree, g: Tree, a: Addr) returns (r: Tree)
    requires Represents(m, f, t) && a !in Addrs(t) && a + 1 !in Addrs(t) && |key| == Width(f) && cidr <= |key|
    requires Ordered(t, |key|) && path == StopPath(t, key, cidr) && d == Get(t, path)
    requires Ordered(d, |key|) && !Descends(d, key, cidr) && g == Graft(d, key, cidr, peer, a, a + 1)
    requires Published(m, n, f, t, path, g)
    ensures Represents(n, f, r) && Grown(t, r, a)
    ensures TableOf(r) == TableOf(t)[key[..cidr] := peer]
  {
    PublishGraft(m, n, f, t, key, cidr, peer, a, a + 1, path, d, g);
    r := Insert(t, key, cidr, peer, a, a + 1);
  }

  /** `r` has the nodes of `t`, a node at `a` and perhaps one at `a + 1`. */
  predicate Grown(t: Tree, r: Tree, a: Addr) {
    Addrs(t) <= Addrs(r) <= Addrs(t) + {a, a + 1} && a in Addrs(r)
  }

  lemma TreeFacts(s: State, f: Family)
    requires ValidState(s)
    ensures Represents(s.mem, f, TreeIn(s, f)) && s.next !in Addrs(TreeIn(s, f)) && s.next + 1 !in Addrs(TreeIn(s, f))
  {
    assert Addrs(TreeIn(s, f)) <= LiveIn(s);
  }

  lemma FinishInsert(s: State, n: Mem, f: Family, peer: Peer, t: Tree)
    requires ValidState(s) && Represents(n, f, t) && Elsewhere(s, n, f, peer)
    requires Grown(TreeIn(s, f), t, s.next)
    ensures ValidState(WithTree(State(n, Append(s.lists, peer, s.next), s.next + 2, s.tree4, s.tree6), f, t))
    ensures Reads(n, f, TableOf(t)) && Reads(n, Other(f), TableIn(s, Other(f)))
  {
    var o := Addrs(TreeIn(s, Other(f)));
    assert LiveIn(s) == Addrs(TreeIn(s, f)) + o;
    assert s.next !in LiveIn(s) && s.next + 1 !in LiveIn(s);
    AppendedLists(s, n.nodes, Addrs(t) + o, peer);
    Assemble(s, n, Append(s.lists, peer, s.next), s.next + 2, f, t);
  }

  lemma AppendedLists(s: State, n: Nodes, live: set<Addr>, peer: Peer)
    requires ListsExact(s.lists, s.mem.nodes, LiveIn(s)) && LiveIn(s) <= s.mem.nodes.Keys
    requires LiveIn(s) <= live <= LiveIn(s) + {s.next, s.next + 1} && s.next in live && s.next !in LiveIn(s)
    requires forall x :: x in s.mem.nodes ==> x in n && n[x].peer == s.mem.nodes[x].peer
    requires s.next in n && n[s.next].peer == Some(peer)
    requires s.next + 1 in n ==> n[s.next + 1].peer == None
    ensures ListsExact(Append(s.lists, peer, s.next), n, live)
  {
    AppendExact(s.lists, s.mem.nodes, LiveIn(s), n, live, peer, s.next);
  }

  // ---------------------------------------------------------------- stores

  function Alloc(m: Mem, a: Addr, peer: Option<Peer>, key: Key, cidr: nat, f: Family): (n: Mem) {
    m.(nodes := m.nodes[a := HNode(peer, None, None, cidr, key, Root(f))])
  }

  function SetParent(m: Mem, a: Addr, slot: Slot): (n: Mem)
    requires a in m.nodes
  {
    m.(nodes := m.nodes[a := m.nodes[a].(parent := slot)])
  }

  function StoreSlot(m: Mem, slot: Slot, q: Option<Addr>): (n: Mem)
    requires slot.Link? ==> slot.node in m.nodes
  {
    match slot
    case Root(V4) => m.(root4 := q)
    case Root(V6) => m.(root6 := q)
    case Link(x, b) => m.(nodes := m.nodes[x := SetBit(m.nodes[x], b, q)])
  }

  /** `connect_node` on a slot whose owner is not yet or already reachable. */
  function ConnectNode(m: Mem, slot: Slot, a: Addr): (n: Mem)
    requires a in m.nodes && (slot.Link? ==> slot.node in m.nodes)
  {
    StoreSlot(SetParent(m, a, slot), slot, Some(a))
  }

  // ---------------------------------------------------------------- one store at a time

  /** At most one field of a node record differs. */
  predicate OneField(x: HNode, y: HNode) {
    y == x.(peer := y.peer) || y == x.(bit0 := y.bit0) || y == x.(bit1 := y.bit1) || y == x.(parent := y.parent)
  }

  /** One field of one node is written, or a new node appears. */
  predicate NodeStore(m: Mem, n: Mem, a: Addr) {
    a in n.nodes && n == m.(nodes := m.nodes[a := n.nodes[a]]) && (a in m.nodes ==> OneField(m.nodes[a], n.nodes[a]))
  }

  ghost predicate OneStore(m: Mem, n: Mem) {
    n == m.(root4 := n.root4) || n == m.(root6 := n.root6) || exists a :: NodeStore(m, n, a)
  }

  /** The memories of `log`, each one store after the one before, the first one after `m`. */
  ghost predicate StoreByStore(m: Mem, log: seq<Mem>) {
    && log != [] && OneStore(m, log[0])
    && forall i :: 0 <= i < |log| - 1 ==> OneStore(log[i], log[i + 1])
  }

  /** `log` records every store between `m` and `n`. */
  ghost predicate Logged(m: Mem, log: seq<Mem>, n: Mem) {
    StoreByStore(m, log) && log[|log| - 1] == n
  }

  lemma AllocIsOneStore(m: Mem, a: Addr, peer: Option<Peer>, key: Key, cidr: nat, f: Family)
    requires a !in m.nodes
    ensures OneStore(m, Alloc(m, a, peer, key, cidr, f))
  {
    assert NodeStore(m, Alloc(m, a, peer, key, cidr, f), a);
  }

  lemma SetParentIsOneStore(m: Mem, a: Addr, slot: Slot)
    requires a in m.nodes
    ensures OneStore(m, SetParent(m, a, slot))
  {
    assert NodeStore(m, SetParent(m, a, slot), a);
  }

  lemma StoreSlotIsOneStore(m: Mem, slot: Slot, q: Option<Addr>)
    requires slot.Link? ==> slot.node in m.nodes
    ensures OneStore(m, StoreSlot(m, slot, q))
  {
    if slot.Link? { assert NodeStore(m, StoreSlot(m, slot, q), slot.node); }
  }

  lemma SetPeerIsOneStore(m: Mem, a: Addr, p: Option<Peer>)
    requires a in m.nodes
    ensures OneStore(m, m.(nodes := m.nodes[a := m.nodes[a].(peer := p)]))
  {
    assert NodeStore(m, m.(nodes := m.nodes[a := m.nodes[a].(peer := p)]), a);
  }

  lemma StoresAppend(m: Mem, a: seq<Mem>, b: seq<Mem>)
    requires StoreByStore(m, a) && StoreByStore(a[|a| - 1], b)
    ensures StoreByStore(m, a + b) && (a + b)[|a + b| - 1] == b[|b| - 1]
  {
    var c := a + b;
    forall i | 0 <= i < |c| - 1 ensures OneStore(c[i], c[i + 1]) {
      if i < |a| - 1 {
        assert OneStore(a[i], a[i + 1]);
      } else if i >= |a| {
        assert OneStore(b[i - |a|], b[i - |a| + 1]);
      }
    }
  }

  /** The slot at the end of the walk, from the valid state's point of view. */
  lemma SlotFacts(s: State, f: Family, t: Tree, path: seq<bool>, d: Tree, slot: Slot)
    requires ValidState(s) && t == TreeIn(s, f) && OnTree(t, path) && d == Get(t, path)
    requires slot == SlotOf(Root(f), t, path)
    ensures path == [] ==> slot == Root(f)
    ensures path != [] ==> slot.Link? && slot.node in Addrs(t) && slot.node in s.mem.nodes && slot.node !in Addrs(d)
    ensures Shape(s.mem.nodes, if path == [] then RootOf(s.mem, f) else Bit(s.mem.nodes[slot.node], slot.bit), d)
    ensures Linked(s.mem.nodes, slot, d) && Distinct(d) && Addrs(d) <= Addrs(t) <= LiveIn(s)
    ensures Addrs(t) !! Addrs(TreeIn(s, Other(f)))
    ensures s.next !in s.mem.nodes && s.next + 1 !in s.mem.nodes
  {
    assert Represents(s.mem, f, t);
    GetShape(s.mem.nodes, Root(f), RootOf(s.mem, f), t, path);
    GetAddrs(t, path);
  }

  /** The stores of an insertion, seen from the memory before it: one slot now holds `q`, the
      root of the displaced subtree (if any) hangs from `under`, new nodes were added. */
  ghost predicate Grafting(s: State, n: Mem, f: Family, slot: Slot, q: Addr, down: Option<Addr>, under: Slot) {
    && RootOf(n, f) == (if slot == Root(f) then Some(q) else RootOf(s.mem, f))
    && RootOf(n, Other(f)) == RootOf(s.mem, Other(f))
    && s.mem.nodes.Keys <= n.nodes.Keys <= s.mem.nodes.Keys + {s.next, s.next + 1}
    && forall x :: x in s.mem.nodes ==>
         n.nodes[x] == Stored(x, if Some(x) == down then s.mem.nodes[x].(parent := under) else s.mem.nodes[x],
                              slot, Some(q))
  }

  lemma GraftElsewhere(s: State, n: Mem, f: Family, peer: Peer, slot: Slot, q: Addr, down: Option<Addr>, under: Slot)
    requires Grafting(s, n, f, slot, q, down, under)
    requires slot.Link? ==> slot.node !in Addrs(TreeIn(s, Other(f)))
    requires down.Some? ==> down.value !in Addrs(TreeIn(s, Other(f)))
    requires s.next in n.nodes && n.nodes[s.next].peer == Some(peer)
    requires s.next + 1 in n.nodes ==> n.nodes[s.next + 1].peer == None
    ensures Elsewhere(s, n, f, peer)
  {
  }

  lemma GraftPublished(s: State, n: Mem, f: Family, t: Tree, path: seq<bool>, g: Tree,
                       slot: Slot, down: Option<Addr>, under: Slot)
    requires OnTree(t, path) && slot == SlotOf(Root(f), t, path) && (path == [] <==> slot == Root(f))
    requires g.Node? && Grafting(s, n, f, slot, g.addr, down, under)
    requires down.Some? ==> down.value in Addrs(Get(t, path))
    requires Shape(n.nodes, Some(g.addr), g) && Linked(n.nodes, slot, g)
    ensures Published(s.mem, n, f, t, path, g)
  {
  }

  /** The displaced subtree keeps its shape and hangs from the new node. */
  lemma DisplacedInMemory(s: State, n: Mem, f: Family, d: Tree, slot: Slot, q: Addr, under: Slot)
    requires d.Node? && Distinct(d) && Shape(s.mem.nodes, Some(d.addr), d) && Linked(s.mem.nodes, slot, d)
    requires slot.Link? ==> slot.node !in Addrs(d)
    requires Grafting(s, n, f, slot, q, Some(d.addr), under)
    ensures Shape(n.nodes, Some(d.addr), d) && Linked(n.nodes, under, d)
  {
    MovedUnder(s.mem.nodes, n.nodes, slot, under, d);
  }

  /** Case 2 of `add`: the new node goes above what is there. */
  lemma AboveInMemory(s: State, n: Mem, f: Family, key: Key, cidr: nat, peer: Peer, d: Tree, slot: Slot)
    requires Ordered(d, |key|) && cidr <= |key| && !Descends(d, key, cidr) && d.Node? && Distinct(d)
    requires cidr <= CommonBits(d.bits, key) && cidr < |key|
    requires Shape(s.mem.nodes, Some(d.addr), d) && Linked(s.mem.nodes, slot, d)
    requires slot.Link? ==> slot.node !in Addrs(d)
    requires Grafting(s, n, f, slot, s.next, Some(d.addr), Link(s.next, d.bits[cidr]))
    requires s.next in n.nodes
    requires n.nodes[s.next] == SetBit(HNode(Some(peer), None, None, cidr, key, slot), d.bits[cidr], Some(d.addr))
    ensures var g := Graft(d, key, cidr, peer, s.next, s.next + 1);
            g.Node? && g.addr == s.next && Shape(n.nodes, Some(g.addr), g) && Linked(n.nodes, slot, g)
  {
    DisplacedInMemory(s, n, f, d, slot, s.next, Link(s.next, d.bits[cidr]));
    NodeInMemory(n.nodes, Graft(d, key, cidr, peer, s.next, s.next + 1), slot);
  }

  /** Case 3 of `add`: a branching node over the old subtree and the new leaf. */
  lemma BranchInMemory(s: State, n: Mem, f: Family, key: Key, cidr: nat, peer: Peer, d: Tree, slot: Slot, common: nat)
    requires Ordered(d, |key|) && cidr <= |key| && !Descends(d, key, cidr) && d.Node? && Distinct(d)
    requires common == CommonBits(d.bits, key) && common < cidr
    requires Shape(s.mem.nodes, Some(d.addr), d) && Linked(s.mem.nodes, slot, d)
    requires slot.Link? ==> slot.node !in Addrs(d)
    requires Grafting(s, n, f, slot, s.next + 1, Some(d.addr), Link(s.next + 1, d.bits[common]))
    requires s.next in n.nodes && s.next + 1 in n.nodes
    requires n.nodes[s.next] == HNode(Some(peer), None, None, cidr, key, Link(s.next + 1, key[common]))
    requires n.nodes[s.next + 1] ==
      SetBit(SetBit(HNode(None, None, None, common, key, slot), d.bits[common], Some(d.addr)), key[common], Some(s.next))
    ensures var g := Graft(d, key, cidr, peer, s.next, s.next + 1);
            g.Node? && g.addr == s.next + 1 && Shape(n.nodes, Some(g.addr), g) && Linked(n.nodes, slot, g)
  {
    DisplacedInMemory(s, n, f, d, slot, s.next + 1, Link(s.next + 1, d.bits[common]));
    LeafInMemory(n.nodes, key, cidr, peer, s.next, Link(s.next + 1, key[common]));
    NodeInMemory(n.nodes, Graft(d, key, cidr, peer, s.next, s.next + 1), slot);
  }
}
