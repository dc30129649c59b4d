/** The hashtable from 32-bit session indices to handshakes and keypairs. Writers take a lock for
    each list operation; the search for an unused index runs without it. One step of the machine is
    one locked section, one unlocked draw, or one publishing store. */
module IndexTable {
  import opened Common

  type Handle = nat
  type Thread = nat
  datatype Kind = HandshakeKind | KeypairKind

  /** What a writer is in the middle of. */
  datatype Phase =
    | Drawing(entry: Handle)                    // taken off its list, about to draw an index
    | Candidate(entry: Handle)                  // index drawn, waiting for the lock
    | Swapping(outgoing: Handle, incoming: Handle)   // lock held, index copied, list not yet changed

  datatype State = State(
    buckets: seq<seq<Handle>>,
    index: map<Handle, nat>,
    busy: map<Thread, Phase>,
    lock: Option<Thread>)

  /** `hash` is the keyed hash of an index; the table has `|buckets|` lists. */
  type Hash = nat -> nat

  function IndexOf(s: State, e: Handle): (i: nat) {
    if e in s.index then s.index[e] else 0
  }

  function BucketOf(s: State, hash: Hash, i: nat): (b: nat)
    requires s.buckets != []
    ensures b < |s.buckets|
  {
    hash(i) % |s.buckets|
  }

  // ---------------------------------------------------------------- lists

  function Swap(l: seq<Handle>, o: Handle, n: Handle): (r: seq<Handle>)
    ensures |r| == |l|
    ensures forall k :: 0 <= k < |l| ==> r[k] == if l[k] == o then n else l[k]
  {
    seq(|l|, k requires 0 <= k < |l| => if l[k] == o then n else l[k])
  }

  function Unlinked(bs: seq<seq<Handle>>, e: Handle): (r: seq<seq<Handle>>)
    ensures |r| == |bs| && forall k :: 0 <= k < |bs| ==> r[k] == Without(bs[k], e)
  {
    seq(|bs|, k requires 0 <= k < |bs| => Without(bs[k], e))
  }

  function Replaced(bs: seq<seq<Handle>>, o: Handle, n: Handle): (r: seq<seq<Handle>>)
    ensures |r| == |bs| && forall k :: 0 <= k < |bs| ==> r[k] == Swap(bs[k], o, n)
  {
    seq(|bs|, k requires 0 <= k < |bs| => Swap(bs[k], o, n))
  }

  predicate Hashed(s: State, e: Handle) {
    exists k :: 0 <= k < |s.buckets| && e in s.buckets[k]
  }

  // ---------------------------------------------------------------- lookup

  /** The first entry of a list that carries the index. */
  function Walk(s: State, l: seq<Handle>, i: nat): (r: Option<Handle>) {
    if l == [] then None else if IndexOf(s, l[0]) == i then Some(l[0]) else Walk(s, l[1..], i)
  }

  function Find(s: State, hash: Hash, i: nat): (r: Option<Handle>)
    requires s.buckets != []
  {
    Walk(s, s.buckets[BucketOf(s, hash, i)], i)
  }

  lemma {:induction false} WalkSpec(s: State, l: seq<Handle>, i: nat)
    ensures var r := Walk(s, l, i);
            match r
            case Some(e) => e in l && IndexOf(s, e) == i
            case None => forall e :: e in l ==> IndexOf(s, e) != i
  {
    if l != [] && IndexOf(s, l[0]) != i { WalkSpec(s, l[1..], i); }
  }

  // ---------------------------------------------------------------- steps

  datatype Event =
    | BeginInsert(t: Thread, e: Handle)
    | Draw(t: Thread, i: nat)
    | Collide(t: Thread)
    | Commit(t: Thread)
    | BeginReplace(t: Thread, outgoing: Handle, incoming: Handle)
    | FinishReplace(t: Thread)
    | Remove(t: Thread, e: Handle)

  predicate Involves(p: Phase, e: Handle) {
    match p
    case Drawing(x) => x == e
    case Candidate(x) => x == e
    case Swapping(o, n) => o == e || n == e
  }

  /** No writer is working on the entry: each entry is changed under its owner's lock. */
  ghost predicate Untouched(s: State, e: Handle) {
    forall t :: t in s.busy ==> !Involves(s.busy[t], e)
  }

  /** The outcome of the unlocked search is left open: a `Collide` may come with or without a
      real collision, and a `Draw` may be followed by either. */
  ghost predicate Enabled(s: State, ev: Event) {
    match ev
    case BeginInsert(t, e) => t !in s.busy && s.lock.None? && Untouched(s, e)
    case Draw(t, i) => t in s.busy && s.busy[t].Drawing? && i < TWO32
    case Collide(t) => t in s.busy && s.busy[t].Candidate?
    case Commit(t) => t in s.busy && s.busy[t].Candidate? && s.lock.None?
    case BeginReplace(t, o, n) =>
      t !in s.busy && s.lock.None? && Untouched(s, o) && Untouched(s, n) && o != n && !Hashed(s, n)
    case FinishReplace(t) => t in s.busy && s.busy[t].Swapping?
    case Remove(t, e) => t !in s.busy && s.lock.None?
  }

  function Idle(s: State, t: Thread): (r: map<Thread, Phase>) {
    map u | u in s.busy && u != t :: s.busy[u]
  }

  function Next(s: State, hash: Hash, ev: Event): (r: State)
    requires s.buckets != []
  {
    match ev
    case BeginInsert(t, e) => s.(buckets := Unlinked(s.buckets, e), busy := s.busy[t := Drawing(e)])
    case Draw(t, i) =>
      if t in s.busy && s.busy[t].Drawing? then
        var e := s.busy[t].entry; s.(index := s.index[e := i], busy := s.busy[t := Candidate(e)])
      else s
    case Collide(t) =>
      if t in s.busy && s.busy[t].Candidate? then s.(busy := s.busy[t := Drawing(s.busy[t].entry)]) else s
    case Commit(t) =>
      if t in s.busy && s.busy[t].Candidate? then
        var e := s.busy[t].entry;
        if Find(s, hash, IndexOf(s, e)).Some? then s.(busy := s.busy[t := Drawing(e)])
        else
          var b := BucketOf(s, hash, IndexOf(s, e));
          s.(buckets := s.buckets[b := [e] + s.buckets[b]], busy := Idle(s, t))
      else s
    case BeginReplace(t, o, n) =>
      if Hashed(s, o) then
        s.(index := s.index[n := IndexOf(s, o)], busy := s.busy[t := Swapping(o, n)], lock := Some(t))
      else s
    case FinishReplace(t) =>
      if t in s.busy && s.busy[t].Swapping? then
        s.(buckets := Replaced(s.buckets, s.busy[t].outgoing, s.busy[t].incoming), busy := Idle(s, t), lock := None)
      else s
    case Remove(t, e) => s.(buckets := Unlinked(s.buckets, e))
  }

  // ---------------------------------------------------------------- invariant

  /** Every listed entry is in the list its index hashes to, once. */
  ghost predicate Placed(s: State, hash: Hash) {
    && s.buckets != []
    && (forall k :: 0 <= k < |s.buckets| ==> NoDup(s.buckets[k]))
    && (forall k, e :: Listed(s, k, e) ==> BucketOf(s, hash, IndexOf(s, e)) == k)
  }

  predicate Listed(s: State, k: int, e: Handle) {
    0 <= k < |s.buckets| && e in s.buckets[k]
  }

  ghost predicate Unique(s: State) {
    forall k, d, e :: Listed(s, k, d) && Listed(s, k, e) && IndexOf(s, d) == IndexOf(s, e) ==> d == e
  }

  ghost predicate PhaseOk(s: State, t: Thread, p: Phase) {
    match p
    case Drawing(e) => !Hashed(s, e)
    case Candidate(e) => !Hashed(s, e)
    case Swapping(o, n) => s.lock == Some(t) && Hashed(s, o) && !Hashed(s, n) && o != n && IndexOf(s, n) == IndexOf(s, o)
  }

  ghost predicate Writers(s: State) {
    && (forall t :: t in s.busy ==> PhaseOk(s, t, s.busy[t]))
    && (forall t, u, e :: t in s.busy && u in s.busy && Involves(s.busy[t], e) && Involves(s.busy[u], e) ==> t == u)
    && (s.lock.Some? ==> s.lock.value in s.busy && s.busy[s.lock.value].Swapping?)
  }

  ghost predicate Inv(s: State, hash: Hash) {
    Placed(s, hash) && Unique(s) && Writers(s)
  }

  lemma HashedListed(s: State, e: Handle)
    ensures Hashed(s, e) <==> exists k :: Listed(s, k, e)
  {
    if Hashed(s, e) {
      var k :| 0 <= k < |s.buckets| && e in s.buckets[k];
      assert Listed(s, k, e);
    }
  }

  /** What a lookup finds is the one listed entry with that index. */
  lemma FindIff(s: State, hash: Hash, i: nat, e: Handle)
    requires Placed(s, hash) && Unique(s)
    ensures Find(s, hash, i) == Some(e) <==> Hashed(s, e) && IndexOf(s, e) == i
  {
    var b := BucketOf(s, hash, i);
    WalkSpec(s, s.buckets[b], i);
    HashedListed(s, e);
    if Hashed(s, e) && IndexOf(s, e) == i {
      assert Listed(s, b, e);
      var d := Find(s, hash, i).value;
      assert Listed(s, b, d);
    }
  }

  /** No two listed entries share an index, wherever they are listed. */
  lemma NoSharedIndex(s: State, hash: Hash, d: Handle, e: Handle)
    requires Inv(s, hash) && Hashed(s, d) && Hashed(s, e) && IndexOf(s, d) == IndexOf(s, e)
    ensures d == e
  {
    FindIff(s, hash, IndexOf(s, d), d);
    FindIff(s, hash, IndexOf(s, e), e);
  }

  // ---------------------------------------------------------------- each step keeps the invariant

  lemma UnlinkedSpec(s: State, e: Handle)
    ensures var r := s.(buckets := Unlinked(s.buckets, e));
            && (forall k, x :: Listed(r, k, x) <==> Listed(s, k, x) && x != e)
            && (forall x :: Hashed(r, x) <==> Hashed(s, x) && x != e)
  {
    var r := s.(buckets := Unlinked(s.buckets, e));
    forall k, x ensures Listed(r, k, x) <==> Listed(s, k, x) && x != e {
      if 0 <= k < |s.buckets| { assert r.buckets[k] == Without(s.buckets[k], e); }
    }
    forall x ensures Hashed(r, x) <==> Hashed(s, x) && x != e {
      HashedListed(r, x);
      HashedListed(s, x);
    }
  }

  lemma UnlinkKeeps(s: State, hash: Hash, e: Handle)
    requires Placed(s, hash) && Unique(s)
    ensures var r := s.(buckets := Unlinked(s.buckets, e)); Placed(r, hash) && Unique(r)
  {
    var r := s.(buckets := Unlinked(s.buckets, e));
    UnlinkedSpec(s, e);
    forall k | 0 <= k < |r.buckets| ensures NoDup(r.buckets[k]) { WithoutNoDup(s.buckets[k], e); }
    forall k, x | Listed(r, k, x) ensures BucketOf(r, hash, IndexOf(r, x)) == k {
    }
  }

  lemma BeginInsertKeeps(s: State, hash: Hash, ev: Event)
    requires Inv(s, hash) && Enabled(s, ev) && ev.BeginInsert?
    ensures Inv(Next(s, hash, ev), hash)
  {
    var u := s.(buckets := Unlinked(s.buckets, ev.e));
    UnlinkKeeps(s, hash, ev.e);
    UnlinkedSpec(s, ev.e);
    var r := Next(s, hash, ev);
    assert r == u.(busy := s.busy[ev.t := Drawing(ev.e)]);
    SameLists(u, r, hash);
    forall t | t in r.busy ensures PhaseOk(r, t, r.busy[t]) {
      if t != ev.t { assert PhaseOk(s, t, s.busy[t]) && !Involves(s.busy[t], ev.e); }
    }
  }

  lemma SameLists(u: State, r: State, hash: Hash)
    requires Placed(u, hash) && Unique(u) && u.buckets == r.buckets
    requires forall e :: Hashed(u, e) ==> IndexOf(u, e) == IndexOf(r, e)
    ensures Placed(r, hash) && Unique(r)
    ensures forall e :: Hashed(u, e) <==> Hashed(r, e)
  {
    forall k, e | Listed(r, k, e) ensures BucketOf(r, hash, IndexOf(r, e)) == k {
      assert Listed(u, k, e) && Hashed(u, e);
    }
    forall k, d, e | Listed(r, k, d) && Listed(r, k, e) && IndexOf(r, d) == IndexOf(r, e) ensures d == e {
      assert Hashed(u, d) && Hashed(u, e) && Listed(u, k, d) && Listed(u, k, e);
    }
  }

  lemma DrawKeeps(s: State, hash: Hash, ev: Event)
    requires Inv(s, hash) && Enabled(s, ev) && (ev.Draw? || ev.Collide?)
    ensures Inv(Next(s, hash, ev), hash)
  {
    var r := Next(s, hash, ev);
    var e := s.busy[ev.t].entry;
    assert PhaseOk(s, ev.t, s.busy[ev.t]) && Involves(s.busy[ev.t], e);
    SameLists(s, r, hash);
    forall t | t in r.busy ensures PhaseOk(r, t, r.busy[t]) {
      if t != ev.t {
        assert PhaseOk(s, t, s.busy[t]);
        assert !Involves(s.busy[t], e);
      }
    }
    forall t, u, x | t in r.busy && u in r.busy && Involves(r.busy[t], x) && Involves(r.busy[u], x) ensures t == u {
      assert Involves(s.busy[t], x) && Involves(s.busy[u], x);
    }
  }

  lemma CommitKeeps(s: State, hash: Hash, ev: Event)
    requires Inv(s, hash) && Enabled(s, ev) && ev.Commit?
    ensures Inv(Next(s, hash, ev), hash)
  {
    var r := Next(s, hash, ev);
    var e := s.busy[ev.t].entry;
    var i := IndexOf(s, e);
    assert PhaseOk(s, ev.t, s.busy[ev.t]) && Involves(s.busy[ev.t], e);
    if Find(s, hash, i).Some? {
      SameLists(s, r, hash);
      CommitWriters(s, r, ev.t, e);
    } else {
      AddedPlaced(s, r, hash, e);
      CommitWriters(s, r, ev.t, e);
    }
  }

  /** The other writers are not disturbed when one entry's writer moves on. */
  lemma CommitWriters(s: State, r: State, t: Thread, e: Handle)
    requires Writers(s) && t in s.busy && s.busy[t] == Candidate(e) && r.index == s.index && r.lock == s.lock
    requires r.busy == Idle(s, t) || (r.busy == s.busy[t := Drawing(e)] && !Hashed(r, e))
    requires forall x :: x != e ==> (Hashed(r, x) <==> Hashed(s, x))
    ensures Writers(r)
  {
    forall u | u in r.busy ensures PhaseOk(r, u, r.busy[u]) {
      if u != t { assert PhaseOk(s, u, s.busy[u]) && Involves(s.busy[t], e) && !Involves(s.busy[u], e); }
    }
    forall a, b, x | a in r.busy && b in r.busy && Involves(r.busy[a], x) && Involves(r.busy[b], x) ensures a == b {
      assert Involves(s.busy[a], x) && Involves(s.busy[b], x);
    }
  }

  lemma AddedPlaced(s: State, r: State, hash: Hash, e: Handle)
    requires Placed(s, hash) && Unique(s) && !Hashed(s, e) && r.index == s.index
    requires Find(s, hash, IndexOf(s, e)).None?
    requires var b := BucketOf(s, hash, IndexOf(s, e)); r.buckets == s.buckets[b := [e] + s.buckets[b]]
    ensures Placed(r, hash) && Unique(r)
    ensures forall x :: Hashed(r, x) <==> Hashed(s, x) || x == e
  {
    var b := BucketOf(s, hash, IndexOf(s, e));
    WalkSpec(s, s.buckets[b], IndexOf(s, e));
    forall k, x ensures Listed(r, k, x) <==> Listed(s, k, x) || (k == b && x == e) {}
    assert e !in s.buckets[b];
    forall x ensures Hashed(r, x) <==> Hashed(s, x) || x == e {
      HashedListed(r, x);
      HashedListed(s, x);
      assert Listed(r, b, e);
    }
    forall k, x | Listed(r, k, x) ensures BucketOf(r, hash, IndexOf(r, x)) == k {
    }
    forall k, d, x | Listed(r, k, d) && Listed(r, k, x) && IndexOf(r, d) == IndexOf(r, x) ensures d == x {
      assert Listed(s, k, d) || (k == b && d == e);
      assert Listed(s, k, x) || (k == b && x == e);
    }
  }

  lemma BeginReplaceKeeps(s: State, hash: Hash, ev: Event)
    requires Inv(s, hash) && Enabled(s, ev) && ev.BeginReplace?
    ensures Inv(Next(s, hash, ev), hash)
  {
    if Hashed(s, ev.outgoing) {
      var r := Next(s, hash, ev);
      SameLists(s, r, hash);
      forall t | t in r.busy ensures PhaseOk(r, t, r.busy[t]) {
        if t != ev.t {
          assert PhaseOk(s, t, s.busy[t]) && !Involves(s.busy[t], ev.incoming);
        }
      }
      forall a, b, x | a in r.busy && b in r.busy && Involves(r.busy[a], x) && Involves(r.busy[b], x) ensures a == b {
      }
    }
  }

  lemma ReplacedSpec(s: State, o: Handle, n: Handle)
    requires o != n && !Hashed(s, n)
    ensures var r := s.(buckets := Replaced(s.buckets, o, n));
            && (forall k, x :: Listed(r, k, x) <==> (Listed(s, k, x) && x != o) || (Listed(s, k, o) && x == n))
            && (forall x :: Hashed(r, x) <==> (Hashed(s, x) && x != o) || (Hashed(s, o) && x == n))
  {
    var r := s.(buckets := Replaced(s.buckets, o, n));
    forall k, x ensures Listed(r, k, x) <==> (Listed(s, k, x) && x != o) || (Listed(s, k, o) && x == n) {
      if 0 <= k < |s.buckets| { SwapMembers(s.buckets[k], o, n, x); assert n !in s.buckets[k]; }
    }
    forall x ensures Hashed(r, x) <==> (Hashed(s, x) && x != o) || (Hashed(s, o) && x == n) {
      HashedListed(r, x);
      HashedListed(s, x);
      HashedListed(s, o);
    }
  }

  lemma SwapMembers(l: seq<Handle>, o: Handle, n: Handle, x: Handle)
    requires o != n
    ensures x in Swap(l, o, n) <==> (x in l && x != o) || (o in l && x == n)
  {
    var r := Swap(l, o, n);
    if x in l && x != o {
      var k :| 0 <= k < |l| && l[k] == x;
      assert r[k] == x;
    }
    if o in l {
      var k :| 0 <= k < |l| && l[k] == o;
      assert r[k] == n;
    }
  }

  lemma ReplacedPlaced(s: State, r: State, hash: Hash, o: Handle, n: Handle)
    requires Placed(s, hash) && Unique(s) && o != n && !Hashed(s, n) && IndexOf(s, n) == IndexOf(s, o)
    requires r.buckets == Replaced(s.buckets, o, n) && r.index == s.index
    ensures Placed(r, hash) && Unique(r)
  {
    var u := s.(buckets := r.buckets);
    ReplacedSpec(s, o, n);
    forall k, x ensures Listed(r, k, x) <==> (Listed(s, k, x) && x != o) || (Listed(s, k, o) && x == n) {
      assert Listed(r, k, x) <==> Listed(u, k, x);
    }
    forall k | 0 <= k < |r.buckets| ensures NoDup(r.buckets[k]) {
      assert n !in s.buckets[k];
    }
    forall k, x | Listed(r, k, x) ensures BucketOf(r, hash, IndexOf(r, x)) == k {
    }
    forall k, d, x | Listed(r, k, d) && Listed(r, k, x) && IndexOf(r, d) == IndexOf(r, x) ensures d == x {
      var d' := if d == n then o else d;
      var x' := if x == n then o else x;
      assert Listed(s, k, d') && Listed(s, k, x');
    }
  }

  lemma FinishReplaceKeeps(s: State, hash: Hash, ev: Event)
    requires Inv(s, hash) && Enabled(s, ev) && ev.FinishReplace?
    ensures Inv(Next(s, hash, ev), hash)
  {
    var r := Next(s, hash, ev);
    var o, n := s.busy[ev.t].outgoing, s.busy[ev.t].incoming;
    assert PhaseOk(s, ev.t, s.busy[ev.t]);
    ReplacedPlaced(s, r, hash, o, n);
    ReplacedSpec(s, o, n);
    var u := s.(buckets := r.buckets);
    SameLists(s.(buckets := r.buckets), r, hash) by { ReplacedPlaced(s, u, hash, o, n); }
    forall t | t in r.busy ensures PhaseOk(r, t, r.busy[t]) {
      assert PhaseOk(s, t, s.busy[t]);
      assert Involves(s.busy[ev.t], o) && Involves(s.busy[ev.t], n);
      assert !Involves(s.busy[t], o) && !Involves(s.busy[t], n);
    }
  }

  lemma RemoveKeeps(s: State, hash: Hash, ev: Event)
    requires Inv(s, hash) && Enabled(s, ev) && ev.Remove?
    ensures Inv(Next(s, hash, ev), hash)
  {
    var r := Next(s, hash, ev);
    UnlinkKeeps(s, hash, ev.e);
    UnlinkedSpec(s, ev.e);
    forall t | t in r.busy ensures PhaseOk(r, t, r.busy[t]) { assert PhaseOk(s, t, s.busy[t]); }
  }

  lemma StepKeeps(s: State, hash: Hash, ev: Event)
    requires Inv(s, hash) && Enabled(s, ev)
    ensures Inv(Next(s, hash, ev), hash)
  {
    match ev
    case BeginInsert(_, _) => BeginInsertKeeps(s, hash, ev);
    case Draw(_, _) => DrawKeeps(s, hash, ev);
    case Collide(_) => DrawKeeps(s, hash, ev);
    case Commit(_) => CommitKeeps(s, hash, ev);
    case BeginReplace(_, _, _) => BeginReplaceKeeps(s, hash, ev);
    case FinishReplace(_) => FinishReplaceKeeps(s, hash, ev);
    case Remove(_, _) => RemoveKeeps(s, hash, ev);
  }

  // ---------------------------------------------------------------- what lookups see

  /** The partial map from indices to entries that a step must leave behind. */
  function Resolve(s: State, hash: Hash, ev: Event, i: nat): (r: Option<Handle>)
    requires s.buckets != []
  {
    var was := Find(s, hash, i);
    match ev
    case BeginInsert(_, e) => if was == Some(e) then None else was
    case Remove(_, e) => if was == Some(e) then None else was
    case Commit(t) =>
      if was.None? && t in s.busy && s.busy[t].Candidate? && IndexOf(s, s.busy[t].entry) == i
      then Some(s.busy[t].entry) else was
    case FinishReplace(t) =>
      if t in s.busy && s.busy[t].Swapping? && was == Some(s.busy[t].outgoing) then Some(s.busy[t].incoming) else was
    case Draw(_, _) => was
    case Collide(_) => was
    case BeginReplace(_, _, _) => was
  }

  lemma HashedAfter(s: State, hash: Hash, ev: Event, i: nat, x: Handle)
    requires Inv(s, hash) && Enabled(s, ev)
    ensures var r := Next(s, hash, ev);
            Resolve(s, hash, ev, i) == Some(x) <==> Hashed(r, x) && IndexOf(r, x) == i
  {
    var r := Next(s, hash, ev);
    FindIff(s, hash, i, x);
    match ev
    case BeginInsert(t, e) =>
      UnlinkedSpec(s, e);
      assert Hashed(r, x) <==> Hashed(s.(buckets := Unlinked(s.buckets, e)), x);
    case Remove(t, e) => UnlinkedSpec(s, e);
    case Commit(t) =>
      var e := s.busy[t].entry;
      assert PhaseOk(s, t, s.busy[t]);
      if Find(s, hash, IndexOf(s, e)).None? { AddedPlaced(s, r, hash, e); }
      assert Find(s, hash, i).Some? ==> Find(s, hash, i).value == x || Find(s, hash, i) != Some(x);
    case FinishReplace(t) =>
      var o, n := s.busy[t].outgoing, s.busy[t].incoming;
      assert PhaseOk(s, t, s.busy[t]);
      ReplacedSpec(s, o, n);
      assert Hashed(r, x) <==> Hashed(s.(buckets := Replaced(s.buckets, o, n)), x);
      FindIff(s, hash, i, o);
    case Draw(t, j) =>
      assert PhaseOk(s, t, s.busy[t]);
      assert Hashed(r, x) <==> Hashed(s, x);
    case Collide(t) => assert Hashed(r, x) <==> Hashed(s, x);
    case BeginReplace(t, o, n) => assert Hashed(r, x) <==> Hashed(s, x);
  }

  /** Every step changes what lookups see exactly as stated: taking an entry off frees its index
      alone, a commit binds an index nobody had, a replacement passes the index from the old entry
      to the new one in a single store, and drawing or copying an index is invisible. */
  lemma StepResolves(s: State, hash: Hash, ev: Event, i: nat)
    requires Inv(s, hash) && Enabled(s, ev)
    ensures Next(s, hash, ev).buckets != []
    ensures Find(Next(s, hash, ev), hash, i) == Resolve(s, hash, ev, i)
  {
    var r := Next(s, hash, ev);
    StepKeeps(s, hash, ev);
    forall x: Handle ensures Find(r, hash, i) == Some(x) <==> Resolve(s, hash, ev, i) == Some(x) {
      HashedAfter(s, hash, ev, i, x);
      FindIff(r, hash, i, x);
    }
    var f, g := Find(r, hash, i), Resolve(s, hash, ev, i);
    if f.Some? { assert f == Some(f.value); }
    if g.Some? { assert g == Some(g.value); }
  }

  /** A whole insertion with the draw `i`: the entry gets exactly that index if no other entry has it,
      and otherwise nothing changes and it draws again. */
  lemma InsertOutcome(s: State, hash: Hash, t: Thread, e: Handle, i: nat)
    requires Inv(s, hash) && Enabled(s, BeginInsert(t, e)) && i < TWO32
    ensures var es := [BeginInsert(t, e), Draw(t, i), Commit(t)];
            Lawful(s, hash, es) &&
            var r := Run(s, hash, es);
            if Find(s, hash, i).Some? && Find(s, hash, i) != Some(e)
            then Find(r, hash, i) == Find(s, hash, i) && t in r.busy && r.busy[t] == Drawing(e) && !Hashed(r, e)
            else Find(r, hash, i) == Some(e) && t !in r.busy
  {
    var s1 := Next(s, hash, BeginInsert(t, e));
    StepKeeps(s, hash, BeginInsert(t, e));
    StepResolves(s, hash, BeginInsert(t, e), i);
    var s2 := Next(s1, hash, Draw(t, i));
    StepKeeps(s1, hash, Draw(t, i));
    StepResolves(s1, hash, Draw(t, i), i);
    DrawnCommits(s2, hash, t, e, i);
    Three(s, hash, BeginInsert(t, e), Draw(t, i), Commit(t));
  }

  lemma DrawnCommits(s: State, hash: Hash, t: Thread, e: Handle, i: nat)
    requires Inv(s, hash) && t in s.busy && s.busy[t] == Candidate(e) && IndexOf(s, e) == i && s.lock.None?
    ensures var r := Next(s, hash, Commit(t));
            if Find(s, hash, i).Some? then Find(r, hash, i) == Find(s, hash, i) && t in r.busy && r.busy[t] == Drawing(e) && !Hashed(r, e)
            else Find(r, hash, i) == Some(e) && t !in r.busy
  {
    StepKeeps(s, hash, Commit(t));
    StepResolves(s, hash, Commit(t), i);
    assert PhaseOk(s, t, s.busy[t]);
  }

  lemma Three(s: State, hash: Hash, a: Event, b: Event, c: Event)
    requires s.buckets != [] && Enabled(s, a) && Enabled(Next(s, hash, a), b) && Next(s, hash, a).buckets != []
    requires Next(Next(s, hash, a), hash, b).buckets != [] && Enabled(Next(Next(s, hash, a), hash, b), c)
    ensures Lawful(s, hash, [a, b, c]) && Run(s, hash, [a, b, c]) == Next(Next(Next(s, hash, a), hash, b), hash, c)
  {
    assert [a, b, c][1..] == [b, c] && [b, c][1..] == [c] && [c][1..] == [];
    var s1, s2 := Next(s, hash, a), Next(Next(s, hash, a), hash, b);
    var s3 := Next(s2, hash, c);
    var none: seq<Event> := [c][1..];
    assert none == [] && Run(s3, hash, none) == s3;
    assert [c][0] == c && Lawful(s2, hash, [c]);
    assert Run(s2, hash, [c]) == Run(s3, hash, none);
    assert [b, c][0] == b && Lawful(s1, hash, [b, c]);
    assert Run(s1, hash, [b, c]) == Run(s2, hash, [b, c][1..]);
  }

  /** The replacement stands where the replaced entry stood, and nothing else moved. */
  lemma ReplaceInPlace(s: State, hash: Hash, t: Thread, k: int, p: int)
    requires Inv(s, hash) && Enabled(s, FinishReplace(t)) && 0 <= k < |s.buckets| && 0 <= p < |s.buckets[k]|
    ensures var r := Next(s, hash, FinishReplace(t));
            var o, n := s.busy[t].outgoing, s.busy[t].incoming;
            && |r.buckets| == |s.buckets| && |r.buckets[k]| == |s.buckets[k]|
            && r.buckets[k][p] == (if s.buckets[k][p] == o then n else s.buckets[k][p])
            && IndexOf(r, n) == IndexOf(s, o)
            && Find(s, hash, IndexOf(s, o)) == Some(o) && Find(r, hash, IndexOf(s, o)) == Some(n)
            && !Hashed(r, o)
  {
    var r := Next(s, hash, FinishReplace(t));
    var o, n := s.busy[t].outgoing, s.busy[t].incoming;
    assert PhaseOk(s, t, s.busy[t]);
    FindIff(s, hash, IndexOf(s, o), o);
    StepResolves(s, hash, FinishReplace(t), IndexOf(s, o));
    ReplacedSpec(s, o, n);
    assert Hashed(r, o) <==> Hashed(s.(buckets := Replaced(s.buckets, o, n)), o);
  }

  // ---------------------------------------------------------------- whole runs

  function Run(s: State, hash: Hash, es: seq<Event>): (r: State)
    requires s.buckets != []
    ensures r.buckets != []
    decreases |es|
  {
    if es == [] then s else Run(Next(s, hash, es[0]), hash, es[1..])
  }

  ghost predicate Lawful(s: State, hash: Hash, es: seq<Event>)
    requires s.buckets != []
    decreases |es|
  {
    es == [] || (Enabled(s, es[0]) && Lawful(Next(s, hash, es[0]), hash, es[1..]))
  }

  function Empty(size: nat): (s: State)
    requires size > 0
  {
    State(seq(size, _ => []), map[], map[], None)
  }

  /** In every interleaving the table keeps its invariant. */
  lemma {:induction false} RunKeeps(s: State, hash: Hash, es: seq<Event>)
    requires s.buckets != [] && Inv(s, hash) && Lawful(s, hash, es)
    ensures Inv(Run(s, hash, es), hash)
    decreases |es|
  {
    if es != [] {
      StepKeeps(s, hash, es[0]);
      RunKeeps(Next(s, hash, es[0]), hash, es[1..]);
    }
  }

  lemma EmptyInv(size: nat, hash: Hash)
    requires size > 0
    ensures Inv(Empty(size), hash)
  {
    var s := Empty(size);
    assert forall k :: 0 <= k < |s.buckets| ==> s.buckets[k] == [];
  }

  /** No run from the empty table lists two entries under one index, and a lookup by any
      index finds the listed entry that carries it, if there is one. */
  lemma IndexesUnique(size: nat, hash: Hash, es: seq<Event>, d: Handle, e: Handle)
    requires size > 0 && Lawful(Empty(size), hash, es)
    ensures var s := Run(Empty(size), hash, es);
            && (Hashed(s, d) && Hashed(s, e) && IndexOf(s, d) == IndexOf(s, e) ==> d == e)
            && (Hashed(s, e) <==> Find(s, hash, IndexOf(s, e)) == Some(e))
  {
    EmptyInv(size, hash);
    RunKeeps(Empty(size), hash, es);
    var s := Run(Empty(size), hash, es);
    FindIff(s, hash, IndexOf(s, e), e);
    if Hashed(s, d) && Hashed(s, e) && IndexOf(s, d) == IndexOf(s, e) { NoSharedIndex(s, hash, d, e); }
  }

  /** Events that take the entry off its list. */
  predicate Releases(s: State, ev: Event, e: Handle) {
    match ev
    case BeginInsert(_, x) => x == e
    case Remove(_, x) => x == e
    case FinishReplace(t) => t in s.busy && s.busy[t].Swapping? && s.busy[t].outgoing == e
    case _ => false
  }

  predicate NeverReleased(s: State, hash: Hash, es: seq<Event>, e: Handle)
    requires s.buckets != []
    decreases |es|
  {
    es == [] || (!Releases(s, es[0], e) && NeverReleased(Next(s, hash, es[0]), hash, es[1..], e))
  }

  /** An index stays with its entry, whatever others insert, replace or remove, until that entry
      itself is released. */
  lemma {:induction false} IndexHeld(s: State, hash: Hash, es: seq<Event>, e: Handle, i: nat)
    requires s.buckets != [] && Inv(s, hash) && Lawful(s, hash, es) && NeverReleased(s, hash, es, e)
    requires Find(s, hash, i) == Some(e)
    ensures Find(Run(s, hash, es), hash, i) == Some(e)
    decreases |es|
  {
    if es != [] {
      StepKeeps(s, hash, es[0]);
      StepResolves(s, hash, es[0], i);
      IndexHeld(Next(s, hash, es[0]), hash, es[1..], e, i);
    }
  }

  // ---------------------------------------------------------------- the code

  /** The table and the indices of the entries. Each method is one locked section (or, for
      `Lookup`, one walk) and takes the step the machine above describes. */
  class IndexHashtable {
    var buckets: seq<seq<Handle>>
    var index: map<Handle, nat>
    const hash: Hash

    ghost function View(busy: map<Thread, Phase>, lock: Option<Thread>): State reads this {
      State(buckets, index, busy, lock)
    }

    constructor (size: nat, hash: Hash)
      requires size > 0
      ensures View(map[], None) == Empty(size) && this.hash == hash
    {
      buckets := seq(size, _ => []);
      index := map[];
      this.hash := hash;
    }

    /** `wg_index_hashtable_lookup`; `live` says whether the entry's peer still has references. */
    method Lookup(i: nat, mask: set<Kind>, kind: Handle -> Kind, live: Handle -> bool) returns (r: Option<Handle>)
      requires buckets != []
      ensures var found := Find(View(map[], None), hash, i);
              r == if found.Some? && kind(found.value) in mask && live(found.value) then found else None
    {
      var l := buckets[hash(i) % |buckets|];
      var k := 0;
      r := None;
      ghost var s := View(map[], None);
      while k < |l|
        invariant 0 <= k <= |l| && r == None
        invariant Walk(s, l[k..], i) == Walk(s, l, i)
      {
        if (if l[k] in index then index[l[k]] else 0) == i {
          if kind(l[k]) in mask && live(l[k]) { r := Some(l[k]); }
          return;
        }
        k := k + 1;
        assert l[k - 1..][1..] == l[k..];
      }
    }

    /** The locked re-check of an insertion, and the insertion if the index is still free. */
    method TryCommit(e: Handle, i: nat, ghost t: Thread, ghost busy: map<Thread, Phase>) returns (ok: bool)
      requires buckets != [] && e in index && index[e] == i && t in busy && busy[t] == Candidate(e)
      modifies this`buckets
      ensures ok <==> Find(old(View(busy, None)), hash, i).None?
      ensures View(if ok then Idle(old(View(busy, None)), t) else busy[t := Drawing(e)], None) ==
              Next(old(View(busy, None)), hash, Commit(t))
    {
      var b := hash(i) % |buckets|;
      var l := buckets[b];
      var k := 0;
      ghost var s := View(busy, None);
      while k < |l|
        invariant 0 <= k <= |l|
        invariant Walk(s, l[k..], i) == Walk(s, l, i)
      {
        if (if l[k] in index then index[l[k]] else 0) == i { return false; }
        k := k + 1;
        assert l[k - 1..][1..] == l[k..];
      }
      buckets := buckets[b := [e] + buckets[b]];
      return true;
    }

    /** Both locked parts of a replacement in one call; false when the old entry is not listed. */
    method Replace(outgoing: Handle, incoming: Handle, ghost t: Thread) returns (ok: bool)
      requires buckets != [] && Inv(View(map[], None), hash) && outgoing != incoming && !Hashed(View(map[], None), incoming)
      modifies this
      ensures ok <==> Hashed(old(View(map[], None)), outgoing)
      ensures View(map[], None) == if ok then Run(old(View(map[], None)), hash, [BeginReplace(t, outgoing, incoming), FinishReplace(t)])
                                   else old(View(map[], None))
      ensures Inv(View(map[], None), hash)
    {
      ghost var s := View(map[], None);
      ok := exists k :: 0 <= k < |buckets| && outgoing in buckets[k];
      if !ok { return; }
      StepKeeps(s, hash, BeginReplace(t, outgoing, incoming));
      ghost var mid := Next(s, hash, BeginReplace(t, outgoing, incoming));
      StepKeeps(mid, hash, FinishReplace(t));
      ghost var es := [BeginReplace(t, outgoing, incoming), FinishReplace(t)];
      assert es[1..] == [FinishReplace(t)] && es[1..][1..] == [];
      index := index[incoming := if outgoing in index then index[outgoing] else 0];
      buckets := Replaced(buckets, outgoing, incoming);
      assert mid.busy[t] == Swapping(outgoing, incoming);
      assert Idle(mid, t) == map[];
      assert Next(mid, hash, FinishReplace(t)) == View(map[], None);
      assert Run(s, hash, es) == Run(mid, hash, es[1..]) == Run(Next(mid, hash, FinishReplace(t)), hash, es[1..][1..]);
    }

    /** `wg_index_hashtable_remove`, and the first locked section of an insertion. */
    method Delete(e: Handle, ghost t: Thread)
      requires buckets != [] && Inv(View(map[], None), hash)
      modifies this`buckets
      ensures View(map[], None) == Next(old(View(map[], None)), hash, Remove(t, e))
      ensures Inv(View(map[], None), hash) && !Hashed(View(map[], None), e)
    {
      StepKeeps(View(map[], None), hash, Remove(t, e));
      UnlinkedSpec(View(map[], None), e);
      buckets := Unlinked(buckets, e);
    }
  }
}
