/**
 The bounded queue of blocks whose parent has not arrived (p2p/gossip.go), and the resolver that
 releases them. A block's hash is its header, and its parent link is the key it is parked under.
 */
module Orphans {
  import opened Transition

  type Peer = nat

  datatype Entry = Entry(blk: Block, from: Peer, size: nat)

  type Parking = map<Link, seq<Entry>>

  // ----- what the counters count -----

  datatype Measure = Number | Bytes | Held(peer: Peer)

  function Weight(m: Measure, e: Entry): nat {
    match m
    case Number => 1
    case Bytes => e.size
    case Held(p) => if e.from == p then 1 else 0
  }

  function Load(es: seq<Entry>, m: Measure): nat {
    if es == [] then 0 else Load(es[..|es| - 1], m) + Weight(m, es[|es| - 1])
  }

  ghost function Parked(q: Parking, m: Measure): nat {
    if q == map[] then 0
    else
      var p :| p in q;
      Load(q[p], m) + Parked(q - {p}, m)
  }

  lemma {:induction false} ParkedRemove(q: Parking, p: Link, m: Measure)
    requires p in q
    ensures Parked(q, m) == Load(q[p], m) + Parked(q - {p}, m)
    decreases |q|
  {
    var r :| r in q && Parked(q, m) == Load(q[r], m) + Parked(q - {r}, m);
    if r != p {
      ParkedRemove(q - {r}, p, m);
      ParkedRemove(q - {p}, r, m);
      assert q - {r} - {p} == q - {p} - {r};
    }
  }

  /** Parking one more entry adds its weight. */
  lemma ParkedAppend(q: Parking, p: Link, e: Entry, m: Measure)
    ensures Parked(q[p := Bucket(q, p) + [e]], m) == Parked(q, m) + Weight(m, e)
  {
    var q' := q[p := Bucket(q, p) + [e]];
    ParkedRemove(q', p, m);
    assert q' - {p} == q - {p};
    assert q'[p][..|q'[p]| - 1] == Bucket(q, p);
    if p in q { ParkedRemove(q, p, m); } else { assert q - {p} == q; }
  }

  lemma {:induction false} LoadNumber(es: seq<Entry>)
    ensures Load(es, Number) == |es|
  {
    if es != [] { LoadNumber(es[..|es| - 1]); }
  }

  function Bucket(q: Parking, p: Link): seq<Entry> { if p in q then q[p] else [] }

  function Share(byPeer: map<Peer, int>, p: Peer): int { if p in byPeer then byPeer[p] else 0 }

  function Max(a: int, b: int): int { if a >= b then a else b }

  /** One entry less for a peer; a peer without entries is forgotten. */
  function Release(byPeer: map<Peer, int>, p: Peer): (r: map<Peer, int>)
    ensures forall f :: Share(r, f) == if f == p then Max(Share(byPeer, p) - 1, 0) else Share(byPeer, f)
    ensures forall f :: f in r ==> f in byPeer && (if f == p then r[f] > 0 else r[f] == byPeer[f]) && r[f] <= byPeer[f]
  {
    if Share(byPeer, p) - 1 <= 0 then byPeer - {p} else byPeer[p := byPeer[p] - 1]
  }

  lemma LoadNext(es: seq<Entry>, i: nat, m: Measure)
    requires i < |es|
    ensures Load(es[..i + 1], m) == Load(es[..i], m) + Weight(m, es[i])
  {
    assert es[..i + 1][..i] == es[..i];
  }

  lemma {:induction false} LoadPrefix(es: seq<Entry>, i: nat, m: Measure)
    requires i <= |es|
    ensures Load(es[..i], m) <= Load(es, m)
    decreases |es| - i
  {
    if i < |es| {
      LoadNext(es, i, m);
      LoadPrefix(es, i + 1, m);
    } else {
      assert es[..i] == es;
    }
  }

  /** The tallies still hold the entries of `es` from i on, besides what is parked. */
  ghost predicate Owed(byPeer: map<Peer, int>, q: Parking, es: seq<Entry>, i: nat)
    requires i <= |es|
  {
    forall f ::
      && Share(byPeer, f) == Parked(q, Held(f)) + Load(es, Held(f)) - Load(es[..i], Held(f))
      && (f in byPeer ==> byPeer[f] > 0)
  }

  lemma OweOne(byPeer: map<Peer, int>, q: Parking, es: seq<Entry>, i: nat)
    requires i < |es| && Owed(byPeer, q, es, i)
    ensures Owed(Release(byPeer, es[i].from), q, es, i + 1)
  {
    hide Load, Parked, Release;
    forall f
      ensures Load(es[..i + 1], Held(f)) == Load(es[..i], Held(f)) + Weight(Held(f), es[i]) <= Load(es, Held(f))
    {
      LoadNext(es, i, Held(f));
      LoadPrefix(es, i + 1, Held(f));
    }
  }

  lemma OweNothing(byPeer: map<Peer, int>, q: Parking, es: seq<Entry>)
    requires Owed(byPeer, q, es, |es|)
    ensures Tallied(q, byPeer)
  {
    assert es[..|es|] == es;
  }

  /** What a bucket is owed once it has been taken out. */
  lemma OweBucket(byPeer: map<Peer, int>, q: Parking, p: Link)
    requires p in q && Tallied(q, byPeer)
    ensures Owed(byPeer, q - {p}, q[p], 0)
  {
    hide Parked;
    forall f ensures Parked(q, Held(f)) == Load(q[p], Held(f)) + Parked(q - {p}, Held(f)) {
      ParkedRemove(q, p, Held(f));
    }
  }

  const DEFAULT_MAX_BYTES := 32 * 1024 * 1024

  /** A fourth, rounded towards zero. */
  function Quarter(n: int): int { if n >= 0 then n / 4 else -(-n / 4) }

  /** The limits in force, given those configured. */
  function Quota(maxOrphans: int, maxPerPeer: int): int {
    if maxPerPeer == 0 then Quarter(maxOrphans) + 1 else maxPerPeer
  }

  function Budget(maxBytes: int): int { if maxBytes == 0 then DEFAULT_MAX_BYTES else maxBytes }

  // ----- sizes -----

  /** A parked block's approximate footprint. */
  function Footprint(txs: seq<Tx>): (n: nat)
    ensures n >= 256
  {
    if txs == [] then 256 else Footprint(txs[..|txs| - 1]) + 160 + |txs[|txs| - 1].data|
  }

  /** 256 for the block, 160 for each transaction, and their data, in whatever order they come. */
  lemma {:induction false} FootprintAdds(a: seq<Tx>, b: seq<Tx>, tx: Tx)
    ensures Footprint([tx]) == 256 + 160 + |tx.data|
    ensures Footprint(a + b) == Footprint(a) + Footprint(b) - 256
  {
    assert [tx][..0] == [];
    if b == [] {
      assert a + b == a;
    } else {
      FootprintAdds(a, b[..|b| - 1], tx);
      assert (a + b)[..|a + b| - 1] == a + b[..|b| - 1];
    }
  }

  method OrphanBytesOf(blk: Block) returns (n: nat)
    ensures n == Footprint(blk.txs)
  {
    n := 256;
    for i := 0 to |blk.txs|
      invariant n == Footprint(blk.txs[..i])
    {
      n := n + 160 + |blk.txs[i].data|;
      assert blk.txs[..i + 1][..i] == blk.txs[..i];
    }
    assert blk.txs[..|blk.txs|] == blk.txs;
  }

  // ----- invariants -----

  /** Every bucket holds distinct blocks that wait for its key. */
  ghost predicate Filed(q: Parking) {
    forall p :: p in q ==>
      && q[p] != []
      && (forall i :: 0 <= i < |q[p]| ==>
                        q[p][i].blk.header.parentHash == p && q[p][i].size == Footprint(q[p][i].blk.txs))
      && (forall i, j :: 0 <= i < j < |q[p]| ==> q[p][i].blk.header != q[p][j].blk.header)
  }

  ghost predicate Tallied(q: Parking, byPeer: map<Peer, int>) {
    forall f :: Share(byPeer, f) == Parked(q, Held(f)) && (f in byPeer ==> byPeer[f] > 0)
  }

  ghost predicate Listed(q: Parking, order: seq<Link>) {
    && (forall i, j :: 0 <= i < j < |order| ==> order[i] != order[j])
    && (forall p :: p in order <==> p in q)
  }

  /** The order is that of arrival: `since` numbers the keys as they came, all before `clock`. */
  ghost predicate Aged(order: seq<Link>, since: map<Link, nat>, clock: nat) {
    && (forall i :: 0 <= i < |order| ==> order[i] in since && since[order[i]] < clock)
    && (forall i, j :: 0 <= i < j < |order| ==> since[order[i]] < since[order[j]])
  }

  /** The queue without its k oldest keys. */
  ghost function Kept(q: Parking, order: seq<Link>, k: nat): Parking
    requires k <= |order|
  {
    q - (set p | p in order[..k])
  }

  class Queue {
    const maxOrphans: int
    const maxPerPeer: int
    const maxBytes: int
    var orphans: Parking
    var byPeer: map<Peer, int>
    var order: seq<Link>
    var count: int
    var bytes: int
    /** When each waiting key arrived, and how many blocks were parked so far. */
    ghost var since: map<Link, nat>
    ghost var clock: nat

    ghost predicate Counted()
      reads this
    {
      && count == Parked(orphans, Number) && bytes == Parked(orphans, Bytes)
      && Filed(orphans) && Tallied(orphans, byPeer) && Listed(orphans, order)
      && since.Keys == orphans.Keys && Aged(order, since, clock)
    }

    /** The limits, with what they come to when they are configured as zero or below. */
    ghost predicate Valid()
      reads this
    {
      && Counted() && count <= Max(maxOrphans, 1) && bytes <= Max(maxBytes, 0)
      && forall f :: f in byPeer ==> byPeer[f] <= maxPerPeer
    }

    /** A per-peer limit of zero means a quarter of the queue, and one more. */
    constructor (maxOrphans: int, maxPerPeer: int, maxBytes: int)
      ensures Valid() && orphans == map[] && this.maxOrphans == maxOrphans
      ensures this.maxPerPeer == Quota(maxOrphans, maxPerPeer) && this.maxBytes == Budget(maxBytes)
    {
      this.maxOrphans := maxOrphans;
      this.maxPerPeer := if maxPerPeer == 0 then Quarter(maxOrphans) + 1 else maxPerPeer;
      this.maxBytes := if maxBytes == 0 then DEFAULT_MAX_BYTES else maxBytes;
      orphans, byPeer, order, count, bytes := map[], map[], [], 0, 0;
      since, clock := map[], 0;
    }

    /** Gives each entry back to its sender's quota and to the byte budget. */
    method Refund(es: seq<Entry>, ghost q: Parking)
      requires Owed(byPeer, q, es, 0)
      modifies this`byPeer, this`bytes
      ensures Tallied(q, byPeer) && bytes == old(bytes) - Load(es, Bytes)
      ensures forall f :: f in byPeer ==> f in old(byPeer) && byPeer[f] <= old(byPeer)[f]
    {
      hide Owed;
      for i := 0 to |es|
        invariant Owed(byPeer, q, es, i) && bytes == old(bytes) - Load(es[..i], Bytes)
        invariant forall f :: f in byPeer ==> f in old(byPeer) && byPeer[f] <= old(byPeer)[f]
      {
        OweOne(byPeer, q, es, i);
        LoadNext(es, i, Bytes);
        bytes := bytes - es[i].size;
        byPeer := Release(byPeer, es[i].from);
      }
      OweNothing(byPeer, q, es);
      assert es[..|es|] == es;
    }

    /** Takes a whole bucket out of the queue and settles every counter. */
    method TakeOut(p: Link) returns (es: seq<Entry>)
      requires p in orphans && Filed(orphans) && Tallied(orphans, byPeer)
      requires count == Parked(orphans, Number) && bytes == Parked(orphans, Bytes)
      modifies this`orphans, this`byPeer, this`count, this`bytes
      ensures orphans == old(orphans) - {p} && es == old(orphans)[p] && Filed(orphans) && Tallied(orphans, byPeer)
      ensures count == Parked(orphans, Number) && bytes == Parked(orphans, Bytes)
      ensures count == old(count) - |es| && bytes <= old(bytes)
      ensures forall f :: f in byPeer ==> f in old(byPeer) && byPeer[f] <= old(byPeer)[f]
    {
      hide Parked, Owed, Tallied;
      es := orphans[p];
      OweBucket(byPeer, orphans, p);
      ParkedRemove(orphans, p, Number);
      ParkedRemove(orphans, p, Bytes);
      LoadNumber(es);
      orphans := orphans - {p};
      count := count - |es|;
      Refund(es, orphans);
    }

    /** The k oldest keys gone, the queue still has no room for a block of this size. */
    ghost predicate Crowded(q: Parking, keys: seq<Link>, k: nat, size: nat)
      requires k <= |keys|
    {
      Parked(Kept(q, keys, k), Number) >= maxOrphans || Parked(Kept(q, keys, k), Bytes) + size > maxBytes
    }

    method EvictOldest()
      requires Valid() && order != []
      modifies this
      ensures Valid() && orphans == old(orphans) - {old(order)[0]} && order == old(order)[1..]
      ensures since == old(since) - {old(order)[0]} && clock == old(clock)
      ensures forall f :: f in byPeer ==> f in old(byPeer) && byPeer[f] <= old(byPeer)[f]
    {
      hide Parked, Tallied, Filed, Listed;
      var oldest := order[0];
      ListedTail(orphans, order);
      AgedTail(order, since, clock);
      order := order[1..];
      since := since - {oldest};
      var _ := TakeOut(oldest);
    }

    /** Evicts oldest first, and no more than it takes. */
    method MakeRoom(size: nat) returns (ghost k: nat)
      requires Valid()
      modifies this
      ensures Valid() && k <= |old(order)|
      ensures orphans == Kept(old(orphans), old(order), k) && order == old(order)[k..]
      ensures since == Left(old(since), old(order), k) && clock == old(clock)
      ensures forall j :: 0 <= j < k ==> Crowded(old(orphans), old(order), j, size)
      ensures k < |old(order)| ==> !Crowded(old(orphans), old(order), k, size)
      ensures forall f :: f in byPeer ==> f in old(byPeer) && byPeer[f] <= old(byPeer)[f]
    {
      hide Parked, Tallied, Filed, Listed, Kept, Aged, Left;
      k := 0;
      KeptAll(orphans, order);
      LeftAll(since, order);
      while (count >= maxOrphans || bytes + size > maxBytes) && |order| > 0
        invariant Valid() && k <= |old(order)|
        invariant orphans == Kept(old(orphans), old(order), k) && order == old(order)[k..]
        invariant since == Left(old(since), old(order), k) && clock == old(clock)
        invariant forall j :: 0 <= j < k ==> Crowded(old(orphans), old(order), j, size)
        invariant forall f :: f in byPeer ==> f in old(byPeer) && byPeer[f] <= old(byPeer)[f]
        decreases |order|
      {
        KeptNext(old(orphans), old(order), k);
        LeftNext(old(since), old(order), k);
        EvictOldest();
        k := k + 1;
      }
    }

    /** A block with this header already waits. */
    predicate Waiting(h: Header)
      reads this
    {
      exists i :: 0 <= i < |Bucket(orphans, h.parentHash)| && Bucket(orphans, h.parentHash)[i].blk.header == h
    }

    /**
     Parks a block, charged to its sender. A block already parked is ignored and a sender at its
     quota is refused, without a change. Otherwise the oldest keys go, exactly as many as it takes.
     A block larger than the whole budget is refused too, but only after everything was evicted.
     */
    method QueueOrphan(blk: Block, from: Peer) returns (parked: bool, penalised: bool, ghost k: nat)
      requires Valid()
      modifies this
      ensures Valid() && k <= |old(order)|
      ensures old(Waiting(blk.header)) ==> unchanged(this) && !parked && !penalised
      ensures !old(Waiting(blk.header)) && old(Share(byPeer, from)) >= maxPerPeer ==>
                unchanged(this) && !parked && penalised
      ensures !old(Waiting(blk.header)) && old(Share(byPeer, from)) < maxPerPeer ==>
                var size, kept := Footprint(blk.txs), Kept(old(orphans), old(order), k);
                && parked != penalised && (parked <==> size <= maxBytes)
                && (parked ==> orphans == Added(kept, Entry(blk, from, size)))
                && (parked ==>
                      forall p ::
                        Bucket(orphans, p) ==
                        Bucket(kept, p) + (if p == blk.header.parentHash then [Entry(blk, from, size)] else []))
                && (parked ==>
                      var p, left := blk.header.parentHash, Left(old(since), old(order), k);
                      && order == old(order)[k..] + (if p in kept then [] else [p]) && clock == old(clock) + 1
                      && since == if p in kept then left else left[p := old(clock)])
                && (penalised ==> orphans == map[])
                && (forall j :: 0 <= j < k ==> Crowded(old(orphans), old(order), j, size))
                && (k < |old(order)| ==> !Crowded(old(orphans), old(order), k, size))
    {
      hide Parked, Tallied, Filed, Listed, Kept, Crowded, Aged, Left;
      var bucket := Bucket(orphans, blk.header.parentHash);
      parked, penalised, k := false, false, 0;
      for i := 0 to |bucket|
        invariant forall j :: 0 <= j < i ==> bucket[j].blk.header != blk.header
      {
        if bucket[i].blk.header == blk.header { return; }
      }
      if Share(byPeer, from) >= maxPerPeer {
        penalised := true;
        return;
      }
      var size := OrphanBytesOf(blk);
      ShareCounts(orphans, byPeer, from);
      k := MakeRoom(size);
      RoomLeft(old(orphans), old(order), k, size);
      if bytes + size > maxBytes {
        penalised := true;
        return;
      }
      NotWaiting(old(orphans), old(order), k, blk.header);
      Park(Entry(blk, from, size));
      parked := true;
    }

    method Park(e: Entry)
      requires Valid() && e.size == Footprint(e.blk.txs)
      requires var b := Bucket(orphans, e.blk.header.parentHash); forall j :: 0 <= j < |b| ==>
                 b[j].blk.header != e.blk.header
      requires count + 1 <= Max(maxOrphans, 1) && bytes + e.size <= maxBytes && Share(byPeer, e.from) + 1 <= maxPerPeer
      modifies this
      ensures Valid() && orphans == Added(old(orphans), e) && clock == old(clock) + 1
      ensures var p := e.blk.header.parentHash;
              if p in old(orphans) then order == old(order) && since == old(since)
              else order == old(order) + [p] && since == old(since)[p := old(clock)]
    {
      hide Parked, Tallied, Filed, Listed, Aged;
      AddFacts(orphans, byPeer, order, e);
      var parent := e.blk.header.parentHash;
      if parent !in orphans {
        AgedAppend(order, since, clock, parent);
        order := order + [parent];
        since := since[parent := clock];
      } else {
        AgedLater(order, since, clock);
      }
      clock := clock + 1;
      orphans := orphans[parent := Bucket(orphans, parent) + [e]];
      byPeer := byPeer[e.from := Share(byPeer, e.from) + 1];
      count := count + 1;
      bytes := bytes + e.size;
    }

    /** Takes out the bucket of a key, if there is one, and strikes the key off the order. */
    method Claim(h: Link) returns (waiting: seq<Entry>)
      requires Valid()
      modifies this
      ensures Valid() && orphans == old(orphans) - {h} && waiting == Bucket(old(orphans), h)
      ensures count == old(count) - |waiting| && since == old(since) - {h} && clock == old(clock)
    {
      hide Parked, Tallied, Filed, Listed, Aged;
      waiting := Bucket(orphans, h);
      if h !in orphans {
        assert orphans - {h} == orphans && since - {h} == since;
        return;
      }
      var i := 0;
      while i < |order| && order[i] != h
        invariant i <= |order| && h !in order[..i]
      {
        assert order[..i + 1] == order[..i] + [order[i]];
        i := i + 1;
      }
      ListedDrop(orphans, order, h, i);
      AgedDrop(order, since, clock, h, i);
      waiting := TakeOut(h);
      order := order[..i] + order[i + 1..];
      since := since - {h};
    }

    /**
     Offers the blocks that wait for `parent` to the chain, then those that wait for an accepted one,
     and so on; whoever sent a block that is refused, and not merely known, is penalised for it. `chain`
     stands for InsertBlock: it may answer differently on every call. The queue shrinks by twice what is
     added to the worklist, so the resolver stops.
     */
    method ResolveOrphans(parent: Link, chain: Oracle)
      returns (offered: seq<Entry>, accepted: seq<Block>, penalised: seq<Peer>)
      requires Valid()
      modifies this
      ensures Valid() && orphans == old(orphans) - ({parent} + Links(accepted))
      ensures accepted == Picked(offered, chain) && penalised == Blamed(offered, chain)
      ensures Descend(parent, accepted)
      ensures |offered| == old(count) - count
      ensures since == old(since) - ({parent} + Links(accepted)) && clock == old(clock)
      ensures forall p :: p in {parent} + Links(accepted) ==> Offered(Bucket(old(orphans), p), offered)
    {
      hide Parked, Tallied, Filed, Listed, Aged, Descend, Offered, Links, ChildLinks, Explored;
      offered, accepted, penalised := [], [], [];
      var queue := [parent];
      ghost var visited := {};
      assert orphans - visited == orphans && since - visited == since;
      ExploreNothing(parent);
      while queue != []
        invariant Valid() && orphans == old(orphans) - visited && |offered| == old(count) - count
        invariant since == old(since) - visited && clock == old(clock)
        invariant Explored(parent, visited, queue, accepted) && Descend(parent, accepted)
        invariant accepted == Picked(offered, chain) && penalised == Blamed(offered, chain)
        invariant forall p :: p in visited ==> Offered(Bucket(old(orphans), p), offered)
        decreases 2 * count + |queue|
      {
        var h := queue[0];
        ghost var had := offered;
        FiledUnder(orphans, h);
        var waiting := Claim(h);
        var taken, blamed;
        offered, taken, blamed := OfferAll(waiting, offered, chain);
        MoreOffered(old(orphans), visited, h, had, waiting, offered);
        ExploreOne(parent, visited, queue, accepted, taken);
        DescendMore(parent, accepted, h, taken);
        visited := visited + {h};
        queue := queue[1..] + ChildLinks(taken);
        accepted, penalised := accepted + taken, penalised + blamed;
        assert orphans == old(orphans) - visited && since == old(since) - visited;
      }
      ExploredAll(parent, visited, accepted);
    }

    /** After eviction a block fits, unless it is larger than the whole budget. */
    lemma RoomLeft(q: Parking, keys: seq<Link>, k: nat, size: nat)
      requires Valid() && k <= |keys| && orphans == Kept(q, keys, k) && order == keys[k..]
      requires k < |keys| ==> !Crowded(q, keys, k, size)
      ensures bytes + size <= maxBytes <==> size <= maxBytes
      ensures size > maxBytes ==> orphans == map[]
      ensures bytes + size <= maxBytes ==> count + 1 <= Max(maxOrphans, 1)
    {
      hide Tallied, Filed, Kept;
      if order == [] { EmptyQueue(orphans, order); }
    }
  }

  // ----- the count limit -----

  /** It is at least one, or it is zero and quota or budget never let a block in. */
  predicate CountKept(maxOrphans: int, quota: int, budget: int) {
    maxOrphans >= 1 || (maxOrphans == 0 && (quota < 1 || budget < 256))
  }

  /** Then every valid queue keeps it. */
  lemma CountLimitKept(q: Queue)
    requires q.Valid() && CountKept(q.maxOrphans, q.maxPerPeer, q.maxBytes)
    ensures q.count <= q.maxOrphans
  {
    hide Parked, Filed, Tallied, Listed;
    if q.maxOrphans == 0 && q.orphans != map[] {
      var p :| p in q.orphans;
      SomeoneHolds(q.orphans, q.byPeer, p);
    }
    NothingParked(q.orphans);
  }

  lemma SomeoneHolds(q: Parking, byPeer: map<Peer, int>, p: Link)
    requires Filed(q) && Tallied(q, byPeer) && p in q
    ensures exists f :: f in byPeer && byPeer[f] >= 1
    ensures Parked(q, Bytes) >= 256
  {
    hide Parked;
    var k := |q[p]| - 1;
    var e := q[p][k];
    ParkedRemove(q, p, Held(e.from));
    ParkedRemove(q, p, Bytes);
    assert Load(q[p], Held(e.from)) == Load(q[p][..k], Held(e.from)) + Weight(Held(e.from), e);
    assert Load(q[p], Bytes) == Load(q[p][..k], Bytes) + Weight(Bytes, e);
    assert Share(byPeer, e.from) >= 1;
  }

  lemma NothingParked(q: Parking)
    ensures q == map[] ==> Parked(q, Number) == 0
  {
  }

  /** Otherwise it is broken as soon as anyone sends an empty block: the queue then holds more than the limit. */
  method CountLimitBroken(maxOrphans: int, maxPerPeer: int, maxBytes: int, blk: Block, from: Peer) returns (q: Queue)
    requires blk.txs == []
    ensures fresh(q) && q.Valid() && q.maxOrphans == maxOrphans
    ensures q.maxPerPeer == Quota(maxOrphans, maxPerPeer) && q.maxBytes == Budget(maxBytes)
    ensures q.count <= maxOrphans <==> CountKept(maxOrphans, q.maxPerPeer, q.maxBytes)
  {
    hide Filed, Tallied, Listed, Parked;
    q := new Queue(maxOrphans, maxPerPeer, maxBytes);
    NobodyHolds(q.orphans, q.byPeer, from);
    NothingParked(q.orphans);
    ghost var was := q.orphans;
    var parked, _, _ := q.QueueOrphan(blk, from);
    if CountKept(maxOrphans, q.maxPerPeer, q.maxBytes) {
      CountLimitKept(q);
    } else if maxOrphans == 0 {
      ParkedAppend(was, blk.header.parentHash, Entry(blk, from, 256), Number);
      assert was == map[];
    }
  }

  lemma NobodyHolds(q: Parking, byPeer: map<Peer, int>, p: Peer)
    requires q == map[] && Tallied(q, byPeer)
    ensures Share(byPeer, p) == 0
  {
  }

  // ----- resolving -----

  ghost function Links(bs: seq<Block>): set<Link> { set b | b in bs :: Child(b.header) }

  /** Every block is a child of `parent` or of a block before it. */
  ghost predicate Descend(parent: Link, bs: seq<Block>) {
    forall i :: 0 <= i < |bs| ==> bs[i].header.parentHash in {parent} + Links(bs[..i])
  }

  ghost predicate Offered(es: seq<Entry>, offered: seq<Entry>) {
    forall i :: 0 <= i < |es| ==> es[i] in offered
  }

  lemma ExploreNothing(parent: Link)
    ensures Descend(parent, []) && Explored(parent, {}, [parent], [])
  {
  }

  lemma ExploredAll(parent: Link, visited: set<Link>, accepted: seq<Block>)
    requires Explored(parent, visited, [], accepted)
    ensures visited == {parent} + Links(accepted)
  {
    assert Keys([]) == {};
  }

  lemma FiledUnder(q: Parking, h: Link)
    requires Filed(q)
    ensures forall i :: 0 <= i < |Bucket(q, h)| ==> Bucket(q, h)[i].blk.header.parentHash == h
  {
  }

  /** What InsertBlock says of a block at its k-th turn. */
  datatype Verdict = Accepted | Known | Refused

  type Oracle = (nat, Block) -> Verdict

  /** The offered blocks that were accepted at their turn. */
  function Picked(offered: seq<Entry>, chain: Oracle): seq<Block> {
    if offered == [] then []
    else
      var k := |offered| - 1;
      Picked(offered[..k], chain) + if chain(k, offered[k].blk).Accepted? then [offered[k].blk] else []
  }

  /** The senders of those that were refused, once for each. */
  function Blamed(offered: seq<Entry>, chain: Oracle): seq<Peer> {
    if offered == [] then []
    else
      var k := |offered| - 1;
      Blamed(offered[..k], chain) + if chain(k, offered[k].blk).Refused? then [offered[k].from] else []
  }

  lemma OfferedNext(offered: seq<Entry>, e: Entry, chain: Oracle)
    ensures var verdict := chain(|offered|, e.blk);
            && Picked(offered + [e], chain) == Picked(offered, chain) + (if verdict.Accepted? then [e.blk] else [])
            && Blamed(offered + [e], chain) == Blamed(offered, chain) + (if verdict.Refused? then [e.from] else [])
  {
    assert (offered + [e])[..|offered|] == offered;
  }

  /** The inner loop: each waiting block goes through validation once. */
  method OfferAll(waiting: seq<Entry>, before: seq<Entry>, chain: Oracle)
    returns (offered: seq<Entry>, taken: seq<Block>, blamed: seq<Peer>)
    ensures offered == before + waiting && Offered(waiting, offered)
    ensures Picked(offered, chain) == Picked(before, chain) + taken
    ensures Blamed(offered, chain) == Blamed(before, chain) + blamed
    ensures |taken| <= |waiting|
    ensures forall b :: b in taken ==> exists i :: 0 <= i < |waiting| && waiting[i].blk == b
  {
    hide Picked, Blamed;
    offered, taken, blamed := before, [], [];
    for i := 0 to |waiting|
      invariant offered == before + waiting[..i] && |taken| <= i
      invariant Picked(offered, chain) == Picked(before, chain) + taken
      invariant Blamed(offered, chain) == Blamed(before, chain) + blamed
      invariant forall b :: b in taken ==> exists j :: 0 <= j < i && waiting[j].blk == b
    {
      var e := waiting[i];
      OfferedNext(offered, e, chain);
      var verdict := chain(|offered|, e.blk);
      ghost var picked, faults := Picked(before, chain), Blamed(before, chain);
      assert picked + taken + [e.blk] == picked + (taken + [e.blk]);
      assert faults + blamed + [e.from] == faults + (blamed + [e.from]);
      if verdict.Refused? { blamed := blamed + [e.from]; }
      if verdict.Accepted? { taken := taken + [e.blk]; }
      offered := offered + [e];
    }
  }

  lemma MoreOffered(q: Parking, visited: set<Link>, h: Link, had: seq<Entry>, waiting: seq<Entry>, offered: seq<Entry>)
    requires had <= offered && Offered(waiting, offered) && waiting == Bucket(q - visited, h)
    requires forall p :: p in visited ==> Offered(Bucket(q, p), had)
    ensures forall p :: p in visited + {h} ==> Offered(Bucket(q, p), offered)
  {
    forall p | p in visited ensures Offered(Bucket(q, p), offered) {
      assert Offered(Bucket(q, p), had);
    }
    assert h !in visited ==> waiting == Bucket(q, h);
  }

  lemma DescendMore(parent: Link, bs: seq<Block>, h: Link, taken: seq<Block>)
    requires Descend(parent, bs) && h in {parent} + Links(bs) && forall b :: b in taken ==> b.header.parentHash == h
    ensures Descend(parent, bs + taken)
  {
    var all := bs + taken;
    forall i | 0 <= i < |all| ensures all[i].header.parentHash in {parent} + Links(all[..i]) {
      if i < |bs| {
        assert all[..i] == bs[..i];
      } else {
        assert all[i] in taken && all[..i] == bs + taken[..i - |bs|];
      }
    }
  }

  ghost function Keys(hs: seq<Link>): set<Link> { set h | h in hs }

  function ChildLinks(bs: seq<Block>): (r: seq<Link>)
    ensures |r| == |bs| && forall i :: 0 <= i < |r| ==> r[i] == Child(bs[i].header)
  {
    seq(|bs|, i requires 0 <= i < |bs| => Child(bs[i].header))
  }

  lemma ChildKeys(bs: seq<Block>)
    ensures Keys(ChildLinks(bs)) == Links(bs)
  {
    forall h | h in Links(bs) ensures h in ChildLinks(bs) {
      var b :| b in bs && Child(b.header) == h;
      var i :| 0 <= i < |bs| && bs[i] == b;
      assert ChildLinks(bs)[i] == h;
    }
  }

  /** What was visited and what is in the worklist are `parent` and the accepted blocks. */
  ghost predicate Explored(parent: Link, visited: set<Link>, queue: seq<Link>, accepted: seq<Block>) {
    visited + Keys(queue) == {parent} + Links(accepted)
  }

  lemma ExploreOne(parent: Link, visited: set<Link>, queue: seq<Link>, accepted: seq<Block>, taken: seq<Block>)
    requires queue != [] && Explored(parent, visited, queue, accepted)
    ensures Explored(parent, visited + {queue[0]}, queue[1..] + ChildLinks(taken), accepted + taken)
    ensures queue[0] in {parent} + Links(accepted)
  {
    hide ChildLinks;
    var rest, more := queue[1..], ChildLinks(taken);
    ChildKeys(taken);
    assert queue == [queue[0]] + rest;
    assert Keys(queue) == {queue[0]} + Keys(rest);
    assert Keys(rest + more) == Keys(rest) + Keys(more);
    assert Links(accepted + taken) == Links(accepted) + Links(taken);
  }

  lemma ListedDrop(q: Parking, order: seq<Link>, h: Link, i: nat)
    requires Listed(q, order) && h in q && i <= |order| && h !in order[..i] && (i < |order| ==> order[i] == h)
    ensures i < |order| && Listed(q - {h}, order[..i] + order[i + 1..])
  {
    assert order[..|order|] == order;
    var cut := order[..i] + order[i + 1..];
    assert order == order[..i] + [h] + order[i + 1..];
    assert h !in order[i + 1..];
  }

  function Added(q: Parking, e: Entry): Parking {
    q[e.blk.header.parentHash := Bucket(q, e.blk.header.parentHash) + [e]]
  }

  lemma EmptyQueue(q: Parking, order: seq<Link>)
    requires Listed(q, order) && order == []
    ensures q == map[]
  {
    forall p ensures p !in q {
      assert p !in order;
    }
  }

  /** Eviction drops whole buckets, so it does not bring a block into one. */
  lemma NotWaiting(q: Parking, order: seq<Link>, k: nat, h: Header)
    requires k <= |order|
    requires forall j :: 0 <= j < |Bucket(q, h.parentHash)| ==> Bucket(q, h.parentHash)[j].blk.header != h
    ensures forall j :: 0 <= j < |Bucket(Kept(q, order, k), h.parentHash)| ==>
              Bucket(Kept(q, order, k), h.parentHash)[j].blk.header != h
  {
    var kept := Kept(q, order, k);
    assert h.parentHash in kept ==> Bucket(kept, h.parentHash) == Bucket(q, h.parentHash);
  }

  lemma ShareCounts(q: Parking, byPeer: map<Peer, int>, p: Peer)
    requires Tallied(q, byPeer)
    ensures Share(byPeer, p) >= 0
  {
  }

  /** Parking one more entry keeps the buckets filed, the tallies right and the order complete. */
  lemma AddFacts(q: Parking, byPeer: map<Peer, int>, order: seq<Link>, e: Entry)
    requires Filed(q) && Tallied(q, byPeer) && Listed(q, order) && e.size == Footprint(e.blk.txs)
    requires var b := Bucket(q, e.blk.header.parentHash); forall j :: 0 <= j < |b| ==> b[j].blk.header != e.blk.header
    ensures Filed(Added(q, e)) && Tallied(Added(q, e), byPeer[e.from := Share(byPeer, e.from) + 1])
    ensures Listed(Added(q, e), if e.blk.header.parentHash in q then order else order + [e.blk.header.parentHash])
    ensures Parked(Added(q, e), Number) == Parked(q, Number) + 1
    ensures Parked(Added(q, e), Bytes) == Parked(q, Bytes) + e.size
  {
    hide Parked;
    var p := e.blk.header.parentHash;
    ParkedAppend(q, p, e, Number);
    ParkedAppend(q, p, e, Bytes);
    forall f ensures Parked(Added(q, e), Held(f)) == Parked(q, Held(f)) + Weight(Held(f), e) {
      ParkedAppend(q, p, e, Held(f));
    }
  }

  lemma KeptAll(q: Parking, order: seq<Link>)
    ensures Kept(q, order, 0) == q && order[0..] == order
  {
  }

  lemma KeptNext(q: Parking, order: seq<Link>, k: nat)
    requires k < |order|
    ensures Kept(q, order, k + 1) == Kept(q, order, k) - {order[k]}
    ensures order[k..][1..] == order[k + 1..]
  {
    assert order[..k + 1] == order[..k] + [order[k]];
  }

  /** The arrivals of the keys that are left when the k oldest are gone. */
  ghost function Left(since: map<Link, nat>, order: seq<Link>, k: nat): map<Link, nat>
    requires k <= |order|
  {
    since - (set p | p in order[..k])
  }

  lemma LeftAll(since: map<Link, nat>, order: seq<Link>)
    ensures Left(since, order, 0) == since
  {
  }

  lemma LeftNext(since: map<Link, nat>, order: seq<Link>, k: nat)
    requires k < |order|
    ensures Left(since, order, k + 1) == Left(since, order, k) - {order[k]}
  {
    assert order[..k + 1] == order[..k] + [order[k]];
  }

  /** Eviction takes the longest-waiting keys: each key evicted came before each key that is left. */
  lemma EvictedWaitedLonger(q: Queue, k: nat)
    requires q.Valid() && k <= |q.order|
    ensures forall p, r :: p in q.order[..k] && r in Kept(q.orphans, q.order, k) ==>
              p in q.since && r in q.since && q.since[p] < q.since[r]
  {
    hide Filed, Tallied, Parked;
    forall p, r | p in q.order[..k] && r in Kept(q.orphans, q.order, k)
      ensures p in q.since && r in q.since && q.since[p] < q.since[r]
    {
      var i :| 0 <= i < k && q.order[i] == p;
      var j :| 0 <= j < |q.order| && q.order[j] == r;
      assert forall x :: 0 <= x < k ==> q.order[x] in q.order[..k];
    }
  }

  lemma AgedAppend(order: seq<Link>, since: map<Link, nat>, clock: nat, p: Link)
    requires Aged(order, since, clock) && p !in since
    ensures Aged(order + [p], since[p := clock], clock + 1)
  {
  }

  lemma AgedLater(order: seq<Link>, since: map<Link, nat>, clock: nat)
    requires Aged(order, since, clock)
    ensures Aged(order, since, clock + 1)
  {
  }

  lemma AgedTail(order: seq<Link>, since: map<Link, nat>, clock: nat)
    requires order != [] && Aged(order, since, clock)
    ensures Aged(order[1..], since - {order[0]}, clock)
  {
    hide Aged;
    AgedDrop(order, since, clock, order[0], 0);
    assert order[..0] + order[1..] == order[1..];
  }

  lemma AgedDrop(order: seq<Link>, since: map<Link, nat>, clock: nat, h: Link, i: nat)
    requires i < |order| && order[i] == h && Aged(order, since, clock)
    ensures Aged(order[..i] + order[i + 1..], since - {h}, clock)
  {
    var cut := order[..i] + order[i + 1..];
    assert forall j :: 0 <= j < |cut| ==> cut[j] == order[if j < i then j else j + 1];
    forall j | 0 <= j < |order| && j != i ensures order[j] != h {
      assert since[order[j]] != since[order[i]];
    }
  }

  lemma ListedTail(q: Parking, order: seq<Link>)
    requires Listed(q, order) && order != []
    ensures order[0] in q && Listed(q - {order[0]}, order[1..])
  {
    assert forall p :: p in order[1..] <==> p in order && p != order[0];
  }
}
