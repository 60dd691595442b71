/**
 What the node's tables should say, read off the headers alone. A header contains its parent (it
 names it by hash), so a header determines its whole branch: the path to genesis, the work on it,
 the state after it, the canonical height map and the transaction index.
 */
module Chain {
  import opened Types
  import opened Worlds
  import opened Issuance
  import opened Transition
  import opened Ledger

  /** How far ahead of the local clock a header may be dated. */
  const MAX_FUTURE_DRIFT_MS := 15_000

  /** Genesis: agreed by convention, with an allocation and no transactions. */
  datatype Base = Base(rules: Rules, genesis: Header, world: World)

  ghost predicate ValidBase(c: Base) {
    && Transition.Valid(c.rules) && Sound(c.world)
    && c.genesis.parentHash.Origin? && c.genesis.height == 0 && c.genesis.txRoot == [] && c.genesis.difficulty >= 1
    && c.genesis.stateRoot == c.rules.stateRoot(c.world.accounts, c.world.burned)
  }

  // ----- branches -----

  predicate Within(a: Header, h: Header) {
    a == h || (h.parentHash.Child? && Within(a, h.parentHash.parent))
  }

  /** Accumulated work: the difficulties along the branch. */
  function Work(h: Header): nat {
    h.difficulty + if h.parentHash.Child? then Work(h.parentHash.parent) else 0
  }

  lemma {:induction false} WithinTransitive(a: Header, b: Header, h: Header)
    requires Within(a, b) && Within(b, h)
    ensures Within(a, h)
  {
    if b != h { WithinTransitive(a, b, h.parentHash.parent); }
  }

  /** The state after a branch, if every block on it is valid. */
  ghost function StateOf(c: Base, h: Header): Option<World> {
    if h == c.genesis then Some(c.world)
    else if h.parentHash.Origin? then None
    else
      match StateOf(c, h.parentHash.parent)
      case None => None
      case Some(w) =>
        var o := ApplyBlock(c.rules, w, Block(h, h.txRoot), Some(h.parentHash.parent));
        if o.Accepted? then Some(o.world) else None
  }

  ghost predicate Good(c: Base, h: Header) { StateOf(c, h).Some? }

  ghost function StateAt(c: Base, h: Header): World
    requires Good(c, h)
  {
    StateOf(c, h).value
  }

  /** The parent of a good block other than genesis is good, and the block was accepted on it. */
  lemma GoodParent(c: Base, h: Header)
    requires Good(c, h) && h != c.genesis
    ensures h.parentHash.Child?
    ensures var p := h.parentHash.parent;
            && Good(c, p) && h.height == p.height + 1
            && var o := ApplyBlock(c.rules, StateAt(c, p), Block(h, h.txRoot), Some(p));
               o.Accepted? && o.world == StateAt(c, h)
  {
    hide ApplyTxs, CreditBlockReward;
  }

  /** Every block of a good branch is good, and heights tell them apart. */
  lemma {:induction false} BranchGood(c: Base, a: Header, h: Header)
    requires ValidBase(c) && Good(c, h) && Within(a, h)
    ensures Good(c, a) && a.height <= h.height && (a.height == h.height ==> a == h)
  {
    hide StateOf;
    if a != h {
      if h == c.genesis { assert false; }
      GoodParent(c, h);
      BranchGood(c, a, h.parentHash.parent);
    }
  }

  /** Value is conserved along every good branch: the pre-mine plus what each block mints. */
  lemma {:induction false} BranchConserves(c: Base, h: Header)
    requires ValidBase(c) && Good(c, h)
    ensures Sound(StateAt(c, h)) && Supply(StateAt(c, h)) == Supply(c.world) + Minted(0, h.height)
  {
    hide ApplyBlock, Sound, Supply;
    if h != c.genesis {
      GoodParent(c, h);
      var p := h.parentHash.parent;
      BranchConserves(c, p);
      ApplyBlockFacts(c.rules, StateAt(c, p), Block(h, h.txRoot), Some(p));
    }
  }

  /** A good block's header commits to the state after it. */
  lemma RootCommits(c: Base, h: Header)
    requires ValidBase(c) && Good(c, h)
    ensures c.rules.stateRoot(StateAt(c, h).accounts, StateAt(c, h).burned) == h.stateRoot
  {
    hide ApplyTxs, CreditBlockReward;
  }

  // ----- the canonical height map -----

  function CanonOf(h: Header): map<nat, Header> {
    (if h.parentHash.Child? then CanonOf(h.parentHash.parent) else map[])[h.height := h]
  }

  /** A hash-linked branch from genesis, numbered upwards. */
  predicate Linked(genesis: Header, h: Header) {
    if h.parentHash.Origin? then h == genesis && h.height == 0
    else h.height == h.parentHash.parent.height + 1 && Linked(genesis, h.parentHash.parent)
  }

  lemma {:induction false} GoodLinked(c: Base, h: Header)
    requires ValidBase(c) && Good(c, h)
    ensures Linked(c.genesis, h)
  {
    hide StateOf;
    if h != c.genesis {
      GoodParent(c, h);
      GoodLinked(c, h.parentHash.parent);
    }
  }

  /** The height map is exactly the branch, one block per height and nothing above its tip. */
  lemma {:induction false} LinkedCanon(genesis: Header, h: Header)
    requires Linked(genesis, h)
    ensures forall n: nat :: n in CanonOf(h) <==> n <= h.height
    ensures forall n: nat :: n <= h.height ==> CanonOf(h)[n].height == n && Within(CanonOf(h)[n], h)
    ensures forall a :: Within(a, h) ==> a.height in CanonOf(h) && CanonOf(h)[a.height] == a
  {
    if h.parentHash.Child? {
      var p := h.parentHash.parent;
      LinkedCanon(genesis, p);
      forall a | Within(a, h) ensures a.height in CanonOf(h) && CanonOf(h)[a.height] == a {
        if a != h { assert Within(a, p); }
      }
      forall n: nat | n <= h.height ensures n in CanonOf(h) && CanonOf(h)[n].height == n && Within(CanonOf(h)[n], h) {
        if n < h.height { assert Within(CanonOf(p)[n], p); }
      }
    }
  }

  lemma CanonMeaning(c: Base, h: Header)
    requires ValidBase(c) && Good(c, h)
    ensures forall n: nat :: n in CanonOf(h) <==> n <= h.height
    ensures forall n: nat :: n <= h.height ==> CanonOf(h)[n].height == n && Within(CanonOf(h)[n], h)
    ensures forall a :: Within(a, h) ==> a.height in CanonOf(h) && CanonOf(h)[a.height] == a
  {
    GoodLinked(c, h);
    LinkedCanon(c.genesis, h);
  }

  // ----- forks -----

  /** The first block going back from b, b included, that lies on a's branch. */
  ghost function ForkOf(a: Header, b: Header): Header {
    if Within(b, a) || b.parentHash.Origin? then b else ForkOf(a, b.parentHash.parent)
  }

  /** g lies on tip's branch, above anc. */
  predicate Above(g: Header, anc: Header, tip: Header) {
    tip != anc && (g == tip || (tip.parentHash.Child? && Above(g, anc, tip.parentHash.parent)))
  }

  /** The blocks above anc up to tip, oldest first. */
  function Path(anc: Header, tip: Header): seq<Header> {
    if tip == anc || tip.parentHash.Origin? then [] else Path(anc, tip.parentHash.parent) + [tip]
  }

  lemma {:induction false} GenesisWithin(genesis: Header, h: Header)
    requires Linked(genesis, h)
    ensures Within(genesis, h) && genesis.parentHash.Origin? && genesis.height == 0
  {
    if h.parentHash.Child? { GenesisWithin(genesis, h.parentHash.parent); }
  }

  /** The fork is on both branches, and of b's branch exactly what lies above it is not on a's. */
  lemma {:induction false} ForkFacts(genesis: Header, a: Header, b: Header)
    requires Linked(genesis, a) && Linked(genesis, b)
    ensures Within(ForkOf(a, b), a) && Within(ForkOf(a, b), b)
    ensures forall g :: Above(g, ForkOf(a, b), b) <==> Within(g, b) && !Within(g, a)
  {
    if Within(b, a) {
      forall g | Within(g, b) ensures Within(g, a) { WithinTransitive(g, b, a); }
    } else {
      GenesisWithin(genesis, a);
      ForkFacts(genesis, a, b.parentHash.parent);
    }
  }

  lemma {:induction false} PathMembers(anc: Header, tip: Header, g: Header)
    requires Within(anc, tip)
    ensures g in Path(anc, tip) <==> Above(g, anc, tip)
  {
    if tip != anc { PathMembers(anc, tip.parentHash.parent, g); }
  }

  lemma {:induction false} HeightsFall(genesis: Header, a: Header, h: Header)
    requires Linked(genesis, h) && Within(a, h)
    ensures Linked(genesis, a) && a.height <= h.height && (a.height == h.height ==> a == h)
    ensures |Path(a, h)| == h.height - a.height
  {
    if a != h { HeightsFall(genesis, a, h.parentHash.parent); }
  }

  lemma {:induction false} PathPrepend(genesis: Header, p: Header, a: Header, tip: Header)
    requires Linked(genesis, tip) && Within(a, tip) && a.parentHash == Child(p)
    ensures Within(p, tip) && Path(p, tip) == [a] + Path(a, tip)
  {
    HeightsFall(genesis, a, tip);
    if a == tip {
      assert Path(p, a) == Path(p, p) + [a];
    } else {
      PathPrepend(genesis, p, a, tip.parentHash.parent);
      var rest := Path(a, tip.parentHash.parent);
      assert [a] + rest + [tip] == [a] + (rest + [tip]);
    }
  }

  /** What leads to position i of a path: the block below it, and the path up to there. */
  lemma {:induction false} PathAt(anc: Header, tip: Header, i: nat)
    requires Within(anc, tip) && i <= |Path(anc, tip)|
    ensures var t := Under(anc, Path(anc, tip), i);
            Within(anc, t) && Within(t, tip) && Path(anc, t) == Path(anc, tip)[..i]
    ensures i < |Path(anc, tip)| ==> Path(anc, tip)[i].parentHash == Child(Under(anc, Path(anc, tip), i))
    ensures i == |Path(anc, tip)| ==> Under(anc, Path(anc, tip), i) == tip
  {
    var path := Path(anc, tip);
    if i == |path| {
      assert path[..i] == path;
    } else {
      var p := tip.parentHash.parent;
      PathAt(anc, p, i);
      assert Path(anc, p)[..i] == path[..i] && Under(anc, Path(anc, p), i) == Under(anc, path, i);
      WithinTransitive(Under(anc, path, i), p, tip);
    }
  }

  /** The block under position i of a path that starts above `anc`. */
  function Under(anc: Header, seg: seq<Header>, i: nat): Header
    requires i <= |seg|
  {
    if i == 0 then anc else seg[i - 1]
  }

  lemma CanonUnwind(c: Base, h: Header)
    requires ValidBase(c) && Good(c, h) && h != c.genesis
    ensures h.parentHash.Child? && CanonOf(h) - {h.height} == CanonOf(h.parentHash.parent)
  {
    hide StateOf;
    GoodParent(c, h);
    CanonMeaning(c, h.parentHash.parent);
    var m := CanonOf(h.parentHash.parent);
    assert h.height !in m;
    assert m[h.height := h] - {h.height} == m;
  }

  // ----- the transaction index -----

  datatype Location = Location(block: Header, height: nat, index: nat)

  function TxSet(txs: seq<Tx>): set<Tx> { set i | 0 <= i < |txs| :: txs[i] }

  /** The first n transactions of h, entered in order. */
  function IndexTxs(m: map<Tx, Location>, h: Header, n: nat): map<Tx, Location>
    requires n <= |h.txRoot|
  {
    if n == 0 then m else IndexTxs(m, h, n - 1)[h.txRoot[n - 1] := Location(h, h.height, n - 1)]
  }

  function IndexOf(h: Header): map<Tx, Location> {
    if h.parentHash.Child? then IndexTxs(IndexOf(h.parentHash.parent), h, |h.txRoot|) else map[]
  }

  ghost predicate Distinct(txs: seq<Tx>) {
    forall i, j :: 0 <= i < j < |txs| ==> txs[i] != txs[j]
  }

  /** Outside the block's own transactions nothing changes. */
  lemma {:induction false} IndexTxsAt(m: map<Tx, Location>, h: Header, n: nat, tx: Tx)
    requires n <= |h.txRoot|
    ensures tx in IndexTxs(m, h, n) <==> tx in m || tx in h.txRoot[..n]
    ensures tx in m && tx !in h.txRoot[..n] ==> IndexTxs(m, h, n)[tx] == m[tx]
  {
    if n > 0 {
      IndexTxsAt(m, h, n - 1, tx);
      assert h.txRoot[..n] == h.txRoot[..n - 1] + [h.txRoot[n - 1]];
    }
  }

  lemma {:induction false} IndexTxsPlace(m: map<Tx, Location>, h: Header, n: nat, i: nat)
    requires i < n <= |h.txRoot| && Distinct(h.txRoot)
    ensures h.txRoot[i] in IndexTxs(m, h, n) && IndexTxs(m, h, n)[h.txRoot[i]] == Location(h, h.height, i)
  {
    if i < n - 1 {
      IndexTxsPlace(m, h, n - 1, i);
      assert h.txRoot[i] != h.txRoot[n - 1];
    }
  }

  lemma IndexTxsFacts(m: map<Tx, Location>, h: Header, n: nat)
    requires n <= |h.txRoot| && Distinct(h.txRoot)
    ensures IndexTxs(m, h, n).Keys == m.Keys + TxSet(h.txRoot[..n])
    ensures forall i :: 0 <= i < n ==>
              h.txRoot[i] in IndexTxs(m, h, n) && IndexTxs(m, h, n)[h.txRoot[i]] == Location(h, h.height, i)
    ensures forall tx :: tx in m && tx !in TxSet(h.txRoot[..n]) ==> IndexTxs(m, h, n)[tx] == m[tx]
  {
    hide IndexTxs, Distinct;
    var txs := h.txRoot[..n];
    forall tx ensures tx in TxSet(txs) <==> tx in txs {
    }
    forall tx ensures tx in IndexTxs(m, h, n) <==> tx in m || tx in txs {
      IndexTxsAt(m, h, n, tx);
    }
    forall tx | tx in m && tx !in txs ensures tx in IndexTxs(m, h, n) && IndexTxs(m, h, n)[tx] == m[tx] {
      IndexTxsAt(m, h, n, tx);
    }
    forall i | 0 <= i < n
      ensures h.txRoot[i] in IndexTxs(m, h, n) && IndexTxs(m, h, n)[h.txRoot[i]] == Location(h, h.height, i)
    {
      IndexTxsPlace(m, h, n, i);
    }
  }

  /** Facts about one accepted block that the index needs. */
  lemma BlockTxs(c: Base, h: Header)
    requires ValidBase(c) && Good(c, h) && h != c.genesis
    ensures h.parentHash.Child? && Good(c, h.parentHash.parent)
    ensures Distinct(h.txRoot)
    ensures forall tx :: tx in h.txRoot ==> Spent(c.rules, StateAt(c, h.parentHash.parent), StateAt(c, h), tx)
    ensures forall a :: Nonce(StateAt(c, h.parentHash.parent), a) <= Nonce(StateAt(c, h), a)
  {
    hide ApplyBlock, StateOf;
    GoodParent(c, h);
    var p := h.parentHash.parent;
    ApplyBlockFacts(c.rules, StateAt(c, p), Block(h, h.txRoot), Some(p));
    forall a ensures Nonce(StateAt(c, p), a) <= Nonce(StateAt(c, h), a) {
      NonceTracked(StateAt(c, p).(touched := {}), StateAt(c, h), a);
      NonceUnmarked(StateAt(c, p), a);
    }
  }

  /** Every indexed transaction has spent its nonce for good. */
  lemma {:induction false} IndexSpent(c: Base, h: Header)
    requires ValidBase(c) && Good(c, h)
    ensures forall tx :: tx in IndexOf(h) ==>
              c.rules.sender(tx).Some? && tx.nonce < Nonce(StateAt(c, h), c.rules.sender(tx).value)
  {
    hide StateOf, Nonce;
    if h != c.genesis {
      BlockTxs(c, h);
      IndexSpent(c, h.parentHash.parent);
      IndexTxsFacts(IndexOf(h.parentHash.parent), h, |h.txRoot|);
      assert h.txRoot[..|h.txRoot|] == h.txRoot;
      forall tx | tx in IndexOf(h)
        ensures c.rules.sender(tx).Some? && tx.nonce < Nonce(StateAt(c, h), c.rules.sender(tx).value)
      {
        if tx in IndexOf(h.parentHash.parent) {
          var who := c.rules.sender(tx).value;
          assert Nonce(StateAt(c, h.parentHash.parent), who) <= Nonce(StateAt(c, h), who);
        } else {
          assert tx in h.txRoot;
        }
      }
    }
  }

  /** No transaction is on a branch twice, so dropping a block's entries leaves the parent's index. */
  lemma IndexUnwind(c: Base, h: Header)
    requires ValidBase(c) && Good(c, h) && h != c.genesis
    ensures h.parentHash.Child? && IndexOf(h) - TxSet(h.txRoot) == IndexOf(h.parentHash.parent)
  {
    hide StateOf, Nonce;
    BlockTxs(c, h);
    var p := h.parentHash.parent;
    IndexSpent(c, p);
    IndexTxsFacts(IndexOf(p), h, |h.txRoot|);
    assert h.txRoot[..|h.txRoot|] == h.txRoot;
    forall tx | tx in IndexOf(p) ensures tx !in TxSet(h.txRoot) {
      assert tx in h.txRoot ==> Spent(c.rules, StateAt(c, p), StateAt(c, h), tx);
    }
  }

  /** The index is exactly the transactions of the branch, each at its one place. */
  lemma {:induction false} IndexMeaning(c: Base, h: Header)
    requires ValidBase(c) && Good(c, h)
    ensures forall b, i :: Within(b, h) && b != c.genesis && 0 <= i < |b.txRoot| ==>
                             b.txRoot[i] in IndexOf(h) && IndexOf(h)[b.txRoot[i]] == Location(b, b.height, i)
    ensures forall tx :: tx in IndexOf(h) ==>
                           var at := IndexOf(h)[tx];
                           Within(at.block, h) && at.index < |at.block.txRoot| && at.block.txRoot[at.index] == tx
  {
    hide StateOf;
    if h != c.genesis {
      BlockTxs(c, h);
      var p := h.parentHash.parent;
      IndexMeaning(c, p);
      IndexUnwind(c, h);
      IndexTxsFacts(IndexOf(p), h, |h.txRoot|);
      assert h.txRoot[..|h.txRoot|] == h.txRoot;
      forall b, i | Within(b, h) && b != c.genesis && 0 <= i < |b.txRoot|
        ensures b.txRoot[i] in IndexOf(h) && IndexOf(h)[b.txRoot[i]] == Location(b, b.height, i)
      {
        if b != h {
          assert b.txRoot[i] in IndexOf(p);
        }
      }
    }
  }
}
