/**
 What holds of a node's blocks through every run of blocks and restarts, whatever became of its accounts and
 whether or not roots collide: its canonical chain carries its retargets and its work.
 */
module Lineage {
  import opened Types
  import opened Worlds
  import opened Transition
  import opened Chain
  import opened Store
  import opened Trees
  import opened Restarts
  import opened Runs
  import opened BlockLaws
  import Pow

  /** Blocks on disk hang on genesis, head's branch is all there, and what is remembered is on disk. */
  ghost predicate Shaped(cfg: Config, n: Node) {
    && Linked(cfg.genesis, n.db.head) && n.db.head in n.states && n.db.canonical == CanonOf(n.db.head)
    && WholeBranch(n.db.blocks, n.db.head)
    && (forall h :: h in n.db.blocks ==> Linked(cfg.genesis, h))
    && n.states.Keys <= n.db.blocks
  }

  ghost predicate WholeBranch(blocks: set<Header>, h: Header) { forall a :: Within(a, h) ==> a in blocks }

  /**
   The block carries the retarget of the branch below it and the work it claims, follows its parent in height, time and
   gas limit, and holds only transactions that pass the stateless checks.
   */
  predicate Right(cfg: Config, h: Header) {
    h.parentHash.Child? ==>
      && h.difficulty == RequiredFor(cfg.genesis.difficulty, h.parentHash.parent)
      && cfg.digest(h) <= Pow.PowTarget(h.difficulty)
      && Follows(h, h.parentHash.parent) && forall tx :: tx in h.txRoot ==> cfg.sane(tx)
  }

  ghost predicate RightBranch(cfg: Config, h: Header) { forall a :: Within(a, h) ==> Right(cfg, a) }

  /**
   A remembered block whose ancestors are all on disk is right, and so are they. What an ancestor lacks on disk is
   below everything remembered, so no block that still has a remembered parent can fill the gap.
   */
  ghost predicate Vouched(cfg: Config, blocks: set<Header>, kept: set<Header>) {
    && (forall h :: h in kept && WholeBranch(blocks, h) ==> RightBranch(cfg, h))
    && (forall h, k, a :: h in kept && k in kept && Within(a, h) && a !in blocks ==> a.height < k.height)
  }

  ghost predicate Sturdy(cfg: Config, n: Node) { Shaped(cfg, n) && Vouched(cfg, n.db.blocks, n.states.Keys) }

  lemma InitialSturdy(cfg: Config, alloc: map<Address, nat>)
    requires Buildable(cfg, alloc)
    ensures Sturdy(cfg, Initial(cfg, alloc))
  {
  }

  /** A block joins, and carries what the node asks for. */
  ghost predicate Candidate(cfg: Config, blocks: set<Header>, kept: set<Header>, h: Header) {
    && Vouched(cfg, blocks, kept) && Linked(cfg.genesis, h) && h.parentHash.Child?
    && h.parentHash.parent in kept && h.parentHash.parent in blocks
    && h.difficulty == Required(blocks, cfg.genesis.difficulty, h.parentHash.parent)
    && cfg.digest(h) <= Pow.PowTarget(h.difficulty)
    && Follows(h, h.parentHash.parent) && forall tx :: tx in h.txRoot ==> cfg.sane(tx)
  }

  /** It fills nobody's gap. */
  lemma JoinFillsNothing(cfg: Config, blocks: set<Header>, kept: set<Header>, h: Header, k: Header)
    requires Candidate(cfg, blocks, kept, h) && k in kept && WholeBranch(blocks + {h}, k)
    ensures RightBranch(cfg, k)
  {
    hide RightBranch, Required;
    forall a | Within(a, k) ensures a in blocks {
    }
  }

  /** If its branch is whole, it is right. */
  lemma JoinIsRight(cfg: Config, blocks: set<Header>, kept: set<Header>, h: Header)
    requires Candidate(cfg, blocks, kept, h) && WholeBranch(blocks + {h}, h)
    ensures RightBranch(cfg, h)
  {
    hide RequiredFor;
    var p := h.parentHash.parent;
    forall a | Within(a, p) ensures a in blocks {
      assert Within(a, h);
      HeightsFall(cfg.genesis, a, p);
    }
    BranchStored(cfg.genesis, blocks, p, Span(p));
  }

  lemma JoinKeeps(cfg: Config, blocks: set<Header>, kept: set<Header>, h: Header)
    requires Candidate(cfg, blocks, kept, h)
    ensures Vouched(cfg, blocks + {h}, kept + {h})
  {
    hide RightBranch, Required;
    var p := h.parentHash.parent;
    forall k | k in kept + {h} && WholeBranch(blocks + {h}, k) ensures RightBranch(cfg, k) {
      if k == h { JoinIsRight(cfg, blocks, kept, h); } else { JoinFillsNothing(cfg, blocks, kept, h, k); }
    }
    forall k, g, a | k in kept + {h} && g in kept + {h} && Within(a, k) && a !in blocks + {h}
      ensures a.height < g.height
    {
      assert Within(a, if k == h then p else k);
      assert a.height < (if g == h then p else g).height;
    }
  }

  /** What an admissible block looks like beside its parent. */
  lemma AdmissibleFollows(cfg: Config, n: Node, b: Block, now: int)
    requires Admissible(cfg, n, b, now)
    ensures Follows(b.header, b.header.parentHash.parent) && forall tx :: tx in b.header.txRoot ==> cfg.sane(tx)
  {
    hide ApplyBlock, Required, Follows;
    var p := b.header.parentHash.parent;
    AcceptedIff(cfg.rules, n.states[p], b, p);
  }

  lemma SidewaysSturdy(cfg: Config, n: Node, h: Header, st: World)
    requires Sturdy(cfg, n) && Linked(cfg.genesis, h) && Vouched(cfg, n.db.blocks + {h}, n.states.Keys + {h})
    ensures Sturdy(cfg, Sideways(n, h, st))
  {
    hide Vouched;
    assert n.states[h := st].Keys == n.states.Keys + {h};
  }

  lemma PlacedSturdy(cfg: Config, n: Node, h: Header, st: World)
    requires Sturdy(cfg, n) && Linked(cfg.genesis, h) && Vouched(cfg, n.db.blocks + {h}, n.states.Keys + {h})
    requires Followable(cfg, n, h)
    ensures Sturdy(cfg, Placed(n, h, st))
  {
    hide Vouched, Written, Unwound, Recorded;
    assert n.states[h := st].Keys == n.states.Keys + {h};
    ForkFacts(cfg.genesis, n.db.head, h);
  }

  /** What goes is below what stays remembered. */
  lemma LessVouched(cfg: Config, blocks: set<Header>, kept: set<Header>, blocks': set<Header>, kept': set<Header>,
                    cutoff: nat)
    requires Vouched(cfg, blocks, kept) && blocks' <= blocks && kept' <= kept
    requires forall h :: h in kept' ==> h.height >= cutoff
    requires forall h :: h in blocks && h !in blocks' ==> h.height < cutoff
    ensures Vouched(cfg, blocks', kept')
  {
    hide RightBranch;
    forall h | h in kept' && WholeBranch(blocks', h) ensures RightBranch(cfg, h) {
      assert WholeBranch(blocks, h);
    }
  }

  lemma PrunedShaped(cfg: Config, n: Node)
    requires Shaped(cfg, n)
    ensures Shaped(cfg, Pruned(cfg, n))
  {
    hide CanonOf, Linked;
    LinkedCanon(cfg.genesis, n.db.head);
  }

  lemma PrunedSturdy(cfg: Config, n: Node)
    requires Sturdy(cfg, n)
    ensures Sturdy(cfg, Pruned(cfg, n))
  {
    hide Vouched, Shaped;
    PrunedShaped(cfg, n);
    var n', cutoff := Pruned(cfg, n), n.db.head.height - cfg.retention;
    if cutoff > 0 {
      LessVouched(cfg, n.db.blocks, n.states.Keys, n'.db.blocks, n'.states.Keys, cutoff);
    }
  }

  lemma InsertedSturdy(cfg: Config, n: Node, b: Block, now: int)
    requires Sturdy(cfg, n) && Inserted(cfg, n, b, now).Some?
    ensures Sturdy(cfg, Inserted(cfg, n, b, now).value)
  {
    hide Sturdy, Vouched, Placed, Sideways, Pruned, Followable, Heavier, Required, ApplyBlock;
    var h, st := b.header, StateAfter(cfg, n, b, now);
    AdmissibleFollows(cfg, n, b, now);
    Joins(cfg, n, h);
    if !Heavier(cfg, h, n.db.head) {
      SidewaysSturdy(cfg, n, h, st);
    } else {
      PlacedSturdy(cfg, n, h, st);
      PrunedSturdy(cfg, Placed(n, h, st));
    }
  }

  lemma Joins(cfg: Config, n: Node, h: Header)
    requires Sturdy(cfg, n) && h.parentHash.Child? && h.parentHash.parent in n.states
    requires Follows(h, h.parentHash.parent) && forall tx :: tx in h.txRoot ==> cfg.sane(tx)
    requires h.difficulty == Required(n.db.blocks, cfg.genesis.difficulty, h.parentHash.parent)
    requires cfg.digest(h) <= Pow.PowTarget(h.difficulty)
    ensures Linked(cfg.genesis, h) && Vouched(cfg, n.db.blocks + {h}, n.states.Keys + {h})
  {
    hide Vouched, Required;
    JoinKeeps(cfg, n.db.blocks, n.states.Keys, h);
  }

  /** What a restart remembers is canonical, and no further back than the window. */
  lemma {:induction false} RebuiltCanonical(rules: Rules, db: Db, h: Header, w: World, k: nat)
    requires Within(h, db.head)
    ensures h in Rebuilt(rules, db, h, w, k)
    ensures forall g :: g in Rebuilt(rules, db, h, w, k) ==> Within(g, db.head) && Within(g, h)
    decreases k
  {
    hide Back, RootMatches;
    if k > 0 && h.parentHash.Child? && h in db.revDiff {
      WithinTransitive(h.parentHash.parent, h, db.head);
      RebuiltCanonical(rules, db, h.parentHash.parent, Back(w, db.revDiff[h]), k - 1);
    }
  }

  lemma ReloadedSturdy(cfg: Config, n: Node)
    requires Sturdy(cfg, n) && Reloaded(cfg, n.db).Some?
    ensures Sturdy(cfg, Reloaded(cfg, n.db).value)
  {
    hide Rebuilt, RootMatches, Right;
    RebuiltCanonical(cfg.rules, n.db, n.db.head, Loaded(n.db), cfg.retention);
    var n' := Reloaded(cfg, n.db).value;
    forall h, a | h in n'.states && Within(a, h) ensures a in n.db.blocks && Right(cfg, a) {
      WithinTransitive(a, h, n.db.head);
      assert RightBranch(cfg, n.db.head);
    }
  }

  lemma {:induction false} RunSturdy(cfg: Config, n: Node, es: seq<Event>)
    requires Sturdy(cfg, n) && Run(cfg, n, es).Some?
    ensures Sturdy(cfg, Run(cfg, n, es).value)
    decreases |es|
  {
    hide Sturdy, Inserted, Reloaded;
    if es != [] {
      match es[0] {
        case Restart => ReloadedSturdy(cfg, n);
        case Arrive(b, now) => if Inserted(cfg, n, b, now).Some? { InsertedSturdy(cfg, n, b, now); }
      }
      RunSturdy(cfg, After(cfg, n, es[0]).value, es[1..]);
    }
  }

  /**
   After every run on a fresh database, each block on head's branch carries the retarget of its own ancestry, meets the
   target it claims, follows its parent and holds only sane transactions. The fallback to the genesis difficulty never
   reaches the canonical chain.
   */
  lemma CanonicalRetargets(cfg: Config, alloc: map<Address, nat>, es: seq<Event>)
    requires Buildable(cfg, alloc) && Run(cfg, Initial(cfg, alloc), es).Some?
    ensures var head := Run(cfg, Initial(cfg, alloc), es).value.db.head;
            forall g :: Within(g, head) && g.parentHash.Child? ==>
              && g.difficulty == RequiredFor(cfg.genesis.difficulty, g.parentHash.parent)
              && cfg.digest(g) <= Pow.PowTarget(g.difficulty)
              && Follows(g, g.parentHash.parent) && forall tx :: tx in g.txRoot ==> cfg.sane(tx)
  {
    hide Run, Initial, Buildable, RequiredFor;
    InitialSturdy(cfg, alloc);
    RunSturdy(cfg, Initial(cfg, alloc), es);
    var n := Run(cfg, Initial(cfg, alloc), es).value;
    assert RightBranch(cfg, n.db.head);
    forall g | Within(g, n.db.head) ensures Right(cfg, g) {
    }
  }

  // ----- one arrival -----

  /** No block is accepted that is dated more than 15 seconds ahead, that is known, or whose parent is not. */
  lemma ArrivalChecks(cfg: Config, n: Node, b: Block, now: int)
    ensures Inserted(cfg, n, b, now).Some? ==>
              && b.header.timestamp <= now + 15_000 && b.header !in n.db.blocks && b.header.parentHash.Child?
              && b.header.parentHash.parent in n.db.blocks && b.header.parentHash.parent in n.states
              && b.txs == b.header.txRoot
  {
    hide ApplyBlock, Required;
  }

  /** More work wins; at equal work the smaller hash does. */
  lemma HeavierMeans(cfg: Config, h: Header, head: Header)
    ensures Heavier(cfg, h, head) <==>
            Work(h) > Work(head) || (Work(h) == Work(head) && cfg.digest(h) < cfg.digest(head))
  {
  }

  /**
   Where an accepted block leaves the node. If it does not outrank head, it is kept beside it. If it does, it is the
   head: its fork was within the window, exactly the states within the window of the new head stay, and at a
   sweep exactly the side blocks below the window go.
   */
  lemma ArrivalMeans(cfg: Config, n: Node, b: Block, now: int)
    requires Sturdy(cfg, n) && Inserted(cfg, n, b, now).Some?
    ensures var n', h := Inserted(cfg, n, b, now).value, b.header;
            if !Heavier(cfg, h, n.db.head) then
              && n'.db.head == n.db.head && n'.db.blocks == n.db.blocks + {h} && n'.states.Keys == n.states.Keys + {h}
            else
              && n'.db.head == h && n.db.head.height <= ForkOf(n.db.head, h).height + cfg.retention
              && (forall g :: g in n'.states <==> (g in n.states || g == h) && g.height + cfg.retention >= h.height)
              && (forall g :: g in n'.db.blocks <==>
                    && (g in n.db.blocks || g == h)
                    && (h.height % cfg.gcInterval == 0 && g.height + cfg.retention < h.height ==>
                          g == cfg.genesis || Within(g, h)))
  {
    hide ApplyBlock, Required, Vouched, Written, Unwound, Recorded, CanonOf, Linked, Heavier, Within;
    var h := b.header;
    AdmissibleFollows(cfg, n, b, now);
    LinkedChild(cfg.genesis, h);
    LinkedCanon(cfg.genesis, h);
  }

  lemma LinkedChild(genesis: Header, h: Header)
    requires h.parentHash.Child? && h.height == h.parentHash.parent.height + 1 && Linked(genesis, h.parentHash.parent)
    ensures Linked(genesis, h)
  {
  }

  // ----- the retarget's window -----

  lemma {:induction false} WindowMeans(genesis: Header, h: Header, n: nat, i: nat)
    requires Linked(genesis, h) && n <= h.height && i <= n
    ensures |WindowOf(h, n)| == n + 1 && h.height - n + i in CanonOf(h)
    ensures WindowOf(h, n)[i] == TickOf(CanonOf(h)[h.height - n + i])
  {
    LinkedCanon(genesis, h);
    if n > 0 {
      var p := h.parentHash.parent;
      LinkedCanon(genesis, p);
      WindowMeans(genesis, p, n - 1, if i < n then i else 0);
    }
  }

  /** The retarget looks at the last 46 headers of the branch, or all of them if there are fewer, oldest first. */
  lemma RetargetWindow(genesis: Header, d: nat, parent: Header, window: seq<Pow.Tick>)
    requires Linked(genesis, parent)
    requires var n := if parent.height > 45 then 45 else parent.height;
             && |window| == n + 1 && (forall k: nat :: k in CanonOf(parent) <==> k <= parent.height)
             && forall i :: 0 <= i <= n ==> window[i] == TickOf(CanonOf(parent)[parent.height - n + i])
    ensures RequiredFor(d, parent) == if parent.height < 2 then d else Pow.Clamp(Pow.Raw(window))
  {
    hide WindowOf, Pow.Raw, CanonOf, Linked;
    var n := Span(parent);
    forall i | 0 <= i <= n ensures |WindowOf(parent, n)| == n + 1 && WindowOf(parent, n)[i] == window[i] {
      WindowMeans(genesis, parent, n, i);
    }
    assert WindowOf(parent, n) == window;
  }
}
