/**
 Growing rival branches of empty blocks on any node, to exhibit runs. The hash function is any that does not
 collide and meets the blocks' difficulty.
 */
module Branching {
  import opened Types
  import opened Worlds
  import opened Transition
  import opened Chain
  import opened Store
  import opened Trees
  import opened Shortfalls
  import Pow

  const T: nat := Pow.TARGET_BLOCK_TIME

  /** An empty block on parent, exactly on target, with the retarget of the branch it extends. */
  ghost function Next(c: Base, miner: Address, parent: Header): Header {
    Sealed(c.rules, if Good(c, parent) then StateAt(c, parent) else c.world, parent, parent.timestamp + T, miner,
           RequiredFor(c.genesis.difficulty, parent))
  }

  /** The miner's k-th block on base. */
  ghost function Tower(c: Base, miner: Address, base: Header, k: nat): Header {
    if k == 0 then base else Next(c, miner, Tower(c, miner, base, k - 1))
  }

  ghost predicate Mined(cfg: Config, h: Header) { cfg.digest(h) <= Pow.PowTarget(h.difficulty) }

  lemma NextFields(c: Base, miner: Address, parent: Header)
    ensures var h := Next(c, miner, parent);
            && h.parentHash == Child(parent) && h.height == parent.height + 1 && h.timestamp == parent.timestamp + T
            && h.gasLimit == parent.gasLimit && h.difficulty == RequiredFor(c.genesis.difficulty, parent)
            && Work(h) == Work(parent) + h.difficulty
  {
    hide RequiredFor, Paid, StateOf;
  }

  lemma {:induction false} TowerFields(c: Base, miner: Address, base: Header, k: nat)
    ensures var h := Tower(c, miner, base, k);
            && h.height == base.height + k && h.timestamp == base.timestamp + k * T && h.gasLimit == base.gasLimit
            && Within(base, h)
  {
    hide Next;
    if k > 0 {
      TowerFields(c, miner, base, k - 1);
      NextFields(c, miner, Tower(c, miner, base, k - 1));
    }
  }

  lemma {:induction false} TowerWithin(c: Base, miner: Address, base: Header, j: nat, k: nat)
    requires j <= k
    ensures Within(Tower(c, miner, base, j), Tower(c, miner, base, k))
  {
    hide Next;
    if j < k {
      TowerWithin(c, miner, base, j, k - 1);
      NextFields(c, miner, Tower(c, miner, base, k - 1));
    }
  }

  /** Two miners' second blocks on one base weigh the same. */
  lemma TwinsWeighTheSame(c: Base, x: Address, y: Address, g: Header)
    ensures Work(Tower(c, x, g, 1)) == Work(Tower(c, y, g, 1)) && Work(Tower(c, x, g, 2)) == Work(Tower(c, y, g, 2))
    ensures Work(Tower(c, x, g, 1)) == Work(g) + RequiredFor(c.genesis.difficulty, g)
    ensures Work(Tower(c, y, g, 2)) >= Work(Tower(c, y, g, 1))
  {
    hide Next, Pow.Raw;
    var c1, s1 := Tower(c, x, g, 1), Tower(c, y, g, 1);
    NextFields(c, x, g);
    NextFields(c, y, g);
    NextFields(c, x, c1);
    NextFields(c, y, s1);
    assert c1 == Next(c, x, Tower(c, x, g, 0)) && s1 == Next(c, y, Tower(c, y, g, 0));
    assert Tower(c, x, g, 2) == Next(c, x, c1) && Tower(c, y, g, 2) == Next(c, y, s1);
    assert WindowOf(c1, Span(c1)) == WindowOf(s1, Span(s1));
  }

  /** A sound node, with at least these blocks on disk and in memory. */
  ghost predicate Stands(c: Base, cfg: Config, n: Node, accepted: set<Header>, keep: set<Header>) {
    Trees.Sound(c, cfg, n, accepted) && keep <= n.db.blocks && keep <= n.states.Keys
  }

  lemma HeadStands(c: Base, cfg: Config, n: Node, accepted: set<Header>)
    requires Trees.Sound(c, cfg, n, accepted)
    ensures Stands(c, cfg, n, accepted, {n.db.head}) && c.genesis == cfg.genesis && c.rules == cfg.rules
  {
    hide StateOf;
    assert Within(n.db.head, n.db.head);
  }

  /** Head is the best block ever accepted, so a heavier one is new. */
  lemma HeavierIsNew(c: Base, cfg: Config, n: Node, accepted: set<Header>, h: Header)
    requires Trees.Sound(c, cfg, n, accepted) && Work(h) > Work(n.db.head)
    ensures h !in accepted && h !in n.db.blocks
  {
    hide StateOf, Rooted, Indexed, Work, True;
  }

  /** Going back from a block of head's branch, or from a child of one, every ancestor is on disk. */
  lemma AncestorsStored(c: Base, cfg: Config, n: Node, accepted: set<Header>, a: Header, h: Header)
    requires Trees.Sound(c, cfg, n, accepted) && Within(a, n.db.head)
    requires h == a || (h.parentHash == Child(a) && h.height == a.height + 1)
    ensures Required(n.db.blocks, cfg.genesis.difficulty, h) == RequiredFor(cfg.genesis.difficulty, h)
    ensures Linked(cfg.genesis, h)
  {
    hide StateOf, RequiredFor, Indexed, Ranked, True, ValidBase;
    GoodLinked(c, n.db.head);
    HeightsFall(cfg.genesis, a, n.db.head);
    forall g | Within(g, a) ensures g in n.db.blocks { WithinTransitive(g, a, n.db.head); }
    BranchStored(cfg.genesis, n.db.blocks, a, a.height);
    BranchStored(cfg.genesis, n.db.blocks, a, Span(a));
    if h != a && Span(h) > 0 { BranchStored(cfg.genesis, n.db.blocks, a, Span(h) - 1); }
  }

  /** After a sweep only the canonical chain is left below the window. */
  ghost predicate Swept(cfg: Config, n: Node) {
    n.db.head.height > cfg.retention && n.db.head.height % cfg.gcInterval == 0 ==>
      forall a :: a in n.db.blocks ==>
        a == cfg.genesis || a.height + cfg.retention >= n.db.head.height || Within(a, n.db.head)
  }

  /** The head is extended; what is still in the window stays. */
  lemma Extends(c: Base, cfg: Config, miner: Address, n: Node, accepted: set<Header>, keep: set<Header>, now: int)
    returns (n': Node)
    requires Stands(c, cfg, n, accepted, keep) && n.db.head.gasLimit >= MIN_BLOCK_GAS_LIMIT
    requires Mined(cfg, Next(c, miner, n.db.head)) && n.db.head.timestamp + T <= now
    requires forall k :: k in keep ==> k.height + cfg.retention >= n.db.head.height + 1
    ensures var h := Next(c, miner, n.db.head);
            && Inserted(cfg, n, Block(h, []), now) == Some(n') && n'.db.head == h
            && Stands(c, cfg, n', accepted + {h}, keep + {h}) && Swept(cfg, n')
  {
    hide StateOf, Trees.Sound, Paid, Sealed, RequiredFor, Required, Admissible, Inserted, Placed, Pruned, Swept;
    var head, h := n.db.head, Next(c, miner, n.db.head);
    SoundParts(c, cfg, n, accepted);
    HeadStands(c, cfg, n, accepted);
    NextFields(c, miner, head);
    AncestorsStored(c, cfg, n, accepted, head, head);
    RequiredPositive(n.db.blocks, cfg.genesis.difficulty, head);
    HeavierIsNew(c, cfg, n, accepted, h);
    ExtendStep(c, cfg, n, accepted, StateAt(c, head), head.timestamp + T, miner, now);
    n' := Inserted(cfg, n, Block(h, []), now).value;
    GoodLinked(c, h);
    PlacedThenPruned(cfg, n, h, StateAfter(cfg, n, Block(h, []), now), keep);
  }

  lemma PlacedThenPruned(cfg: Config, n: Node, h: Header, st: World, keep: set<Header>)
    requires keep <= n.db.blocks && keep <= n.states.Keys && Linked(cfg.genesis, h)
    requires forall k :: k in keep ==> k.height + cfg.retention >= h.height
    ensures var n' := Pruned(cfg, Placed(n, h, st));
            n'.db.head == h && keep + {h} <= n'.db.blocks && keep + {h} <= n'.states.Keys && Swept(cfg, n')
  {
    hide Written, Unwound, Recorded, CanonOf, Linked;
    LinkedCanon(cfg.genesis, h);
  }

  /** A block on a losing branch is kept beside the head. */
  lemma Sides(c: Base, cfg: Config, miner: Address, n: Node, accepted: set<Header>, keep: set<Header>, parent: Header,
              now: int)
    returns (n': Node)
    requires Stands(c, cfg, n, accepted, keep) && parent in keep && parent.gasLimit >= MIN_BLOCK_GAS_LIMIT
    requires Required(n.db.blocks, cfg.genesis.difficulty, parent) == RequiredFor(cfg.genesis.difficulty, parent)
    requires var h := Next(c, miner, parent); h !in accepted && Mined(cfg, h) && !Heavier(cfg, h, n.db.head)
    requires parent.timestamp + T <= now
    ensures var h := Next(c, miner, parent);
            && Inserted(cfg, n, Block(h, []), now) == Some(n') && n'.db == n.db.(blocks := n'.db.blocks, td := n'.db.td)
            && Stands(c, cfg, n', accepted + {h}, keep + {h})
  {
    hide StateOf, Trees.Sound, Paid, Sealed, RequiredFor, Required, Admissible, Inserted, Heavier;
    var h := Next(c, miner, parent);
    SoundParts(c, cfg, n, accepted);
    HeadStands(c, cfg, n, accepted);
    AcceptedHasBlocks(c, cfg, n, accepted);
    NextFields(c, miner, parent);
    SideStep(c, cfg, n, accepted, StateAt(c, parent), parent, parent.timestamp + T, miner, now);
    n' := Inserted(cfg, n, Block(h, []), now).value;
  }

  lemma AcceptedHasBlocks(c: Base, cfg: Config, n: Node, accepted: set<Header>)
    requires Trees.Sound(c, cfg, n, accepted)
    ensures n.db.blocks <= accepted
  {
  }

  lemma EqualWorkLoses(cfg: Config, h: Header, head: Header)
    requires Work(h) == Work(head) && cfg.digest(head) < cfg.digest(h)
    ensures !Heavier(cfg, h, head)
  {
  }

  // ----- two rivals on head -----

  /** x and y each mine a block on head, and at equal work that of x is preferred. */
  ghost predicate Rivals(c: Base, cfg: Config, n: Node, x: Address, y: Address, now: int) {
    var g, c1, s1 := n.db.head, Next(c, x, n.db.head), Next(c, y, n.db.head);
    && cfg.retention >= 1 && g.gasLimit >= MIN_BLOCK_GAS_LIMIT && g.timestamp + T <= now
    && Mined(cfg, c1) && Mined(cfg, s1) && cfg.digest(c1) < cfg.digest(s1)
  }

  /** The first extends head, the second is kept beside it. */
  lemma Opening(c: Base, cfg: Config, n: Node, accepted: set<Header>, x: Address, y: Address, now: int)
    returns (n1: Node, n2: Node)
    requires Trees.Sound(c, cfg, n, accepted) && Rivals(c, cfg, n, x, y, now)
    ensures var g, c1, s1 := n.db.head, Next(c, x, n.db.head), Next(c, y, n.db.head);
            && Inserted(cfg, n, Block(c1, []), now) == Some(n1) && Stands(c, cfg, n1, accepted + {c1}, {g, c1})
            && Inserted(cfg, n1, Block(s1, []), now) == Some(n2) && n1.db.head == c1 && n2.db.head == c1
            && Stands(c, cfg, n2, accepted + {c1} + {s1}, {g, c1, s1})
  {
    hide Trees.Sound, Next, Inserted, Heavier, Required, RequiredFor, Stands, Swept, Within;
    var g, c1, s1 := n.db.head, Next(c, x, n.db.head), Next(c, y, n.db.head);
    HeadStands(c, cfg, n, accepted);
    n1 := Extends(c, cfg, x, n, accepted, {g}, now);
    NextFields(c, x, g);
    NextFields(c, y, g);
    RivalIsNew(c, cfg, n, accepted, s1);
    StandsSound(c, cfg, n1, accepted + {c1}, {g} + {c1});
    ParentWithin(g, c1);
    AncestorsStored(c, cfg, n1, accepted + {c1}, g, g);
    EqualWorkLoses(cfg, s1, c1);
    n2 := Sides(c, cfg, y, n1, accepted + {c1}, {g} + {c1}, g, now);
    assert {g} + {c1} == {g, c1} && {g} + {c1} + {s1} == {g, c1, s1};
  }

  lemma StandsSound(c: Base, cfg: Config, n: Node, accepted: set<Header>, keep: set<Header>)
    requires Stands(c, cfg, n, accepted, keep)
    ensures Trees.Sound(c, cfg, n, accepted)
  {
    hide Trees.Sound;
  }

  lemma ParentWithin(p: Header, h: Header)
    requires h.parentHash == Child(p)
    ensures Within(p, h) && Within(h, h)
  {
    assert Within(p, p);
  }

  /** A child of head that carries its retarget has never been accepted. */
  lemma RivalIsNew(c: Base, cfg: Config, n: Node, accepted: set<Header>, s: Header)
    requires Trees.Sound(c, cfg, n, accepted) && s.parentHash == Child(n.db.head)
    requires s.difficulty == RequiredFor(cfg.genesis.difficulty, n.db.head)
    ensures s !in accepted && s !in n.db.blocks
  {
    hide Trees.Sound, RequiredFor, Required, StateOf;
    var g := n.db.head;
    ParentWithin(g, s);
    AncestorsStored(c, cfg, n, accepted, g, g);
    GenesisDifficulty(c, cfg, n, accepted);
    RequiredPositive(n.db.blocks, cfg.genesis.difficulty, g);
    HeavierIsNew(c, cfg, n, accepted, s);
  }

  lemma GenesisDifficulty(c: Base, cfg: Config, n: Node, accepted: set<Header>)
    requires Trees.Sound(c, cfg, n, accepted)
    ensures cfg.genesis.difficulty >= 1
  {
  }
}
