/**
 A run after which a fork's next block is asked for the wrong difficulty (core/blockchain.go:461-492), from any
 node that stands two blocks and a window below a sweep: two branches grow from its head, and the sweep takes the
 losing one's first block while its second is still remembered.
 */
module SweptAncestor {
  import opened Types
  import opened Transition
  import opened Chain
  import opened Store
  import opened Trees
  import opened Runs
  import opened Branching
  import Pow

  /** x mines up to the sweep, y two blocks; at equal work those of x are preferred. */
  ghost predicate Stage(c: Base, cfg: Config, n: Node, x: Address, y: Address, now: int) {
    var g, top := n.db.head, cfg.retention + 2;
    && cfg.retention >= 1 && (g.height + top) % cfg.gcInterval == 0
    && g.gasLimit >= MIN_BLOCK_GAS_LIMIT && g.timestamp + top * T <= now
    && (forall i :: 1 <= i <= top ==> Mined(cfg, Tower(c, x, g, i)))
    && (forall i :: 1 <= i <= 2 ==>
          Mined(cfg, Tower(c, y, g, i)) && cfg.digest(Tower(c, x, g, i)) < cfg.digest(Tower(c, y, g, i)))
  }

  function Arrival(h: Header, now: int): Event { Arrive(Block(h, []), now) }

  /** The miner's blocks j + 1 .. j + k on base. */
  ghost function Climbing(c: Base, miner: Address, base: Header, j: nat, k: nat, now: int): seq<Event> {
    seq(k, i requires 0 <= i < k => Arrival(Tower(c, miner, base, j + 1 + i), now))
  }

  /** Both branches, then the rest of the winning one. */
  ghost function Events(c: Base, cfg: Config, g: Header, x: Address, y: Address, now: int): seq<Event> {
    [Arrival(Tower(c, x, g, 1), now)] + ([Arrival(Tower(c, y, g, 1), now)] +
    ([Arrival(Tower(c, x, g, 2), now)] + ([Arrival(Tower(c, y, g, 2), now)] +
    Climbing(c, x, g, 2, cfg.retention, now))))
  }

  lemma RunFrom(cfg: Config, n: Node, h: Header, now: int, n': Node, rest: seq<Event>)
    requires Inserted(cfg, n, Block(h, []), now) == Some(n')
    ensures Run(cfg, n, [Arrival(h, now)] + rest) == Run(cfg, n', rest)
  {
    hide Inserted, Run;
    var es := [Arrival(h, now)] + rest;
    RunNext(cfg, n, es);
    assert es[1..] == rest;
  }

  /** Blocks j + 1 .. j + k of the winning branch; what stays in the window all the way stays. */
  lemma {:induction false} Climbs(c: Base, cfg: Config, x: Address, g: Header, j: nat, k: nat, n: Node,
                                  accepted: set<Header>, keep: set<Header>, now: int)
    returns (n': Node)
    requires Stands(c, cfg, n, accepted, keep) && n.db.head == Tower(c, x, g, j)
    requires g.gasLimit >= MIN_BLOCK_GAS_LIMIT && g.timestamp + (j + k) * T <= now
    requires forall i :: j < i <= j + k ==> Mined(cfg, Tower(c, x, g, i))
    requires forall h :: h in keep ==> h.height + cfg.retention >= g.height + j + k
    ensures Run(cfg, n, Climbing(c, x, g, j, k, now)) == Some(n') && n'.db.head == Tower(c, x, g, j + k)
    ensures keep <= n'.db.blocks && keep <= n'.states.Keys && (k > 0 ==> Swept(cfg, n'))
    ensures Linked(cfg.genesis, n'.db.head)
    decreases k
  {
    hide Stands, Next, Mined, Inserted, Run, Swept, Linked;
    if k == 0 {
      n' := n;
      RunNothing(cfg, n);
      StandsFacts(c, cfg, n, accepted, keep);
      assert Climbing(c, x, g, j, k, now) == [];
    } else {
      TowerFields(c, x, g, j);
      var h := Tower(c, x, g, j + 1);
      assert h == Next(c, x, Tower(c, x, g, j));
      var n1 := Extends(c, cfg, x, n, accepted, keep, now);
      StandsLess(c, cfg, n1, accepted + {h}, keep + {h}, keep);
      n' := Climbs(c, cfg, x, g, j + 1, k - 1, n1, accepted + {h}, keep, now);
      RunFrom(cfg, n, h, now, n1, Climbing(c, x, g, j + 1, k - 1, now));
      assert Climbing(c, x, g, j, k, now) == [Arrival(h, now)] + Climbing(c, x, g, j + 1, k - 1, now);
      if k == 1 { RunNothing(cfg, n1); }
    }
  }

  lemma StandsLess(c: Base, cfg: Config, n: Node, accepted: set<Header>, keep: set<Header>, less: set<Header>)
    requires Stands(c, cfg, n, accepted, keep) && less <= keep
    ensures Stands(c, cfg, n, accepted, less)
  {
    hide Trees.Sound;
  }

  lemma StandsFacts(c: Base, cfg: Config, n: Node, accepted: set<Header>, keep: set<Header>)
    requires Stands(c, cfg, n, accepted, keep)
    ensures keep <= n.db.blocks && keep <= n.states.Keys && Linked(cfg.genesis, n.db.head)
  {
    hide StateOf;
    GoodLinked(c, n.db.head);
  }

  /** The first four blocks: the losing branch's second is remembered. */
  lemma FourBlocks(c: Base, cfg: Config, n: Node, accepted: set<Header>, x: Address, y: Address, now: int)
    returns (n4: Node, acc: set<Header>)
    requires Trees.Sound(c, cfg, n, accepted) && Stage(c, cfg, n, x, y, now)
    ensures var g := n.db.head;
            && Stands(c, cfg, n4, acc, {Tower(c, y, g, 2)}) && n4.db.head == Tower(c, x, g, 2)
            && forall rest :: Run(cfg, n, [Arrival(Tower(c, x, g, 1), now)] + ([Arrival(Tower(c, y, g, 1), now)] +
                                          ([Arrival(Tower(c, x, g, 2), now)] + ([Arrival(Tower(c, y, g, 2), now)] +
                                          rest)))) == Run(cfg, n4, rest)
  {
    hide Trees.Sound, Stands, Next, Inserted, Run, Heavier, RequiredFor, Required, Work, Swept, Within;
    var g := n.db.head;
    var c1, s1, c2, s2 := Tower(c, x, g, 1), Tower(c, y, g, 1), Tower(c, x, g, 2), Tower(c, y, g, 2);
    TowersByHand(c, x, y, g);
    TowerFields(c, x, g, 1);
    TowerFields(c, y, g, 1);
    var n1, n2 := Opening(c, cfg, n, accepted, x, y, now);
    var acc2 := accepted + {c1} + {s1};
    StandsLess(c, cfg, n2, acc2, {g, c1, s1}, {s1});
    var n3 := Extends(c, cfg, x, n2, acc2, {s1}, now);
    NewTwice(c, cfg, n, accepted, x, y);
    StandsSound(c, cfg, n3, acc2 + {c2}, {s1} + {c2});
    BaseIsCanonical(c, x, g);
    NextFields(c, y, g);
    HeadStands(c, cfg, n, accepted);
    AncestorsStored(c, cfg, n3, acc2 + {c2}, g, s1);
    TwinsWeighTheSame(c, x, y, g);
    EqualWorkLoses(cfg, s2, c2);
    n4 := Sides(c, cfg, y, n3, acc2 + {c2}, {s1} + {c2}, s1, now);
    acc := acc2 + {c2} + {s2};
    StandsLess(c, cfg, n4, acc, {s1} + {c2} + {s2}, {s2});
    forall rest: seq<Event>
      ensures Run(cfg, n, [Arrival(c1, now)] + ([Arrival(s1, now)] + ([Arrival(c2, now)] + ([Arrival(s2, now)] +
                          rest)))) == Run(cfg, n4, rest)
    {
      RunFrom(cfg, n3, s2, now, n4, rest);
      RunFrom(cfg, n2, c2, now, n3, [Arrival(s2, now)] + rest);
      RunFrom(cfg, n1, s1, now, n2, [Arrival(c2, now)] + ([Arrival(s2, now)] + rest));
      RunFrom(cfg, n, c1, now, n1, [Arrival(s1, now)] + ([Arrival(c2, now)] + ([Arrival(s2, now)] + rest)));
    }
  }

  lemma TowersByHand(c: Base, x: Address, y: Address, g: Header)
    ensures Tower(c, x, g, 1) == Next(c, x, g) && Tower(c, y, g, 1) == Next(c, y, g)
    ensures Tower(c, x, g, 2) == Next(c, x, Tower(c, x, g, 1)) && Tower(c, y, g, 2) == Next(c, y, Tower(c, y, g, 1))
  {
    hide Next;
    assert Tower(c, x, g, 0) == g && Tower(c, y, g, 0) == g;
  }

  lemma BaseIsCanonical(c: Base, x: Address, g: Header)
    ensures Within(g, Tower(c, x, g, 2))
  {
    TowerFields(c, x, g, 2);
  }

  /** The losing branch's second block has never been accepted. */
  lemma NewTwice(c: Base, cfg: Config, n: Node, accepted: set<Header>, x: Address, y: Address)
    requires Trees.Sound(c, cfg, n, accepted)
    requires cfg.digest(Tower(c, x, n.db.head, 2)) < cfg.digest(Tower(c, y, n.db.head, 2))
    ensures var g := n.db.head;
            Tower(c, y, g, 2) !in accepted + {Tower(c, x, g, 1)} + {Tower(c, y, g, 1)} + {Tower(c, x, g, 2)}
  {
    hide Trees.Sound, Next, RequiredFor, Required, Work;
    var g := n.db.head;
    TwinsWeighTheSame(c, x, y, g);
    HeadStands(c, cfg, n, accepted);
    GenesisDifficulty(c, cfg, n, accepted);
    AncestorsStored(c, cfg, n, accepted, g, g);
    RequiredPositive(n.db.blocks, cfg.genesis.difficulty, g);
    HeavierIsNew(c, cfg, n, accepted, Tower(c, y, g, 2));
    TowerFields(c, x, g, 1);
    TowerFields(c, y, g, 1);
    TowerFields(c, y, g, 2);
  }

  /** At the sweep the losing branch's first block goes. */
  lemma FirstGoes(c: Base, cfg: Config, n: Node, x: Address, y: Address, g: Header)
    requires Swept(cfg, n) && n.db.head == Tower(c, x, g, 2 + cfg.retention) && Linked(cfg.genesis, n.db.head)
    requires (g.height + 2 + cfg.retention) % cfg.gcInterval == 0
    requires Tower(c, x, g, 1) != Tower(c, y, g, 1) && cfg.genesis.height == 0
    ensures Tower(c, y, g, 1) !in n.db.blocks
  {
    hide Next, Linked, Within;
    var c1, s1 := Tower(c, x, g, 1), Tower(c, y, g, 1);
    TowerFields(c, x, g, 1);
    TowerFields(c, y, g, 1);
    TowerFields(c, x, g, 2 + cfg.retention);
    TowerWithin(c, x, g, 1, 2 + cfg.retention);
    LinkedCanon(cfg.genesis, n.db.head);
  }

  /**
   After the run the losing branch's tip is on disk and in memory, its parent is not, and the node asks its next block
   for the genesis difficulty. Unless that happens to be the retarget of its own ancestry, the right block
   is refused.
   */
  lemma ForkBlockAskedForWrongDifficulty(c: Base, cfg: Config, n: Node, accepted: set<Header>, x: Address, y: Address,
                                         now: int)
    requires Trees.Sound(c, cfg, n, accepted) && Stage(c, cfg, n, x, y, now)
    ensures var s2, d := Tower(c, y, n.db.head, 2), cfg.genesis.difficulty;
            var run := Run(cfg, n, Events(c, cfg, n.db.head, x, y, now));
            && run.Some? && s2 in run.value.db.blocks && s2 in run.value.states
            && Required(run.value.db.blocks, d, s2) == d
            && (RequiredFor(d, s2) != d ==>
                  forall b: Block, t: int ::
                    b.header.parentHash == Child(s2) && b.header.difficulty == RequiredFor(d, s2) ==>
                      Inserted(cfg, run.value, b, t).None?)
  {
    hide Trees.Sound, Stands, Next, Run, RequiredFor, Inserted, Required, Swept, Linked, Mined;
    var g, d := n.db.head, cfg.genesis.difficulty;
    var s2 := Tower(c, y, g, 2);
    var n4, acc := FourBlocks(c, cfg, n, accepted, x, y, now);
    TowerFields(c, y, g, 2);
    var n' := Climbs(c, cfg, x, g, 2, cfg.retention, n4, acc, {s2}, now);
    GenesisHeight(c, cfg, n, accepted);
    FirstGoes(c, cfg, n', x, y, g);
    MissingParent(c, cfg, n', y, g);
    forall b: Block, t: int | b.header.parentHash == Child(s2) && b.header.difficulty == RequiredFor(d, s2) != d
      ensures Inserted(cfg, n', b, t).None?
    {
      WrongDifficultyRefused(cfg, n', s2, b, t);
    }
  }

  lemma GenesisHeight(c: Base, cfg: Config, n: Node, accepted: set<Header>)
    requires Trees.Sound(c, cfg, n, accepted)
    ensures cfg.genesis.height == 0
  {
  }

  lemma WrongDifficultyRefused(cfg: Config, n: Node, parent: Header, b: Block, now: int)
    requires b.header.parentHash == Child(parent)
    requires b.header.difficulty != Required(n.db.blocks, cfg.genesis.difficulty, parent)
    ensures Inserted(cfg, n, b, now).None?
  {
    hide Required, ApplyBlock;
  }

  lemma MissingParent(c: Base, cfg: Config, n: Node, y: Address, g: Header)
    requires Tower(c, y, g, 1) !in n.db.blocks
    ensures Required(n.db.blocks, cfg.genesis.difficulty, Tower(c, y, g, 2)) == cfg.genesis.difficulty
  {
    hide Next, RequiredFor;
    NextFields(c, y, Tower(c, y, g, 1));
    TowerFields(c, y, g, 2);
    assert Span(Tower(c, y, g, 2)) > 0;
  }

  /** On a fresh database the losing branch is exactly on target, and its own retarget 99% of the genesis difficulty. */
  lemma FreshForkAskedForWrongDifficulty(cfg: Config, alloc: map<Address, nat>, x: Address, y: Address, now: int)
    requires Buildable(cfg, alloc) && 2 <= cfg.genesis.difficulty <= Pow.MAX_DIFFICULTY
    requires Stage(BaseOf(cfg, alloc), cfg, Initial(cfg, alloc), x, y, now)
    ensures var c, d := BaseOf(cfg, alloc), cfg.genesis.difficulty;
            var s2, run := Tower(c, y, cfg.genesis, 2),
                           Run(cfg, Initial(cfg, alloc), Events(c, cfg, cfg.genesis, x, y, now));
            && run.Some? && s2 in run.value.states && RequiredFor(d, s2) == 99 * d / 100
            && forall b: Block, t: int ::
                 b.header.parentHash == Child(s2) && b.header.difficulty == 99 * d / 100 ==>
                   Inserted(cfg, run.value, b, t).None?
  {
    hide Stage, Run, Events, Inserted, Trees.Sound, Agrees, AllCovered, Next, RequiredFor, Required;
    var c, n := BaseOf(cfg, alloc), Initial(cfg, alloc);
    InitialSound(cfg, alloc);
    ForkBlockAskedForWrongDifficulty(c, cfg, n, {cfg.genesis}, x, y, now);
    OnTarget(c, y);
  }

  lemma OnTarget(c: Base, y: Address)
    requires c.genesis.parentHash.Origin? && c.genesis.height == 0 && 2 <= c.genesis.difficulty <= Pow.MAX_DIFFICULTY
    ensures var d := c.genesis.difficulty; RequiredFor(d, Tower(c, y, c.genesis, 2)) == 99 * d / 100 && 99 * d / 100 < d
  {
    hide Next, Pow.Raw;
    var g, s1, s2 := c.genesis, Tower(c, y, c.genesis, 1), Tower(c, y, c.genesis, 2);
    TowersByHand(c, y, y, g);
    NextFields(c, y, g);
    NextFields(c, y, s1);
    assert RequiredFor(g.difficulty, g) == g.difficulty && RequiredFor(g.difficulty, s1) == g.difficulty;
    assert WindowOf(g, 0) == [TickOf(g)] && WindowOf(s1, 1) == [TickOf(g), TickOf(s1)];
    assert WindowOf(s2, 2) == [TickOf(g), TickOf(s1), TickOf(s2)];
    Pow.SteadyState(WindowOf(s2, 2), g.difficulty);
  }
}
