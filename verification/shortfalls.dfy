/**
 Runs on which the node does not keep what it promises. The blocks are empty ones on any chain; the
 hash function is any that does not collide and meets their difficulty.
 */
module Shortfalls {
  import opened Types
  import opened Worlds
  import opened Issuance
  import opened Transition
  import opened Ledger
  import opened Chain
  import opened Store
  import opened ForkChoice
  import opened Trees
  import opened Restarts
  import opened Runs
  import Pow

  // ----- empty blocks -----

  function Paid(rules: Rules, w: World, miner: Address, height: nat): World {
    CreditBlockReward(rules, w.(touched := {}), miner, height)
  }

  /** An empty block on parent, whose state is w. */
  function Sealed(rules: Rules, w: World, parent: Header, timestamp: int, miner: Address, difficulty: nat): Header {
    var after := Paid(rules, w, miner, parent.height + 1);
    Header(Child(parent), parent.height + 1, timestamp, [], rules.receiptRoot([]),
           rules.stateRoot(after.accounts, after.burned),
           0, parent.gasLimit, miner, difficulty, 0)
  }

  /** Validation accepts it on any state with the same ledger, and marks at most miner and treasury. */
  lemma SealedIsAccepted(rules: Rules, w: World, v: World, parent: Header, timestamp: int, miner: Address,
                         difficulty: nat)
    requires SameLedger(v, w) && timestamp > parent.timestamp && parent.gasLimit >= MIN_BLOCK_GAS_LIMIT
    ensures var h := Sealed(rules, w, parent, timestamp, miner, difficulty);
            var o := ApplyBlock(rules, v, Block(h, []), Some(parent));
            && o.Accepted? && SameLedger(o.world, Paid(rules, w, miner, h.height))
            && o.world.touched <= {miner, rules.treasury}
  {
    hide CreditBlockReward, SlotOf;
    var h := Sealed(rules, w, parent, timestamp, miner, difficulty);
    PaidLedger(rules, w, v, miner, h.height);
    NoTransactions(rules, v.(touched := {}), SlotOf(h));
    assert HeaderError(h, Some(parent)).None?;
  }

  lemma NoTransactions(rules: Rules, w: World, at: Slot)
    ensures ApplyTxs(rules, w, [], at) == Some(BlockRun(w, [], 0))
  {
  }

  lemma PaidLedger(rules: Rules, w: World, v: World, miner: Address, height: nat)
    requires SameLedger(v, w)
    ensures SameLedger(Paid(rules, v, miner, height), Paid(rules, w, miner, height))
    ensures Paid(rules, v, miner, height).touched <= {miner, rules.treasury}
  {
    hide BlockRewardAt, TreasuryCut, Credit, Burn;
    var v0, w0 := v.(touched := {}), w.(touched := {});
    var cut := TreasuryCut(rules, BlockRewardAt(height));
    CreditLedger(w0, v0, rules.treasury, cut);
    CreditLedger(w0, v0, miner, BlockRewardAt(height) - cut);
    CreditLedger(Credit(w0, rules.treasury, cut), Credit(v0, rules.treasury, cut), miner, BlockRewardAt(height) - cut);
    BurnLedger(w0, v0, cut);
    CreditLedger(Burn(w0, cut), Burn(v0, cut), miner, BlockRewardAt(height) - cut);
  }

  lemma CreditLedger(w: World, v: World, a: Address, amount: int)
    requires SameLedger(v, w)
    ensures SameLedger(Credit(v, a, amount), Credit(w, a, amount)) && Credit(v, a, amount).touched == v.touched + {a}
  {
  }

  lemma BurnLedger(w: World, v: World, amount: int)
    requires SameLedger(v, w)
    ensures SameLedger(Burn(v, amount), Burn(w, amount)) && Burn(v, amount).touched == v.touched
  {
  }

  /** Whoever is not the treasury earns something for a block, as long as the treasury does not take it all. */
  lemma MinerEarns(rules: Rules, w: World, miner: Address, height: nat)
    requires Transition.Valid(rules) && rules.treasuryBps < 10000 && miner != rules.treasury
    requires BlockRewardAt(height) > 0
    ensures Balance(Paid(rules, w, miner, height), miner) > Balance(w, miner)
  {
    RewardSplit(rules, w.(touched := {}), miner, height);
    var reward := BlockRewardAt(height);
    assert reward * rules.treasuryBps / 10000 < reward by { ShareIsLess(reward, rules.treasuryBps); }
  }

  lemma ShareIsLess(reward: nat, bps: nat)
    requires reward > 0 && bps < 10000
    ensures reward * bps / 10000 < reward
  {
    assert reward * bps < reward * 10000;
  }

  lemma FirstRewards()
    ensures BlockRewardAt(1) > 0 && BlockRewardAt(2) > 0
  {
    assert EraReward(0) == BASE_REWARD;
  }

  /** An empty block that is heavier and can be followed becomes the head, with the ledger it was sealed for. */
  lemma SealedArrives(c: Base, cfg: Config, n: Node, accepted: set<Header>, w: World, parent: Header, timestamp: int,
                      miner: Address, now: int)
    requires Trees.Sound(c, cfg, n, accepted) && parent in n.db.blocks && parent in n.states
    requires SameLedger(n.states[parent], w)
    requires parent.gasLimit >= MIN_BLOCK_GAS_LIMIT && parent.timestamp < timestamp <= now
    requires var d := Required(n.db.blocks, cfg.genesis.difficulty, parent);
             var h := Sealed(cfg.rules, w, parent, timestamp, miner, d);
             && h !in n.db.blocks && cfg.digest(h) <= Pow.PowTarget(d) && Heavier(cfg, h, n.db.head)
             && Followable(cfg, n, h)
    ensures var d := Required(n.db.blocks, cfg.genesis.difficulty, parent);
            var h := Sealed(cfg.rules, w, parent, timestamp, miner, d);
            var b := Block(h, []);
            && Admissible(cfg, n, b, now) && Good(c, h) && Good(c, parent)
            && SameLedger(StateAt(c, h), Paid(cfg.rules, w, miner, h.height))
            && StateAfter(cfg, n, b, now).touched <= {miner, cfg.rules.treasury}
            && Inserted(cfg, n, b, now) == Some(Pruned(cfg, Placed(n, h, StateAfter(cfg, n, b, now))))
            && Trees.Sound(c, cfg, Inserted(cfg, n, b, now).value, accepted + {h})
  {
    hide StateOf, Trees.Sound, Required, ApplyBlock, Pruned, Placed, Followable, Heavier, Covered, Sealed, Paid;
    var d := Required(n.db.blocks, cfg.genesis.difficulty, parent);
    var h := Sealed(cfg.rules, w, parent, timestamp, miner, d);
    SealedFields(cfg.rules, w, parent, timestamp, miner, d);
    SealedIsAccepted(cfg.rules, w, n.states[parent], parent, timestamp, miner, d);
    AdmissibleIsGood(c, cfg, n, accepted, Block(h, []), now);
    InsertedSound(c, cfg, n, accepted, Block(h, []), now);
  }

  lemma SealedFields(rules: Rules, w: World, parent: Header, timestamp: int, miner: Address, difficulty: nat)
    ensures var h := Sealed(rules, w, parent, timestamp, miner, difficulty);
            && h.parentHash == Child(parent) && h.height == parent.height + 1 && h.timestamp == timestamp
            && h.txRoot == []
            && h.difficulty == difficulty && h.gasLimit == parent.gasLimit && h.proposer == miner
  {
  }

  // ----- a restart, then a reorg away and back -----

  /** The blocks of the run: two rivals on genesis, mined by x and y, and one by z on the first. */
  datatype Rivals = Rivals(a1: Header, b1: Header, a2: Header)

  ghost function RivalsOf(cfg: Config, alloc: map<Address, nat>, x: Address, y: Address, z: Address): Rivals {
    var g, w, d := cfg.genesis, GenesisWorld(alloc), cfg.genesis.difficulty;
    var a1 := Sealed(cfg.rules, w, g, g.timestamp + 1, x, d);
    Rivals(a1, Sealed(cfg.rules, w, g, g.timestamp + 1, y, d),
           Sealed(cfg.rules, Paid(cfg.rules, w, x, 1), a1, g.timestamp + 2, z, d))
  }

  /**
   The rivals are mined, the second is preferred at equal work, and x earns what neither z nor the treasury
   touches.
   */
  ghost predicate Stage(cfg: Config, alloc: map<Address, nat>, x: Address, y: Address, z: Address, now: int) {
    var r, target := RivalsOf(cfg, alloc, x, y, z), Pow.PowTarget(cfg.genesis.difficulty);
    && Buildable(cfg, alloc) && cfg.genesis.gasLimit >= MIN_BLOCK_GAS_LIMIT && now >= cfg.genesis.timestamp + 2
    && cfg.rules.treasuryBps < 10000 && x != cfg.rules.treasury && x != y && x != z && cfg.retention >= 1
    && cfg.digest(r.a1) <= target && cfg.digest(r.b1) < cfg.digest(r.a1) && cfg.digest(r.a2) <= target
  }

  lemma RivalFacts(cfg: Config, alloc: map<Address, nat>, x: Address, y: Address, z: Address, now: int)
    requires Stage(cfg, alloc, x, y, z, now)
    ensures var r, g := RivalsOf(cfg, alloc, x, y, z), cfg.genesis;
            && r.a1.parentHash == Child(g) && r.b1.parentHash == Child(g) && r.a2.parentHash == Child(r.a1)
            && r.a1 != r.b1 && r.a1 != g && r.b1 != g && r.a2 != r.a1 && r.a2 != r.b1 && r.a2 != g
            && r.a1.height == 1 && r.b1.height == 1 && r.a2.height == 2
            && r.a1.gasLimit == g.gasLimit && r.a1.timestamp == g.timestamp + 1
            && Work(r.a1) == 2 * g.difficulty && Work(r.b1) == 2 * g.difficulty && Work(r.a2) == 3 * g.difficulty
  {
    hide Paid, Injective, Transition.Valid;
  }

  /** Two rivals on genesis and a child of the first: how their branches lie. */
  lemma ThreeBlocks(g: Header, a1: Header, b1: Header, a2: Header)
    requires g.parentHash.Origin? && a1.parentHash == Child(g) && b1.parentHash == Child(g)
    requires a2.parentHash == Child(a1)
    requires a1 != b1 && a2 != a1 && a2 != b1
    ensures ForkOf(g, a1) == g && ForkOf(a1, b1) == g && ForkOf(b1, a2) == g
    ensures forall h :: Above(h, g, a1) ==> h == a1
    ensures forall h :: Above(h, g, b1) ==> h == b1
    ensures forall h :: Above(h, g, a2) ==> h == a2 || h == a1
  {
    assert a1.parentHash.Child? && b1.parentHash.Child? && a2.parentHash.Child?;
    OnlyGenesis(g, a1);
    OnlyGenesis(g, b1);
    OnlyGenesis(g, a2);
    assert Within(b1, a1) <==> b1 == a1 || Within(b1, g);
    assert Within(a1, b1) <==> a1 == b1 || Within(a1, g);
    assert Within(a2, b1) <==> a2 == b1 || Within(a2, g);
    assert ForkOf(b1, a1) == ForkOf(b1, g);
    forall h ensures !Above(h, g, g) {
    }
    forall h ensures Above(h, g, a1) ==> h == a1 {
      assert !Above(h, g, g);
    }
    forall h ensures Above(h, g, b1) ==> h == b1 {
      assert !Above(h, g, g);
    }
    forall h ensures Above(h, g, a2) ==> h == a2 || h == a1 {
      assert Above(h, g, a1) ==> h == a1;
    }
  }

  lemma OnlyGenesis(g: Header, h: Header)
    requires g.parentHash.Origin? && h.parentHash.Child?
    ensures !Within(h, g) && h != g && (h.parentHash.parent == g ==> Within(g, h))
  {
  }

  /** The fork choice between the three. */
  lemma RivalRanks(cfg: Config, alloc: map<Address, nat>, x: Address, y: Address, z: Address, now: int)
    requires Stage(cfg, alloc, x, y, z, now)
    ensures var r, g := RivalsOf(cfg, alloc, x, y, z), cfg.genesis;
            Heavier(cfg, r.a1, g) && Heavier(cfg, r.b1, r.a1) && Heavier(cfg, r.a2, r.b1)
  {
    RivalFacts(cfg, alloc, x, y, z, now);
    hide RivalsOf, Injective;
    assert Work(cfg.genesis) == cfg.genesis.difficulty;
  }

  /**
   Insert the first rival, restart, insert the second: the head moves away. Insert a block on the first: the
   head moves back over a block restored without marks, whose changes are not written. The account table is
   then wrong, and the next restart refuses the database unless roots collide.
   */
  lemma RestartThenReorgBreaksDisk(cfg: Config, alloc: map<Address, nat>, x: Address, y: Address, z: Address, now: int)
    requires Stage(cfg, alloc, x, y, z, now)
    ensures var r := RivalsOf(cfg, alloc, x, y, z);
            var run := Run(cfg, Initial(cfg, alloc),
                           [Arrive(Block(r.a1, []), now), Restart, Arrive(Block(r.b1, []), now),
                            Arrive(Block(r.a2, []), now)]);
            && run.Some? && run.value.db.head == r.a2 && !Balanced(BaseOf(cfg, alloc), run.value.db)
            && (RootsDetermine(cfg.rules) ==> Reloaded(cfg, run.value.db).None?)
  {
    hide Stage, RivalsOf, Run, Initial, Trees.Sound, Agrees, RootsDetermine, Balanced, Reloaded;
    var c, r := BaseOf(cfg, alloc), RivalsOf(cfg, alloc, x, y, z);
    var n1 := FirstRival(cfg, alloc, x, y, z, now);
    var n2 := Rebooted(cfg, alloc, x, y, z, now, n1);
    var n3 := SecondRival(cfg, alloc, x, y, z, now, n2);
    var n4 := BackAgain(cfg, alloc, x, y, z, now, n3);
    FourEvents(cfg, Initial(cfg, alloc), Block(r.a1, []), Block(r.b1, []), Block(r.a2, []), now, n1, n2, n3, n4);
    ReloadedIff(c, cfg, n4, {cfg.genesis, r.a1, r.b1, r.a2});
  }

  lemma FourEvents(cfg: Config, n: Node, a1: Block, b1: Block, a2: Block, now: int, n1: Node, n2: Node, n3: Node,
                   n4: Node)
    requires Inserted(cfg, n, a1, now) == Some(n1) && Reloaded(cfg, n1.db) == Some(n2)
    requires Inserted(cfg, n2, b1, now) == Some(n3) && Inserted(cfg, n3, a2, now) == Some(n4)
    ensures Run(cfg, n, [Arrive(a1, now), Restart, Arrive(b1, now), Arrive(a2, now)]) == Some(n4)
  {
    hide Inserted, Reloaded, Run;
    var e1, e2, e3, e4 := Arrive(a1, now), Restart, Arrive(b1, now), Arrive(a2, now);
    RunNext(cfg, n, [e1, e2, e3, e4]);
    assert [e1, e2, e3, e4][1..] == [e2, e3, e4] && [e2, e3, e4][1..] == [e3, e4];
    assert [e3, e4][1..] == [e4] && [e4][1..] == [];
    RunNext(cfg, n1, [e2, e3, e4]);
    RunNext(cfg, n2, [e3, e4]);
    RunNext(cfg, n3, [e4]);
    RunNothing(cfg, n4);
  }

  /** Up to height 1 the difficulty is that of genesis, and with a window of at least one nothing is pruned. */
  lemma EarlyRules(cfg: Config, blocks: set<Header>, parent: Header, n: Node)
    ensures parent.height <= 1 ==> Required(blocks, cfg.genesis.difficulty, parent) == cfg.genesis.difficulty
    ensures n.db.head.height <= cfg.retention ==> Pruned(cfg, n) == n
  {
    hide WindowOf;
  }

  lemma FirstRival(cfg: Config, alloc: map<Address, nat>, x: Address, y: Address, z: Address, now: int)
    returns (n1: Node)
    requires Stage(cfg, alloc, x, y, z, now)
    ensures var c, r, g := BaseOf(cfg, alloc), RivalsOf(cfg, alloc, x, y, z), cfg.genesis;
            && Inserted(cfg, Initial(cfg, alloc), Block(r.a1, []), now) == Some(n1)
            && Trees.Sound(c, cfg, n1, {g, r.a1}) && Agrees(c, n1.db) && n1.db.head == r.a1 && n1.db.blocks == {g, r.a1}
            && Good(c, r.a1) && SameLedger(StateAt(c, r.a1), Paid(cfg.rules, GenesisWorld(alloc), x, 1))
  {
    hide StateOf, Trees.Sound, Agrees, AllCovered, Sealed, Paid, Clean, LastMarksRight, Required, Pruned, Injective,
         Written, Unwound, Recorded;
    var c, r, g := BaseOf(cfg, alloc), RivalsOf(cfg, alloc, x, y, z), cfg.genesis;
    var n0 := Initial(cfg, alloc);
    RivalFacts(cfg, alloc, x, y, z, now);
    RivalRanks(cfg, alloc, x, y, z, now);
    ThreeBlocks(g, r.a1, r.b1, r.a2);
    InitialSound(cfg, alloc);
    EarlyRules(cfg, n0.db.blocks, g, n0);
    SealedArrives(c, cfg, n0, {g}, GenesisWorld(alloc), g, g.timestamp + 1, x, now);
    var b := Block(r.a1, []);
    n1 := Inserted(cfg, n0, b, now).value;
    EarlyRules(cfg, n0.db.blocks, g, Placed(n0, r.a1, StateAfter(cfg, n0, b, now)));
    InsertedAgrees(c, cfg, n0, {g}, b, now);
    InsertedCovered(c, cfg, n0, {g}, b, now);
    assert {g} + {r.a1} == {g, r.a1};
  }

  /** The first rival stands, without marks; genesis is remembered too. */
  ghost predicate Standing(cfg: Config, alloc: map<Address, nat>, x: Address, y: Address, z: Address, n: Node) {
    var r, g, w := RivalsOf(cfg, alloc, x, y, z), cfg.genesis, GenesisWorld(alloc);
    && g in n.states && SameLedger(n.states[g], w)
    && r.a1 in n.states && SameLedger(n.states[r.a1], Paid(cfg.rules, w, x, 1)) && n.states[r.a1].touched == {}
  }

  lemma Rebooted(cfg: Config, alloc: map<Address, nat>, x: Address, y: Address, z: Address, now: int, n1: Node)
    returns (n2: Node)
    requires Stage(cfg, alloc, x, y, z, now)
    requires var c, r, g := BaseOf(cfg, alloc), RivalsOf(cfg, alloc, x, y, z), cfg.genesis;
             && Trees.Sound(c, cfg, n1, {g, r.a1}) && Agrees(c, n1.db) && n1.db.head == r.a1
             && Good(c, r.a1) && SameLedger(StateAt(c, r.a1), Paid(cfg.rules, GenesisWorld(alloc), x, 1))
    ensures var c, r, g := BaseOf(cfg, alloc), RivalsOf(cfg, alloc, x, y, z), cfg.genesis;
            && Reloaded(cfg, n1.db) == Some(n2) && Trees.Sound(c, cfg, n2, {g, r.a1}) && n2.db == n1.db
            && Standing(cfg, alloc, x, y, z, n2)
  {
    var c, r, g := BaseOf(cfg, alloc), RivalsOf(cfg, alloc, x, y, z), cfg.genesis;
    RivalFacts(cfg, alloc, x, y, z, now);
    assert StateOf(c, g) == Some(c.world) && cfg.retention >= 1;
    hide StateOf, Trees.Sound, Paid, RivalsOf, Stage, Reloaded, Agrees, RootsDetermine;
    AgreesIsBalanced(c, n1.db);
    ReloadedIff(c, cfg, n1, {g, r.a1});
    ReloadedSound(c, cfg, n1, {g, r.a1});
    n2 := Reloaded(cfg, n1.db).value;
    SoundParts(c, cfg, n2, {g, r.a1});
    assert Within(r.a1, r.a1) && Within(g, r.a1);
  }

  lemma AgreesIsBalanced(c: Base, db: Db)
    requires Agrees(c, db)
    ensures Balanced(c, db)
  {
  }

  lemma SecondRival(cfg: Config, alloc: map<Address, nat>, x: Address, y: Address, z: Address, now: int, n2: Node)
    returns (n3: Node)
    requires Stage(cfg, alloc, x, y, z, now) && Standing(cfg, alloc, x, y, z, n2)
    requires var c, r, g := BaseOf(cfg, alloc), RivalsOf(cfg, alloc, x, y, z), cfg.genesis;
             && Trees.Sound(c, cfg, n2, {g, r.a1}) && Agrees(c, n2.db) && n2.db.head == r.a1
             && n2.db.blocks == {g, r.a1}
    ensures var c, r, g := BaseOf(cfg, alloc), RivalsOf(cfg, alloc, x, y, z), cfg.genesis;
            && Inserted(cfg, n2, Block(r.b1, []), now) == Some(n3) && Trees.Sound(c, cfg, n3, {g, r.a1, r.b1})
            && Agrees(c, n3.db)
            && n3.db.head == r.b1 && n3.db.blocks == {g, r.a1, r.b1} && Standing(cfg, alloc, x, y, z, n3)
  {
    hide StateOf, Trees.Sound, Agrees, Sealed, Paid, LastMarksRight, Required, Pruned, Injective, Written, Unwound,
         Recorded;
    var c, r, g := BaseOf(cfg, alloc), RivalsOf(cfg, alloc, x, y, z), cfg.genesis;
    RivalFacts(cfg, alloc, x, y, z, now);
    RivalRanks(cfg, alloc, x, y, z, now);
    ThreeBlocks(g, r.a1, r.b1, r.a2);
    EarlyRules(cfg, n2.db.blocks, g, n2);
    SealedArrives(c, cfg, n2, {g, r.a1}, GenesisWorld(alloc), g, g.timestamp + 1, y, now);
    var b := Block(r.b1, []);
    n3 := Inserted(cfg, n2, b, now).value;
    EarlyRules(cfg, n2.db.blocks, g, Placed(n2, r.b1, StateAfter(cfg, n2, b, now)));
    InsertedAgrees(c, cfg, n2, {g, r.a1}, b, now);
    assert {g, r.a1} + {r.b1} == {g, r.a1, r.b1};
  }

  lemma BackAgain(cfg: Config, alloc: map<Address, nat>, x: Address, y: Address, z: Address, now: int, n3: Node)
    returns (n4: Node)
    requires Stage(cfg, alloc, x, y, z, now) && Standing(cfg, alloc, x, y, z, n3)
    requires var c, r, g := BaseOf(cfg, alloc), RivalsOf(cfg, alloc, x, y, z), cfg.genesis;
             && Trees.Sound(c, cfg, n3, {g, r.a1, r.b1}) && Agrees(c, n3.db)
             && n3.db.head == r.b1 && n3.db.blocks == {g, r.a1, r.b1}
    ensures var c, r, g := BaseOf(cfg, alloc), RivalsOf(cfg, alloc, x, y, z), cfg.genesis;
            && Inserted(cfg, n3, Block(r.a2, []), now) == Some(n4) && Trees.Sound(c, cfg, n4, {g, r.a1, r.b1, r.a2})
            && n4.db.head == r.a2 && !Balanced(c, n4.db)
  {
    hide StateOf, Trees.Sound, Agrees, Sealed, Paid, Clean, Required, Pruned, Placed, Injective, LastMarksRight,
         Balanced, Followable,
         Heavier, ForkOf, Admissible, Inserted, Covered;
    var c, r, g := BaseOf(cfg, alloc), RivalsOf(cfg, alloc, x, y, z), cfg.genesis;
    RivalFacts(cfg, alloc, x, y, z, now);
    RivalRanks(cfg, alloc, x, y, z, now);
    EarlyRules(cfg, n3.db.blocks, r.a1, n3);
    BackFollowable(cfg, alloc, x, y, z, now, n3);
    SealedArrives(c, cfg, n3, {g, r.a1, r.b1}, Paid(cfg.rules, GenesisWorld(alloc), x, 1), r.a1, g.timestamp + 2, z,
                  now);
    var b := Block(r.a2, []);
    n4 := Inserted(cfg, n3, b, now).value;
    InsertedAgrees(c, cfg, n3, {g, r.a1, r.b1}, b, now);
    GenesisState(c);
    MarksMissing(cfg, alloc, x, y, z, now, n3, StateAfter(cfg, n3, b, now));
    PrunedHead(cfg, Placed(n3, r.a2, StateAfter(cfg, n3, b, now)));
    PlacedHead(n3, r.a2, StateAfter(cfg, n3, b, now));
    assert {g, r.a1, r.b1} + {r.a2} == {g, r.a1, r.b1, r.a2};
  }

  lemma GenesisState(c: Base)
    ensures Good(c, c.genesis) && StateAt(c, c.genesis) == c.world
  {
  }

  lemma BackFollowable(cfg: Config, alloc: map<Address, nat>, x: Address, y: Address, z: Address, now: int, n3: Node)
    requires Stage(cfg, alloc, x, y, z, now) && Standing(cfg, alloc, x, y, z, n3)
    requires var r := RivalsOf(cfg, alloc, x, y, z); n3.db.head == r.b1 && r.a1 in n3.db.blocks
    ensures Followable(cfg, n3, RivalsOf(cfg, alloc, x, y, z).a2)
  {
    hide Sealed, Paid, Injective;
    RivalFacts(cfg, alloc, x, y, z, now);
    var r := RivalsOf(cfg, alloc, x, y, z);
    ThreeBlocks(cfg.genesis, r.a1, r.b1, r.a2);
  }

  lemma PrunedHead(cfg: Config, n: Node)
    ensures Pruned(cfg, n).db.head == n.db.head
  {
  }

  /** x was last marked by nobody, so the table has x as genesis had it, without the reward of the first rival. */
  lemma MarksMissing(cfg: Config, alloc: map<Address, nat>, x: Address, y: Address, z: Address, now: int, n3: Node,
                     st: World)
    requires Stage(cfg, alloc, x, y, z, now) && Standing(cfg, alloc, x, y, z, n3)
    requires st.touched <= {z, cfg.rules.treasury}
    requires var c, r := BaseOf(cfg, alloc), RivalsOf(cfg, alloc, x, y, z);
             && n3.db.head == r.b1 && Good(c, r.a2) && Good(c, cfg.genesis)
             && StateAt(c, cfg.genesis) == GenesisWorld(alloc)
             && SameLedger(StateAt(c, r.a2), Paid(cfg.rules, Paid(cfg.rules, GenesisWorld(alloc), x, 1), z, 2))
    ensures !LastMarksRight(BaseOf(cfg, alloc), n3, RivalsOf(cfg, alloc, x, y, z).a2, st)
  {
    hide StateOf, Paid, Sealed, Injective;
    var c, r, g, w := BaseOf(cfg, alloc), RivalsOf(cfg, alloc, x, y, z), cfg.genesis, GenesisWorld(alloc);
    RivalFacts(cfg, alloc, x, y, z, now);
    ThreeBlocks(g, r.a1, r.b1, r.a2);
    var sts, w1 := n3.states[r.a2 := st], Paid(cfg.rules, w, x, 1);
    assert LastMarked(w.accounts, sts, g, r.a1, x) == LastMarked(w.accounts, sts, g, g, x) == At(w.accounts, x);
    assert LastMarked(w.accounts, sts, g, r.a2, x) == LastMarked(w.accounts, sts, g, r.a1, x);
    FirstRewards();
    MinerEarns(cfg.rules, w, x, 1);
    OthersKeep(cfg.rules, w1, z, 2, x);
    assert At(StateAt(c, r.a2).accounts, x) != At(w.accounts, x) by {
      SameAtSameBalance(Paid(cfg.rules, w1, z, 2), w, x);
    }
  }

  lemma OthersKeep(rules: Rules, w: World, miner: Address, height: nat, a: Address)
    requires Transition.Valid(rules) && a != miner && a != rules.treasury
    ensures Balance(Paid(rules, w, miner, height), a) == Balance(w, a)
  {
    hide BlockRewardAt;
    RewardSplit(rules, w.(touched := {}), miner, height);
  }

  lemma SameAtSameBalance(w: World, v: World, a: Address)
    ensures At(w.accounts, a) == At(v.accounts, a) ==> Balance(w, a) == Balance(v, a)
  {
  }

  /**
   A restored state carries no marks. Unless a block burns exactly what it mints, it changes some account, so
   no marks do not cover it: replayed in a reorg, its undo record is wrong.
   */
  lemma RestoredBlockIsUncovered(c: Base, h: Header)
    requires ValidBase(c) && Good(c, h) && h != c.genesis
    ensures h.parentHash.Child? && Good(c, h.parentHash.parent)
    ensures StateAt(c, h).burned - StateAt(c, h.parentHash.parent).burned != BlockRewardAt(h.height) ==>
              !Covered(c, h, {})
  {
    hide StateOf, ApplyBlock, BlockRewardAt;
    GoodParent(c, h);
    var p := h.parentHash.parent;
    ApplyBlockFacts(c.rules, StateAt(c, p), Block(h, h.txRoot), Some(p));
    if Covered(c, h, {}) {
      SameEverywhere(StateAt(c, p).accounts, StateAt(c, h).accounts);
    }
  }

  // ----- an ancestor swept off disk -----

  /** a is one of the n nearest ancestors of h. */
  predicate Near(a: Header, h: Header, n: nat) {
    n > 0 && h.parentHash.Child? && (a == h.parentHash.parent || Near(a, h.parentHash.parent, n - 1))
  }

  /** On any branch, the node asks for the retarget exactly as long as no ancestor of the window is missing. */
  lemma {:induction false} StoredIffNearOnDisk(genesis: Header, blocks: set<Header>, h: Header, n: nat)
    requires Linked(genesis, h) && n <= h.height
    ensures Stored(blocks, h, n) <==> forall a :: Near(a, h, n) ==> a in blocks
  {
    if n > 0 {
      var p := h.parentHash.parent;
      StoredIffNearOnDisk(genesis, blocks, p, n - 1);
      assert Near(p, h, n);
      assert forall a :: Near(a, p, n - 1) ==> Near(a, h, n);
    }
  }

  /**
   With any window and interval, a branch is still held to its own retarget after a sweep exactly when none of the
   ancestors looked back over is a side block below the window.
   */
  lemma RetargetSurvivesSweepIff(cfg: Config, n: Node, parent: Header)
    requires Linked(cfg.genesis, parent) && Stored(n.db.blocks, parent, Span(parent))
    requires n.db.head.height > cfg.retention && n.db.head.height % cfg.gcInterval == 0
    ensures Stored(Pruned(cfg, n).db.blocks, parent, Span(parent)) <==>
            forall a :: Near(a, parent, Span(parent)) ==>
              || a == cfg.genesis || a.height + cfg.retention >= n.db.head.height
              || (a.height in n.db.canonical && n.db.canonical[a.height] == a)
  {
    StoredIffNearOnDisk(cfg.genesis, n.db.blocks, parent, Span(parent));
    StoredIffNearOnDisk(cfg.genesis, Pruned(cfg, n).db.blocks, parent, Span(parent));
  }

  /** When the sweep takes one of them, the node asks a fork's next block for the genesis difficulty. */
  lemma SweptAncestorResetsDifficulty(genesis: Header, db: Db, cutoff: nat, parent: Header, a: Header)
    requires Linked(genesis, parent) && Near(a, parent, Span(parent))
    requires a != genesis && a.height < cutoff && !(a.height in db.canonical && db.canonical[a.height] == a)
    ensures Required(Sweep(db, genesis, cutoff).blocks, genesis.difficulty, parent) == genesis.difficulty
  {
    hide RequiredFor;
    var blocks := Sweep(db, genesis, cutoff).blocks;
    StoredIffNearOnDisk(genesis, blocks, parent, Span(parent));
    assert a !in blocks;
  }

  lemma ExtendStep(c: Base, cfg: Config, n: Node, accepted: set<Header>, w: World, timestamp: int, miner: Address,
                   now: int)
    requires Trees.Sound(c, cfg, n, accepted) && Good(c, n.db.head) && SameLedger(StateAt(c, n.db.head), w)
    requires n.db.head.gasLimit >= MIN_BLOCK_GAS_LIMIT && n.db.head.timestamp < timestamp <= now
    requires var d := Required(n.db.blocks, cfg.genesis.difficulty, n.db.head);
             var h := Sealed(cfg.rules, w, n.db.head, timestamp, miner, d);
             h !in n.db.blocks && cfg.digest(h) <= Pow.PowTarget(d)
    ensures var d := Required(n.db.blocks, cfg.genesis.difficulty, n.db.head);
            var h := Sealed(cfg.rules, w, n.db.head, timestamp, miner, d);
            var b := Block(h, []);
            && Admissible(cfg, n, b, now) && Good(c, h)
            && SameLedger(StateAt(c, h), Paid(cfg.rules, w, miner, h.height))
            && Inserted(cfg, n, b, now) == Some(Pruned(cfg, Placed(n, h, StateAfter(cfg, n, b, now))))
            && Trees.Sound(c, cfg, Inserted(cfg, n, b, now).value, accepted + {h})
  {
    hide StateOf, Trees.Sound, Required, Sealed, Paid, Admissible, Inserted, Pruned, Placed, Followable, Heavier;
    SoundParts(c, cfg, n, accepted);
    var d := Required(n.db.blocks, cfg.genesis.difficulty, n.db.head);
    var h := Sealed(cfg.rules, w, n.db.head, timestamp, miner, d);
    SealedFields(cfg.rules, w, n.db.head, timestamp, miner, d);
    RequiredPositive(n.db.blocks, cfg.genesis.difficulty, n.db.head);
    ChildOfHead(c, cfg, n, h);
    SealedArrives(c, cfg, n, accepted, w, n.db.head, timestamp, miner, now);
  }

  /** A child of head is always heavier and can be followed. */
  lemma ChildOfHead(c: Base, cfg: Config, n: Node, h: Header)
    requires Rooted(c, n.db) && n.db.head in n.states && h.parentHash == Child(n.db.head) && h.difficulty >= 1
    requires h !in n.db.blocks
    ensures Heavier(cfg, h, n.db.head) && Followable(cfg, n, h)
  {
    hide StateOf;
    var head := n.db.head;
    assert Within(head, head) && !Within(h, head);
    assert ForkOf(head, head) == head && ForkOf(head, h) == ForkOf(head, head);
    forall g ensures Above(g, head, h) ==> g == h {
      assert !Above(g, head, head);
    }
  }

  /** A block that is not heavier is kept beside the head. */
  lemma SideStep(c: Base, cfg: Config, n: Node, accepted: set<Header>, w: World, parent: Header, timestamp: int,
                 miner: Address, now: int)
    requires Trees.Sound(c, cfg, n, accepted) && parent in n.db.blocks && parent in n.states && Good(c, parent)
    requires SameLedger(StateAt(c, parent), w)
    requires parent.gasLimit >= MIN_BLOCK_GAS_LIMIT && parent.timestamp < timestamp <= now
    requires var d := Required(n.db.blocks, cfg.genesis.difficulty, parent);
             var h := Sealed(cfg.rules, w, parent, timestamp, miner, d);
             && h !in n.db.blocks && cfg.digest(h) <= Pow.PowTarget(d) && !Heavier(cfg, h, n.db.head)
    ensures var d := Required(n.db.blocks, cfg.genesis.difficulty, parent);
            var h := Sealed(cfg.rules, w, parent, timestamp, miner, d);
            var b := Block(h, []);
            && Admissible(cfg, n, b, now) && Good(c, h)
            && SameLedger(StateAt(c, h), Paid(cfg.rules, w, miner, h.height))
            && Inserted(cfg, n, b, now) == Some(Sideways(n, h, StateAfter(cfg, n, b, now)))
            && Trees.Sound(c, cfg, Inserted(cfg, n, b, now).value, accepted + {h})
  {
    hide StateOf, Trees.Sound, Required, ApplyBlock, Pruned, Placed, Followable, Heavier, Covered, Sealed, Paid;
    SoundParts(c, cfg, n, accepted);
    var d := Required(n.db.blocks, cfg.genesis.difficulty, parent);
    var h := Sealed(cfg.rules, w, parent, timestamp, miner, d);
    SealedFields(cfg.rules, w, parent, timestamp, miner, d);
    SealedIsAccepted(cfg.rules, w, n.states[parent], parent, timestamp, miner, d);
    AdmissibleIsGood(c, cfg, n, accepted, Block(h, []), now);
    InsertedSound(c, cfg, n, accepted, Block(h, []), now);
  }
}
