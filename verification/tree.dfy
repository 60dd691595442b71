/**
 The node as a value: its database and the states it keeps in memory, and what inserting a block
 makes of them (core/blockchain.go:632-956). What a run of blocks preserves is proved here; the
 Blockchain object is proved to compute it.
 */
module Trees {
  import opened Types
  import opened Worlds
  import opened Transition
  import opened Chain
  import opened Store
  import opened ForkChoice
  import Pow

  type Positive = x: int | x > 0 witness 1

  const SCHEMA_VERSION: nat := 1

  datatype Config = Config(rules: Rules, genesis: Header, chainId: nat, retention: nat, gcInterval: Positive,
                           digest: Digest, sane: Tx -> bool)

  datatype Node = Node(db: Db, states: map<Header, World>)

  function MetaOf(cfg: Config): Meta { Meta(SCHEMA_VERSION, cfg.chainId, cfg.genesis) }

  /** The accounts genesis starts with. */
  function Premine(alloc: map<Address, nat>): Table {
    map a | a in alloc && alloc[a] != 0 :: Account(0, alloc[a], map[], [])
  }

  function GenesisWorld(alloc: map<Address, nat>): World { World(Premine(alloc), {}, [], 0) }

  /** A fresh node. A zero allocation is written as an empty record. */
  function Initial(cfg: Config, alloc: map<Address, nat>): Node {
    var g := cfg.genesis;
    Node(Db(MetaOf(cfg), {g}, map[g := g.difficulty], map[0 := g], map[],
            map a | a in alloc :: Account(0, alloc[a], map[], []),
            map[g := StoredDiff(map[], 0)], g, 0),
         map[g := GenesisWorld(alloc)])
  }

  /** Genesis as it is built: no parent, no transactions, the root of its allocation. */
  ghost predicate Buildable(cfg: Config, alloc: map<Address, nat>) {
    && Transition.Valid(cfg.rules) && Injective(cfg.digest)
    && cfg.genesis.parentHash.Origin? && cfg.genesis.height == 0 && cfg.genesis.txRoot == []
    && cfg.genesis.difficulty >= 1
    && cfg.genesis.stateRoot == cfg.rules.stateRoot(Premine(alloc), 0)
  }

  ghost function BaseOf(cfg: Config, alloc: map<Address, nat>): Base {
    Base(cfg.rules, cfg.genesis, GenesisWorld(alloc))
  }

  // ----- difficulty -----

  function TickOf(h: Header): Pow.Tick { Pow.Tick(h.timestamp, h.difficulty) }

  /** The last n + 1 headers of the branch that ends in h, oldest first. */
  function WindowOf(h: Header, n: nat): (r: seq<Pow.Tick>)
    ensures 1 <= |r| <= n + 1 && r[|r| - 1] == TickOf(h)
  {
    if n == 0 || h.parentHash.Origin? then [TickOf(h)] else WindowOf(h.parentHash.parent, n - 1) + [TickOf(h)]
  }

  /** How many ancestors the retarget of parent's child looks back over. */
  function Span(parent: Header): nat { if parent.height > Pow.LWMA_WINDOW then Pow.LWMA_WINDOW else parent.height }

  /** The difficulty a child of parent must carry: fixed by the branch it extends. */
  function RequiredFor(genesisDifficulty: nat, parent: Header): nat {
    var window := WindowOf(parent, Span(parent));
    if Span(parent) < 2 || |window| < 2 then genesisDifficulty else Pow.Clamp(Pow.Raw(window))
  }

  /** The n nearest ancestors of h are on disk. */
  predicate Stored(blocks: set<Header>, h: Header, n: nat) {
    n == 0 || (h.parentHash.Child? && h.parentHash.parent in blocks && Stored(blocks, h.parentHash.parent, n - 1))
  }

  /** What the node asks for: the retarget if it still has the ancestors, else the genesis difficulty. */
  function Required(blocks: set<Header>, genesisDifficulty: nat, parent: Header): nat {
    if Stored(blocks, parent, Span(parent)) then RequiredFor(genesisDifficulty, parent) else genesisDifficulty
  }

  lemma RequiredPositive(blocks: set<Header>, genesisDifficulty: nat, parent: Header)
    requires genesisDifficulty >= 1
    ensures Required(blocks, genesisDifficulty, parent) >= 1
  {
    hide WindowOf, Pow.Raw;
  }

  lemma {:induction false} BranchStored(genesis: Header, blocks: set<Header>, h: Header, n: nat)
    requires Linked(genesis, h) && n <= h.height && forall a :: Within(a, h) ==> a in blocks
    ensures Stored(blocks, h, n)
  {
    if n > 0 { BranchStored(genesis, blocks, h.parentHash.parent, n - 1); }
  }

  // ----- inserting -----

  /** What a block must satisfy, given the clock. */
  ghost predicate Admissible(cfg: Config, n: Node, b: Block, now: int) {
    var h := b.header;
    && h !in n.db.blocks && h.parentHash.Child? && h.parentHash.parent in n.db.blocks && h.parentHash.parent in n.states
    && h.timestamp <= now + MAX_FUTURE_DRIFT_MS
    && h.difficulty == Required(n.db.blocks, cfg.genesis.difficulty, h.parentHash.parent)
    && cfg.digest(h) <= Pow.PowTarget(h.difficulty)
    && b.txs == h.txRoot && (forall i :: 0 <= i < |b.txs| ==> cfg.sane(b.txs[i]))
    && ApplyBlock(cfg.rules, n.states[h.parentHash.parent], b, Some(h.parentHash.parent)).Accepted?
  }

  ghost function StateAfter(cfg: Config, n: Node, b: Block, now: int): World
    requires Admissible(cfg, n, b, now)
  {
    ApplyBlock(cfg.rules, n.states[b.header.parentHash.parent], b, Some(b.header.parentHash.parent)).world
  }

  ghost predicate Heavier(cfg: Config, h: Header, head: Header) {
    Better(cfg.digest, Tip(h, Work(h)), Tip(head, Work(head)))
  }

  /**
   The head can move to h: the blocks between are on disk with their states in memory, so is the state of
   the block where the branches part, and that one is not more than `retention` below head.
   */
  ghost predicate Followable(cfg: Config, n: Node, h: Header) {
    var anc := ForkOf(n.db.head, h);
    && anc in n.states && n.db.head.height <= anc.height + cfg.retention
    && forall g :: Above(g, anc, h) && g != h ==> g in n.db.blocks && g in n.states
  }

  /** Kept, weighed and remembered, in case its branch wins later. */
  ghost function Sideways(n: Node, h: Header, st: World): Node {
    Node(n.db.(blocks := n.db.blocks + {h}, td := n.db.td[h := Work(h)]), n.states[h := st])
  }

  /** What is not canonical below the cutoff goes. */
  function Orphans(db: Db, genesis: Header, cutoff: nat): set<Header> {
    set g | g in db.blocks && g != genesis && g.height < cutoff &&
            !(g.height in db.canonical && db.canonical[g.height] == g)
  }

  function Without(db: Db, gone: set<Header>): Db {
    db.(blocks := db.blocks - gone, td := db.td - gone, revDiff := db.revDiff - gone)
  }

  function Sweep(db: Db, genesis: Header, cutoff: nat): Db { Without(db, Orphans(db, genesis, cutoff)) }

  /** States below the retention window go; now and then losing branches are swept off disk. */
  function Pruned(cfg: Config, n: Node): Node {
    if n.db.head.height <= cfg.retention then n
    else
      var cutoff := n.db.head.height - cfg.retention;
      Node(if n.db.head.height % cfg.gcInterval == 0 then Sweep(n.db, cfg.genesis, cutoff) else n.db,
           map g | g in n.states && g.height >= cutoff :: n.states[g])
  }

  /** The head on h: tables and indexes of its branch, the accounts and diffs replayed from memory. */
  ghost function Placed(n: Node, h: Header, st: World): Node {
    var anc, states := ForkOf(n.db.head, h), n.states[h := st];
    var accounts := Written(Unwound(n.db.accounts, n.db.revDiff, anc, n.db.head), states, anc, h);
    Node(n.db.(blocks := n.db.blocks + {h}, td := n.db.td[h := Work(h)], canonical := CanonOf(h), txIndex := IndexOf(h),
               head := h, burned := st.burned, accounts := accounts,
               revDiff := Recorded(n.db.revDiff, states, anc, h)),
         states)
  }

  /** The node after a block, or None if it is refused. */
  ghost function Inserted(cfg: Config, n: Node, b: Block, now: int): Option<Node> {
    if !Admissible(cfg, n, b, now) then None
    else
      var h, st := b.header, StateAfter(cfg, n, b, now);
      if !Heavier(cfg, h, n.db.head) then Some(Sideways(n, h, st))
      else if Followable(cfg, n, h) then Some(Pruned(cfg, Placed(n, h, st)))
      else None
  }

  // ----- what every node keeps -----

  ghost predicate Setup(c: Base, cfg: Config) {
    ValidBase(c) && c.rules == cfg.rules && c.genesis == cfg.genesis && Injective(cfg.digest)
  }

  /** Every accepted block is valid, and head is the best of them. */
  ghost predicate Ranked(c: Base, cfg: Config, head: Header, accepted: set<Header>) {
    && head in accepted
    && (forall h :: h in accepted ==> Good(c, h) && h.difficulty >= 1)
    && (forall h :: h in accepted && h != head ==> Heavier(cfg, head, h))
  }

  /**
   The states in memory are the true ones, and so are the tables on disk except, perhaps, accounts and
   diffs. `accepted` is every block ever accepted, including ones since swept off disk.
   */
  ghost predicate Sound(c: Base, cfg: Config, n: Node, accepted: set<Header>) {
    && Setup(c, cfg) && n.db.meta == MetaOf(cfg)
    && n.db.head in n.states && True(c, n.states)
    && n.db.blocks <= accepted && Ranked(c, cfg, n.db.head, accepted)
    && Rooted(c, n.db) && Indexed(c, n.db)
  }

  lemma PremineLoads(alloc: map<Address, nat>, table: Table)
    requires table == map a | a in alloc :: Account(0, alloc[a], map[], [])
    ensures Load(table) == Premine(alloc) && Worlds.Sound(GenesisWorld(alloc))
  {
  }

  /** A fresh node is sound, agrees with its disk, and its states are covered. */
  lemma InitialSound(cfg: Config, alloc: map<Address, nat>)
    requires Buildable(cfg, alloc)
    ensures var c, n := BaseOf(cfg, alloc), Initial(cfg, alloc);
            Sound(c, cfg, n, {cfg.genesis}) && Agrees(c, n.db) && AllCovered(c, n)
  {
    hide Load, Injective, Transition.Valid;
    var c, n := BaseOf(cfg, alloc), Initial(cfg, alloc);
    PremineLoads(alloc, n.db.accounts);
    assert StateOf(c, cfg.genesis) == Some(c.world);
  }

  /** An admissible block is valid, its state is the true one, and the state's marks cover it. */
  lemma AdmissibleIsGood(c: Base, cfg: Config, n: Node, accepted: set<Header>, b: Block, now: int)
    requires Sound(c, cfg, n, accepted) && Admissible(cfg, n, b, now)
    ensures var h, st := b.header, StateAfter(cfg, n, b, now);
            && Good(c, h) && h != c.genesis && h.difficulty >= 1 && SameLedger(st, StateAt(c, h))
            && Covered(c, h, st.touched)
            && Good(c, h.parentHash.parent) && !Within(h, n.db.head)
  {
    hide StateOf, ApplyBlock, Required, Injective, Covered;
    var h := b.header;
    AppliedBlock(c, n.states[h.parentHash.parent], h);
    RequiredPositive(n.db.blocks, cfg.genesis.difficulty, h.parentHash.parent);
  }

  lemma SidewaysSound(c: Base, cfg: Config, n: Node, accepted: set<Header>, h: Header, st: World)
    requires Sound(c, cfg, n, accepted) && Good(c, h) && h.difficulty >= 1 && SameLedger(st, StateAt(c, h))
    requires h != n.db.head
    requires !Heavier(cfg, h, n.db.head)
    ensures Sound(c, cfg, Sideways(n, h, st), accepted + {h})
  {
    hide StateOf, Injective, ValidBase;
    var head := n.db.head;
    StrictTotalOrder(cfg.digest, Tip(head, Work(head)), Tip(h, Work(h)), Tip(h, Work(h)));
  }

  lemma SweepSound(c: Base, cfg: Config, n: Node, accepted: set<Header>, cutoff: nat)
    requires Sound(c, cfg, n, accepted)
    ensures Sound(c, cfg, n.(db := Sweep(n.db, cfg.genesis, cutoff)), accepted)
  {
    hide StateOf, Injective, ValidBase;
    CanonMeaning(c, n.db.head);
  }

  lemma PrunedSound(c: Base, cfg: Config, n: Node, accepted: set<Header>)
    requires Sound(c, cfg, n, accepted)
    ensures Sound(c, cfg, Pruned(cfg, n), accepted)
  {
    hide StateOf, Injective, ValidBase, Sweep;
    var head := n.db.head;
    if head.height > cfg.retention {
      SweepSound(c, cfg, n, accepted, head.height - cfg.retention);
    }
  }

  /** The new head outranks whatever the old head outranked. */
  lemma RankedMoves(c: Base, cfg: Config, head: Header, accepted: set<Header>, h: Header)
    requires Injective(cfg.digest) && Ranked(c, cfg, head, accepted) && Good(c, h) && h.difficulty >= 1
    requires Heavier(cfg, h, head)
    ensures Ranked(c, cfg, h, accepted + {h})
  {
    hide StateOf;
    forall g | g in accepted && g != h ensures Heavier(cfg, h, g) {
      if g != head {
        StrictTotalOrder(cfg.digest, Tip(h, Work(h)), Tip(head, Work(head)), Tip(g, Work(g)));
      }
    }
  }

  lemma PlacedRooted(c: Base, cfg: Config, n: Node, accepted: set<Header>, h: Header, st: World)
    requires Sound(c, cfg, n, accepted) && Good(c, h) && h != c.genesis && !Within(h, n.db.head)
    requires SameLedger(st, StateAt(c, h)) && Followable(cfg, n, h)
    ensures Rooted(c, Placed(n, h, st).db)
  {
    hide StateOf, Injective, ValidBase, Ranked, Indexed, Written, Unwound, Recorded, CanonOf, IndexOf, True;
    var anc, states, db := ForkOf(n.db.head, h), n.states[h := st], Placed(n, h, st).db;
    GoodLinked(c, n.db.head);
    GoodLinked(c, h);
    ForkFacts(c.genesis, n.db.head, h);
    forall a | Within(a, h) ensures a in db.blocks && (a != c.genesis ==> a in db.revDiff) {
      RecordedAt(n.db.revDiff, states, anc, h, a);
    }
  }

  lemma PlacedSound(c: Base, cfg: Config, n: Node, accepted: set<Header>, h: Header, st: World)
    requires Sound(c, cfg, n, accepted) && Good(c, h) && h != c.genesis && !Within(h, n.db.head) && h.difficulty >= 1
    requires SameLedger(st, StateAt(c, h)) && Followable(cfg, n, h) && Heavier(cfg, h, n.db.head)
    ensures Sound(c, cfg, Placed(n, h, st), accepted + {h})
  {
    hide StateOf, Injective, ValidBase, Ranked, Rooted, Written, Unwound, Recorded;
    RankedMoves(c, cfg, n.db.head, accepted, h);
    PlacedRooted(c, cfg, n, accepted, h, st);
  }

  /** Inserting keeps a node sound. */
  lemma InsertedSound(c: Base, cfg: Config, n: Node, accepted: set<Header>, b: Block, now: int)
    requires Sound(c, cfg, n, accepted) && Inserted(cfg, n, b, now).Some?
    ensures Sound(c, cfg, Inserted(cfg, n, b, now).value, accepted + {b.header})
  {
    hide StateOf, Sound, Admissible, Placed, Sideways, Pruned, Followable, Heavier, Covered;
    AdmissibleIsGood(c, cfg, n, accepted, b, now);
    var h, st := b.header, StateAfter(cfg, n, b, now);
    if !Heavier(cfg, h, n.db.head) {
      SidewaysSound(c, cfg, n, accepted, h, st);
    } else {
      PlacedSound(c, cfg, n, accepted, h, st);
      PrunedSound(c, cfg, Placed(n, h, st), accepted + {h});
    }
  }

  // ----- accounts and diffs on disk -----

  /** The marks of every block replayed on the way to h cover it. */
  ghost predicate Clean(c: Base, n: Node, h: Header) {
    forall g :: Above(g, ForkOf(n.db.head, h), h) && g != h ==>
                  g in n.states && Good(c, g) && g != c.genesis && Covered(c, g, n.states[g].touched)
  }

  /** Every address was last marked, on the way from the fork to h, by a block that left it as h has it. */
  ghost predicate LastMarksRight(c: Base, n: Node, h: Header, st: World)
    requires Good(c, h)
  {
    var anc := ForkOf(n.db.head, h);
    Good(c, anc) &&
    forall a :: LastMarked(StateAt(c, anc).accounts, n.states[h := st], anc, h, a) == At(StateAt(c, h).accounts, a)
  }

  ghost predicate AllCovered(c: Base, n: Node)
    requires True(c, n.states)
  {
    forall h :: h in n.states && h != c.genesis ==> Covered(c, h, n.states[h].touched)
  }

  lemma SweepAgrees(c: Base, cfg: Config, n: Node, accepted: set<Header>, cutoff: nat)
    requires Sound(c, cfg, n, accepted)
    ensures var d := Sweep(n.db, cfg.genesis, cutoff);
            Undoable(c, d.revDiff, d.head) <==> Undoable(c, n.db.revDiff, n.db.head)
  {
    hide StateOf, Injective, ValidBase, Reverses;
    CanonMeaning(c, n.db.head);
  }

  /** Pruning changes nothing that disk agreement is about. */
  lemma PrunedAgrees(c: Base, cfg: Config, n: Node, accepted: set<Header>)
    requires Sound(c, cfg, n, accepted)
    ensures Balanced(c, Pruned(cfg, n).db) <==> Balanced(c, n.db)
    ensures Agrees(c, Pruned(cfg, n).db) <==> Agrees(c, n.db)
  {
    hide StateOf, Injective, ValidBase, Load, Undoable;
    if n.db.head.height > cfg.retention {
      SweepAgrees(c, cfg, n, accepted, n.db.head.height - cfg.retention);
    }
  }

  /** What a replayed block's diff says is right exactly when its marks cover it. */
  lemma PlacedDiff(c: Base, cfg: Config, n: Node, accepted: set<Header>, h: Header, st: World, g: Header)
    requires Sound(c, cfg, n, accepted) && Good(c, h) && h != c.genesis && !Within(h, n.db.head)
    requires SameLedger(st, StateAt(c, h)) && Followable(cfg, n, h) && Above(g, ForkOf(n.db.head, h), h)
    ensures var states, diffs := n.states[h := st], Placed(n, h, st).db.revDiff;
            && g in diffs && g in states && Good(c, g) && g != c.genesis
            && (Reverses(c, diffs[g], g) <==> Covered(c, g, states[g].touched))
  {
    hide StateOf, Injective, ValidBase, Rooted, Indexed, Ranked, Reverses, Covered, DiffFor, Recorded, Written, Unwound;
    var anc, states := ForkOf(n.db.head, h), n.states[h := st];
    GoodLinked(c, n.db.head);
    GoodLinked(c, h);
    ForkFacts(c.genesis, n.db.head, h);
    GenesisWithin(c.genesis, n.db.head);
    RecordedAt(n.db.revDiff, states, anc, h, g);
    BranchGood(c, g, h);
    GoodParent(c, g);
    DiffRightIffCovered(c, g, states[g], states[g.parentHash.parent], states[g].touched);
  }

  /** The diffs of the new branch are all right exactly when the replayed blocks are covered. */
  lemma PlacedUndoable(c: Base, cfg: Config, n: Node, accepted: set<Header>, h: Header, st: World)
    requires Sound(c, cfg, n, accepted) && Undoable(c, n.db.revDiff, n.db.head)
    requires Good(c, h) && h != c.genesis && !Within(h, n.db.head)
    requires SameLedger(st, StateAt(c, h)) && Covered(c, h, st.touched) && Followable(cfg, n, h)
    ensures Undoable(c, Placed(n, h, st).db.revDiff, h) <==> Clean(c, n, h)
  {
    hide StateOf, Injective, ValidBase, Sound, Placed, Reverses, Covered;
    SoundParts(c, cfg, n, accepted);
    var anc, diffs := ForkOf(n.db.head, h), Placed(n, h, st).db.revDiff;
    GoodLinked(c, n.db.head);
    GoodLinked(c, h);
    ForkFacts(c.genesis, n.db.head, h);
    forall g | Above(g, anc, h)
      ensures g in diffs && Good(c, g) && g != c.genesis
      ensures g != h ==> g in n.states && (Reverses(c, diffs[g], g) <==> Covered(c, g, n.states[g].touched))
      ensures g == h ==> Reverses(c, diffs[g], g)
    {
      PlacedDiff(c, cfg, n, accepted, h, st, g);
    }
    forall g | !Above(g, anc, h) && g in n.db.revDiff ensures g in diffs && diffs[g] == n.db.revDiff[g] {
      PlacedOther(c, cfg, n, accepted, h, st, g);
    }
  }

  lemma SoundParts(c: Base, cfg: Config, n: Node, accepted: set<Header>)
    requires Sound(c, cfg, n, accepted)
    ensures Setup(c, cfg) && True(c, n.states) && Good(c, n.db.head) && n.db.head in n.states && Rooted(c, n.db)
  {
  }

  lemma PlacedOther(c: Base, cfg: Config, n: Node, accepted: set<Header>, h: Header, st: World, g: Header)
    requires Sound(c, cfg, n, accepted) && Good(c, h) && !Within(h, n.db.head) && Followable(cfg, n, h)
    requires !Above(g, ForkOf(n.db.head, h), h) && g in n.db.revDiff
    ensures var diffs := Placed(n, h, st).db.revDiff; g in diffs && diffs[g] == n.db.revDiff[g]
  {
    hide StateOf, Injective, ValidBase, Rooted, Indexed, Ranked, DiffFor, Recorded, Written, Unwound;
    GoodLinked(c, n.db.head);
    GoodLinked(c, h);
    ForkFacts(c.genesis, n.db.head, h);
    RecordedAt(n.db.revDiff, n.states[h := st], ForkOf(n.db.head, h), h, g);
  }

  /** The account table is right exactly when the last marks are; covered blocks make them so. */
  lemma PlacedBalanced(c: Base, cfg: Config, n: Node, accepted: set<Header>, h: Header, st: World)
    requires Sound(c, cfg, n, accepted) && Agrees(c, n.db)
    requires Good(c, h) && h != c.genesis && !Within(h, n.db.head)
    requires SameLedger(st, StateAt(c, h)) && Covered(c, h, st.touched) && Followable(cfg, n, h)
    ensures Balanced(c, Placed(n, h, st).db) <==> LastMarksRight(c, n, h, st)
    ensures Clean(c, n, h) ==> LastMarksRight(c, n, h, st)
  {
    hide StateOf, Injective, ValidBase, Rooted, Indexed, Ranked, Load, Reverses, Covered, Written, Unwound, LastMarked;
    var anc, states := ForkOf(n.db.head, h), n.states[h := st];
    GoodLinked(c, n.db.head);
    GoodLinked(c, h);
    ForkFacts(c.genesis, n.db.head, h);
    GenesisWithin(c.genesis, h);
    forall g | Above(g, anc, n.db.head)
      ensures g in n.db.revDiff && Good(c, g) && g != c.genesis && Reverses(c, n.db.revDiff[g], g)
    {
      AboveIsWithin(c.genesis, g, anc, n.db.head);
    }
    UnwoundLoads(c, n.db.accounts, n.db.revDiff, anc, n.db.head);
    TableRightIffLastMarks(c, Unwound(n.db.accounts, n.db.revDiff, anc, n.db.head), states, anc, h);
    if Clean(c, n, h) {
      forall g | Above(g, anc, h)
        ensures g != c.genesis && g in states && Good(c, g) && Covered(c, g, states[g].touched)
      {
      }
      forall a ensures LastMarked(StateAt(c, anc).accounts, states, anc, h, a) == At(StateAt(c, h).accounts, a) {
        CoveredMarksSuffice(c, states, anc, h, a);
      }
    }
  }

  /** A block above another on a linked branch is on it, and is not genesis. */
  lemma {:induction false} AboveIsWithin(genesis: Header, g: Header, anc: Header, tip: Header)
    requires Linked(genesis, tip) && Within(anc, tip) && Above(g, anc, tip)
    ensures Within(g, tip) && g != genesis && g != anc
  {
    HeightsFall(genesis, anc, tip);
    GenesisWithin(genesis, tip);
    if g != tip {
      AboveIsWithin(genesis, g, anc, tip.parentHash.parent);
    }
  }

  /**
   Disk after an insertion. A side block leaves it right. When the head moves, accounts and diffs are right
   exactly when the marks of every re-added block cover it, and the account table alone exactly when the
   last marks are right.
   */
  lemma InsertedAgrees(c: Base, cfg: Config, n: Node, accepted: set<Header>, b: Block, now: int)
    requires Sound(c, cfg, n, accepted) && Agrees(c, n.db) && Inserted(cfg, n, b, now).Some?
    ensures var n', h, st := Inserted(cfg, n, b, now).value, b.header, StateAfter(cfg, n, b, now);
            && Good(c, h)
            && (!Heavier(cfg, h, n.db.head) ==> Agrees(c, n'.db))
            && (Heavier(cfg, h, n.db.head) ==>
                  && (Agrees(c, n'.db) <==> Clean(c, n, h))
                  && (Balanced(c, n'.db) <==> LastMarksRight(c, n, h, st)))
  {
    hide StateOf, Sound, Admissible, Placed, Pruned, Followable, Heavier, Covered, Clean, LastMarksRight, Undoable,
         Load;
    AdmissibleIsGood(c, cfg, n, accepted, b, now);
    var h, st := b.header, StateAfter(cfg, n, b, now);
    if Heavier(cfg, h, n.db.head) {
      PlacedSound(c, cfg, n, accepted, h, st);
      PrunedAgrees(c, cfg, Placed(n, h, st), accepted + {h});
      PlacedBalanced(c, cfg, n, accepted, h, st);
      PlacedUndoable(c, cfg, n, accepted, h, st);
      PlacedHead(n, h, st);
    }
  }

  lemma PlacedHead(n: Node, h: Header, st: World)
    ensures Placed(n, h, st).db.head == h && Placed(n, h, st).states == n.states[h := st]
  {
  }

  /** Where every state in memory is covered by its own marks, it stays so, and every move is clean. */
  lemma InsertedCovered(c: Base, cfg: Config, n: Node, accepted: set<Header>, b: Block, now: int)
    requires Sound(c, cfg, n, accepted) && AllCovered(c, n) && Inserted(cfg, n, b, now).Some?
    ensures Heavier(cfg, b.header, n.db.head) ==> Clean(c, n, b.header)
    ensures True(c, Inserted(cfg, n, b, now).value.states) && AllCovered(c, Inserted(cfg, n, b, now).value)
  {
    hide StateOf, Injective, ValidBase, Admissible, Covered, Written, Unwound, Recorded, Sweep, Heavier, Rooted,
         Indexed, Ranked;
    AdmissibleIsGood(c, cfg, n, accepted, b, now);
    var h := b.header;
    GoodLinked(c, n.db.head);
    GoodLinked(c, h);
    ForkFacts(c.genesis, n.db.head, h);
    GenesisWithin(c.genesis, n.db.head);
  }
}
