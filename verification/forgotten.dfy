/**
 What a restart loses (core/blockchain.go:279-280): only head's branch is remembered afterwards. When a side block
 is learnt again from peers, when it is not, and a run after which it is not.
 */
module Forgotten {
  import opened Types
  import opened Worlds
  import opened Transition
  import opened Alikeness
  import opened Chain
  import opened Store
  import opened Trees
  import opened Restarts
  import opened Runs
  import opened Lineage
  import opened Branching
  import Pow

  /** On disk, but neither canonical nor remembered. */
  ghost predicate Lost(n: Node, h: Header) { h in n.db.blocks && h !in n.states && !Within(h, n.db.head) }

  /** A lost block is refused as known, and each of its children because its state is gone. */
  lemma LostIsRefused(cfg: Config, n: Node, h: Header, b: Block, now: int)
    requires Lost(n, h) && (b.header == h || b.header.parentHash == Child(h))
    ensures Inserted(cfg, n, b, now).None?
  {
    hide ApplyBlock, Required, Within;
  }

  /** A restart loses exactly the side blocks on disk. */
  lemma RestartLosesSideBranches(cfg: Config, n: Node, h: Header)
    requires Reloaded(cfg, n.db).Some? && WholeBranch(n.db.blocks, n.db.head)
    ensures Lost(Reloaded(cfg, n.db).value, h) <==> h in n.db.blocks && !Within(h, n.db.head)
  {
    hide Rebuilt, RootMatches;
    RebuiltCanonical(cfg.rules, n.db, n.db.head, Loaded(n.db), cfg.retention);
  }

  // ----- learnt again -----

  /** Everything a block must satisfy that neither memory nor its being new has a part in. */
  ghost predicate Fit(cfg: Config, blocks: set<Header>, b: Block, now: int) {
    var h := b.header;
    && h.parentHash.Child? && h.timestamp <= now + MAX_FUTURE_DRIFT_MS
    && h.difficulty == Required(blocks, cfg.genesis.difficulty, h.parentHash.parent)
    && cfg.digest(h) <= Pow.PowTarget(h.difficulty)
    && b.txs == h.txRoot && (forall i :: 0 <= i < |b.txs| ==> cfg.sane(b.txs[i]))
  }

  /** A valid block is admitted by a sound node exactly when it is new and its parent is remembered. */
  lemma AdmittedIff(c: Base, cfg: Config, n: Node, accepted: set<Header>, b: Block, now: int)
    requires Trees.Sound(c, cfg, n, accepted) && Good(c, b.header) && b.header != c.genesis
    requires Fit(cfg, n.db.blocks, b, now)
    ensures Admissible(cfg, n, b, now) <==>
              && b.header !in n.db.blocks && b.header.parentHash.parent in n.db.blocks
              && b.header.parentHash.parent in n.states
  {
    hide StateOf, ApplyBlock, Required, Rooted, Indexed, Ranked;
    GoodParent(c, b.header);
    var p := b.header.parentHash.parent;
    if p in n.states { ApplyBlockAlike(c.rules, StateAt(c, p), n.states[p], b, Some(p)); }
  }

  /** How far back a restart remembers. */
  lemma {:induction false} RebuiltNear(c: Base, db: Db, h: Header, w: World, k: nat, g: Header)
    requires Linked(c.genesis, h) && g in Rebuilt(c.rules, db, h, w, k)
    ensures Within(g, h) && h.height <= g.height + k
    decreases k
  {
    hide Back, RootMatches;
    if g != h { RebuiltNear(c, db, h.parentHash.parent, Back(w, db.revDiff[h]), k - 1, g); }
  }

  /** With right diffs, what a restart remembers is the canonical chain down to the window's end, and no more. */
  lemma RememberedIff(c: Base, cfg: Config, n: Node, accepted: set<Header>, g: Header)
    requires Trees.Sound(c, cfg, n, accepted) && Agrees(c, n.db) && Reloaded(cfg, n.db).Some?
    ensures g in Reloaded(cfg, n.db).value.states <==>
              Within(g, n.db.head) && n.db.head.height <= g.height + cfg.retention
  {
    hide StateOf, Trees.Sound, Rebuilt, RootMatches, RootsDetermine, Agrees;
    SoundParts(c, cfg, n, accepted);
    GoodLinked(c, n.db.head);
    ReloadedSound(c, cfg, n, accepted);
    if g in Reloaded(cfg, n.db).value.states {
      RebuiltNear(c, n.db, n.db.head, Loaded(n.db), cfg.retention, g);
    }
  }

  /** A new child of a remembered canonical block can always be followed. */
  lemma ChildOfCanonical(cfg: Config, n: Node, p: Header, h: Header)
    requires h.parentHash == Child(p) && p in n.states && Within(p, n.db.head) && !Within(h, n.db.head)
    requires n.db.head.height <= p.height + cfg.retention
    ensures Followable(cfg, n, h)
  {
    assert ForkOf(n.db.head, p) == p && ForkOf(n.db.head, h) == ForkOf(n.db.head, p);
    forall g ensures Above(g, p, h) ==> g == h {
      assert !Above(g, p, p);
    }
  }

  /**
   After a restart, a valid block is learnt again if and only if it is not on disk and its parent is remembered: with
   right diffs, a canonical block of the window. So a side branch is learnt again from its lowest block on, and
   not at all once that one had been written.
   */
  lemma LearntAgainIff(c: Base, cfg: Config, n: Node, accepted: set<Header>, b: Block, now: int)
    requires Trees.Sound(c, cfg, n, accepted) && Reloaded(cfg, n.db).Some?
    requires Agrees(c, n.db) || RootsDetermine(cfg.rules)
    requires Good(c, b.header) && b.header != c.genesis && Fit(cfg, n.db.blocks, b, now)
    ensures var n', p := Reloaded(cfg, n.db).value, b.header.parentHash.parent;
            && (Inserted(cfg, n', b, now).Some? <==> b.header !in n.db.blocks && p in n'.states)
            && (Agrees(c, n.db) ==>
                  (p in n'.states <==> Within(p, n.db.head) && n.db.head.height <= p.height + cfg.retention))
  {
    hide StateOf, Trees.Sound, Rebuilt, RootMatches, RootsDetermine, Agrees, Admissible, Heavier, Required, Within,
         Followable;
    var n', p := Reloaded(cfg, n.db).value, b.header.parentHash.parent;
    ReloadedSound(c, cfg, n, accepted);
    AdmittedIff(c, cfg, n', accepted, b, now);
    SoundParts(c, cfg, n, accepted);
    GoodLinked(c, n.db.head);
    CanonicalIsStored(c, cfg, n);
    if p in n'.states && b.header !in n.db.blocks {
      RebuiltNear(c, n.db, n.db.head, Loaded(n.db), cfg.retention, p);
      ChildOfCanonical(cfg, n', p, b.header);
    }
    if Agrees(c, n.db) { RememberedIff(c, cfg, n, accepted, p); }
  }

  lemma CanonicalIsStored(c: Base, cfg: Config, n: Node)
    requires Rooted(c, n.db) && Reloaded(cfg, n.db).Some?
    ensures forall g :: g in Reloaded(cfg, n.db).value.states ==> g in n.db.blocks
  {
    hide StateOf, Rebuilt, RootMatches;
    RebuiltCanonical(cfg.rules, n.db, n.db.head, Loaded(n.db), cfg.retention);
  }

  // ----- never again -----

  lemma LostAfterEvent(cfg: Config, n: Node, h: Header, e: Event)
    requires Sturdy(cfg, n) && Lost(n, h) && After(cfg, n, e).Some?
    ensures Sturdy(cfg, After(cfg, n, e).value)
    ensures Lost(After(cfg, n, e).value, h) <==> h in After(cfg, n, e).value.db.blocks
  {
    hide Vouched, Inserted, Reloaded, Within, Linked;
    match e {
      case Restart =>
        ReloadedSturdy(cfg, n);
        RestartLosesSideBranches(cfg, n, h);
        ReloadedKeepsDisk(cfg, n);
      case Arrive(b, now) =>
        if Inserted(cfg, n, b, now).Some? {
          InsertedSturdy(cfg, n, b, now);
          LostBeside(cfg, n, h, b, now);
        }
    }
  }

  lemma ReloadedKeepsDisk(cfg: Config, n: Node)
    requires Reloaded(cfg, n.db).Some?
    ensures Reloaded(cfg, n.db).value.db == n.db
  {
    hide Rebuilt, RootMatches;
  }

  /** A head moves only over blocks that are remembered, so never onto a lost one. */
  lemma LostBeside(cfg: Config, n: Node, h: Header, b: Block, now: int)
    requires Sturdy(cfg, n) && Lost(n, h) && Inserted(cfg, n, b, now).Some?
    ensures var n' := Inserted(cfg, n, b, now).value; h !in n'.states && !Within(h, n'.db.head)
  {
    hide Vouched, ApplyBlock, Required, Written, Unwound, Recorded, Heavier;
    AdmissibleFollows(cfg, n, b, now);
    assert Linked(cfg.genesis, b.header);
    ForkFacts(cfg.genesis, n.db.head, b.header);
  }

  /**
   Once lost, lost through every later run of blocks and restarts, up to the point where the sweep takes the block
   off disk: until then it and its children are refused.
   */
  lemma {:induction false} LostStaysLost(cfg: Config, n: Node, h: Header, es: seq<Event>)
    requires Sturdy(cfg, n) && Lost(n, h) && Run(cfg, n, es).Some?
    ensures Lost(Run(cfg, n, es).value, h) ||
            exists i :: 0 <= i <= |es| && Run(cfg, n, es[..i]).Some? && h !in Run(cfg, n, es[..i]).value.db.blocks
    decreases |es|
  {
    hide Sturdy, After, Lost, Run;
    if es == [] {
      RunNothing(cfg, n);
    } else {
      RunNext(cfg, n, es);
      LostAfterEvent(cfg, n, h, es[0]);
      var n' := After(cfg, n, es[0]).value;
      if h !in n'.db.blocks {
        RunFirst(cfg, n, es, 0);
        RunNothing(cfg, n');
      } else {
        LostStaysLost(cfg, n', h, es[1..]);
        if !Lost(Run(cfg, n', es[1..]).value, h) {
          var i :| 0 <= i <= |es[1..]| && Run(cfg, n', es[1..][..i]).Some? &&
                   h !in Run(cfg, n', es[1..][..i]).value.db.blocks;
          RunFirst(cfg, n, es, i);
        }
      }
    }
  }

  lemma RunFirst(cfg: Config, n: Node, es: seq<Event>, i: nat)
    requires i < |es| && After(cfg, n, es[0]).Some?
    ensures Run(cfg, n, es[..i + 1]) == Run(cfg, After(cfg, n, es[0]).value, es[1..][..i])
  {
    hide After, Run;
    RunNext(cfg, n, es[..i + 1]);
    assert es[..i + 1][1..] == es[1..][..i];
  }

  // ----- a run -----

  /**
   On any node in order: two rivals arrive, the node restarts, and from then on the losing one is refused, and so is
   every block on it.
   */
  lemma RivalIsForgotten(c: Base, cfg: Config, n: Node, accepted: set<Header>, x: Address, y: Address, now: int)
    requires Trees.Sound(c, cfg, n, accepted) && Agrees(c, n.db) && Rivals(c, cfg, n, x, y, now)
    ensures var c1, s1 := Next(c, x, n.db.head), Next(c, y, n.db.head);
            var run := Run(cfg, n, [Arrive(Block(c1, []), now), Arrive(Block(s1, []), now), Restart]);
            && run.Some? && run.value.db.head == c1 && Lost(run.value, s1)
            && forall b: Block, t: int :: b.header == s1 || b.header.parentHash == Child(s1) ==>
                 Inserted(cfg, run.value, b, t).None?
  {
    hide Trees.Sound, Next, Inserted, Reloaded, Agrees, Balanced, Heavier, Lost, Stands, Run, Rivals, RootsDetermine;
    var g, c1, s1 := n.db.head, Next(c, x, n.db.head), Next(c, y, n.db.head);
    var n1, n2 := Opening(c, cfg, n, accepted, x, y, now);
    StandsSound(c, cfg, n1, accepted + {c1}, {g, c1});
    OpeningAgrees(c, cfg, n, accepted, x, y, now, n1, n2);
    StandsSound(c, cfg, n2, accepted + {c1} + {s1}, {g, c1, s1});
    ReloadedIff(c, cfg, n2, accepted + {c1} + {s1});
    var n3 := Reloaded(cfg, n2.db).value;
    ThreeEvents(cfg, n, Block(c1, []), Block(s1, []), now, n1, n2, n3);
    RivalIsOff(c, cfg, n, x, y, now, n2, accepted);
    ReloadedKeepsDisk(cfg, n2);
    RestartLosesSideBranches(cfg, n2, s1);
    forall b: Block, t: int | b.header == s1 || b.header.parentHash == Child(s1)
      ensures Inserted(cfg, n3, b, t).None?
    {
      LostIsRefused(cfg, n3, s1, b, t);
    }
  }

  /** On a fresh database, for one. */
  lemma FreshRivalIsForgotten(cfg: Config, alloc: map<Address, nat>, x: Address, y: Address, now: int)
    requires Buildable(cfg, alloc) && Rivals(BaseOf(cfg, alloc), cfg, Initial(cfg, alloc), x, y, now)
    ensures var c, n := BaseOf(cfg, alloc), Initial(cfg, alloc);
            var c1, s1 := Next(c, x, cfg.genesis), Next(c, y, cfg.genesis);
            var run := Run(cfg, n, [Arrive(Block(c1, []), now), Arrive(Block(s1, []), now), Restart]);
            && run.Some? && Sturdy(cfg, run.value) && Lost(run.value, s1)
            && forall b: Block, t: int :: b.header == s1 || b.header.parentHash == Child(s1) ==>
                 Inserted(cfg, run.value, b, t).None?
  {
    hide Buildable, Trees.Sound, Agrees, AllCovered, Rivals, Next, Run, Sturdy, Lost, Inserted;
    var c, n := BaseOf(cfg, alloc), Initial(cfg, alloc);
    InitialSound(cfg, alloc);
    InitialSturdy(cfg, alloc);
    RivalIsForgotten(c, cfg, n, {cfg.genesis}, x, y, now);
    var c1, s1 := Next(c, x, cfg.genesis), Next(c, y, cfg.genesis);
    RunSturdy(cfg, n, [Arrive(Block(c1, []), now), Arrive(Block(s1, []), now), Restart]);
  }

  lemma RivalIsOff(c: Base, cfg: Config, n: Node, x: Address, y: Address, now: int, n2: Node, accepted: set<Header>)
    requires Rivals(c, cfg, n, x, y, now) && n2.db.head == Next(c, x, n.db.head)
    requires Stands(c, cfg, n2, accepted + {Next(c, x, n.db.head)} + {Next(c, y, n.db.head)},
                    {n.db.head, Next(c, x, n.db.head), Next(c, y, n.db.head)})
    ensures Next(c, y, n.db.head) in n2.db.blocks && !Within(Next(c, y, n.db.head), n2.db.head)
    ensures WholeBranch(n2.db.blocks, n2.db.head)
  {
    hide StateOf, Next, Indexed, Ranked, ValidBase;
    var g, c1, s1 := n.db.head, Next(c, x, n.db.head), Next(c, y, n.db.head);
    NextFields(c, x, g);
    NextFields(c, y, g);
    if Within(s1, c1) {
      GoodLinked(c, c1);
      HeightsFall(c.genesis, s1, c1);
    }
  }

  lemma OpeningAgrees(c: Base, cfg: Config, n: Node, accepted: set<Header>, x: Address, y: Address, now: int, n1: Node,
                      n2: Node)
    requires Trees.Sound(c, cfg, n, accepted) && Agrees(c, n.db) && Rivals(c, cfg, n, x, y, now)
    requires var c1, s1 := Next(c, x, n.db.head), Next(c, y, n.db.head);
             && Inserted(cfg, n, Block(c1, []), now) == Some(n1) && Inserted(cfg, n1, Block(s1, []), now) == Some(n2)
             && Trees.Sound(c, cfg, n1, accepted + {c1}) && n1.db.head == c1
    ensures Agrees(c, n2.db) && Balanced(c, n2.db)
  {
    hide Trees.Sound, StateOf, Next, Inserted, Heavier, Undoable, LastMarksRight, RequiredFor;
    var g, c1, s1 := n.db.head, Next(c, x, n.db.head), Next(c, y, n.db.head);
    NextFields(c, x, g);
    NextFields(c, y, g);
    HeadStands(c, cfg, n, accepted);
    RivalIsNew(c, cfg, n, accepted, c1);
    SoundParts(c, cfg, n, accepted);
    ChildIsClean(c, n, c1);
    InsertedAgrees(c, cfg, n, accepted, Block(c1, []), now);
    EqualWorkLoses(cfg, s1, c1);
    InsertedAgrees(c, cfg, n1, accepted + {c1}, Block(s1, []), now);
  }

  /** Moving to a child of head replays nothing. */
  lemma ChildIsClean(c: Base, n: Node, h: Header)
    requires h.parentHash == Child(n.db.head) && h.height > n.db.head.height && !Within(h, n.db.head)
    ensures Clean(c, n, h)
  {
    hide StateOf, Covered;
    var head := n.db.head;
    assert Within(head, head) && ForkOf(head, head) == head && ForkOf(head, h) == ForkOf(head, head);
    forall g ensures Above(g, head, h) ==> g == h {
      assert !Above(g, head, head);
    }
  }

  lemma ThreeEvents(cfg: Config, n: Node, a: Block, b: Block, now: int, n1: Node, n2: Node, n3: Node)
    requires Inserted(cfg, n, a, now) == Some(n1) && Inserted(cfg, n1, b, now) == Some(n2)
    requires Reloaded(cfg, n2.db) == Some(n3)
    ensures Run(cfg, n, [Arrive(a, now), Arrive(b, now), Restart]) == Some(n3)
  {
    hide Inserted, Reloaded, Run;
    var e1, e2 := Arrive(a, now), Arrive(b, now);
    assert [e1, e2, Restart][1..] == [e2, Restart] && [e2, Restart][1..] == [Restart] && [Restart][1..] == [];
    RunNext(cfg, n, [e1, e2, Restart]);
    RunNext(cfg, n1, [e2, Restart]);
    RunNext(cfg, n2, [Restart]);
    RunNothing(cfg, n3);
  }
}
