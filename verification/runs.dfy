/**
 Whole runs of a node: any sequence of arriving blocks and restarts. What every run keeps, and what a
 run keeps as long as its reorgs are clean.
 */
module Runs {
  import opened Types
  import opened Worlds
  import opened Issuance
  import opened Transition
  import opened Chain
  import opened Store
  import opened ForkChoice
  import opened Trees
  import opened Blockchains
  import opened Restarts

  datatype Event = Arrive(block: Block, now: int) | Restart

  /** The node after an event; None when a restart refuses the database. A refused block changes nothing. */
  ghost function After(cfg: Config, n: Node, e: Event): Option<Node> {
    match e
    case Restart => Reloaded(cfg, n.db)
    case Arrive(b, now) =>
      var r := Inserted(cfg, n, b, now);
      if r.Some? then r else Some(n)
  }

  /** The block an event adds to the accepted ones. */
  ghost function Joining(cfg: Config, n: Node, e: Event): set<Header> {
    if e.Arrive? && Inserted(cfg, n, e.block, e.now).Some? then {e.block.header} else {}
  }

  ghost function Run(cfg: Config, n: Node, es: seq<Event>): Option<Node>
    decreases |es|
  {
    if es == [] then Some(n)
    else
      match After(cfg, n, es[0])
      case None => None
      case Some(n') => Run(cfg, n', es[1..])
  }

  ghost function Joined(cfg: Config, n: Node, es: seq<Event>): set<Header>
    decreases |es|
  {
    if es == [] then {}
    else
      Joining(cfg, n, es[0]) +
      match After(cfg, n, es[0])
      case None => {}
      case Some(n') => Joined(cfg, n', es[1..])
  }

  // ----- what runs keep -----

  lemma EventSound(c: Base, cfg: Config, n: Node, accepted: set<Header>, e: Event)
    requires Trees.Sound(c, cfg, n, accepted) && After(cfg, n, e).Some?
    requires e.Restart? ==> Agrees(c, n.db) || RootsDetermine(cfg.rules)
    ensures Trees.Sound(c, cfg, After(cfg, n, e).value, accepted + Joining(cfg, n, e))
  {
    hide Trees.Sound, Inserted, Reloaded, Agrees, RootsDetermine;
    match e {
      case Restart =>
        ReloadedSound(c, cfg, n, accepted);
        assert accepted + {} == accepted;
      case Arrive(b, now) =>
        if Inserted(cfg, n, b, now).Some? {
          InsertedSound(c, cfg, n, accepted, b, now);
        } else {
          assert accepted + {} == accepted;
        }
    }
  }

  /**
   Where roots do not collide, memory is right after every run of blocks and restarts, whatever became of
   the accounts on disk: every state is the true one, head is the best block ever accepted, and height map,
   transaction index, burn total and weights on disk are head's.
   */
  lemma {:induction false} RunKeepsMemory(c: Base, cfg: Config, n: Node, accepted: set<Header>, es: seq<Event>)
    requires Trees.Sound(c, cfg, n, accepted) && RootsDetermine(cfg.rules) && Run(cfg, n, es).Some?
    ensures Trees.Sound(c, cfg, Run(cfg, n, es).value, accepted + Joined(cfg, n, es))
    decreases |es|
  {
    hide Trees.Sound, After, Joining, RootsDetermine;
    if es == [] {
      assert accepted + {} == accepted;
    } else {
      EventSound(c, cfg, n, accepted, es[0]);
      var n', more := After(cfg, n, es[0]).value, Joining(cfg, n, es[0]);
      RunKeepsMemory(c, cfg, n', accepted + more, es[1..]);
      assert accepted + more + Joined(cfg, n', es[1..]) == accepted + (more + Joined(cfg, n', es[1..]));
    }
  }

  /** Whenever the head moves, the marks of the blocks replayed on the way cover them. */
  ghost predicate CleanRun(c: Base, cfg: Config, n: Node, es: seq<Event>)
    decreases |es|
  {
    es == [] ||
    ((es[0].Arrive? && Inserted(cfg, n, es[0].block, es[0].now).Some? && Heavier(cfg, es[0].block.header, n.db.head) ==>
        Clean(c, n, es[0].block.header)) &&
     (After(cfg, n, es[0]).Some? ==> CleanRun(c, cfg, After(cfg, n, es[0]).value, es[1..])))
  }

  lemma EventAgrees(c: Base, cfg: Config, n: Node, accepted: set<Header>, e: Event)
    requires Trees.Sound(c, cfg, n, accepted) && Agrees(c, n.db)
    requires e.Arrive? && Inserted(cfg, n, e.block, e.now).Some? && Heavier(cfg, e.block.header, n.db.head) ==>
               Clean(c, n, e.block.header)
    ensures After(cfg, n, e).Some? && Agrees(c, After(cfg, n, e).value.db)
  {
    hide Trees.Sound, Inserted, Clean, LastMarksRight, Heavier, Undoable, Load, RootsDetermine;
    match e {
      case Restart => ReloadedIff(c, cfg, n, accepted);
      case Arrive(b, now) =>
        if Inserted(cfg, n, b, now).Some? { InsertedAgrees(c, cfg, n, accepted, b, now); }
    }
  }

  /** After a clean run, with or without restarts, disk is right: no restart was refused, and none would be now. */
  lemma {:induction false} CleanRunKeepsDisk(c: Base, cfg: Config, n: Node, accepted: set<Header>, es: seq<Event>)
    requires Trees.Sound(c, cfg, n, accepted) && Agrees(c, n.db) && CleanRun(c, cfg, n, es)
    ensures Run(cfg, n, es).Some?
    ensures var n' := Run(cfg, n, es).value; Trees.Sound(c, cfg, n', accepted + Joined(cfg, n, es)) && Agrees(c, n'.db)
    decreases |es|
  {
    hide Trees.Sound, After, Joining, Agrees, Clean, Heavier, Inserted;
    if es == [] {
      assert accepted + {} == accepted;
    } else {
      EventAgrees(c, cfg, n, accepted, es[0]);
      EventSound(c, cfg, n, accepted, es[0]);
      var n', more := After(cfg, n, es[0]).value, Joining(cfg, n, es[0]);
      CleanRunKeepsDisk(c, cfg, n', accepted + more, es[1..]);
      assert accepted + more + Joined(cfg, n', es[1..]) == accepted + (more + Joined(cfg, n', es[1..]));
    }
  }

  /** Without restarts every run is clean: any tree of blocks, any mix of extends, side blocks and reorgs. */
  lemma {:induction false} NoRestartIsClean(c: Base, cfg: Config, n: Node, accepted: set<Header>, es: seq<Event>)
    requires Trees.Sound(c, cfg, n, accepted) && True(c, n.states) && AllCovered(c, n)
    requires forall i :: 0 <= i < |es| ==> es[i].Arrive?
    ensures CleanRun(c, cfg, n, es)
    decreases |es|
  {
    hide Trees.Sound, AllCovered, Clean, Heavier, Inserted, Joining;
    if es != [] {
      var b, now := es[0].block, es[0].now;
      if Inserted(cfg, n, b, now).Some? {
        InsertedSound(c, cfg, n, accepted, b, now);
        InsertedCovered(c, cfg, n, accepted, b, now);
        NoRestartIsClean(c, cfg, Inserted(cfg, n, b, now).value, accepted + {b.header}, es[1..]);
      } else {
        NoRestartIsClean(c, cfg, n, accepted, es[1..]);
      }
    }
  }

  /**
   The object, run on a fresh database. Each event's result is reported, the node is where Run says, and it has
   accepted exactly the blocks that succeeded. It ends early only when a restart refuses its database.
   */
  method AnyRun(cfg: Config, alloc: map<Address, nat>, events: seq<Event>)
    returns (bc: Blockchain, ok: seq<bool>, refused: bool)
    requires Buildable(cfg, alloc) && (RootsDetermine(cfg.rules) || Restart !in events)
    ensures refused <==> Run(cfg, Initial(cfg, alloc), events).None?
    ensures !refused ==>
              && |ok| == |events| && bc.Sound() && Run(cfg, Initial(cfg, alloc), events) == Some(bc.View())
              && bc.accepted ==
                  {cfg.genesis} + set i | 0 <= i < |events| && events[i].Arrive? && ok[i] :: events[i].block.header
    ensures !refused && Restart !in events ==> bc.Valid()
  {
    hide Trees.Sound, Inserted, Reloaded, Agrees, AllCovered, RootsDetermine, Initial, Buildable, Run;
    bc := new Blockchain(cfg, alloc);
    ok, refused := [], false;
    ghost var start := bc.View();
    assert events[0..] == events;
    for i := 0 to |events|
      invariant fresh(bc) && bc.Sound() && bc.cfg == cfg && |ok| == i && (Restart !in events ==> bc.Valid())
      invariant Run(cfg, start, events) == Run(cfg, bc.View(), events[i..])
      invariant bc.accepted ==
          {cfg.genesis} + set j | 0 <= j < i && events[j].Arrive? && ok[j] :: events[j].block.header
    {
      ghost var n := bc.View();
      RunNext(cfg, n, events[i..]);
      assert events[i..][0] == events[i] && events[i..][1..] == events[i + 1..];
      match events[i] {
        case Restart =>
          var err, next := Resume(cfg, bc.db, bc.c, bc.accepted);
          if err.Some? { return bc, ok, true; }
          ReloadedSound(bc.c, cfg, n, bc.accepted);
          bc := next;
          ok := ok + [true];
        case Arrive(b, now) =>
          var err, _, _ := bc.Insert(b, now);
          ok := ok + [err.None?];
      }
    }
    RunNothing(cfg, bc.View());
  }

  lemma RunNext(cfg: Config, n: Node, es: seq<Event>)
    requires es != []
    ensures var r := After(cfg, n, es[0]); Run(cfg, n, es) == if r.None? then None else Run(cfg, r.value, es[1..])
  {
  }

  lemma RunNothing(cfg: Config, n: Node)
    ensures Run(cfg, n, []) == Some(n)
  {
  }

  // ----- the whole chain -----

  /** SumBalances: a loop over the accounts, in any order. */
  method SumBalances(accounts: Table) returns (total: int)
    ensures total == Total(accounts)
  {
    total := 0;
    var todo := accounts;
    while todo != map[]
      invariant total + Total(todo) == Total(accounts)
      decreases |todo|
    {
      var a :| a in todo;
      TotalRemove(todo, a);
      total := total + todo[a].balance;
      todo := todo - {a};
    }
  }

  /**
   The periodic self-check: balances plus burned equal pre-mine plus issuance. At any head it passes with the true
   pre-mine, and with no other.
   */
  method CheckConservation(bc: Blockchain, genesisSupply: int) returns (ok: bool)
    requires bc.Sound()
    ensures ok <==> genesisSupply == Supply(bc.c.world)
    ensures bc.head in bc.states && Worlds.Sound(bc.states[bc.head])
  {
    hide StateOf, Injective;
    BranchConserves(bc.c, bc.head);
    var st := bc.states[bc.head];
    var balances := SumBalances(st.accounts);
    var issued := CumulativeIssued(bc.head.height);
    ok := balances + st.burned == genesisSupply + issued;
  }

  /** Two nodes that accepted the same blocks, in whatever order and with whatever restarts, have the same head. */
  lemma SameBlocksSameHead(c: Base, cfg: Config, n: Node, cfg': Config, n': Node, accepted: set<Header>)
    requires Trees.Sound(c, cfg, n, accepted) && Trees.Sound(c, cfg', n', accepted) && cfg.digest == cfg'.digest
    ensures n.db.head == n'.db.head
  {
    hide StateOf;
    var a, b := n.db.head, n'.db.head;
    StrictTotalOrder(cfg.digest, Tip(a, Work(a)), Tip(b, Work(b)), Tip(b, Work(b)));
  }

  /** Stored work is the sum along the branch, and an accepted block outweighs every block below it. */
  lemma WorkGrows(c: Base, cfg: Config, n: Node, accepted: set<Header>, a: Header, h: Header)
    requires Trees.Sound(c, cfg, n, accepted) && h in accepted && Within(a, h) && a != h
    ensures Work(a) < Work(h)
    ensures h in n.db.blocks ==> h in n.db.td && n.db.td[h] == Work(h)
  {
    hide StateOf, Injective;
    WorkAtLeast(a, h.parentHash.parent);
  }

  lemma {:induction false} WorkAtLeast(a: Header, h: Header)
    requires Within(a, h)
    ensures Work(a) <= Work(h)
  {
    if a != h { WorkAtLeast(a, h.parentHash.parent); }
  }
}
