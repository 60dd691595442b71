/**
 The block tree as an object (core/blockchain.go): inserting blocks, moving the head over forks, and
 keeping the tables on disk in step. Every operation is proved to compute what Trees says.
 */
module Blockchains {
  import opened Types
  import opened Worlds
  import opened Transition
  import opened Chain
  import opened Store
  import opened ForkChoice
  import opened Trees
  import Pow

  datatype ChainError = KnownBlock | UnknownParent | FutureBlock | BadDifficulty | BadPoW | BadTxRoot | BadTx
                      | ReorgTooDeep | BadBlock(why: BlockError) | NoCommonAncestor | NoDiff | PrunedState

  // ----- collecting the retarget window -----

  function Front(s: seq<Pow.Tick>): seq<Pow.Tick>
    requires s != []
  {
    s[..|s| - 1]
  }

  lemma WindowSplit(h: Header, n: nat)
    ensures WindowOf(h, n) == Front(WindowOf(h, n)) + [TickOf(h)]
    ensures n > 0 && h.parentHash.Child? ==> Front(WindowOf(h, n)) == WindowOf(h.parentHash.parent, n - 1)
    ensures n == 0 ==> Front(WindowOf(h, n)) == []
  {
  }

  /** What is left to collect, then what has been collected, make up the window of `tip`. */
  ghost predicate Collected(tip: Header, w: nat, cur: Header, left: nat, window: seq<Pow.Tick>) {
    WindowOf(tip, w) == Front(WindowOf(cur, left)) + window
  }

  lemma CollectFirst(tip: Header, w: nat)
    ensures Collected(tip, w, tip, w, [TickOf(tip)])
  {
    WindowSplit(tip, w);
  }

  lemma CollectOne(tip: Header, w: nat, cur: Header, left: nat, window: seq<Pow.Tick>)
    requires Collected(tip, w, cur, left, window) && left > 0 && cur.parentHash.Child?
    ensures Collected(tip, w, cur.parentHash.parent, left - 1, [TickOf(cur.parentHash.parent)] + window)
  {
    hide WindowOf, Front;
    var p := cur.parentHash.parent;
    WindowSplit(cur, left);
    WindowSplit(p, left - 1);
    ConcatAssociative(Front(WindowOf(p, left - 1)), [TickOf(p)], window);
  }

  lemma ConcatAssociative<T>(a: seq<T>, b: seq<T>, s: seq<T>)
    ensures a + b + s == a + (b + s)
  {
  }

  lemma CollectDone(tip: Header, w: nat, cur: Header, window: seq<Pow.Tick>)
    requires Collected(tip, w, cur, 0, window)
    ensures window == WindowOf(tip, w)
  {
    WindowSplit(cur, 0);
  }

  // ----- queueing writes -----

  /** Queues the marked accounts of a block and the diff that undoes them. */
  method WriteAccountChanges(batch: Db, h: Header, next: World, prev: World, touched: set<Address>) returns (out: Db)
    ensures out == batch.(accounts := WriteAccounts(batch.accounts, next.accounts, touched),
                     revDiff := batch.revDiff[h := DiffFor(next, prev, touched)])
  {
    hide WriteAccounts, DiffFor;
    var accounts := batch.accounts;
    var entries: map<Address, Option<Account>> := map[];
    var todo := touched;
    ghost var done: set<Address> := {};
    NothingWritten(accounts, next, prev, StoredDiff(map[], 0));
    while todo != {}
      invariant done + todo == touched
      invariant accounts == WriteAccounts(batch.accounts, next.accounts, done)
      invariant entries == DiffFor(next, prev, done).entries
      decreases todo
    {
      var a :| a in todo;
      WriteOne(batch.accounts, next.accounts, done, a);
      DiffOne(next, prev, done, a);
      entries := entries[a := if a in prev.accounts then Some(prev.accounts[a]) else None];
      if a in next.accounts {
        accounts := accounts[a := next.accounts[a]];
      } else {
        accounts := accounts - {a};
      }
      todo, done := todo - {a}, done + {a};
    }
    assert done == touched;
    out := batch.(accounts := accounts, revDiff := batch.revDiff[h := StoredDiff(entries, next.burned - prev.burned)]);
    DiffBurn(next, prev, touched);
  }

  /** Queues the undo of a block's account changes, as recorded in the database. */
  method ApplyReverseDiff(db: Db, batch: Db, h: Header) returns (err: Option<ChainError>, out: Db)
    ensures err == if h in db.revDiff then None else Some(NoDiff)
    ensures h in db.revDiff ==> out == batch.(accounts := UndoAccounts(batch.accounts, db.revDiff[h]))
  {
    out := batch;
    if h !in db.revDiff {
      return Some(NoDiff), out;
    }
    hide UndoAccounts;
    var d := db.revDiff[h];
    var accounts := batch.accounts;
    var todo := d.entries.Keys;
    ghost var done: map<Address, Option<Account>> := map[];
    NothingWritten(accounts, World(map[], {}, [], 0), World(map[], {}, [], 0), StoredDiff(done, 0));
    while todo != {}
      invariant todo <= d.entries.Keys && done == d.entries - todo
      invariant accounts == UndoAccounts(batch.accounts, StoredDiff(done, 0))
      decreases todo
    {
      var a :| a in todo;
      UndoOne(batch.accounts, done, a, d.entries[a]);
      if d.entries[a].None? {
        accounts := accounts - {a};
      } else {
        accounts := accounts[a := d.entries[a].value];
      }
      todo, done := todo - {a}, done[a := d.entries[a]];
    }
    assert done == d.entries;
    UndoIgnoresBurn(batch.accounts, d);
    return None, batch.(accounts := accounts);
  }

  method UnindexTxs(batch: Db, h: Header) returns (out: Db)
    ensures out == batch.(txIndex := batch.txIndex - TxSet(h.txRoot))
  {
    var index := batch.txIndex;
    for i := 0 to |h.txRoot|
      invariant index == batch.txIndex - TxSet(h.txRoot[..i])
    {
      assert TxSet(h.txRoot[..i + 1]) == TxSet(h.txRoot[..i]) + {h.txRoot[i]} by {
        assert h.txRoot[..i + 1] == h.txRoot[..i] + [h.txRoot[i]];
      }
      index := index - {h.txRoot[i]};
    }
    assert h.txRoot[..|h.txRoot|] == h.txRoot;
    out := batch.(txIndex := index);
  }

  method AddTxs(batch: Db, h: Header) returns (out: Db)
    ensures out == batch.(txIndex := IndexTxs(batch.txIndex, h, |h.txRoot|))
  {
    var index := batch.txIndex;
    for i := 0 to |h.txRoot|
      invariant index == IndexTxs(batch.txIndex, h, i)
    {
      index := index[h.txRoot[i] := Location(h, h.height, i)];
    }
    out := batch.(txIndex := index);
  }

  // ----- walking back -----

  lemma OneAtHeight(genesis: Header, x: Header, y: Header, tip: Header)
    requires Linked(genesis, tip) && Within(x, tip) && Within(y, tip) && x.height == y.height
    ensures x == y
  {
    LinkedCanon(genesis, tip);
  }

  /** Different blocks at one height: neither is genesis, and one branch cannot hold both. */
  lemma SplitApart(genesis: Header, a: Header, b: Header, head: Header, tip: Header)
    requires Linked(genesis, head) && Linked(genesis, tip)
    requires Within(a, head) && Within(b, tip) && a.height == b.height && a != b
    ensures !Within(b, head) && a.height > 0
  {
    if Within(b, head) { OneAtHeight(genesis, a, b, head); }
    HeightsFall(genesis, b, tip);
    HeightsFall(genesis, a, head);
  }

  /** A shared block with nothing shared above it is the fork. */
  lemma {:induction false} ForkIs(a: Header, b: Header, anc: Header)
    requires Within(anc, a) && Within(anc, b) && forall g :: Above(g, anc, b) ==> !Within(g, a)
    ensures ForkOf(a, b) == anc
  {
    if b != anc {
      assert Above(b, anc, b);
      assert forall g :: Above(g, anc, b.parentHash.parent) ==> Above(g, anc, b);
      ForkIs(a, b.parentHash.parent, anc);
    }
  }

  class Blockchain {
    ghost const c: Base
    const cfg: Config
    var db: Db
    var states: map<Header, World>
    var head: Header
    /** Every block ever accepted, including ones since swept off disk. */
    ghost var accepted: set<Header>

    ghost function View(): Node
      reads this
    {
      Node(db, states)
    }

    ghost predicate Sound()
      reads this
    {
      head == db.head && Trees.Sound(c, cfg, View(), accepted)
    }

    /** Sound, in agreement with disk, and every state in memory covered by its marks. */
    ghost predicate Valid()
      reads this
    {
      Sound() && Agrees(c, db) && AllCovered(c, View())
    }

    /** initialise: a fresh database for this genesis. */
    constructor (cfg: Config, alloc: map<Address, nat>)
      requires Buildable(cfg, alloc)
      ensures Valid() && View() == Initial(cfg, alloc) && this.cfg == cfg && c == BaseOf(cfg, alloc)
      ensures accepted == {cfg.genesis}
    {
      hide Trees.Sound, Agrees, Buildable, AllCovered;
      InitialSound(cfg, alloc);
      c := BaseOf(cfg, alloc);
      this.cfg := cfg;
      var g := cfg.genesis;
      var world := World(map a | a in alloc && alloc[a] != 0 :: Account(0, alloc[a], map[], []), {}, [], 0);
      db := Db(Meta(SCHEMA_VERSION, cfg.chainId, g), {g}, map[g := g.difficulty], map[0 := g], map[],
        map a | a in alloc :: Account(0, alloc[a], map[], []), map[g := StoredDiff(map[], 0)], g, 0);
      states := map[g := world];
      head := g;
      accepted := {g};
    }

    /** A node over an existing database, with the states recovered so far. */
    constructor Open(cfg: Config, n: Node, ghost c: Base, ghost accepted: set<Header>)
      ensures View() == n && head == n.db.head && this.cfg == cfg && this.c == c && this.accepted == accepted
    {
      this.c, this.cfg := c, cfg;
      db, states, head := n.db, n.states, n.db.head;
      this.accepted := accepted;
    }

    lemma Parts()
      requires Sound()
      ensures Setup(c, cfg) && True(c, states) && Good(c, head) && head in states && Rooted(c, db)
      ensures Linked(cfg.genesis, head)
      ensures db.head == head && db.canonical == CanonOf(head) && db.txIndex == IndexOf(head)
      ensures cfg.genesis.difficulty >= 1
    {
      hide StateOf, Injective;
      GoodLinked(c, head);
    }

    // ----- forks -----

    method ParentOf(h: Header) returns (p: Option<Header>)
      ensures p.Some? <==> h.parentHash.Child? && h.parentHash.parent in db.blocks
      ensures p.Some? ==> h.parentHash == Child(p.value)
    {
      if h.parentHash.Origin? || h.parentHash.parent !in db.blocks {
        return None;
      }
      return Some(h.parentHash.parent);
    }

    /** A step down the canonical branch: the parent is always there. */
    lemma DownHead(a: Header)
      requires Sound() && Within(a, head) && a.height > 0
      ensures a.parentHash.Child? && a.parentHash.parent in db.blocks && Within(a.parentHash.parent, head)
      ensures a.height == a.parentHash.parent.height + 1
      ensures Path(a.parentHash.parent, head) == [a] + Path(a, head)
    {
      hide StateOf, Trees.Sound;
      Parts();
      HeightsFall(cfg.genesis, a, head);
      PathPrepend(cfg.genesis, a.parentHash.parent, a, head);
    }

    /** A step down the other branch, from a block that is not canonical. */
    lemma DownOther(b: Header, newHead: Header)
      requires Sound() && Linked(cfg.genesis, newHead) && Within(b, newHead) && !Within(b, head)
      ensures b.parentHash.Child? && b.height == b.parentHash.parent.height + 1 && Within(b.parentHash.parent, newHead)
      ensures Path(b.parentHash.parent, newHead) == [b] + Path(b, newHead) && Above(b, ForkOf(head, newHead), newHead)
      ensures b.parentHash.parent !in db.blocks ==> Above(b.parentHash.parent, ForkOf(head, newHead), newHead)
      ensures b.parentHash.parent != newHead
    {
      hide StateOf, Trees.Sound;
      Parts();
      GenesisWithin(cfg.genesis, head);
      HeightsFall(cfg.genesis, b, newHead);
      PathPrepend(cfg.genesis, b.parentHash.parent, b, newHead);
      ForkFacts(cfg.genesis, head, newHead);
      HeightsFall(cfg.genesis, b.parentHash.parent, newHead);
    }

    /**
     The blocks of newHead's branch down to b have been visited: none is canonical, and all but newHead are on
     disk.
     */
    ghost predicate Visited(b: Header, newHead: Header)
      reads this
    {
      && Within(b, newHead) && (b == newHead || b in db.blocks)
      && forall g :: g in Path(b, newHead) ==> !Within(g, head) && (g == newHead || g in db.blocks)
    }

    /**
     Where the branch of newHead leaves the canonical one, and the blocks on either side. It fails exactly
     when a block of newHead's branch above that point, other than newHead, is not on disk.
     */
    method FindFork(newHead: Header)
      returns (err: Option<ChainError>, dropped: seq<Header>, added: seq<Header>, anc: Header)
      requires Sound() && Linked(cfg.genesis, newHead)
      ensures err.None? <==> forall g :: Above(g, ForkOf(head, newHead), newHead) && g != newHead ==> g in db.blocks
      ensures err.None? ==>
                && anc == ForkOf(head, newHead) && Within(anc, head) && Within(anc, newHead)
                && dropped == Path(anc, head) && added == Path(anc, newHead)
    {
      hide StateOf, Sound, Linked, Within, Path, Above, ForkOf;
      var a, b := head, newHead;
      dropped, added, anc := [], [], head;
      WalkStart(newHead);
      while a.height > b.height
        invariant Within(a, head) && dropped == Path(a, head) && (a == head || a.height >= b.height)
        decreases a.height
      {
        DownHead(a);
        var p := ParentOf(a);
        if p.None? { return Some(UnknownParent), dropped, added, anc; }
        dropped, a := [a] + dropped, p.value;
      }
      while b.height > a.height
        invariant Visited(b, newHead) && added == Path(b, newHead) && b.height >= a.height
        invariant (b.height > a.height ==> a == head)
        decreases b.height
      {
        HigherIsOff(b);
        DownOther(b, newHead);
        var p := ParentOf(b);
        if p.None? { return Some(UnknownParent), dropped, added, anc; }
        VisitNext(b, newHead);
        added, b := [b] + added, p.value;
      }
      while a != b
        invariant Within(a, head) && dropped == Path(a, head) && a.height == b.height
        invariant Visited(b, newHead) && added == Path(b, newHead)
        decreases a.height
      {
        OtherIsOff(a, b, newHead);
        DownOther(b, newHead);
        DownHead(a);
        if a.height == 0 { return Some(NoCommonAncestor), dropped, added, anc; }
        var p := ParentOf(a);
        if p.None? { return Some(UnknownParent), dropped, added, anc; }
        var q := ParentOf(b);
        if q.None? { return Some(UnknownParent), dropped, added, anc; }
        VisitNext(b, newHead);
        dropped, a := [a] + dropped, p.value;
        added, b := [b] + added, q.value;
      }
      WalkEnd(a, newHead);
      return None, dropped, added, a;
    }

    lemma WalkStart(newHead: Header)
      ensures Path(head, head) == [] && Path(newHead, newHead) == [] && Within(head, head) && Visited(newHead, newHead)
    {
    }

    lemma HigherIsOff(b: Header)
      requires Sound() && b.height > head.height
      ensures !Within(b, head)
    {
      hide StateOf, Trees.Sound;
      Parts();
      if Within(b, head) { HeightsFall(cfg.genesis, b, head); }
    }

    lemma OtherIsOff(a: Header, b: Header, newHead: Header)
      requires Sound() && Linked(cfg.genesis, newHead) && Within(a, head) && Within(b, newHead) && a.height == b.height
      requires a != b
      ensures !Within(b, head) && a.height > 0
    {
      hide *;
      Parts();
      SplitApart(cfg.genesis, a, b, head, newHead);
    }

    lemma VisitNext(b: Header, newHead: Header)
      requires Visited(b, newHead) && !Within(b, head) && b.parentHash.Child? && b.parentHash.parent in db.blocks
      requires Within(b.parentHash.parent, newHead) && Path(b.parentHash.parent, newHead) == [b] + Path(b, newHead)
      ensures Visited(b.parentHash.parent, newHead)
    {
    }

    lemma WalkEnd(a: Header, newHead: Header)
      requires Visited(a, newHead) && Within(a, head)
      ensures a == ForkOf(head, newHead) && Within(a, newHead)
      ensures forall g :: Above(g, a, newHead) && g != newHead ==> g in db.blocks
    {
      forall g ensures g in Path(a, newHead) <==> Above(g, a, newHead) { PathMembers(a, newHead, g); }
      ForkIs(head, newHead, a);
    }

    // ----- moving the tables -----

    /** Takes the canonical blocks above anc off again, newest first: heights and transactions become anc's. */
    method Unwind(anc: Header, dropped: seq<Header>, batch: Db) returns (err: Option<ChainError>, out: Db)
      requires Sound() && Within(anc, head) && dropped == Path(anc, head)
      requires batch.txIndex == db.txIndex && batch.canonical == db.canonical
      ensures err.None?
      ensures out == batch.(accounts := Unwound(batch.accounts, db.revDiff, anc, head),
                       txIndex := IndexOf(anc), canonical := CanonOf(anc))
    {
      hide StateOf, Trees.Sound, UndoAccounts;
      Parts();
      out := batch;
      var i: nat := |dropped|;
      PathAt(anc, head, i);
      while i > 0
        invariant i <= |dropped|
        invariant Unwound(out.accounts, db.revDiff, anc, Under(anc, dropped, i)) ==
                  Unwound(batch.accounts, db.revDiff, anc, head)
        invariant out == batch.(accounts := out.accounts, txIndex := IndexOf(Under(anc, dropped, i)),
                           canonical := CanonOf(Under(anc, dropped, i)))
      {
        i := i - 1;
        var h := dropped[i];
        UnwindStep(anc, dropped, i);
        err, out := ApplyReverseDiff(db, out, h);
        out := UnindexTxs(out, h);
        out := out.(canonical := out.canonical - {h.height});
      }
      UnwoundDone(out.accounts, anc);
      err := None;
    }

    lemma UnwoundDone(table: Table, anc: Header)
      ensures Unwound(table, db.revDiff, anc, anc) == table
    {
    }

    lemma UnwindStep(anc: Header, dropped: seq<Header>, i: nat)
      requires Sound() && Within(anc, head) && dropped == Path(anc, head) && i < |dropped|
      ensures var h, p := dropped[i], Under(anc, dropped, i);
              && h.parentHash == Child(p) && h in db.revDiff && h != anc
              && IndexOf(h) - TxSet(h.txRoot) == IndexOf(p) && CanonOf(h) - {h.height} == CanonOf(p)
    {
      hide StateOf, Trees.Sound;
      Parts();
      var h := dropped[i];
      PathAt(anc, head, i);
      PathAt(anc, head, i + 1);
      PathMembers(anc, head, h);
      AboveIsWithin(cfg.genesis, h, anc, head);
      BranchGood(c, h, head);
      IndexUnwind(c, h);
      CanonUnwind(c, h);
    }

    /**
     Writes the winning branch on top of anc's tables, oldest block first, from the states kept in memory. It
     fails exactly when the state of anc, or of a block between, is gone.
     */
    method Replay(anc: Header, added: seq<Header>, newHead: Header, newState: World, batch: Db)
      returns (err: Option<ChainError>, out: Db)
      requires Linked(cfg.genesis, newHead) && Within(anc, newHead) && anc != newHead && added == Path(anc, newHead)
      requires batch.txIndex == IndexOf(anc) && batch.canonical == CanonOf(anc)
      ensures err.None? <==> anc in states && forall g :: Above(g, anc, newHead) && g != newHead ==> g in states
      ensures err.None? ==>
                var sts := states[newHead := newState];
                out == batch.(accounts := Written(batch.accounts, sts, anc, newHead), txIndex := IndexOf(newHead),
                         canonical := CanonOf(newHead), revDiff := Recorded(batch.revDiff, sts, anc, newHead))
    {
      hide Within, Linked, Path, Above, Written, Recorded;
      out := batch;
      ghost var sts := states[newHead := newState];
      WrittenNothing(batch, sts, anc);
      ReplayedAll(anc, newHead);
      for i := 0 to |added|
        invariant i > 0 ==> anc in states
        invariant forall j :: 0 <= j < i && added[j] != newHead ==> added[j] in states
        invariant var t := Under(anc, added, i);
                  out == batch.(accounts := Written(batch.accounts, sts, anc, t), txIndex := IndexOf(t),
                           canonical := CanonOf(t), revDiff := Recorded(batch.revDiff, sts, anc, t))
      {
        var h := added[i];
        ReplayStep(anc, added, newHead, i);
        var st := newState;
        if h != newHead {
          if h !in states { return Some(PrunedState), out; }
          st := states[h];
        }
        if h.parentHash.parent !in states { return Some(PrunedState), out; }
        WrittenNext(batch, sts, anc, h);
        out := WriteAccountChanges(out, h, st, states[h.parentHash.parent], st.touched);
        out := out.(canonical := out.canonical[h.height := h]);
        out := AddTxs(out, h);
      }
      PathAt(anc, newHead, |added|);
      err := None;
    }

    lemma WrittenNothing(batch: Db, sts: map<Header, World>, anc: Header)
      ensures Written(batch.accounts, sts, anc, anc) == batch.accounts
      ensures Recorded(batch.revDiff, sts, anc, anc) == batch.revDiff
    {
    }

    lemma WrittenNext(batch: Db, sts: map<Header, World>, anc: Header, h: Header)
      requires h != anc && h.parentHash.Child? && h in sts && h.parentHash.parent in sts
      ensures var p := h.parentHash.parent;
              && Written(batch.accounts, sts, anc, h) ==
                 WriteAccounts(Written(batch.accounts, sts, anc, p), sts[h].accounts, sts[h].touched)
              && Recorded(batch.revDiff, sts, anc, h) ==
                 Recorded(batch.revDiff, sts, anc, p)[h := DiffFor(sts[h], sts[p], sts[h].touched)]
    {
    }

    lemma ReplayedAll(anc: Header, newHead: Header)
      requires Within(anc, newHead) && anc != newHead
      ensures forall g :: g in Path(anc, newHead) <==> Above(g, anc, newHead)
      ensures |Path(anc, newHead)| > 0
    {
      forall g ensures g in Path(anc, newHead) <==> Above(g, anc, newHead) { PathMembers(anc, newHead, g); }
      assert Above(newHead, anc, newHead);
    }

    lemma ReplayStep(anc: Header, added: seq<Header>, newHead: Header, i: nat)
      requires Linked(cfg.genesis, newHead) && Within(anc, newHead) && added == Path(anc, newHead) && i < |added|
      ensures var h, p := added[i], Under(anc, added, i);
              && h.parentHash == Child(p) && h != anc && p != newHead && (i > 0 ==> p == added[i - 1])
              && IndexOf(h) == IndexTxs(IndexOf(p), h, |h.txRoot|) && CanonOf(h) == CanonOf(p)[h.height := h]
    {
      PathAt(anc, newHead, i);
      PathAt(anc, newHead, i + 1);
      PathMembers(anc, newHead, added[i]);
      AboveIsWithin(cfg.genesis, added[i], anc, newHead);
      HeightsFall(cfg.genesis, added[i], newHead);
    }

    // ----- pruning -----

    /** Forgets states below the retention window; now and then sweeps losing branches off disk. */
    method Prune()
      requires head == db.head
      modifies this`states, this`db
      ensures View() == Pruned(cfg, old(View())) && head == db.head
    {
      hide Sweep;
      SweepKeepsHead(db, head.height - cfg.retention);
      if head.height <= cfg.retention {
        return;
      }
      var cutoff := head.height - cfg.retention;
      states := map g | g in states && g.height >= cutoff :: states[g];
      if head.height % cfg.gcInterval == 0 {
        GcOrphans(cutoff);
      }
    }

    lemma SweepKeepsHead(d: Db, cutoff: int)
      ensures cutoff >= 0 ==> Sweep(d, cfg.genesis, cutoff).head == d.head
    {
    }

    /** The first pass: what lies below the cutoff, genesis aside. */
    method BelowCutoff(cutoff: nat) returns (below: set<Header>)
      ensures below == set g | g in db.blocks && g != cfg.genesis && g.height < cutoff
    {
      below := {};
      var todo := db.blocks;
      while todo != {}
        invariant todo <= db.blocks && below == set g | g in db.blocks - todo && g != cfg.genesis && g.height < cutoff
        decreases todo
      {
        var g :| g in todo;
        if g != cfg.genesis && g.height < cutoff { below := below + {g}; }
        todo := todo - {g};
      }
    }

    /** Scans the block table, then deletes what is below the cutoff and not canonical. */
    method GcOrphans(cutoff: nat)
      modifies this`db
      ensures db == Sweep(old(db), cfg.genesis, cutoff)
    {
      hide Without;
      var below := BelowCutoff(cutoff);
      var batch := db;
      ghost var gone: set<Header> := {};
      WithoutNone(db);
      while below != {}
        invariant db == old(db) && batch == Without(db, gone)
        invariant gone <= Orphans(db, cfg.genesis, cutoff) <= gone + below
        invariant below <= set g | g in db.blocks && g != cfg.genesis && g.height < cutoff
        decreases below
      {
        var g :| g in below;
        below := below - {g};
        if g.height in db.canonical && db.canonical[g.height] == g { continue; }
        WithoutOne(db, gone, g);
        batch := batch.(blocks := batch.blocks - {g}, td := batch.td - {g}, revDiff := batch.revDiff - {g});
        gone := gone + {g};
      }
      assert gone == Orphans(db, cfg.genesis, cutoff);
      db := batch;
    }

    lemma WithoutNone(d: Db)
      ensures Without(d, {}) == d
    {
      assert d.blocks - {} == d.blocks && d.td - {} == d.td && d.revDiff - {} == d.revDiff;
    }

    lemma WithoutOne(d: Db, gone: set<Header>, g: Header)
      ensures var w := Without(d, gone);
              Without(d, gone + {g}) == w.(blocks := w.blocks - {g}, td := w.td - {g}, revDiff := w.revDiff - {g})
    {
      assert d.blocks - (gone + {g}) == d.blocks - gone - {g};
      assert d.td - (gone + {g}) == d.td - gone - {g};
      assert d.revDiff - (gone + {g}) == d.revDiff - gone - {g};
    }

    // ----- moving the head -----

    /** Commits a batch that makes h the head, publishes its state, and prunes. */
    method Adopt(batch: Db, h: Header, st: World)
      requires batch.head == h
      modifies this`db, this`states, this`head
      ensures View() == Pruned(cfg, Node(batch, old(states)[h := st])) && head == db.head
    {
      hide Pruned;
      db := batch;
      states := states[h := st];
      head := h;
      Prune();
    }

    method Extend(h: Header, st: World, td: nat)
      requires Sound() && h.parentHash == Child(head) && h !in db.blocks && td == Work(h)
      modifies this`db, this`states, this`head
      ensures View() == Pruned(cfg, Placed(old(View()), h, st)) && head == db.head
    {
      hide StateOf, Trees.Sound, Pruned, WriteAccounts, DiffFor;
      Parts();
      ExtendFacts(h, st);
      var prev := states[head];
      var batch := db.(blocks := db.blocks + {h}, td := db.td[h := td]);
      batch := WriteAccountChanges(batch, h, st, prev, st.touched);
      batch := batch.(canonical := batch.canonical[h.height := h]);
      batch := AddTxs(batch, h);
      batch := batch.(head := h, burned := st.burned);
      Adopt(batch, h, st);
    }

    /** Extending head is a reorg that drops nothing and adds one block. */
    lemma ExtendFacts(h: Header, st: World)
      requires Sound() && h.parentHash == Child(head) && h !in db.blocks
      ensures head in states
      ensures var sts := states[h := st];
              && ForkOf(head, h) == head && CanonOf(h) == CanonOf(head)[h.height := h]
              && IndexOf(h) == IndexTxs(IndexOf(head), h, |h.txRoot|)
              && Unwound(db.accounts, db.revDiff, head, head) == db.accounts
              && Written(db.accounts, sts, head, h) == WriteAccounts(db.accounts, st.accounts, st.touched)
              && Recorded(db.revDiff, sts, head, h) == db.revDiff[h := DiffFor(st, states[head], st.touched)]
    {
      hide StateOf, Trees.Sound, WriteAccounts, DiffFor;
      Parts();
      assert head in db.blocks && !Within(h, head);
      assert Within(head, h);
      WrittenNothing(db, states[h := st], head);
      WrittenNext(db, states[h := st], head, h);
    }

    /**
     Moves the canonical chain to another branch in one batch. It succeeds exactly when the branch can be
     followed.
     */
    method Reorg(h: Header, st: World, td: nat)
      returns (err: Option<ChainError>, dropped: seq<Header>, added: seq<Header>)
      requires Sound() && Linked(cfg.genesis, h) && h !in db.blocks && td == Work(h)
      modifies this`db, this`states, this`head
      ensures err.None? <==> old(Followable(cfg, View(), h))
      ensures err.None? ==> View() == Pruned(cfg, Placed(old(View()), h, st)) && head == db.head
      ensures err.None? ==> dropped == Path(ForkOf(old(head), h), old(head)) && added == Path(ForkOf(old(head), h), h)
      ensures err.Some? ==> View() == old(View()) && head == old(head)
    {
      hide StateOf, Trees.Sound, Pruned, Written, Unwound, Recorded, Path, Above;
      Parts();
      ReorgFacts(h);
      var anc;
      err, dropped, added, anc := FindFork(h);
      if err.Some? { return; }
      if |dropped| > cfg.retention { return Some(ReorgTooDeep), dropped, added; }
      var batch := db.(blocks := db.blocks + {h}, td := db.td[h := td]);
      err, batch := Unwind(anc, dropped, batch);
      err, batch := Replay(anc, added, h, st, batch);
      if err.Some? { return; }
      batch := batch.(head := h, burned := st.burned);
      Adopt(batch, h, st);
    }

    lemma ReorgFacts(h: Header)
      requires Sound() && Linked(cfg.genesis, h) && h !in db.blocks
      ensures var anc := ForkOf(head, h);
              Within(anc, head) && Within(anc, h) && anc != h && |Path(anc, head)| == head.height - anc.height
    {
      hide StateOf, Trees.Sound;
      Parts();
      ForkFacts(cfg.genesis, head, h);
      HeightsFall(cfg.genesis, ForkOf(head, h), head);
    }

    // ----- inserting -----

    /** Falls back to the genesis difficulty when an ancestor in the window is not on disk. */
    method RequiredDifficulty(parent: Header) returns (d: nat)
      requires Linked(cfg.genesis, parent)
      ensures d == Required(db.blocks, cfg.genesis.difficulty, parent)
    {
      hide Pow.Raw, Pow.Clamp, WindowOf, Collected, Linked, TickOf;
      var w := if parent.height > Pow.LWMA_WINDOW then Pow.LWMA_WINDOW else parent.height;
      if w < 2 { return cfg.genesis.difficulty; }
      var window := [TickOf(parent)];
      var cur := parent;
      var i: nat := w;
      CollectFirst(parent, w);
      while i > 0
        invariant i <= w && |window| == w - i + 1 && Linked(cfg.genesis, cur) && cur.height >= i
        invariant Stored(db.blocks, parent, w) <==> Stored(db.blocks, cur, i)
        invariant Collected(parent, w, cur, i, window)
      {
        LinkedDown(cur);
        if cur.parentHash.parent !in db.blocks { return cfg.genesis.difficulty; }
        CollectOne(parent, w, cur, i, window);
        cur := cur.parentHash.parent;
        i := i - 1;
        window := [TickOf(cur)] + window;
      }
      CollectDone(parent, w, cur, window);
      d := Pow.LwmaDifficulty(window);
    }

    lemma LinkedDown(h: Header)
      requires Linked(cfg.genesis, h) && h.height > 0
      ensures h.parentHash.Child? && Linked(cfg.genesis, h.parentHash.parent)
      ensures h.height == h.parentHash.parent.height + 1
    {
    }

    /** The checks before a block may move the head; on success, its state and its accumulated work. */
    method Check(b: Block, now: int) returns (err: Option<ChainError>, st: World, td: nat)
      requires Sound()
      ensures err.None? <==> Admissible(cfg, View(), b, now)
      ensures err.None? ==> st == StateAfter(cfg, View(), b, now) && td == Work(b.header)
    {
      hide StateOf, Trees.Sound, Required, ApplyBlock;
      Parts();
      st, td := states[head], 0;
      var h := b.header;
      if h in db.blocks { return Some(KnownBlock), st, td; }
      if h.parentHash.Origin? || h.parentHash.parent !in db.blocks { return Some(UnknownParent), st, td; }
      var parent := h.parentHash.parent;
      if h.timestamp > now + MAX_FUTURE_DRIFT_MS { return Some(FutureBlock), st, td; }
      GoodLinked(c, parent);
      var want := RequiredDifficulty(parent);
      if h.difficulty != want { return Some(BadDifficulty), st, td; }
      if cfg.digest(h) > Pow.PowTarget(h.difficulty) { return Some(BadPoW), st, td; }
      if b.txs != h.txRoot { return Some(ChainError.BadTxRoot), st, td; }
      if exists i :: 0 <= i < |b.txs| && !cfg.sane(b.txs[i]) { return Some(ChainError.BadTx), st, td; }
      if parent !in states { return Some(ReorgTooDeep), st, td; }
      var o := ApplyBlock(cfg.rules, states[parent], b, Some(parent));
      if o.Refused? { return Some(BadBlock(o.why)), st, td; }
      return None, o.world, db.td[parent] + h.difficulty;
    }

    /**
     Validates a block and, if the fork choice prefers it and its branch can be followed, makes it the head. A
     refused block leaves everything as it was. A node that agrees with its disk and whose states are covered
     by their marks stays so.
     */
    method Insert(b: Block, now: int) returns (err: Option<ChainError>, dropped: seq<Header>, added: seq<Header>)
      requires Sound()
      modifies this
      ensures err.None? <==> Inserted(cfg, old(View()), b, now).Some?
      ensures err.None? ==> View() == Inserted(cfg, old(View()), b, now).value && accepted == old(accepted) + {b.header}
      ensures err.Some? ==> unchanged(this)
      ensures Sound() && (old(Valid()) ==> Valid())
    {
      hide StateOf, Trees.Sound, Admissible, Pruned, Followable, Agrees, Placed, AllCovered, Better, Path;
      dropped, added := [], [];
      var h := b.header;
      var st, td;
      err, st, td := Check(b, now);
      if err.Some? { return; }
      ghost var n := View();
      Parts();
      InsertFacts(b, now);
      var heavier := Better(cfg.digest, Tip(h, td), Tip(head, db.td[head]));
      if !heavier {
        db := db.(blocks := db.blocks + {h}, td := db.td[h := td]);
        states := states[h := st];
      } else if h.parentHash.parent == head {
        Extend(h, st, td);
      } else {
        err, dropped, added := Reorg(h, st, td);
        if err.Some? { return; }
      }
      if Inserted(cfg, n, b, now).Some? { InsertKeeps(n, b, now); }
      accepted := accepted + {h};
    }

    lemma InsertFacts(b: Block, now: int)
      requires Sound() && Admissible(cfg, View(), b, now)
      ensures var h := b.header;
              && Good(c, h) && Linked(cfg.genesis, h) && h !in db.blocks && h.parentHash.Child? && head in db.td
              && db.td[head] == Work(head)
              && (h.parentHash.parent == head ==> Followable(cfg, View(), h))
    {
      hide StateOf, Trees.Sound, Admissible, Covered, SameLedger;
      Parts();
      AdmissibleIsGood(c, cfg, View(), accepted, b, now);
      var h := b.header;
      GoodLinked(c, h);
      AdmissibleIsNew(View(), b, now);
      if h.parentHash.parent == head {
        ExtendFacts(h, states[head]);
        forall g | Above(g, head, h) ensures g == h { assert !Above(g, head, head); }
      }
    }

    lemma AdmissibleIsNew(n: Node, b: Block, now: int)
      requires Admissible(cfg, n, b, now)
      ensures b.header !in n.db.blocks && b.header.parentHash.Child?
    {
    }

    lemma InsertKeeps(n: Node, b: Block, now: int)
      requires Trees.Sound(c, cfg, n, accepted) && Inserted(cfg, n, b, now).Some?
      ensures var n' := Inserted(cfg, n, b, now).value;
              && Trees.Sound(c, cfg, n', accepted + {b.header})
              && (Agrees(c, n.db) && True(c, n.states) && AllCovered(c, n) ==>
                    True(c, n'.states) && Agrees(c, n'.db) && AllCovered(c, n'))
    {
      hide StateOf, Trees.Sound, Agrees, AllCovered, Inserted, Clean, LastMarksRight, Heavier, Balanced;
      InsertedSound(c, cfg, n, accepted, b, now);
      if Agrees(c, n.db) && True(c, n.states) && AllCovered(c, n) {
        InsertedAgrees(c, cfg, n, accepted, b, now);
        InsertedCovered(c, cfg, n, accepted, b, now);
      }
    }
  }
}
