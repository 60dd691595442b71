/**
 Restarting (core/blockchain.go:216-324): what a node recovers from its database. States come back
 without marks, and side branches not at all; what that costs is shown in Shortfalls and Forgotten.
 */
module Restarts {
  import opened Types
  import opened Worlds
  import opened Transition
  import opened Chain
  import opened Store
  import opened ForkChoice
  import opened Trees
  import opened Blockchains

  datatype ResumeError = WrongSchema | WrongChain | UnreadableHead | Inconsistent

  // ----- what is recovered -----

  ghost predicate RootMatches(rules: Rules, w: World, h: Header) {
    rules.stateRoot(w.accounts, w.burned) == h.stateRoot
  }

  /** Hashes do not collide: a root determines accounts and burn total. */
  ghost predicate RootsDetermine(rules: Rules) {
    forall m: Table, b: int, m': Table, b': int :: rules.stateRoot(m, b) == rules.stateRoot(m', b') ==>
      m == m' && b == b'
  }

  /** A state taken back over a block by its diff. */
  function Back(w: World, d: StoredDiff): World {
    World(Load(UndoAccounts(w.accounts, d)), {}, w.logs, w.burned - d.burnDelta)
  }

  /** The states recovered going back from h, at most k steps: the walk stops at the first doubt. */
  ghost function Rebuilt(rules: Rules, db: Db, h: Header, w: World, k: nat): map<Header, World>
    decreases k
  {
    if k == 0 || h.height == 0 || h !in db.revDiff then map[h := w]
    else if h.parentHash.Origin? || h.parentHash.parent !in db.blocks then map[h := w]
    else
      var p, back := h.parentHash.parent, Back(w, db.revDiff[h]);
      if RootMatches(rules, back, p) then Rebuilt(rules, db, p, back, k - 1)[h := w] else map[h := w]
  }

  function Loaded(db: Db): World { World(Load(db.accounts), {}, [], db.burned) }

  /** The node after a restart, or None if the database is refused. */
  ghost function Reloaded(cfg: Config, db: Db): Option<Node> {
    if db.meta != MetaOf(cfg) || db.head !in db.blocks || !RootMatches(cfg.rules, Loaded(db), db.head) then None
    else Some(Node(db, Rebuilt(cfg.rules, db, db.head, Loaded(db), cfg.retention)))
  }

  // ----- what is known about it -----

  /**
   One step back that passes the root check is the parent's true state, if the diff is right or roots do not
   collide.
   */
  lemma BackIsTrue(c: Base, h: Header, w: World, d: StoredDiff)
    requires ValidBase(c) && Good(c, h) && h != c.genesis && SameLedger(w, StateAt(c, h))
    requires h.parentHash.Child? && Good(c, h.parentHash.parent)
    ensures Reverses(c, d, h) ==>
              var p := h.parentHash.parent; SameLedger(Back(w, d), StateAt(c, p)) && RootMatches(c.rules, Back(w, d), p)
    ensures RootsDetermine(c.rules) && RootMatches(c.rules, Back(w, d), h.parentHash.parent) ==>
              SameLedger(Back(w, d), StateAt(c, h.parentHash.parent))
  {
    hide StateOf, Load, UndoAccounts;
    var p := h.parentHash.parent;
    RootCommits(c, p);
    if Reverses(c, d, h) {
      AccountsNeverEmpty(c, h);
      AccountsNeverEmpty(c, p);
      LoadKeeps(w.accounts);
      UndoLoads(w.accounts, d, StateAt(c, h).accounts, StateAt(c, p).accounts);
    }
  }

  /** One step down the canonical branch: block and diff are there. */
  lemma WindowStep(c: Base, db: Db, h: Header)
    requires ValidBase(c) && Rooted(c, db) && Good(c, h) && Within(h, db.head) && h.height > 0
    ensures h != c.genesis && h.parentHash.Child? && h in db.revDiff
    ensures var p := h.parentHash.parent; p in db.blocks && Good(c, p) && Within(p, db.head) && h.height == p.height + 1
    ensures Undoable(c, db.revDiff, db.head) ==> Reverses(c, db.revDiff[h], h)
  {
    hide StateOf, ValidBase, Reverses;
    AboveGenesis(c, h);
    GoodParent(c, h);
    WithinTransitive(h.parentHash.parent, h, db.head);
  }

  lemma {:induction false} RebuiltTrue(c: Base, db: Db, h: Header, w: World, k: nat)
    requires ValidBase(c) && Rooted(c, db) && Good(c, h) && Within(h, db.head) && SameLedger(w, StateAt(c, h))
    requires Undoable(c, db.revDiff, db.head) || RootsDetermine(c.rules)
    ensures True(c, Rebuilt(c.rules, db, h, w, k)) && h in Rebuilt(c.rules, db, h, w, k)
    ensures Rebuilt(c.rules, db, h, w, k)[h] == w
    decreases k
  {
    hide StateOf, ValidBase, RootsDetermine, Reverses, Back, RootMatches, Rooted, Undoable, Rebuilt;
    if k > 0 && h.height > 0 {
      WindowStep(c, db, h);
      RebuiltStep(c.rules, db, h, w, k);
      var p, back := h.parentHash.parent, Back(w, db.revDiff[h]);
      BackIsTrue(c, h, w, db.revDiff[h]);
      if RootMatches(c.rules, back, p) { RebuiltTrue(c, db, p, back, k - 1); }
    } else {
      RebuiltEnd(c.rules, db, h, w, k);
    }
  }

  lemma AboveGenesis(c: Base, h: Header)
    requires ValidBase(c) && h.height > 0
    ensures h != c.genesis
  {
  }

  lemma {:induction false} RebuiltUnmarked(rules: Rules, db: Db, h: Header, w: World, k: nat)
    requires w.touched == {}
    ensures forall g :: g in Rebuilt(rules, db, h, w, k) ==> Rebuilt(rules, db, h, w, k)[g].touched == {}
    decreases k
  {
    hide RootMatches;
    if k > 0 && h.parentHash.Child? && h in db.revDiff {
      RebuiltUnmarked(rules, db, h.parentHash.parent, Back(w, db.revDiff[h]), k - 1);
    }
  }

  /** With right diffs no step is in doubt: the whole window comes back. */
  lemma {:induction false} RebuiltComplete(c: Base, db: Db, h: Header, w: World, k: nat, a: Header)
    requires ValidBase(c) && Rooted(c, db) && Good(c, h) && Within(h, db.head) && SameLedger(w, StateAt(c, h))
    requires Undoable(c, db.revDiff, db.head) && Within(a, h) && h.height <= a.height + k
    ensures a in Rebuilt(c.rules, db, h, w, k)
    decreases k
  {
    hide StateOf, ValidBase, Reverses, Back, RootMatches, Rooted, Undoable, Rebuilt;
    if a == h {
      RebuiltHas(c.rules, db, h, w, k);
    } else {
      BranchGood(c, a, h);
      WindowStep(c, db, h);
      RebuiltStep(c.rules, db, h, w, k);
      BackIsTrue(c, h, w, db.revDiff[h]);
      RebuiltComplete(c, db, h.parentHash.parent, Back(w, db.revDiff[h]), k - 1, a);
    }
  }

  lemma RebuiltHas(rules: Rules, db: Db, h: Header, w: World, k: nat)
    ensures h in Rebuilt(rules, db, h, w, k)
  {
  }

  /**
   A restart is refused exactly when the root of what is on disk is not head's: without collisions, when the
   table is wrong.
   */
  lemma ReloadedIff(c: Base, cfg: Config, n: Node, accepted: set<Header>)
    requires Trees.Sound(c, cfg, n, accepted)
    ensures Reloaded(cfg, n.db).Some? <==> RootMatches(cfg.rules, Loaded(n.db), n.db.head)
    ensures Balanced(c, n.db) ==> Reloaded(cfg, n.db).Some?
    ensures RootsDetermine(cfg.rules) ==> (Reloaded(cfg, n.db).Some? <==> Balanced(c, n.db))
  {
    hide StateOf, Injective, Load, Ranked;
    RootCommits(c, n.db.head);
  }

  /** What comes back is true, unmarked, and, if the diffs are right, the whole window. */
  lemma ReloadedSound(c: Base, cfg: Config, n: Node, accepted: set<Header>)
    requires Trees.Sound(c, cfg, n, accepted) && Reloaded(cfg, n.db).Some?
    requires (Agrees(c, n.db) || RootsDetermine(cfg.rules))
    ensures var n' := Reloaded(cfg, n.db).value;
            && Trees.Sound(c, cfg, n', accepted) && n'.db == n.db
            && (forall g :: g in n'.states ==> n'.states[g].touched == {})
            && (Agrees(c, n.db) ==>
                  forall a :: Within(a, n.db.head) && n.db.head.height <= a.height + cfg.retention ==> a in n'.states)
  {
    hide StateOf, Injective, Load, Ranked, RootsDetermine, Rebuilt, RootMatches, ValidBase;
    ReloadedIff(c, cfg, n, accepted);
    var db, w := n.db, Loaded(n.db);
    RebuiltTrue(c, db, db.head, w, cfg.retention);
    RebuiltUnmarked(cfg.rules, db, db.head, w, cfg.retention);
    if Agrees(c, db) {
      forall a | Within(a, db.head) && db.head.height <= a.height + cfg.retention
        ensures a in Rebuilt(cfg.rules, db, db.head, w, cfg.retention)
      {
        RebuiltComplete(c, db, db.head, w, cfg.retention, a);
      }
    }
  }

  // ----- how it is recovered -----

  /** loadState: every record on disk restored, empty ones dropped, nothing marked. */
  method LoadState(db: Db) returns (w: World)
    ensures w == World(Load(db.accounts), {}, [], 0)
  {
    w := World(map[], {}, [], 0);
    var todo := db.accounts.Keys;
    while todo != {}
      invariant todo <= db.accounts.Keys
      invariant w.accounts == Load(db.accounts - todo) && w.logs == [] && w.burned == 0
      decreases todo
    {
      var a :| a in todo;
      w := Put(w, a, db.accounts[a]);
      todo := todo - {a};
      assert w.accounts == Load(db.accounts - todo);
    }
    assert db.accounts - todo == db.accounts;
    w := w.(touched := {});
  }

  /** Replays a reverse diff into a state in memory. */
  method RestoreEntries(w: World, d: StoredDiff) returns (out: World)
    requires NoEmpty(w.accounts)
    ensures out.accounts == Load(UndoAccounts(w.accounts, d)) && out.burned == w.burned && out.logs == w.logs
  {
    hide UndoAccounts, Load;
    out := w;
    var todo := d.entries.Keys;
    ghost var done: map<Address, Option<Account>> := map[];
    NothingWritten(w.accounts, w, w, StoredDiff(done, 0));
    LoadKeeps(w.accounts);
    while todo != {}
      invariant todo <= d.entries.Keys && done == d.entries - todo && out.burned == w.burned && out.logs == w.logs
      invariant out.accounts == Load(UndoAccounts(w.accounts, StoredDiff(done, 0)))
      decreases todo
    {
      var a :| a in todo;
      var acc := if d.entries[a].Some? then d.entries[a].value else EMPTY_ACCOUNT;
      UndoOne(w.accounts, done, a, d.entries[a]);
      LoadOne(UndoAccounts(w.accounts, StoredDiff(done, 0)), a, d.entries[a], out, acc);
      out := Put(out, a, acc);
      todo, done := todo - {a}, done[a := d.entries[a]];
    }
    assert done == d.entries;
    UndoIgnoresBurn(w.accounts, d);
  }

  lemma LoadOne(table: Table, a: Address, v: Option<Account>, w: World, acc: Account)
    requires w.accounts == Load(table) && acc == if v.Some? then v.value else EMPTY_ACCOUNT
    ensures Put(w, a, acc).accounts == Load(if v.Some? then table[a := v.value] else table - {a})
  {
  }

  lemma LoadedNotEmpty(table: Table)
    ensures NoEmpty(Load(table))
  {
  }

  /** Walks the reverse diffs back from head, checking each root against the header's. */
  method RebuildWindow(cfg: Config, db: Db, st: World) returns (states: map<Header, World>)
    requires NoEmpty(st.accounts)
    ensures states == Rebuilt(cfg.rules, db, db.head, st, cfg.retention)
  {
    hide Load, UndoAccounts, Rebuilt;
    var cur, w := db.head, st;
    states := map[cur := w];
    ghost var done: map<Header, World> := map[];
    var i := 0;
    MergeNothing(Rebuilt(cfg.rules, db, cur, w, cfg.retention));
    while i < cfg.retention && cur.height > 0
      invariant i <= cfg.retention && NoEmpty(w.accounts) && states == map[cur := w] + done
      invariant forall g :: g in done ==> cur < g
      invariant Rebuilt(cfg.rules, db, db.head, st, cfg.retention) ==
                  Rebuilt(cfg.rules, db, cur, w, cfg.retention - i) + done
    {
      RebuiltStep(cfg.rules, db, cur, w, cfg.retention - i);
      if cur !in db.revDiff { return; }
      if cur.parentHash.Origin? || cur.parentHash.parent !in db.blocks { return; }
      var parent, d := cur.parentHash.parent, db.revDiff[cur];
      var back := RestoreEntries(w, d);
      back := back.(burned := w.burned - d.burnDelta, touched := {});
      LoadedNotEmpty(UndoAccounts(w.accounts, d));
      if cfg.rules.stateRoot(back.accounts, back.burned) != parent.stateRoot { return; }
      MergeOne(Rebuilt(cfg.rules, db, parent, back, cfg.retention - i - 1), cur, w, done);
      done := map[cur := w] + done;
      states := states[parent := back];
      assert parent < cur;
      cur, w := parent, back;
      i := i + 1;
    }
    RebuiltEnd(cfg.rules, db, cur, w, cfg.retention - i);
  }

  lemma RebuiltStep(rules: Rules, db: Db, h: Header, w: World, k: nat)
    requires k > 0 && h.height > 0
    ensures if h in db.revDiff && h.parentHash.Child? && h.parentHash.parent in db.blocks &&
               RootMatches(rules, Back(w, db.revDiff[h]), h.parentHash.parent)
            then Rebuilt(rules, db, h, w, k) ==
                 Rebuilt(rules, db, h.parentHash.parent, Back(w, db.revDiff[h]), k - 1)[h := w]
            else Rebuilt(rules, db, h, w, k) == map[h := w]
  {
    hide Back;
  }

  lemma RebuiltEnd(rules: Rules, db: Db, h: Header, w: World, k: nat)
    ensures k == 0 || h.height == 0 ==> Rebuilt(rules, db, h, w, k) == map[h := w]
  {
  }

  /**
   Opens a database: the guards, then the head state from the account table, then the window. What comes
   out is Reloaded; what is refused, is refused with everything left as it was.
   */
  method Resume(cfg: Config, disk: Db, ghost c: Base, ghost accepted: set<Header>)
    returns (err: Option<ResumeError>, bc: Blockchain?)
    ensures err.None? <==> Reloaded(cfg, disk).Some?
    ensures err == Some(WrongSchema) <==> disk.meta.schema != SCHEMA_VERSION
    ensures err == Some(WrongChain) <==>
              && disk.meta.schema == SCHEMA_VERSION
              && (disk.meta.genesis != cfg.genesis || disk.meta.chainId != cfg.chainId)
    ensures err == Some(UnreadableHead) <==> disk.meta == MetaOf(cfg) && disk.head !in disk.blocks
    ensures err == Some(Inconsistent) <==>
              disk.meta == MetaOf(cfg) && disk.head in disk.blocks && !RootMatches(cfg.rules, Loaded(disk), disk.head)
    ensures err.None? ==>
              && bc != null && fresh(bc) && bc.View() == Reloaded(cfg, disk).value && bc.head == disk.head
              && bc.cfg == cfg && bc.c == c && bc.accepted == accepted
  {
    hide Load, Rebuilt;
    bc := null;
    if disk.meta.schema != SCHEMA_VERSION { return Some(WrongSchema), bc; }
    if disk.meta.genesis != cfg.genesis { return Some(WrongChain), bc; }
    if disk.meta.chainId != cfg.chainId { return Some(WrongChain), bc; }
    if disk.head !in disk.blocks { return Some(UnreadableHead), bc; }
    var st := LoadState(disk);
    st := st.(burned := disk.burned);
    if cfg.rules.stateRoot(st.accounts, st.burned) != disk.head.stateRoot { return Some(Inconsistent), bc; }
    LoadedNotEmpty(disk.accounts);
    var states := RebuildWindow(cfg, disk, st);
    bc := new Blockchain.Open(cfg, Node(disk, states), c, accepted);
    err := None;
  }

  lemma MergeNothing(m: map<Header, World>)
    ensures m + map[] == m
  {
  }

  lemma MergeOne(m: map<Header, World>, h: Header, w: World, done: map<Header, World>)
    ensures m[h := w] + done == m + (map[h := w] + done)
  {
  }
}
