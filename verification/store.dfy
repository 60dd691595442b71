/**
 The node's tables on disk (core/schema.go) and what it means for them to agree with a branch.
 A batch is the database as it will be once the queued writes commit; reads always go to the
 database itself.
 */
module Store {
  import opened Types
  import opened Worlds
  import opened Transition
  import opened Ledger
  import opened Chain
  import Alikeness

  /** A block's reverse diff: every marked account as it was before, and the burn it added. */
  datatype StoredDiff = StoredDiff(entries: map<Address, Option<Account>>, burnDelta: int)

  /** What a database says about itself. */
  datatype Meta = Meta(schema: nat, chainId: nat, genesis: Header)

  datatype Db = Db(meta: Meta, blocks: set<Header>, td: map<Header, nat>, canonical: map<nat, Header>,
                   txIndex: map<Tx, Location>, accounts: map<Address, Account>, revDiff: map<Header, StoredDiff>,
                   head: Header, burned: int)

  type Table = map<Address, Account>

  // ----- the account table -----

  function At(m: Table, a: Address): Option<Account> { if a in m then Some(m[a]) else None }

  /** loadState: an empty record on disk is no account. */
  function Load(table: Table): Table { map a | a in table && table[a] != EMPTY_ACCOUNT :: table[a] }

  /** The table after a block that marked `touched` and ended in `next`. */
  function WriteAccounts(table: Table, next: Table, touched: set<Address>): Table {
    (table - touched) + map a | a in touched && a in next :: next[a]
  }

  function DiffFor(next: World, prev: World, touched: set<Address>): StoredDiff {
    StoredDiff(map a | a in touched :: At(prev.accounts, a), next.burned - prev.burned)
  }

  function UndoAccounts(table: Table, d: StoredDiff): Table {
    (table - d.entries.Keys) + map a | a in d.entries && d.entries[a].Some? :: d.entries[a].value
  }

  lemma WriteAt(table: Table, next: Table, touched: set<Address>, a: Address)
    ensures At(WriteAccounts(table, next, touched), a) == if a in touched then At(next, a) else At(table, a)
  {
  }

  lemma UndoAt(table: Table, d: StoredDiff, a: Address)
    ensures At(UndoAccounts(table, d), a) == if a in d.entries then d.entries[a] else At(table, a)
  {
  }

  lemma LoadAt(table: Table, a: Address)
    ensures At(Load(table), a) == if At(table, a) == Some(EMPTY_ACCOUNT) then None else At(table, a)
  {
  }

  lemma SameEverywhere(m: Table, m': Table)
    requires forall a :: At(m, a) == At(m', a)
    ensures m == m'
  {
    forall a ensures a in m <==> a in m' { assert At(m, a) == At(m', a); }
    forall a | a in m && a in m' ensures m[a] == m'[a] { assert At(m, a) == At(m', a); }
  }

  lemma WriteOne(table: Table, next: Table, done: set<Address>, a: Address)
    ensures WriteAccounts(table, next, done + {a}) ==
            var t := WriteAccounts(table, next, done); if a in next then t[a := next[a]] else t - {a}
  {
  }

  lemma DiffOne(next: World, prev: World, done: set<Address>, a: Address)
    ensures DiffFor(next, prev, done + {a}).entries == DiffFor(next, prev, done).entries[a := At(prev.accounts, a)]
  {
  }

  lemma DiffBurn(next: World, prev: World, touched: set<Address>)
    ensures DiffFor(next, prev, touched).burnDelta == next.burned - prev.burned
  {
  }

  lemma UndoIgnoresBurn(table: Table, d: StoredDiff)
    ensures UndoAccounts(table, StoredDiff(d.entries, 0)) == UndoAccounts(table, d)
  {
  }

  lemma NothingWritten(table: Table, w: World, prev: World, d: StoredDiff)
    ensures WriteAccounts(table, w.accounts, {}) == table && DiffFor(w, prev, {}).entries == map[]
    ensures d.entries == map[] ==> UndoAccounts(table, d) == table
  {
  }

  lemma UndoOne(table: Table, entries: map<Address, Option<Account>>, a: Address, v: Option<Account>)
    ensures UndoAccounts(table, StoredDiff(entries[a := v], 0)) ==
            var t := UndoAccounts(table, StoredDiff(entries, 0)); if v.Some? then t[a := v.value] else t - {a}
  {
  }

  ghost predicate NoEmpty(m: Table) { forall a :: a in m ==> m[a] != EMPTY_ACCOUNT }

  lemma LoadKeeps(m: Table)
    requires NoEmpty(m)
    ensures Load(m) == m
  {
  }

  /** Undoing on disk and undoing in memory load to the same accounts. */
  lemma UndoLoads(table: Table, d: StoredDiff, next: Table, prev: Table)
    requires Load(table) == next && UndoAccounts(next, d) == prev && NoEmpty(prev)
    ensures Load(UndoAccounts(table, d)) == prev
  {
    hide Load, UndoAccounts;
    forall a ensures At(Load(UndoAccounts(table, d)), a) == At(prev, a) {
      LoadAt(UndoAccounts(table, d), a);
      LoadAt(table, a);
      UndoAt(table, d, a);
      UndoAt(next, d, a);
    }
    SameEverywhere(Load(UndoAccounts(table, d)), prev);
  }

  // ----- marks and diffs -----

  ghost predicate SameLedger(w: World, v: World) { w.accounts == v.accounts && w.burned == v.burned }

  /** Every account that the block changed is among the marked ones. */
  ghost predicate Covered(c: Base, h: Header, touched: set<Address>)
    requires Good(c, h) && h != c.genesis
  {
    GoodParent(c, h);
    forall a :: a !in touched ==> At(StateAt(c, h.parentHash.parent).accounts, a) == At(StateAt(c, h).accounts, a)
  }

  /** A right diff: undoing it takes the block's accounts and burn total back to its parent's. */
  ghost predicate Reverses(c: Base, d: StoredDiff, h: Header)
    requires Good(c, h) && h != c.genesis
  {
    GoodParent(c, h);
    var next, prev := StateAt(c, h), StateAt(c, h.parentHash.parent);
    UndoAccounts(next.accounts, d) == prev.accounts && next.burned - d.burnDelta == prev.burned
  }

  /** The recorded diff is right exactly when the marks it was made from cover the block. */
  lemma DiffRightIffCovered(c: Base, h: Header, next: World, prev: World, touched: set<Address>)
    requires Good(c, h) && h != c.genesis && h.parentHash.Child? && Good(c, h.parentHash.parent)
    requires next.burned == StateAt(c, h).burned && SameLedger(prev, StateAt(c, h.parentHash.parent))
    ensures Reverses(c, DiffFor(next, prev, touched), h) <==> Covered(c, h, touched)
  {
    hide StateOf, UndoAccounts;
    GoodParent(c, h);
    var now, was, d := StateAt(c, h).accounts, prev.accounts, DiffFor(next, prev, touched);
    forall a ensures At(UndoAccounts(now, d), a) == if a in touched then At(was, a) else At(now, a) {
      UndoAt(now, d, a);
    }
    if Covered(c, h, touched) { SameEverywhere(UndoAccounts(now, d), was); }
  }

  /** A block applied to a state with the right ledger gives the right ledger, and covering marks. */
  lemma AppliedBlock(c: Base, w: World, h: Header)
    requires ValidBase(c) && h.parentHash.Child? && Good(c, h.parentHash.parent) && h != c.genesis
    requires SameLedger(w, StateAt(c, h.parentHash.parent))
    requires ApplyBlock(c.rules, w, Block(h, h.txRoot), Some(h.parentHash.parent)).Accepted?
    ensures var w' := ApplyBlock(c.rules, w, Block(h, h.txRoot), Some(h.parentHash.parent)).world;
            Good(c, h) && SameLedger(w', StateAt(c, h)) && Covered(c, h, w'.touched)
  {
    hide ApplyBlock;
    var p, b := h.parentHash.parent, Block(h, h.txRoot);
    Alikeness.ApplyBlockAlike(c.rules, w, StateAt(c, p), b, Some(p));
    ApplyBlockFacts(c.rules, w, b, Some(p));
    var w' := ApplyBlock(c.rules, w, b, Some(p)).world;
    assert Good(c, h);
    forall a | a !in w'.touched ensures At(StateAt(c, p).accounts, a) == At(StateAt(c, h).accounts, a) {
      assert Get(w', a) == Get(w.(touched := {}), a);
    }
  }

  lemma AccountsNeverEmpty(c: Base, h: Header)
    requires ValidBase(c) && Good(c, h)
    ensures NoEmpty(StateAt(c, h).accounts)
  {
    BranchConserves(c, h);
  }

  // ----- unwinding and replaying a branch -----

  /** The table with the blocks of tip's branch above anc undone, newest first. */
  ghost function Unwound(table: Table, diffs: map<Header, StoredDiff>, anc: Header, tip: Header): Table
    decreases tip
  {
    if tip == anc || tip.parentHash.Origin? || tip !in diffs then table
    else Unwound(UndoAccounts(table, diffs[tip]), diffs, anc, tip.parentHash.parent)
  }

  /** The table with the blocks of tip's branch above anc written, oldest first, from the states given. */
  ghost function Written(table: Table, states: map<Header, World>, anc: Header, tip: Header): Table {
    if tip == anc || tip.parentHash.Origin? || tip !in states then table
    else WriteAccounts(Written(table, states, anc, tip.parentHash.parent), states[tip].accounts, states[tip].touched)
  }

  /** The diffs recorded along the way. */
  ghost function Recorded(diffs: map<Header, StoredDiff>, states: map<Header, World>, anc: Header, tip: Header)
    : map<Header, StoredDiff>
  {
    if tip == anc || tip.parentHash.Origin? || tip !in states || tip.parentHash.parent !in states then diffs
    else
      var p := tip.parentHash.parent;
      Recorded(diffs, states, anc, p)[tip := DiffFor(states[tip], states[p], states[tip].touched)]
  }

  /** What the last replayed block to mark an address left there, or what was there before. */
  ghost function LastMarked(base: Table, states: map<Header, World>, anc: Header, tip: Header,
                            a: Address): Option<Account> {
    if tip == anc || tip.parentHash.Origin? || tip !in states then At(base, a)
    else if a in states[tip].touched then At(states[tip].accounts, a)
    else LastMarked(base, states, anc, tip.parentHash.parent, a)
  }

  ghost predicate True(c: Base, states: map<Header, World>) {
    forall h :: h in states ==> Good(c, h) && SameLedger(states[h], StateAt(c, h))
  }

  ghost predicate Present<T>(m: map<Header, T>, anc: Header, tip: Header) { forall g :: Above(g, anc, tip) ==> g in m }

  lemma {:induction false} WrittenAt(c: Base, table: Table, states: map<Header, World>, anc: Header, tip: Header,
                                     a: Address)
    requires ValidBase(c) && True(c, states)
    ensures At(Load(Written(table, states, anc, tip)), a) == LastMarked(Load(table), states, anc, tip, a)
  {
    hide Load, WriteAccounts, StateOf, ValidBase;
    if !(tip == anc || tip.parentHash.Origin? || tip !in states) {
      var p := tip.parentHash.parent;
      WrittenAt(c, table, states, anc, p, a);
      var t := Written(table, states, anc, p);
      LoadAt(t, a);
      LoadAt(WriteAccounts(t, states[tip].accounts, states[tip].touched), a);
      WriteAt(t, states[tip].accounts, states[tip].touched, a);
      AccountsNeverEmpty(c, tip);
    }
  }

  /** The replayed table is right exactly when every address was last marked by a block that left it as tip has it. */
  lemma TableRightIffLastMarks(c: Base, table: Table, states: map<Header, World>, anc: Header, tip: Header)
    requires ValidBase(c) && True(c, states) && Good(c, tip)
    ensures Load(Written(table, states, anc, tip)) == StateAt(c, tip).accounts <==>
              forall a :: LastMarked(Load(table), states, anc, tip, a) == At(StateAt(c, tip).accounts, a)
  {
    hide Load, StateOf, ValidBase, Written, LastMarked, True;
    var t := Load(Written(table, states, anc, tip));
    forall a ensures At(t, a) == LastMarked(Load(table), states, anc, tip, a) {
      WrittenAt(c, table, states, anc, tip, a);
    }
    if forall a :: LastMarked(Load(table), states, anc, tip, a) == At(StateAt(c, tip).accounts, a) {
      SameEverywhere(t, StateAt(c, tip).accounts);
    }
  }

  /** Marks that cover every replayed block are enough. */
  lemma {:induction false} CoveredMarksSuffice(c: Base, states: map<Header, World>, anc: Header, tip: Header,
                                               a: Address)
    requires ValidBase(c) && True(c, states) && Good(c, anc) && Good(c, tip) && Within(anc, tip)
    requires Present(states, anc, tip)
    requires forall g :: Above(g, anc, tip) ==> g != c.genesis && Covered(c, g, states[g].touched)
    ensures LastMarked(StateAt(c, anc).accounts, states, anc, tip, a) == At(StateAt(c, tip).accounts, a)
  {
    hide StateOf, ValidBase;
    if tip != anc {
      assert Above(tip, anc, tip);
      GoodParent(c, tip);
      CoveredMarksSuffice(c, states, anc, tip.parentHash.parent, a);
    }
  }

  lemma {:induction false} RecordedAt(diffs: map<Header, StoredDiff>, states: map<Header, World>, anc: Header,
                                      tip: Header, h: Header)
    requires Within(anc, tip) && Present(states, anc, tip) && anc in states
    ensures Above(h, anc, tip) ==> h.parentHash.Child? && h in states && h.parentHash.parent in states
    ensures var r := Recorded(diffs, states, anc, tip);
            if Above(h, anc, tip)
            then h in r && r[h] == DiffFor(states[h], states[h.parentHash.parent], states[h].touched)
            else (h in r <==> h in diffs) && (h in diffs ==> r[h] == diffs[h])
  {
    hide DiffFor;
    if tip != anc {
      var p := tip.parentHash.parent;
      assert Above(tip, anc, tip);
      assert forall g :: Above(g, anc, p) ==> Above(g, anc, tip);
      assert p == anc || Above(p, anc, tip);
      RecordedAt(diffs, states, anc, p, h);
    }
  }

  /** With right diffs, unwinding gives the table of the ancestor. */
  lemma {:induction false} UnwoundLoads(c: Base, table: Table, diffs: map<Header, StoredDiff>, anc: Header, tip: Header)
    requires ValidBase(c) && Good(c, tip) && Within(anc, tip) && Load(table) == StateAt(c, tip).accounts
    requires forall g :: Above(g, anc, tip) ==> g in diffs && Good(c, g) && g != c.genesis && Reverses(c, diffs[g], g)
    ensures Good(c, anc) && Load(Unwound(table, diffs, anc, tip)) == StateAt(c, anc).accounts
    decreases tip
  {
    hide StateOf, ValidBase, Load, UndoAccounts;
    if tip != anc {
      assert Above(tip, anc, tip);
      GoodParent(c, tip);
      var p := tip.parentHash.parent;
      AccountsNeverEmpty(c, p);
      UndoLoads(table, diffs[tip], StateAt(c, tip).accounts, StateAt(c, p).accounts);
      UnwoundLoads(c, UndoAccounts(table, diffs[tip]), diffs, anc, p);
    }
  }

  // ----- agreement with a branch -----

  /** Blocks on disk are valid and weighed; the head's whole branch is there, each block with a diff. */
  ghost predicate Rooted(c: Base, db: Db) {
    && Good(c, db.head)
    && (forall a :: Within(a, db.head) ==> a in db.blocks && (a != c.genesis ==> a in db.revDiff))
    && (forall h :: h in db.blocks ==> Good(c, h) && h in db.td && db.td[h] == Work(h))
  }

  /** Height map, transaction index and burn total are the head's. */
  ghost predicate Indexed(c: Base, db: Db) {
    && Good(c, db.head) && db.canonical == CanonOf(db.head) && db.txIndex == IndexOf(db.head)
    && db.burned == StateAt(c, db.head).burned
  }

  /** The account table loads to the head's accounts. */
  ghost predicate Balanced(c: Base, db: Db) { Good(c, db.head) && Load(db.accounts) == StateAt(c, db.head).accounts }

  /** Every canonical block can be undone from disk. */
  ghost predicate Undoable(c: Base, diffs: map<Header, StoredDiff>, tip: Header) {
    forall a :: Within(a, tip) && a != c.genesis ==> a in diffs && Good(c, a) && Reverses(c, diffs[a], a)
  }

  /** Accounts and diffs are right; the rest of the tables always is. */
  ghost predicate Agrees(c: Base, db: Db) { Balanced(c, db) && Undoable(c, db.revDiff, db.head) }
}
