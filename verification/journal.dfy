/**
 The undo journal and savepoint stack (state/state.go:74-143, 224-239, 354-400).

 The functions give the journalled state as a value; class State is the object that the node
 mutates in place, each method tied to the function it computes. The result is RevertRestores:
 undoing to a savepoint gives back the whole state at the savepoint, whatever ran in between.
 */
module Journal {
  import opened Types
  import opened Worlds

  /** One undoable write: the value and the mark that were there before. */
  datatype Entry = Entry(address: Address, prev: Option<Account>, wasTouched: bool)

  /** A savepoint: where the journal and the events stood, and the burn total. */
  datatype Mark = Mark(journalLen: nat, logCount: nat, burned: int)

  datatype Journaled = Journaled(world: World, journal: seq<Entry>, snapshots: seq<Mark>)

  function EntryFor(w: World, a: Address): Entry {
    Entry(a, if a in w.accounts then Some(w.accounts[a]) else None, a in w.touched)
  }

  /** A write is journalled only while a savepoint is active. */
  function Write(s: Journaled, a: Address, acc: Account): Journaled {
    s.(world := Put(s.world, a, acc),
    journal := if s.snapshots == [] then s.journal else s.journal + [EntryFor(s.world, a)])
  }

  function WriteLog(s: Journaled, log: Log): Journaled { s.(world := AddLog(s.world, log)) }

  function WriteBurn(s: Journaled, amount: int): Journaled { s.(world := Burn(s.world, amount)) }

  function Snap(s: Journaled): Journaled {
    s.(snapshots := s.snapshots + [Mark(|s.journal|, |s.world.logs|, s.world.burned)])
  }

  function UndoEntry(w: World, e: Entry): World {
    w.(accounts := if e.prev.Some? then w.accounts[e.address := e.prev.value] else w.accounts - {e.address},
    touched := if e.wasTouched then w.touched + {e.address} else w.touched - {e.address})
  }

  /** Newest entry first. */
  function Undo(w: World, entries: seq<Entry>): World
    decreases |entries|
  {
    if entries == [] then w
    else Undo(UndoEntry(w, entries[|entries| - 1]), entries[..|entries| - 1])
  }

  ghost predicate Valid(s: Journaled) {
    forall i :: 0 <= i < |s.snapshots| ==>
      s.snapshots[i].journalLen <= |s.journal| && s.snapshots[i].logCount <= |s.world.logs|
  }

  /** Savepoints are stacked: a later one never points before an earlier one. */
  ghost predicate Stacked(s: Journaled) {
    && Valid(s)
    && forall i, j :: 0 <= i < j < |s.snapshots| ==>
                        s.snapshots[i].journalLen <= s.snapshots[j].journalLen &&
                        s.snapshots[i].logCount <= s.snapshots[j].logCount
  }

  /** An id that names no savepoint is ignored. */
  function RevertTo(s: Journaled, id: int): Journaled
    requires Valid(s)
  {
    if id < 0 || id >= |s.snapshots| then s
    else
      var mark := s.snapshots[id];
      var back := Undo(s.world, s.journal[mark.journalLen..]);
      Journaled(back.(logs := s.world.logs[..mark.logCount], burned := mark.burned),
                s.journal[..mark.journalLen], s.snapshots[..id])
  }

  function Discard(s: Journaled): Journaled { s.(journal := [], snapshots := []) }

  /**
   s' lies ahead of s: it still holds s's savepoints, journal and events as prefixes, every later
   savepoint was taken beyond them, and undoing the entries past s's journal gives s's accounts
   and marks back. With no savepoint active in s nothing is journalled, so nothing can be undone.
   */
  ghost predicate Ahead(s: Journaled, s': Journaled) {
    && Valid(s')
    && s.snapshots <= s'.snapshots
    && s.journal <= s'.journal
    && s.world.logs <= s'.world.logs
    && (forall i :: |s.snapshots| <= i < |s'.snapshots| ==>
          |s.journal| <= s'.snapshots[i].journalLen && |s.world.logs| <= s'.snapshots[i].logCount)
    && (s.snapshots != [] ==> SameBooks(Undo(s'.world, s'.journal[|s.journal|..]), s.world))
  }

  ghost predicate SameBooks(w: World, w': World) {
    w.accounts == w'.accounts && w.touched == w'.touched
  }

  /** Undo reads and changes only accounts and marks. */
  lemma {:induction false} UndoBooks(w: World, w': World, entries: seq<Entry>)
    requires SameBooks(w, w')
    ensures SameBooks(Undo(w, entries), Undo(w', entries))
    decreases |entries|
  {
    if entries != [] {
      var e := entries[|entries| - 1];
      UndoBooks(UndoEntry(w, e), UndoEntry(w', e), entries[..|entries| - 1]);
    }
  }

  lemma {:induction false} UndoSplit(w: World, early: seq<Entry>, late: seq<Entry>)
    ensures Undo(w, early + late) == Undo(Undo(w, late), early)
    decreases |late|
  {
    if late == [] {
      assert early + late == early;
    } else {
      var e := late[|late| - 1];
      assert (early + late)[..|early + late| - 1] == early + late[..|late| - 1];
      UndoSplit(UndoEntry(w, e), early, late[..|late| - 1]);
    }
  }

  lemma AheadTransitive(s: Journaled, s': Journaled, s'': Journaled)
    requires Ahead(s, s') && Ahead(s', s'')
    ensures Ahead(s, s'')
  {
    if s.snapshots != [] {
      var n, n' := |s.journal|, |s'.journal|;
      assert s''.journal[n..] == s'.journal[n..] + s''.journal[n'..];
      UndoSplit(s''.world, s'.journal[n..], s''.journal[n'..]);
      UndoBooks(Undo(s''.world, s''.journal[n'..]), s'.world, s'.journal[n..]);
    }
  }

  lemma WriteAhead(s: Journaled, a: Address, acc: Account)
    requires Valid(s)
    ensures Ahead(s, Write(s, a, acc))
  {
    var s' := Write(s, a, acc);
    if s.snapshots != [] {
      var e := EntryFor(s.world, a);
      assert s'.journal[|s.journal|..] == [e];
      assert UndoEntry(s'.world, e).accounts == s.world.accounts;
      assert UndoEntry(s'.world, e).touched == s.world.touched;
    }
  }

  lemma AheadReflexive(s: Journaled)
    requires Valid(s)
    ensures Ahead(s, s)
  {
    assert s.journal[|s.journal|..] == [];
  }

  /** Taking a savepoint, adding events or burning changes no account. */
  lemma QuietAhead(s: Journaled, s': Journaled)
    requires Valid(s) && Valid(s') && SameBooks(s.world, s'.world) && s'.journal == s.journal
    requires s.world.logs <= s'.world.logs
    requires s'.snapshots == s.snapshots || s' == Snap(s)
    ensures Ahead(s, s')
  {
    assert s.journal[|s.journal|..] == [];
  }

  /** Everything that ran since the savepoint is undone, and nothing from before it. */
  lemma RevertRestores(s: Journaled, s': Journaled)
    requires Valid(s) && Ahead(Snap(s), s')
    ensures RevertTo(s', |s.snapshots|) == s
  {
    var t := Snap(s);
    var id := |s.snapshots|;
    assert s'.snapshots[id] == t.snapshots[id];
    assert s'.snapshots[..id] == s.snapshots;
    assert s'.journal[..|s.journal|] == s.journal;
    assert s'.world.logs[..|s.world.logs|] == s.world.logs;
    assert SameBooks(Undo(s'.world, s'.journal[|s.journal|..]), s.world);
  }

  /** Reverting to a savepoint taken later than s stays ahead of s. */
  lemma RevertAhead(s: Journaled, s': Journaled, id: int)
    requires Ahead(s, s') && Stacked(s') && |s.snapshots| <= id
    ensures Ahead(s, RevertTo(s', id))
  {
    if id < |s'.snapshots| {
      var r := RevertTo(s', id);
      var n, k := |s.journal|, s'.snapshots[id].journalLen;
      if s.snapshots != [] {
        assert s'.journal[n..] == s'.journal[n..k] + s'.journal[k..];
        UndoSplit(s'.world, s'.journal[n..k], s'.journal[k..]);
        UndoBooks(Undo(s'.world, s'.journal[k..]), r.world, s'.journal[n..k]);
        assert r.journal[n..] == s'.journal[n..k];
      }
    }
  }

  // ----- whole runs -----

  /** What a caller of the state may do between taking a savepoint and reverting to it. */
  datatype Action = DoWrite(address: Address, account: Account) | DoLog(log: Log) | DoBurn(amount: int)
                  | DoSnap | DoRevert(id: int)

  function Act(s: Journaled, op: Action): Journaled
    requires Valid(s)
  {
    match op
    case DoWrite(a, acc) => Write(s, a, acc)
    case DoLog(log) => WriteLog(s, log)
    case DoBurn(amount) => WriteBurn(s, amount)
    case DoSnap => Snap(s)
    case DoRevert(id) => RevertTo(s, id)
  }

  lemma ActKeepsStacked(s: Journaled, op: Action)
    requires Stacked(s)
    ensures Stacked(Act(s, op))
  {
  }

  function Run(s: Journaled, ops: seq<Action>): Journaled
    requires Stacked(s)
    decreases |ops|
  {
    if ops == [] then s
    else
      ActKeepsStacked(s, ops[0]);
      Run(Act(s, ops[0]), ops[1..])
  }

  /** No action of the run reverts to one of the first `floor` savepoints. */
  ghost predicate StaysAbove(ops: seq<Action>, floor: nat) {
    forall i :: 0 <= i < |ops| && ops[i].DoRevert? ==> ops[i].id >= floor || ops[i].id < 0
  }

  lemma {:induction false} RunAhead(base: Journaled, s: Journaled, ops: seq<Action>)
    requires Stacked(s) && Ahead(base, s) && StaysAbove(ops, |base.snapshots|)
    ensures Ahead(base, Run(s, ops))
    decreases |ops|
  {
    if ops != [] {
      var t := Act(s, ops[0]);
      match ops[0] {
        case DoWrite(a, acc) => WriteAhead(s, a, acc); AheadTransitive(base, s, t);
        case DoRevert(id) => if id >= 0 { RevertAhead(base, s, id); }
        case _ => QuietAhead(s, t); AheadTransitive(base, s, t);
      }
      ActKeepsStacked(s, ops[0]);
      RunAhead(base, t, ops[1..]);
    }
  }

  /**
   For every state, and every later run of writes, events, burns, savepoints and reverts to later
   savepoints, reverting restores accounts, marks, events, burn total, journal and stack exactly.
   */
  lemma RevertUndoesEveryRun(s: Journaled, ops: seq<Action>)
    requires Stacked(s) && StaysAbove(ops, |s.snapshots| + 1)
    ensures Valid(Run(Snap(s), ops)) && RevertTo(Run(Snap(s), ops), |s.snapshots|) == s
  {
    AheadReflexive(Snap(s));
    RunAhead(Snap(s), Snap(s), ops);
    RevertRestores(s, Run(Snap(s), ops));
  }

  // ----- the object -----

  class State {
    var accounts: map<Address, Account>
    var touched: set<Address>
    var snapshots: seq<Mark>
    var journal: seq<Entry>
    var logs: seq<Log>
    var burned: int

    function World(): World
      reads this
    {
      Worlds.World(accounts, touched, logs, burned)
    }

    ghost function View(): Journaled
      reads this
    {
      Journaled(World(), journal, snapshots)
    }

    /** Copy: accounts, marks, events and burn total carry over, savepoints do not. */
    constructor (w: World)
      ensures View() == Journaled(w, [], [])
    {
      accounts, touched, logs, burned := w.accounts, w.touched, w.logs, w.burned;
      snapshots, journal := [], [];
    }

    method Set(a: Address, acc: Account)
      requires Valid(View())
      modifies this
      ensures View() == Write(old(View()), a, acc) && Valid(View()) && Ahead(old(View()), View())
    {
      WriteAhead(View(), a, acc);
      if |snapshots| > 0 {
        var prev := if a in accounts then Some(accounts[a]) else None;
        journal := journal + [Entry(a, prev, a in touched)];
      }
      touched := touched + {a};
      if acc.nonce == 0 && acc.balance == 0 && |acc.storage| == 0 && |acc.code| == 0 {
        accounts := accounts - {a};
        return;
      }
      accounts := accounts[a := acc];
    }

    /** Credit and, with a negative amount, SubBalance. */
    method AddBalance(a: Address, amount: int)
      requires Valid(View())
      modifies this
      ensures World() == Credit(old(World()), a, amount)
      ensures snapshots == old(snapshots) && (snapshots == [] ==> journal == old(journal))
      ensures Valid(View()) && Ahead(old(View()), View())
    {
      var acc := Get(World(), a);
      Set(a, acc.(balance := acc.balance + amount));
    }

    method SetNonce(a: Address, n: nat)
      requires Valid(View())
      modifies this
      ensures World() == Worlds.SetNonce(old(World()), a, n)
      ensures snapshots == old(snapshots) && (snapshots == [] ==> journal == old(journal))
      ensures Valid(View()) && Ahead(old(View()), View())
    {
      Set(a, Get(World(), a).(nonce := n));
    }

    method SetCode(a: Address, code: seq<Byte>)
      requires Valid(View())
      modifies this
      ensures World() == Worlds.SetCode(old(World()), a, code)
      ensures snapshots == old(snapshots) && (snapshots == [] ==> journal == old(journal))
      ensures Valid(View()) && Ahead(old(View()), View())
    {
      Set(a, Get(World(), a).(code := code));
    }

    method SetStorage(a: Address, key: Word, value: Word)
      requires Valid(View())
      modifies this
      ensures World() == SetSlot(old(World()), a, key, value)
      ensures snapshots == old(snapshots) && (snapshots == [] ==> journal == old(journal))
      ensures Valid(View()) && Ahead(old(View()), View())
    {
      var acc := Get(World(), a);
      if value == 0 {
        acc := acc.(storage := acc.storage - {key});
      } else {
        acc := acc.(storage := acc.storage[key := value]);
      }
      Set(a, acc);
    }

    method AddLog(log: Log)
      requires Valid(View())
      modifies this
      ensures View() == WriteLog(old(View()), log) && Valid(View()) && Ahead(old(View()), View())
    {
      ghost var before := View();
      logs := logs + [log];
      QuietAhead(before, View());
    }

    method Burn(amount: int)
      requires Valid(View())
      modifies this
      ensures View() == WriteBurn(old(View()), amount) && Valid(View()) && Ahead(old(View()), View())
    {
      ghost var before := View();
      if amount > 0 {
        burned := burned + amount;
      }
      QuietAhead(before, View());
    }

    method Snapshot() returns (id: nat)
      requires Valid(View())
      modifies this
      ensures View() == Snap(old(View())) && id == |old(snapshots)| && World() == old(World())
      ensures Valid(View()) && Ahead(old(View()), View())
    {
      ghost var before := View();
      snapshots := snapshots + [Mark(|journal|, |logs|, burned)];
      id := |snapshots| - 1;
      QuietAhead(before, View());
    }

    method RevertToSnapshot(id: int)
      requires Valid(View())
      modifies this
      ensures View() == RevertTo(old(View()), id)
    {
      if id < 0 || id >= |snapshots| {
        return;
      }
      var snap := snapshots[id];
      var i := |journal|;
      assert journal[snap.journalLen..i] == journal[snap.journalLen..];
      while i > snap.journalLen
        invariant snap.journalLen <= i <= |journal|
        invariant journal == old(journal) && snapshots == old(snapshots) && logs == old(logs) && burned == old(burned)
        invariant Undo(World(), journal[snap.journalLen..i]) == Undo(old(World()), journal[snap.journalLen..])
      {
        i := i - 1;
        var e := journal[i];
        assert journal[snap.journalLen..i + 1][..i - snap.journalLen] == journal[snap.journalLen..i];
        if e.prev.Some? {
          accounts := accounts[e.address := e.prev.value];
        } else {
          accounts := accounts - {e.address};
        }
        if e.wasTouched {
          touched := touched + {e.address};
        } else {
          touched := touched - {e.address};
        }
      }
      journal := journal[..snap.journalLen];
      logs := logs[..snap.logCount];
      burned := snap.burned;
      snapshots := snapshots[..id];
    }

    method DiscardSnapshots()
      modifies this
      ensures View() == Discard(old(View()))
    {
      snapshots := [];
      journal := [];
    }
  }
}
