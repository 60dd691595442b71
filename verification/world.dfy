/**
 The world state as a value (state/state.go). Every write goes through Put, which marks the
 address and drops a fully empty account, so that "absent" and "empty" are one thing.
 */
module Worlds {
  import opened Types

  datatype World = World(accounts: map<Address, Account>, touched: set<Address>, logs: seq<Log>, burned: int)

  function Get(w: World, a: Address): Account {
    if a in w.accounts then w.accounts[a] else EMPTY_ACCOUNT
  }

  function Balance(w: World, a: Address): int { Get(w, a).balance }

  function Nonce(w: World, a: Address): nat { Get(w, a).nonce }

  function Code(w: World, a: Address): seq<Byte> { Get(w, a).code }

  function Slot(w: World, a: Address, key: Word): Word {
    if key in Get(w, a).storage then Get(w, a).storage[key] else 0
  }

  /** One address changes and is marked; whether it is stored depends only on the new value. */
  function Put(w: World, a: Address, acc: Account): (r: World)
    ensures forall b :: Get(r, b) == if b == a then acc else Get(w, b)
    ensures forall b :: b in r.accounts <==> if b == a then acc != EMPTY_ACCOUNT else b in w.accounts
    ensures r.logs == w.logs && r.burned == w.burned && r.touched == w.touched + {a}
  {
    w.(accounts := if acc == EMPTY_ACCOUNT then w.accounts - {a} else w.accounts[a := acc],
    touched := w.touched + {a})
  }

  function Credit(w: World, a: Address, amount: int): World {
    Put(w, a, Get(w, a).(balance := Balance(w, a) + amount))
  }

  function SetNonce(w: World, a: Address, n: nat): World {
    Put(w, a, Get(w, a).(nonce := n))
  }

  function SetCode(w: World, a: Address, code: seq<Byte>): World {
    Put(w, a, Get(w, a).(code := code))
  }

  /** Writing zero clears the slot. */
  function SetSlot(w: World, a: Address, key: Word, value: Word): World {
    var acc := Get(w, a);
    Put(w, a, acc.(storage := if value == 0 then acc.storage - {key} else acc.storage[key := value]))
  }

  function AddLog(w: World, log: Log): World { w.(logs := w.logs + [log]) }

  /** Only a positive amount is recorded. */
  function Burn(w: World, amount: int): World {
    if amount <= 0 then w else w.(burned := w.burned + amount)
  }

  function Transfer(w: World, from: Address, to: Address, amount: int): World {
    Credit(Credit(w, from, -amount), to, amount)
  }

  /** The sum of all balances (SumBalances). */
  ghost function Total(accounts: map<Address, Account>): int {
    if accounts == map[] then 0
    else
      var a :| a in accounts;
      accounts[a].balance + Total(accounts - {a})
  }

  /** The sum does not depend on the order in which accounts are visited. */
  lemma {:induction false} TotalRemove(accounts: map<Address, Account>, a: Address)
    requires a in accounts
    ensures Total(accounts) == accounts[a].balance + Total(accounts - {a})
    decreases |accounts|
  {
    var b :| b in accounts && Total(accounts) == accounts[b].balance + Total(accounts - {b});
    if a != b {
      TotalRemove(accounts - {b}, a);
      TotalRemove(accounts - {a}, b);
      assert accounts - {a} - {b} == accounts - {b} - {a};
    }
  }

  lemma TotalPut(w: World, a: Address, acc: Account)
    ensures Total(Put(w, a, acc).accounts) == Total(w.accounts) - Balance(w, a) + acc.balance
  {
    var rest := w.accounts - {a};
    assert Total(w.accounts) == Balance(w, a) + Total(rest) by {
      if a in w.accounts { TotalRemove(w.accounts, a); } else { assert rest == w.accounts; }
    }
    if acc != EMPTY_ACCOUNT {
      TotalRemove(w.accounts[a := acc], a);
      assert w.accounts[a := acc] - {a} == rest;
    }
  }

  /** All the value there is: held by accounts or destroyed. */
  ghost function Supply(w: World): int { Total(w.accounts) + w.burned }

  /** No debt, and no empty account kept as a record. */
  ghost predicate Sound(w: World) {
    forall a :: a in w.accounts ==> w.accounts[a].balance >= 0 && w.accounts[a] != EMPTY_ACCOUNT
  }

  /** Nonces never fall, events are only added, and every account that differs is marked. */
  ghost predicate Tracked(w: World, w': World) {
    && w.burned <= w'.burned
    && w.logs <= w'.logs
    && w.touched <= w'.touched
    && (forall a :: Nonce(w, a) <= Nonce(w', a))
    && (forall a :: a !in w'.touched ==> Get(w', a) == Get(w, a) && (a in w.accounts <==> a in w'.accounts))
  }

  /** What execution may do to a world: also, value is neither made nor lost and nobody goes into debt. */
  ghost predicate Evolves(w: World, w': World) {
    Tracked(w, w') && Supply(w') == Supply(w) && (Sound(w) ==> Sound(w'))
  }

  lemma TrackedTransitive(w: World, w': World, w'': World)
    requires Tracked(w, w') && Tracked(w', w'')
    ensures Tracked(w, w'')
  {
    forall a ensures Nonce(w, a) <= Nonce(w'', a) {
      assert Nonce(w, a) <= Nonce(w', a) <= Nonce(w'', a);
    }
  }

  lemma EvolvesTransitive(w: World, w': World, w'': World)
    requires Evolves(w, w') && Evolves(w', w'')
    ensures Evolves(w, w'')
  {
    TrackedTransitive(w, w', w'');
  }

  lemma EvolvesReflexive(w: World)
    ensures Evolves(w, w)
  {
  }

  lemma EventEvolves(w: World, log: Log)
    ensures Evolves(w, AddLog(w, log))
  {
  }

  lemma PutTracked(w: World, a: Address, acc: Account)
    requires acc.nonce >= Nonce(w, a)
    ensures Tracked(w, Put(w, a, acc))
  {
  }

  /** A write that keeps the balance and does not lower the nonce. */
  lemma PutEvolves(w: World, a: Address, acc: Account)
    requires acc.balance == Balance(w, a) && acc.nonce >= Nonce(w, a)
    ensures Evolves(w, Put(w, a, acc))
  {
    TotalPut(w, a, acc);
  }

  lemma CreditTotal(w: World, a: Address, amount: int)
    ensures Total(Credit(w, a, amount).accounts) == Total(w.accounts) + amount
    ensures Credit(w, a, amount).burned == w.burned
  {
    TotalPut(w, a, Get(w, a).(balance := Balance(w, a) + amount));
  }

  lemma CreditSound(w: World, a: Address, amount: int)
    requires Sound(w) && Balance(w, a) + amount >= 0
    ensures Sound(Credit(w, a, amount))
  {
    var w' := Credit(w, a, amount);
    forall b | b in w'.accounts ensures w'.accounts[b].balance >= 0 && w'.accounts[b] != EMPTY_ACCOUNT {
      assert w'.accounts[b] == Get(w', b);
    }
  }

  lemma CreditTracked(w: World, a: Address, amount: int)
    ensures Tracked(w, Credit(w, a, amount)) && (Sound(w) ==> Balance(w, a) >= 0)
  {
    PutTracked(w, a, Get(w, a).(balance := Balance(w, a) + amount));
  }

  /** Moving value that the payer holds; payer and payee may be the same account. */
  lemma TransferEvolves(w: World, from: Address, to: Address, amount: int)
    requires 0 <= amount <= Balance(w, from)
    ensures Evolves(w, Transfer(w, from, to, amount))
  {
    hide Sound, Total, Tracked, Credit;
    var w1 := Credit(w, from, -amount);
    CreditTracked(w, from, -amount);
    CreditTracked(w1, to, amount);
    TrackedTransitive(w, w1, Credit(w1, to, amount));
    CreditTotal(w, from, -amount);
    CreditTotal(w1, to, amount);
    if Sound(w) {
      CreditSound(w, from, -amount);
      CreditSound(w1, to, amount);
    }
  }
}
