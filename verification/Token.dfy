/** The ERC-20 ledger the bank moves: calls that fail revert, and no call re-enters the caller. */
module Token {
  import opened Wrappers
  import opened Felts

  type Address = Felt

  /** The Transfer event of EIP-20. */
  datatype Transfer = Transfer(from: Address, to: Address, amount: nat)

  datatype Ledger = Ledger(
    balances: map<Address, nat>,
    allowances: map<(Address, Address), nat>,
    events: seq<Transfer>)

  /** Reading a storage map: an absent entry reads as zero. */
  function Get<K, V>(m: map<K, V>, k: K, zero: V): V {
    if k in m then m[k] else zero
  }

  function BalanceOf(t: Ledger, a: Address): nat {
    Get(t.balances, a, 0)
  }

  function Allowance(t: Ledger, owner: Address, spender: Address): nat {
    Get(t.allowances, (owner, spender), 0)
  }

  function Move(t: Ledger, from: Address, to: Address, amount: nat): Ledger
    requires BalanceOf(t, from) >= amount
  {
    var debited := t.balances[from := BalanceOf(t, from) - amount];
    t.(balances := debited[to := Get(debited, to, 0) + amount], events := t.events + [Transfer(from, to, amount)])
  }

  function DoTransfer(t: Ledger, caller: Address, to: Address, amount: nat): Option<Ledger> {
    if BalanceOf(t, caller) < amount then None else Some(Move(t, caller, to, amount))
  }

  function DoTransferFrom(t: Ledger, caller: Address, from: Address, to: Address, amount: nat): Option<Ledger> {
    if Allowance(t, from, caller) < amount || BalanceOf(t, from) < amount then None
    else
      var spent := t.(allowances := t.allowances[(from, caller) := Allowance(t, from, caller) - amount]);
      Some(Move(spent, from, to, amount))
  }

  function DoApprove(t: Ledger, caller: Address, spender: Address, amount: nat): Ledger {
    t.(allowances := t.allowances[(caller, spender) := amount])
  }

  class Erc20 {
    var balances: map<Address, nat>
    var allowances: map<(Address, Address), nat>
    var events: seq<Transfer>

    function State(): Ledger
      reads this
    {
      Ledger(balances, allowances, events)
    }

    constructor (initial: map<Address, nat>)
      ensures State() == Ledger(initial, map[], [])
    {
      balances, allowances, events := initial, map[], [];
    }

    /** False is a revert, which leaves the ledger as it was. */
    method TransferTo(caller: Address, to: Address, amount: nat) returns (ok: bool)
      modifies this
      ensures ok <==> DoTransfer(old(State()), caller, to, amount).Some?
      ensures State() == if ok then DoTransfer(old(State()), caller, to, amount).value else old(State())
    {
      if Get(balances, caller, 0) < amount {
        return false;
      }
      balances := balances[caller := Get(balances, caller, 0) - amount];
      balances := balances[to := Get(balances, to, 0) + amount];
      events := events + [Transfer(caller, to, amount)];
      ok := true;
    }

    method TransferFrom(caller: Address, from: Address, to: Address, amount: nat) returns (ok: bool)
      modifies this
      ensures ok <==> DoTransferFrom(old(State()), caller, from, to, amount).Some?
      ensures State() == if ok then DoTransferFrom(old(State()), caller, from, to, amount).value else old(State())
    {
      if Get(allowances, (from, caller), 0) < amount || Get(balances, from, 0) < amount {
        return false;
      }
      allowances := allowances[(from, caller) := Get(allowances, (from, caller), 0) - amount];
      balances := balances[from := Get(balances, from, 0) - amount];
      balances := balances[to := Get(balances, to, 0) + amount];
      events := events + [Transfer(from, to, amount)];
      ok := true;
    }

    method Approve(caller: Address, spender: Address, amount: nat)
      modifies this
      ensures State() == DoApprove(old(State()), caller, spender, amount)
    {
      allowances := allowances[(caller, spender) := amount];
    }
  }

  // ----- sums over storage maps

  ghost function Sum<K(!new)>(m: map<K, nat>): nat
    decreases |m|
  {
    if m == map[] then 0
    else
      var k :| k in m;
      m[k] + Sum(m - {k})
  }

  /** The sum does not depend on which key is taken out first. */
  lemma {:induction false} SumTakeOut<K(!new)>(m: map<K, nat>, k: K)
    requires k in m
    ensures Sum(m) == m[k] + Sum(m - {k})
    decreases |m|
  {
    var j :| j in m && Sum(m) == m[j] + Sum(m - {j});
    if j != k {
      SumTakeOut(m - {j}, k);
      SumTakeOut(m - {k}, j);
      assert (m - {j}) - {k} == (m - {k}) - {j};
    }
  }

  lemma SumUpdate<K(!new)>(m: map<K, nat>, k: K, v: nat)
    ensures Sum(m[k := v]) == Sum(m) - Get(m, k, 0) + v
  {
    SumTakeOut(m[k := v], k);
    if k in m {
      SumTakeOut(m, k);
      assert m[k := v] - {k} == m - {k};
    } else {
      assert m[k := v] - {k} == m;
    }
  }

  lemma SumAtLeast<K(!new)>(m: map<K, nat>, k: K)
    ensures Get(m, k, 0) <= Sum(m)
  {
    if k in m {
      SumTakeOut(m, k);
    }
  }

  /** Moving tokens conserves the supply and changes two balances by the amount. */
  lemma MoveConserves(t: Ledger, from: Address, to: Address, amount: nat)
    requires BalanceOf(t, from) >= amount
    ensures Sum(Move(t, from, to, amount).balances) == Sum(t.balances)
    ensures forall a :: BalanceOf(Move(t, from, to, amount), a)
                     == BalanceOf(t, a) - (if a == from then amount else 0) + (if a == to then amount else 0)
  {
    var debited := t.balances[from := BalanceOf(t, from) - amount];
    SumUpdate(t.balances, from, BalanceOf(t, from) - amount);
    SumUpdate(debited, to, Get(debited, to, 0) + amount);
  }
}
