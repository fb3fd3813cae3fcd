/** The bank over whole runs: any list of calls by anyone but the bank contract itself. */
module BankRuns {
  import opened Wrappers
  import opened Felts
  import opened Token
  import opened Bank

  datatype Call =
    | DepositCall(caller: Address, sid: Felt, amount: U256, seed: Felt, bet: Felt)
    | MatchCall(caller: Address, sid: Felt)
    | SettleCall(caller: Address, sid: Felt, seed: Felt)
    | WithdrawCall(caller: Address)
    | TransferCall(caller: Address, to: Address, value: nat)
    | TransferFromCall(caller: Address, from: Address, to: Address, value: nat)
    | ApproveCall(caller: Address, spender: Address, value: nat)

  function Try(w: World, pedersen: Pedersen, c: Call): Option<World> {
    match c
    case DepositCall(caller, sid, amount, seed, bet) => Deposit(w, caller, sid, amount, seed, bet)
    case MatchCall(caller, sid) => MatchDeposit(w, caller, sid)
    case SettleCall(caller, sid, seed) => Settle(w, pedersen, caller, sid, seed)
    case WithdrawCall(caller) => Withdraw(w, caller)
    case TransferCall(caller, to, value) =>
      (match DoTransfer(w.token, caller, to, value)
       case None => None
       case Some(token) => Some(w.(token := token)))
    case TransferFromCall(caller, from, to, value) =>
      (match DoTransferFrom(w.token, caller, from, to, value)
       case None => None
       case Some(token) => Some(w.(token := token)))
    case ApproveCall(caller, spender, value) => Some(w.(token := DoApprove(w.token, caller, spender, value)))
  }

  /** A call that reverts changes nothing. */
  function Step(w: World, pedersen: Pedersen, c: Call): World {
    match Try(w, pedersen, c)
    case Some(next) => next
    case None => w
  }

  function Run(w: World, pedersen: Pedersen, calls: seq<Call>): World {
    if calls == [] then w
    else Step(Run(w, pedersen, calls[..|calls| - 1]), pedersen, calls[|calls| - 1])
  }

  lemma RunOneMore(w: World, pedersen: Pedersen, calls: seq<Call>, c: Call)
    ensures Run(w, pedersen, calls + [c]) == Step(Run(w, pedersen, calls), pedersen, c)
  {
    assert (calls + [c])[..|calls|] == calls;
  }

  /** The bank contract calls only from inside its own entry points. */
  predicate Outside(w: World, calls: seq<Call>) {
    forall i :: 0 <= i < |calls| ==> calls[i].caller != w.self
  }

  /** A freshly deployed bank over any token ledger whose supply is a u256; nobody may spend for the bank. */
  ghost predicate Fresh(w: World) {
    && Sum(w.token.balances) < TWO_256
    && NoAllowance(w.token.allowances, w.self)
    && w.bank.state == map[] && w.bank.playerBalance == map[]
  }

  // ----- when a call goes through, and what it moves

  /** In any world, reachable or not, these are the conditions under which each call does not revert. */
  lemma SucceedsExactly(w: World, pedersen: Pedersen, caller: Address, sid: Felt, amount: U256, seed: Felt, bet: Felt)
    ensures Deposit(w, caller, sid, amount, seed, bet).Some?
       <==> amount > 0 && StateOf(w.bank, sid) == EMPTY && CanStake(w, caller, amount)
    ensures MatchDeposit(w, caller, sid).Some?
       <==> caller == w.bank.owner && StateOf(w.bank, sid) == DEPOSITED && CanStake(w, caller, AmountOf(w.bank, sid))
    ensures Settle(w, pedersen, caller, sid, seed).Some?
       <==> caller == w.bank.owner && StateOf(w.bank, sid) == MATCHED && 2 * AmountOf(w.bank, sid) < TWO_256
            && BalanceOf(w.token, w.self) >= 2 * AmountOf(w.bank, sid)
    ensures Withdraw(w, caller).Some?
       <==> BalanceOf(w.token, w.self) >= Get(w.bank.playerBalance, caller, 0) > 0
  {
  }

  /** In any world a withdrawal pays the caller all of its balance once, and touches nothing else. */
  lemma WithdrawPays(w: World, caller: Address)
    requires Withdraw(w, caller).Some?
    ensures var next, paid := Withdraw(w, caller).value, Get(w.bank.playerBalance, caller, 0);
            && PaidOut(w, next, caller, paid)
            && next.token.events == w.token.events + [Transfer(w.self, caller, paid)]
            && (forall a :: Get(next.bank.playerBalance, a, 0) == if a == caller then 0 else Get(w.bank.playerBalance, a, 0))
            && next.bank == w.bank.(playerBalance := next.bank.playerBalance)
            && Withdraw(next, caller).None?
  {
    MoveConserves(w.token, w.self, caller, Get(w.bank.playerBalance, caller, 0));
  }

  // ----- the invariant

  function Escrowed(b: Storage, sid: Felt): nat {
    if StateOf(b, sid) == DEPOSITED then AmountOf(b, sid)
    else if StateOf(b, sid) == MATCHED then 2 * AmountOf(b, sid)
    else 0
  }

  function EscrowMap(b: Storage): map<Felt, nat> {
    map sid | sid in b.state :: Escrowed(b, sid)
  }

  ghost function TotalEscrow(b: Storage): nat {
    Sum(EscrowMap(b))
  }

  predicate SessionOk(b: Storage, self: Address, sid: Felt) {
    && StateOf(b, sid) <= SETTLED
    && (StateOf(b, sid) != EMPTY ==> AmountOf(b, sid) > 0 && PlayerOf(b, sid) != self)
    && (StateOf(b, sid) >= MATCHED ==> b.owner != self)
  }

  predicate SameSession(b: Storage, c: Storage, sid: Felt) {
    StateOf(c, sid) == StateOf(b, sid) && AmountOf(c, sid) == AmountOf(b, sid) && PlayerOf(c, sid) == PlayerOf(b, sid)
  }

  ghost predicate NoAllowance(allowances: map<(Address, Address), nat>, self: Address) {
    forall a: Address :: Get(allowances, (self, a), 0) == 0
  }

  ghost predicate NothingToWithdraw(b: Storage) {
    forall a: Address :: Get(b.playerBalance, a, 0) == 0
  }

  ghost predicate Invariant(w: World) {
    && Sum(w.token.balances) < TWO_256
    && BalanceOf(w.token, w.self) >= TotalEscrow(w.bank)
    && NoAllowance(w.token.allowances, w.self)
    && NothingToWithdraw(w.bank)
    && forall sid :: SessionOk(w.bank, w.self, sid)
  }

  /** Tokens sent to the bank by a plain token call. */
  function Donated(w: World, pedersen: Pedersen, c: Call): nat {
    if Try(w, pedersen, c).None? then 0
    else match c
      case TransferCall(_, to, value) => if to == w.self then value else 0
      case TransferFromCall(_, _, to, value) => if to == w.self then value else 0
      case _ => 0
  }

  /** What one call keeps, and how it moves the bank's surplus over escrow and the supply. */
  ghost predicate Kept(w: World, next: World, donated: nat) {
    && Invariant(next)
    && next.self == w.self && next.bank.owner == w.bank.owner
    && Sum(next.token.balances) == Sum(w.token.balances)
    && BalanceOf(next.token, next.self) - TotalEscrow(next.bank)
         == BalanceOf(w.token, w.self) - TotalEscrow(w.bank) + donated
  }

  lemma EscrowUpdate(b: Storage, c: Storage, sid: Felt)
    requires sid in c.state && c.state == b.state[sid := c.state[sid]]
    requires forall s :: s != sid ==> SameSession(b, c, s)
    ensures TotalEscrow(c) == TotalEscrow(b) - Escrowed(b, sid) + Escrowed(c, sid)
  {
    forall s | s in c.state && s != sid
      ensures Escrowed(c, s) == Escrowed(b, s)
    {
      assert SameSession(b, c, s);
    }
    assert EscrowMap(c) == EscrowMap(b)[sid := Escrowed(c, sid)];
    SumUpdate(EscrowMap(b), sid, Escrowed(c, sid));
  }

  lemma EscrowCovered(b: Storage, sid: Felt)
    ensures Escrowed(b, sid) <= TotalEscrow(b)
  {
    SumAtLeast(EscrowMap(b), sid);
  }

  lemma TransferFromKeeps(t: Ledger, self: Address, caller: Address, from: Address, to: Address, amount: nat)
    requires NoAllowance(t.allowances, self)
    requires DoTransferFrom(t, caller, from, to, amount).Some?
    ensures var u := DoTransferFrom(t, caller, from, to, amount).value;
            && Sum(u.balances) == Sum(t.balances)
            && NoAllowance(u.allowances, self)
            && (from == self ==> amount == 0)
            && forall a :: BalanceOf(u, a)
                        == BalanceOf(t, a) - (if a == from then amount else 0) + (if a == to then amount else 0)
  {
    var spent := t.(allowances := t.allowances[(from, caller) := Allowance(t, from, caller) - amount]);
    MoveConserves(spent, from, to, amount);
    assert Get(t.allowances, (self, caller), 0) == 0;
    AllowanceUpdate(t.allowances, self, from, caller, Allowance(t, from, caller) - amount);
  }

  lemma AllowanceUpdate(allowances: map<(Address, Address), nat>, self: Address, from: Address, spender: Address, value: nat)
    requires NoAllowance(allowances, self) && (from == self ==> value == 0)
    ensures NoAllowance(allowances[(from, spender) := value], self)
  {
    forall a: Address
      ensures Get(allowances[(from, spender) := value], (self, a), 0) == 0
    {
      assert Get(allowances, (self, a), 0) == 0;
    }
  }

  /** The other sessions are as they were, so one session decides. */
  lemma OtherSessionsOk(b: Storage, c: Storage, self: Address, sid: Felt)
    requires forall s :: SessionOk(b, self, s)
    requires c.owner == b.owner
    requires forall s :: s != sid ==> SameSession(b, c, s)
    ensures SessionOk(c, self, sid) ==> forall s :: SessionOk(c, self, s)
  {
    forall s | s != sid
      ensures SessionOk(c, self, s)
    {
      assert SessionOk(b, self, s) && SameSession(b, c, s);
    }
  }

  lemma DepositKeeps(w: World, caller: Address, sid: Felt, amount: U256, seed: Felt, bet: Felt)
    requires Invariant(w) && caller != w.self && Deposit(w, caller, sid, amount, seed, bet).Some?
    ensures Kept(w, Deposit(w, caller, sid, amount, seed, bet).value, 0)
  {
    TransferFromKeeps(w.token, w.self, w.self, caller, w.self, amount);
    var b, c := w.bank, Deposit(w, caller, sid, amount, seed, bet).value.bank;
    EscrowUpdate(b, c, sid);
    OtherSessionsOk(b, c, w.self, sid);
  }

  lemma MatchKeeps(w: World, caller: Address, sid: Felt)
    requires Invariant(w) && caller != w.self && MatchDeposit(w, caller, sid).Some?
    ensures Kept(w, MatchDeposit(w, caller, sid).value, 0)
  {
    TransferFromKeeps(w.token, w.self, w.self, caller, w.self, AmountOf(w.bank, sid));
    assert SessionOk(w.bank, w.self, sid);
    var b, c := w.bank, MatchDeposit(w, caller, sid).value.bank;
    EscrowUpdate(b, c, sid);
    OtherSessionsOk(b, c, w.self, sid);
  }

  lemma SettleKeeps(w: World, pedersen: Pedersen, caller: Address, sid: Felt, seed: Felt)
    requires Invariant(w) && caller != w.self && Settle(w, pedersen, caller, sid, seed).Some?
    ensures Kept(w, Settle(w, pedersen, caller, sid, seed).value, 0)
  {
    assert SessionOk(w.bank, w.self, sid);
    MoveConserves(w.token, w.self, Payee(pedersen, w.bank, sid, seed), AmountOf(w.bank, sid) * 2);
    var b, c := w.bank, Settle(w, pedersen, caller, sid, seed).value.bank;
    EscrowUpdate(b, c, sid);
    OtherSessionsOk(b, c, w.self, sid);
  }

  /** Nobody ever has a withdrawable balance, so `withdraw` always reverts. */
  lemma WithdrawReverts(w: World, caller: Address)
    requires Invariant(w)
    ensures Withdraw(w, caller).None?
  {
    assert Get(w.bank.playerBalance, caller, 0) == 0;
  }

  lemma TokenCallKeeps(w: World, pedersen: Pedersen, c: Call)
    requires Invariant(w) && c.caller != w.self
    requires c.TransferCall? || c.TransferFromCall? || c.ApproveCall?
    requires Try(w, pedersen, c).Some?
    ensures Kept(w, Try(w, pedersen, c).value, Donated(w, pedersen, c))
  {
    match c
    case TransferCall(caller, to, value) => MoveConserves(w.token, caller, to, value);
    case TransferFromCall(caller, from, to, value) => TransferFromKeeps(w.token, w.self, caller, from, to, value);
    case ApproveCall(caller, spender, value) => AllowanceUpdate(w.token.allowances, w.self, caller, spender, value);
  }

  /** Every step by anyone keeps the invariant, the supply and the bank's surplus up to donations. */
  lemma StepKeeps(w: World, pedersen: Pedersen, c: Call)
    requires Invariant(w) && c.caller != w.self
    ensures Kept(w, Step(w, pedersen, c), Donated(w, pedersen, c))
  {
    if Try(w, pedersen, c).Some? {
      match c
      case DepositCall(caller, sid, amount, seed, bet) => DepositKeeps(w, caller, sid, amount, seed, bet);
      case MatchCall(caller, sid) => MatchKeeps(w, caller, sid);
      case SettleCall(caller, sid, seed) => SettleKeeps(w, pedersen, caller, sid, seed);
      case WithdrawCall(caller) => WithdrawReverts(w, caller);
      case _ => TokenCallKeeps(w, pedersen, c);
    }
  }

  function AllDonated(w: World, pedersen: Pedersen, calls: seq<Call>): nat {
    if calls == [] then 0
    else
      var n := |calls| - 1;
      AllDonated(w, pedersen, calls[..n]) + Donated(Run(w, pedersen, calls[..n]), pedersen, calls[n])
  }

  lemma FreshInvariant(w: World)
    requires Fresh(w)
    ensures Invariant(w) && TotalEscrow(w.bank) == 0
  {
    assert EscrowMap(w.bank) == map[];
  }

  lemma {:induction false} RunKeeps(w: World, pedersen: Pedersen, calls: seq<Call>)
    requires Fresh(w) && Outside(w, calls)
    ensures Kept(w, Run(w, pedersen, calls), AllDonated(w, pedersen, calls))
  {
    FreshInvariant(w);
    if calls != [] {
      var n := |calls| - 1;
      RunKeeps(w, pedersen, calls[..n]);
      StepKeeps(Run(w, pedersen, calls[..n]), pedersen, calls[n]);
    }
  }

  /**
   Solvency on every run: the bank's balance is exactly the escrow of all sessions, plus what it
   held at deployment, plus what was sent to it by plain transfers; the supply never changes; and
   no player ever has a balance to withdraw.
   */
  lemma Solvency(w: World, pedersen: Pedersen, calls: seq<Call>)
    requires Fresh(w) && Outside(w, calls)
    ensures var now := Run(w, pedersen, calls);
            && BalanceOf(now.token, w.self)
                 == TotalEscrow(now.bank) + BalanceOf(w.token, w.self) + AllDonated(w, pedersen, calls)
            && Sum(now.token.balances) == Sum(w.token.balances)
            && forall a: Address :: Get(now.bank.playerBalance, a, 0) == 0 && Withdraw(now, a).None?
  {
    RunKeeps(w, pedersen, calls);
    FreshInvariant(w);
    forall a: Address
      ensures Withdraw(Run(w, pedersen, calls), a).None?
    {
      WithdrawReverts(Run(w, pedersen, calls), a);
    }
  }

  /** Settlement cannot get stuck: in every reachable state, who may settle and when is all that decides. */
  lemma SettleNeverStuck(w: World, pedersen: Pedersen, calls: seq<Call>, caller: Address, sid: Felt, seed: Felt)
    requires Fresh(w) && Outside(w, calls)
    ensures var now := Run(w, pedersen, calls);
            Settle(now, pedersen, caller, sid, seed).Some? <==> caller == w.bank.owner && StateOf(now.bank, sid) == MATCHED
  {
    RunKeeps(w, pedersen, calls);
    var now := Run(w, pedersen, calls);
    EscrowCovered(now.bank, sid);
    SumAtLeast(now.token.balances, w.self);
  }

  lemma SettleReaches(w: World, pedersen: Pedersen, caller: Address, sid: Felt, seed: Felt)
    requires Settle(w, pedersen, caller, sid, seed).Some?
    ensures StateOf(Step(w, pedersen, SettleCall(caller, sid, seed)).bank, sid) == SETTLED
  {
  }

  // ----- one session over a run

  predicate IsSessionCall(c: Call, sid: Felt) {
    (c.DepositCall? || c.MatchCall? || c.SettleCall?) && c.sid == sid
  }

  /** The transfers a call causes, read off the token's event log. */
  function EventsOf(w: World, pedersen: Pedersen, c: Call): seq<Transfer> {
    var after := Step(w, pedersen, c).token.events;
    if |w.token.events| <= |after| then after[|w.token.events|..] else []
  }

  /** All transfers caused by calls for the session, over a run. */
  function SessionEvents(w: World, pedersen: Pedersen, calls: seq<Call>, sid: Felt): seq<Transfer> {
    if calls == [] then []
    else
      var n := |calls| - 1;
      SessionEvents(w, pedersen, calls[..n], sid)
      + if IsSessionCall(calls[n], sid) then EventsOf(Run(w, pedersen, calls[..n]), pedersen, calls[n]) else []
  }

  /** The seed of the call that settled the session, if one did. */
  function SettledWith(w: World, pedersen: Pedersen, calls: seq<Call>, sid: Felt): Option<Felt> {
    if calls == [] then None
    else
      var n := |calls| - 1;
      var now, c := Run(w, pedersen, calls[..n]), calls[n];
      if c.SettleCall? && c.sid == sid && Try(now, pedersen, c).Some? then Some(c.seed)
      else SettledWith(w, pedersen, calls[..n], sid)
  }

  function StakeEvents(w: World, sid: Felt): seq<Transfer> {
    var b := w.bank;
    if StateOf(b, sid) == EMPTY then []
    else if StateOf(b, sid) == DEPOSITED then [Transfer(PlayerOf(b, sid), w.self, AmountOf(b, sid))]
    else [Transfer(PlayerOf(b, sid), w.self, AmountOf(b, sid)), Transfer(b.owner, w.self, AmountOf(b, sid))]
  }

  /** What the event log says of a session in each state. */
  ghost predicate Accounted(w: World, pedersen: Pedersen, events: seq<Transfer>, settled: Option<Felt>, sid: Felt) {
    && (settled.Some? <==> StateOf(w.bank, sid) == SETTLED)
    && events == StakeEvents(w, sid)
         + if settled.None? then []
           else [Transfer(w.self, Payee(pedersen, w.bank, sid, settled.value), 2 * AmountOf(w.bank, sid))]
  }

  /** Nothing but the state of a session changes once it exists, and the state only moves one forward. */
  predicate Advanced(b: Storage, c: Storage, sid: Felt) {
    && c.owner == b.owner
    && (StateOf(c, sid) == StateOf(b, sid) || StateOf(c, sid) == StateOf(b, sid) + 1)
    && (StateOf(b, sid) != EMPTY ==>
          && PlayerOf(c, sid) == PlayerOf(b, sid)
          && AmountOf(c, sid) == AmountOf(b, sid)
          && BetOf(c, sid) == BetOf(b, sid)
          && SeedOf(c, sid) == SeedOf(b, sid))
  }

  lemma StepAdvances(w: World, pedersen: Pedersen, c: Call, sid: Felt)
    ensures Advanced(w.bank, Step(w, pedersen, c).bank, sid)
    ensures Step(w, pedersen, c).self == w.self
    ensures !IsSessionCall(c, sid) ==> StateOf(Step(w, pedersen, c).bank, sid) == StateOf(w.bank, sid)
  {
  }

  /** Over any continuation of a run a session's data stays and its state does not go back. */
  lemma {:induction false} SessionImmutable(w: World, pedersen: Pedersen, calls: seq<Call>, sid: Felt)
    requires StateOf(w.bank, sid) != EMPTY
    ensures var b, c := w.bank, Run(w, pedersen, calls).bank;
            && StateOf(c, sid) >= StateOf(b, sid)
            && PlayerOf(c, sid) == PlayerOf(b, sid)
            && AmountOf(c, sid) == AmountOf(b, sid)
            && BetOf(c, sid) == BetOf(b, sid)
            && SeedOf(c, sid) == SeedOf(b, sid)
  {
    if calls != [] {
      var n := |calls| - 1;
      SessionImmutable(w, pedersen, calls[..n], sid);
      StepAdvances(Run(w, pedersen, calls[..n]), pedersen, calls[n], sid);
    }
  }

  /** The session's data is what the call passed. */
  predicate DepositedBy(b: Storage, sid: Felt, c: Call) {
    && c.DepositCall? && c.sid == sid && c.caller == PlayerOf(b, sid) && c.amount == AmountOf(b, sid) && c.amount > 0
    && c.seed == SeedOf(b, sid) && c.bet == BetOf(b, sid)
  }

  /** What a session holds in any reachable state is what one deposit call of the run passed. */
  lemma {:induction false} DepositRecorded(w: World, pedersen: Pedersen, calls: seq<Call>, sid: Felt)
    requires StateOf(w.bank, sid) == EMPTY
    ensures var b := Run(w, pedersen, calls).bank;
            StateOf(b, sid) != EMPTY ==> exists c :: c in calls && DepositedBy(b, sid, c)
  {
    if calls != [] {
      var n := |calls| - 1;
      var now, c := Run(w, pedersen, calls[..n]), calls[n];
      DepositRecorded(w, pedersen, calls[..n], sid);
      StepAdvances(now, pedersen, c, sid);
      if StateOf(now.bank, sid) != EMPTY {
        var d :| d in calls[..n] && DepositedBy(now.bank, sid, d);
        assert d in calls && DepositedBy(Run(w, pedersen, calls).bank, sid, d);
      } else if StateOf(Run(w, pedersen, calls).bank, sid) != EMPTY {
        assert c in calls && DepositedBy(Run(w, pedersen, calls).bank, sid, c);
      }
    }
  }

  lemma SessionCallAccounted(w: World, pedersen: Pedersen, c: Call, sid: Felt, events: seq<Transfer>, settled: Option<Felt>)
    requires IsSessionCall(c, sid) && Accounted(w, pedersen, events, settled, sid)
    ensures Accounted(Step(w, pedersen, c), pedersen, events + EventsOf(w, pedersen, c),
                      if c.SettleCall? && Try(w, pedersen, c).Some? then Some(c.seed) else settled, sid)
  {
    if Try(w, pedersen, c).Some? {
      match c
      case DepositCall(caller, _, amount, _, _) =>
        assert EventsOf(w, pedersen, c) == [Transfer(caller, w.self, amount)];
      case MatchCall(caller, _) =>
        assert EventsOf(w, pedersen, c) == [Transfer(caller, w.self, AmountOf(w.bank, sid))];
      case SettleCall(_, _, seed) =>
        assert EventsOf(w, pedersen, c)
            == [Transfer(w.self, Payee(pedersen, w.bank, sid, seed), AmountOf(w.bank, sid) * 2)];
    } else {
      assert EventsOf(w, pedersen, c) == [];
    }
  }

  lemma OtherCallAccounted(w: World, pedersen: Pedersen, c: Call, sid: Felt, events: seq<Transfer>, settled: Option<Felt>)
    requires !IsSessionCall(c, sid) && Accounted(w, pedersen, events, settled, sid)
    ensures Accounted(Step(w, pedersen, c), pedersen, events, settled, sid)
  {
    StepAdvances(w, pedersen, c, sid);
  }

  /**
   Session accounting: over every run the token's own log shows, for each session, exactly the
   player's stake, then the owner's equal stake, then twice the amount to the one payee that the
   settling seed picks; and nothing else.
   */
  lemma {:induction false} SessionAccounting(w: World, pedersen: Pedersen, calls: seq<Call>, sid: Felt)
    requires Fresh(w)
    ensures Accounted(Run(w, pedersen, calls), pedersen, SessionEvents(w, pedersen, calls, sid),
                      SettledWith(w, pedersen, calls, sid), sid)
  {
    if calls != [] {
      var n := |calls| - 1;
      var now, c := Run(w, pedersen, calls[..n]), calls[n];
      var events, settled := SessionEvents(w, pedersen, calls[..n], sid), SettledWith(w, pedersen, calls[..n], sid);
      SessionAccounting(w, pedersen, calls[..n], sid);
      if IsSessionCall(c, sid) {
        SessionCallAccounted(now, pedersen, c, sid, events, settled);
      } else {
        OtherCallAccounted(now, pedersen, c, sid, events, settled);
      }
    }
  }

  lemma {:induction false} OwnerStays(w: World, pedersen: Pedersen, calls: seq<Call>)
    ensures Run(w, pedersen, calls).bank.owner == w.bank.owner && Run(w, pedersen, calls).self == w.self
  {
    if calls != [] {
      var n := |calls| - 1;
      OwnerStays(w, pedersen, calls[..n]);
      StepAdvances(Run(w, pedersen, calls[..n]), pedersen, calls[n], 0);
    }
  }

  /** A settled session was settled by a call of the owner with the recorded seed. */
  lemma {:induction false} SettledByOwner(w: World, pedersen: Pedersen, calls: seq<Call>, sid: Felt)
    ensures var settled := SettledWith(w, pedersen, calls, sid);
            settled.Some? ==> SettleCall(w.bank.owner, sid, settled.value) in calls
  {
    if calls != [] {
      var n := |calls| - 1;
      SettledByOwner(w, pedersen, calls[..n], sid);
      OwnerStays(w, pedersen, calls[..n]);
      assert forall c :: c in calls[..n] ==> c in calls;
      assert calls[n] in calls;
    }
  }

  /** A session past the deposit was matched by a call of the owner. */
  lemma {:induction false} MatchedByOwner(w: World, pedersen: Pedersen, calls: seq<Call>, sid: Felt)
    requires StateOf(w.bank, sid) == EMPTY
    ensures StateOf(Run(w, pedersen, calls).bank, sid) >= MATCHED ==> MatchCall(w.bank.owner, sid) in calls
  {
    if calls != [] {
      var n := |calls| - 1;
      var now, c := Run(w, pedersen, calls[..n]), calls[n];
      MatchedByOwner(w, pedersen, calls[..n], sid);
      OwnerStays(w, pedersen, calls[..n]);
      StepAdvances(now, pedersen, c, sid);
      assert forall x :: x in calls[..n] ==> x in calls;
      assert c in calls;
    }
  }

  function Received(events: seq<Transfer>, a: Address): nat {
    if events == [] then 0
    else Received(events[..|events| - 1], a)
         + if events[|events| - 1].to == a then events[|events| - 1].amount else 0
  }

  function Sent(events: seq<Transfer>, a: Address): nat {
    if events == [] then 0
    else Sent(events[..|events| - 1], a)
         + if events[|events| - 1].from == a then events[|events| - 1].amount else 0
  }

  /** Per session and over every run: taken in equals paid out plus still escrowed. */
  lemma TakenInIsPaidOutPlusEscrowed(w: World, pedersen: Pedersen, calls: seq<Call>, sid: Felt)
    requires Fresh(w) && Outside(w, calls)
    ensures var events := SessionEvents(w, pedersen, calls, sid);
            Received(events, w.self) == Sent(events, w.self) + Escrowed(Run(w, pedersen, calls).bank, sid)
  {
    RunKeeps(w, pedersen, calls);
    SessionAccounting(w, pedersen, calls, sid);
    AccountedTotals(Run(w, pedersen, calls), pedersen, SessionEvents(w, pedersen, calls, sid),
                    SettledWith(w, pedersen, calls, sid), sid);
  }

  lemma AccountedTotals(w: World, pedersen: Pedersen, events: seq<Transfer>, settled: Option<Felt>, sid: Felt)
    requires Accounted(w, pedersen, events, settled, sid) && SessionOk(w.bank, w.self, sid)
    ensures Received(events, w.self) == Sent(events, w.self) + Escrowed(w.bank, sid)
  {
    UnfoldTotals(events, w.self);
  }

  function Amount(e: Transfer, a: Address, incoming: bool): nat {
    if (if incoming then e.to else e.from) == a then e.amount else 0
  }

  /** The totals of at most three events, written out. */
  lemma UnfoldTotals(e: seq<Transfer>, a: Address)
    requires |e| <= 3
    ensures e == [] ==> Received(e, a) == Sent(e, a) == 0
    ensures |e| == 1 ==> Received(e, a) == Amount(e[0], a, true) && Sent(e, a) == Amount(e[0], a, false)
    ensures |e| == 2 ==> Received(e, a) == Amount(e[0], a, true) + Amount(e[1], a, true)
    ensures |e| == 2 ==> Sent(e, a) == Amount(e[0], a, false) + Amount(e[1], a, false)
    ensures |e| == 3 ==> Received(e, a) == Amount(e[0], a, true) + Amount(e[1], a, true) + Amount(e[2], a, true)
    ensures |e| == 3 ==> Sent(e, a) == Amount(e[0], a, false) + Amount(e[1], a, false) + Amount(e[2], a, false)
  {
    if e != [] {
      UnfoldTotals(e[..|e| - 1], a);
    }
  }

  // ----- spending within an approval

  /** Who spends an allowance in a call: the caller of a transfer-from, or the bank taking a stake. */
  function Spender(w: World, c: Call): Option<Address> {
    match c
    case TransferFromCall(caller, _, _, _) => Some(caller)
    case DepositCall(_, _, _, _, _) => Some(w.self)
    case MatchCall(_, _) => Some(w.self)
    case _ => None
  }

  /** What `spender` took from `owner` since `owner` last approved it, read off the token's event log. */
  function Taken(w: World, pedersen: Pedersen, calls: seq<Call>, owner: Address, spender: Address): nat {
    if calls == [] then 0
    else
      var n := |calls| - 1;
      var now, c := Run(w, pedersen, calls[..n]), calls[n];
      if c.ApproveCall? && c.caller == owner && c.spender == spender then 0
      else
        Taken(w, pedersen, calls[..n], owner, spender)
        + if Spender(now, c) == Some(spender) then Sent(EventsOf(now, pedersen, c), owner) else 0
  }

  /** The value last approved, or the allowance at the start. */
  function Approved(w: World, calls: seq<Call>, owner: Address, spender: Address): nat {
    if calls == [] then Allowance(w.token, owner, spender)
    else
      var c := calls[|calls| - 1];
      if c.ApproveCall? && c.caller == owner && c.spender == spender then c.value
      else Approved(w, calls[..|calls| - 1], owner, spender)
  }

  lemma TransferFromSpends(t: Ledger, caller: Address, from: Address, to: Address, amount: nat, a: Address, s: Address)
    requires DoTransferFrom(t, caller, from, to, amount).Some?
    ensures var u := DoTransferFrom(t, caller, from, to, amount).value;
            && Allowance(u, a, s) + (if a == from && s == caller then amount else 0) == Allowance(t, a, s)
            && u.events == t.events + [Transfer(from, to, amount)]
  {
  }

  lemma OneSent(from: Address, to: Address, amount: nat, a: Address)
    ensures Sent([Transfer(from, to, amount)], a) == if from == a then amount else 0
  {
    assert Sent([Transfer(from, to, amount)][..0], a) == 0;
  }

  lemma CallSpends(w: World, pedersen: Pedersen, c: Call, owner: Address, spender: Address)
    requires !(c.ApproveCall? && c.caller == owner && c.spender == spender)
    ensures Allowance(Step(w, pedersen, c).token, owner, spender)
            + (if Spender(w, c) == Some(spender) then Sent(EventsOf(w, pedersen, c), owner) else 0)
         == Allowance(w.token, owner, spender)
  {
    if Try(w, pedersen, c).Some? {
      match c
      case TransferFromCall(caller, from, to, value) => PullSpends(w, pedersen, c, caller, from, to, value, owner, spender);
      case DepositCall(caller, _, amount, _, _) => PullSpends(w, pedersen, c, w.self, caller, w.self, amount, owner, spender);
      case MatchCall(caller, sid) =>
        PullSpends(w, pedersen, c, w.self, caller, w.self, AmountOf(w.bank, sid), owner, spender);
      case _ =>
    } else {
      assert EventsOf(w, pedersen, c) == [];
    }
  }

  lemma PullSpends(w: World, pedersen: Pedersen, c: Call, puller: Address, from: Address, to: Address, amount: nat,
                   owner: Address, spender: Address)
    requires DoTransferFrom(w.token, puller, from, to, amount).Some?
    requires Step(w, pedersen, c).token == DoTransferFrom(w.token, puller, from, to, amount).value
    ensures Allowance(Step(w, pedersen, c).token, owner, spender)
            + (if puller == spender then Sent(EventsOf(w, pedersen, c), owner) else 0)
         == Allowance(w.token, owner, spender)
  {
    TransferFromSpends(w.token, puller, from, to, amount, owner, spender);
    assert EventsOf(w, pedersen, c) == [Transfer(from, to, amount)];
    OneSent(from, to, amount, owner);
  }

  /** On every run, what a spender has taken since the last approval and what it may still take is what was approved. */
  lemma {:induction false} SpentWithinApproval(w: World, pedersen: Pedersen, calls: seq<Call>, owner: Address, spender: Address)
    ensures Taken(w, pedersen, calls, owner, spender) + Allowance(Run(w, pedersen, calls).token, owner, spender)
         == Approved(w, calls, owner, spender)
  {
    if calls != [] {
      var n := |calls| - 1;
      var now, c := Run(w, pedersen, calls[..n]), calls[n];
      SpentWithinApproval(w, pedersen, calls[..n], owner, spender);
      if !(c.ApproveCall? && c.caller == owner && c.spender == spender) {
        CallSpends(now, pedersen, c, owner, spender);
      }
    }
  }

  // ----- a whole game

  predicate CanStake(w: World, a: Address, amount: nat) {
    Allowance(w.token, a, w.self) >= amount && BalanceOf(w.token, a) >= amount
  }

  function GameCalls(player: Address, owner: Address, sid: Felt, amount: U256, stored: Felt, bet: Felt, seed: Felt): seq<Call> {
    [DepositCall(player, sid, amount, stored, bet), MatchCall(owner, sid), SettleCall(owner, sid, seed)]
  }

  /**
   From any good state, so after any run, a game both sides can fund completes, is zero-sum, and
   leaves the bank's balance as it was: the winner by the coin gains the stake, the loser loses it,
   everyone else keeps their balance.
   */
  lemma FundedGameCompletes(w: World, pedersen: Pedersen, player: Address, sid: Felt, amount: U256, stored: Felt,
                            bet: Felt, seed: Felt)
    requires Invariant(w) && StateOf(w.bank, sid) == EMPTY && amount > 0
    requires player != w.self && w.bank.owner != w.self && player != w.bank.owner
    requires CanStake(w, player, amount) && CanStake(w, w.bank.owner, amount)
    ensures var end := Run(w, pedersen, GameCalls(player, w.bank.owner, sid, amount, stored, bet, seed));
            && StateOf(end.bank, sid) == SETTLED
            && WonBy(w, end, player, w.bank.owner, Outcome(pedersen, seed, player) == bet, amount)
  {
    var owner := w.bank.owner;
    var a, b, c := DepositCall(player, sid, amount, stored, bet), MatchCall(owner, sid), SettleCall(owner, sid, seed);
    DepositGoesThrough(w, pedersen, player, sid, amount, stored, bet);
    var w1 := Step(w, pedersen, a);
    MatchGoesThrough(w1, pedersen, sid);
    var w2 := Step(w1, pedersen, b);
    SettlePays(w2, pedersen, owner, sid, seed);
    RunThree(w, pedersen, a, b, c);
    StakesAndPayout(w, w1, w2, Step(w2, pedersen, c), player, owner, Outcome(pedersen, seed, player) == bet, amount);
  }

  /** The stake has gone from the loser to the winner and no other balance has changed. */
  ghost predicate WonBy(w: World, end: World, player: Address, owner: Address, playerWins: bool, amount: nat) {
    var winner, loser := if playerWins then player else owner, if playerWins then owner else player;
    forall x :: BalanceOf(end.token, x)
             == BalanceOf(w.token, x) + (if x == winner then amount else 0) - (if x == loser then amount else 0)
  }

  /** Every balance but the stake's and the bank's stays. */
  ghost predicate Staked(w: World, next: World, a: Address, amount: nat) {
    forall x :: BalanceOf(next.token, x)
             == BalanceOf(w.token, x) - (if x == a then amount else 0) + (if x == w.self then amount else 0)
  }

  ghost predicate PaidOut(w: World, next: World, to: Address, amount: nat) {
    forall x :: BalanceOf(next.token, x)
             == BalanceOf(w.token, x) - (if x == w.self then amount else 0) + (if x == to then amount else 0)
  }

  lemma StakesAndPayout(w: World, w1: World, w2: World, end: World, player: Address, owner: Address, playerWins: bool,
                        amount: nat)
    requires w1.self == w.self && w2.self == w.self && player != owner && player != w.self && owner != w.self
    requires Staked(w, w1, player, amount) && Staked(w1, w2, owner, amount)
    requires PaidOut(w2, end, if playerWins then player else owner, 2 * amount)
    ensures WonBy(w, end, player, owner, playerWins, amount)
  {
  }

  lemma DepositGoesThrough(w: World, pedersen: Pedersen, player: Address, sid: Felt, amount: U256, stored: Felt, bet: Felt)
    requires Invariant(w) && player != w.self && amount > 0
    requires StateOf(w.bank, sid) == EMPTY && CanStake(w, player, amount)
    ensures var next := Step(w, pedersen, DepositCall(player, sid, amount, stored, bet));
            && Invariant(next) && next.self == w.self && next.bank.owner == w.bank.owner
            && StateOf(next.bank, sid) == DEPOSITED && AmountOf(next.bank, sid) == amount
            && PlayerOf(next.bank, sid) == player && BetOf(next.bank, sid) == bet && SeedOf(next.bank, sid) == stored
            && Staked(w, next, player, amount)
            && forall a :: a != player && a != w.self && CanStake(w, a, amount) ==> CanStake(next, a, amount)
  {
    TransferFromKeeps(w.token, w.self, w.self, player, w.self, amount);
    DepositKeeps(w, player, sid, amount, stored, bet);
  }

  lemma MatchGoesThrough(w: World, pedersen: Pedersen, sid: Felt)
    requires Invariant(w) && w.bank.owner != w.self
    requires StateOf(w.bank, sid) == DEPOSITED && CanStake(w, w.bank.owner, AmountOf(w.bank, sid))
    ensures var next := Step(w, pedersen, MatchCall(w.bank.owner, sid));
            && Invariant(next) && next.self == w.self && next.bank == w.bank.(state := w.bank.state[sid := MATCHED])
            && Staked(w, next, w.bank.owner, AmountOf(w.bank, sid))
  {
    TransferFromKeeps(w.token, w.self, w.self, w.bank.owner, w.self, AmountOf(w.bank, sid));
    MatchKeeps(w, w.bank.owner, sid);
  }

  /** From any good state the owner's settlement of a matched session pays twice the amount to the payee. */
  lemma SettlePays(w: World, pedersen: Pedersen, caller: Address, sid: Felt, seed: Felt)
    requires Invariant(w) && caller == w.bank.owner && StateOf(w.bank, sid) == MATCHED
    ensures var next := Step(w, pedersen, SettleCall(caller, sid, seed));
            && StateOf(next.bank, sid) == SETTLED
            && PaidOut(w, next, Payee(pedersen, w.bank, sid, seed), 2 * AmountOf(w.bank, sid))
  {
    EscrowCovered(w.bank, sid);
    SumAtLeast(w.token.balances, w.self);
    MoveConserves(w.token, w.self, Payee(pedersen, w.bank, sid, seed), AmountOf(w.bank, sid) * 2);
  }

  lemma RunThree(w: World, pedersen: Pedersen, a: Call, b: Call, c: Call)
    ensures Run(w, pedersen, [a, b, c]) == Step(Step(Step(w, pedersen, a), pedersen, b), pedersen, c)
  {
    RunOneMore(w, pedersen, [], a);
    RunOneMore(w, pedersen, [a], b);
    RunOneMore(w, pedersen, [a, b], c);
    assert [] + [a] == [a] && [a] + [b] == [a, b] && [a, b] + [c] == [a, b, c];
  }
}
