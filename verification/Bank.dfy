/**
 The CoinFlip and CoinFlipBank contracts.  A call is a function from the world (bank storage and
 token ledger) to the next world, or None when it reverts; the class below does the same in place.
 Pedersen is a parameter: nothing is assumed about it.
 */
module Bank {
  import opened Wrappers
  import opened Felts
  import opened Token

  type Pedersen = (Felt, Felt) -> Felt

  const EMPTY: nat := 0
  const DEPOSITED: nat := 1
  const MATCHED: nat := 2
  const SETTLED: nat := 3

  datatype Storage = Storage(
    owner: Address,
    player: map<Felt, Address>,
    amount: map<Felt, nat>,
    seed: map<Felt, Felt>,
    bet: map<Felt, Felt>,
    state: map<Felt, nat>,
    playerBalance: map<Address, nat>)

  datatype World = World(self: Address, bank: Storage, token: Ledger)

  function StateOf(b: Storage, sid: Felt): nat {
    Get(b.state, sid, EMPTY)
  }

  function AmountOf(b: Storage, sid: Felt): nat {
    Get(b.amount, sid, 0)
  }

  function PlayerOf(b: Storage, sid: Felt): Address {
    Get(b.player, sid, 0)
  }

  function BetOf(b: Storage, sid: Felt): Felt {
    Get(b.bet, sid, 0)
  }

  function SeedOf(b: Storage, sid: Felt): Felt {
    Get(b.seed, sid, 0)
  }

  /** The coin: parity of the low 128-bit half of the hash. */
  function Outcome(pedersen: Pedersen, seed: Felt, player: Felt): Felt {
    if pedersen(seed, player) % TWO_128 % 2 == 0 then 0 else 1
  }

  /** The settlement receipt that `CoinFlip.play` sends to L1. */
  datatype Receipt = Receipt(player: Felt, seed: Felt, bet: Felt, outcome: Felt, won: Felt)

  function Play(pedersen: Pedersen, seed: Felt, player: Felt, bet: Felt): Receipt {
    var outcome := Outcome(pedersen, seed, player);
    Receipt(player, seed, bet, outcome, if outcome == bet then 1 else 0)
  }

  function Deposit(w: World, caller: Address, sid: Felt, amount: U256, seed: Felt, bet: Felt): Option<World> {
    if amount == 0 || StateOf(w.bank, sid) != EMPTY then None
    else match DoTransferFrom(w.token, w.self, caller, w.self, amount)
      case None => None
      case Some(token) =>
        var b := w.bank;
        Some(World(w.self,
                   b.(player := b.player[sid := caller], amount := b.amount[sid := amount], seed := b.seed[sid := seed],
                      bet := b.bet[sid := bet], state := b.state[sid := DEPOSITED]),
                   token))
  }

  function MatchDeposit(w: World, caller: Address, sid: Felt): Option<World> {
    if caller != w.bank.owner || StateOf(w.bank, sid) != DEPOSITED then None
    else match DoTransferFrom(w.token, w.self, caller, w.self, AmountOf(w.bank, sid))
      case None => None
      case Some(token) => Some(World(w.self, w.bank.(state := w.bank.state[sid := MATCHED]), token))
  }

  function Payee(pedersen: Pedersen, b: Storage, sid: Felt, seed: Felt): Address {
    if Outcome(pedersen, seed, PlayerOf(b, sid)) == BetOf(b, sid) then PlayerOf(b, sid) else b.owner
  }

  /** `amount * 2` panics when it leaves u256. */
  function Settle(w: World, pedersen: Pedersen, caller: Address, sid: Felt, seed: Felt): Option<World> {
    if caller != w.bank.owner || StateOf(w.bank, sid) != MATCHED then None
    else
      var payout := AmountOf(w.bank, sid) * 2;
      if payout >= TWO_256 then None
      else match DoTransfer(w.token, w.self, Payee(pedersen, w.bank, sid, seed), payout)
        case None => None
        case Some(token) => Some(World(w.self, w.bank.(state := w.bank.state[sid := SETTLED]), token))
  }

  function Withdraw(w: World, caller: Address): Option<World> {
    var balance := Get(w.bank.playerBalance, caller, 0);
    if balance == 0 then None
    else match DoTransfer(w.token, w.self, caller, balance)
      case None => None
      case Some(token) =>
        Some(World(w.self, w.bank.(playerBalance := w.bank.playerBalance[caller := 0]), token))
  }

  /** The contract itself: its storage maps, written call by call over the token contract. */
  class CoinFlipBank {
    const self: Address
    const strk: Erc20
    var owner: Address
    var gamePlayer: map<Felt, Address>
    var gameAmount: map<Felt, nat>
    var gameSeed: map<Felt, Felt>
    var gameBet: map<Felt, Felt>
    var gameState: map<Felt, nat>
    var playerBalance: map<Address, nat>

    function Now(): World
      reads this, strk
    {
      World(self, Storage(owner, gamePlayer, gameAmount, gameSeed, gameBet, gameState, playerBalance), strk.State())
    }

    constructor (self: Address, strk: Erc20, owner: Address)
      ensures this.self == self && this.strk == strk
      ensures Now() == World(self, Storage(owner, map[], map[], map[], map[], map[], map[]), strk.State())
    {
      this.self, this.strk, this.owner := self, strk, owner;
      gamePlayer, gameAmount, gameSeed, gameBet, gameState := map[], map[], map[], map[], map[];
      playerBalance := map[];
    }

    method DepositStake(caller: Address, sessionId: Felt, betAmount: U256, seed: Felt, bet: Felt) returns (ok: bool)
      modifies this, strk
      ensures ok <==> Deposit(old(Now()), caller, sessionId, betAmount, seed, bet).Some?
      ensures Now() == if ok then Deposit(old(Now()), caller, sessionId, betAmount, seed, bet).value else old(Now())
    {
      if betAmount == 0 || Get(gameState, sessionId, EMPTY) != EMPTY {
        return false;
      }
      ok := strk.TransferFrom(self, caller, self, betAmount);
      if !ok {
        return;
      }
      gamePlayer := gamePlayer[sessionId := caller];
      gameAmount := gameAmount[sessionId := betAmount];
      gameSeed := gameSeed[sessionId := seed];
      gameBet := gameBet[sessionId := bet];
      gameState := gameState[sessionId := DEPOSITED];
    }

    method MatchStake(caller: Address, sessionId: Felt) returns (ok: bool)
      modifies this, strk
      ensures ok <==> MatchDeposit(old(Now()), caller, sessionId).Some?
      ensures Now() == if ok then MatchDeposit(old(Now()), caller, sessionId).value else old(Now())
    {
      if caller != owner || Get(gameState, sessionId, EMPTY) != DEPOSITED {
        return false;
      }
      var amount := Get(gameAmount, sessionId, 0);
      ok := strk.TransferFrom(self, caller, self, amount);
      if ok {
        gameState := gameState[sessionId := MATCHED];
      }
    }

    method SettleGame(pedersen: Pedersen, caller: Address, sessionId: Felt, seed: Felt) returns (ok: bool)
      modifies this, strk
      ensures ok <==> Settle(old(Now()), pedersen, caller, sessionId, seed).Some?
      ensures Now() == if ok then Settle(old(Now()), pedersen, caller, sessionId, seed).value else old(Now())
    {
      if caller != owner || Get(gameState, sessionId, EMPTY) != MATCHED {
        return false;
      }
      var player := Get(gamePlayer, sessionId, 0);
      var amount := Get(gameAmount, sessionId, 0);
      var bet := Get(gameBet, sessionId, 0);
      var hash := pedersen(seed, player);
      var outcome := if hash % TWO_128 % 2 == 0 then 0 else 1;
      var payout := amount * 2;
      if payout >= TWO_256 {
        return false;
      }
      if outcome == bet {
        ok := strk.TransferTo(self, player, payout);
      } else {
        ok := strk.TransferTo(self, owner, payout);
      }
      if ok {
        gameState := gameState[sessionId := SETTLED];
      }
    }

    method WithdrawWinnings(caller: Address) returns (ok: bool)
      modifies this, strk
      ensures ok <==> Withdraw(old(Now()), caller).Some?
      ensures Now() == if ok then Withdraw(old(Now()), caller).value else old(Now())
    {
      var balance := Get(playerBalance, caller, 0);
      if balance == 0 {
        return false;
      }
      var before := playerBalance;
      playerBalance := playerBalance[caller := 0];
      ok := strk.TransferTo(self, caller, balance);
      if !ok {
        playerBalance := before;  // a revert undoes the write
      }
    }
  }

  // ----- one outcome in three places

  /** The big-endian bytes of `n`, `width` of them. */
  function ToBytesBE(n: nat, width: nat): (bytes: seq<nat>)
    ensures |bytes| == width
  {
    if width == 0 then [] else ToBytesBE(n / 256, width - 1) + [n % 256]
  }

  /** The client's reading: the low bit of the last of the 32 big-endian bytes. */
  function ClientOutcome(pedersen: Pedersen, seed: Felt, player: Felt): nat {
    ToBytesBE(pedersen(seed, player), 32)[31] % 2
  }

  const HALF_128: nat := 0x8000_0000_0000_0000_0000_0000_0000_0000

  lemma LowBit(h: nat)
    ensures h % 256 % 2 == h % 2 && h % TWO_128 % 2 == h % 2
  {
    EvenDifference(h, h % 256, 128 * (h / 256));
    EvenDifference(h, h % TWO_128, HALF_128 * (h / TWO_128));
  }

  lemma EvenDifference(h: nat, r: nat, k: nat)
    requires h == r + 2 * k
    ensures r % 2 == h % 2
  {
  }

  /**
   The client's expected outcome, the receipt of `play` and the payee of `settle` tell one story
   for every hash function, seed, player and bet.
   */
  lemma OneOutcome(pedersen: Pedersen, b: Storage, sid: Felt, seed: Felt)
    ensures var r := Play(pedersen, seed, PlayerOf(b, sid), BetOf(b, sid));
            && r.player == PlayerOf(b, sid) && r.seed == seed && r.bet == BetOf(b, sid)
            && r.outcome == ClientOutcome(pedersen, seed, PlayerOf(b, sid))
            && r.won in {0, 1}
            && (r.won == 1 <==> ClientOutcome(pedersen, seed, PlayerOf(b, sid)) == BetOf(b, sid))
            && Payee(pedersen, b, sid, seed) == if r.won == 1 then PlayerOf(b, sid) else b.owner
  {
    LowBit(pedersen(seed, PlayerOf(b, sid)));
  }
}
