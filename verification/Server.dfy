/**
 The CoinFlip server's handlers over the shared commitments map, cut at their await points, and
 the system they form with the bank.  Handlers and outside calls interleave freely.  An invoke that
 was sent is pending until it lands: the server's lock makes sending one step, but the lock is also
 given up when waiting for the transaction times out, so a sent call may land at any later time, in
 any order, or never.
 */
module Server {
  import opened Wrappers
  import opened Felts
  import opened Token
  import opened Bank
  import opened BankRuns
  import opened Sessions
  import Hex
  import Seqs

  datatype BetCommitment = BetCommitment(
    commitment: string,
    seedBlock: U64,
    player: string,
    betAmount: Option<string>,
    sessionFelt: string)

  type Commitments = map<string, BetCommitment>

  /** A proving task: the revealed bet of a consumed commitment. */
  datatype PlayTask = PlayTask(session: string, player: string, bet: Felt, nonce: Felt, seedBlock: U64)

  // ----- the handlers' effect on the map

  function Commit(m: Commitments, id: string, commitment: string, player: string): Commitments {
    m[id := BetCommitment(commitment, 0, player, None, SessionText(id))]
  }

  function NoteAmount(m: Commitments, id: string, wei: nat): Commitments {
    if id in m then m[id := m[id].(betAmount := Some(Hex.Print(wei)))] else m
  }

  function LockSeed(m: Commitments, id: string, seedBlock: U64): Commitments {
    if id in m then m[id := m[id].(seedBlock := seedBlock)] else m
  }

  function Later(a: U64, b: U64): U64 {
    if a >= b then a else b
  }

  /** The task a play request starts, if its reveal fits the commitment. */
  function Reveal(pedersen: Pedersen, m: Commitments, id: string, player: string, bet: nat, nonce: string): Option<PlayTask> {
    if id !in m || player != m[id].player then None
    else
      var b := if bet < 1 then 0 else 1;
      match Hex.ParseFelt(nonce)
      case None => None
      case Some(n) =>
        if Hex.Print(pedersen(b, n)) != m[id].commitment then None
        else Some(PlayTask(id, player, b, n, m[id].seedBlock))
  }

  class CommitmentStore {
    var commitments: Commitments

    constructor ()
      ensures commitments == map[]
    {
      commitments := map[];
    }

    method CommitBet(id: string, commitment: string, player: string)
      modifies this
      ensures commitments == Commit(old(commitments), id, commitment, player)
    {
      var sessionFelt := "0x" + WithoutDashes(id);
      commitments := commitments[id := BetCommitment(commitment, 0, player, None, sessionFelt)];
    }

    /** Answers with the session felt, the amount and the seed known so far. */
    method DepositInfo(id: string, wei: U128) returns (info: Option<(string, string, string)>)
      modifies this
      ensures info.Some? <==> id in old(commitments)
      ensures id in old(commitments) ==>
                info.value == (old(commitments)[id].sessionFelt, Hex.Print(wei), Hex.Print(old(commitments)[id].seedBlock))
      ensures commitments == NoteAmount(old(commitments), id, wei)
    {
      if id !in commitments {
        return None;
      }
      var entry := commitments[id];
      var amountLow := Hex.Print(wei);
      commitments := commitments[id := entry.(betAmount := Some(amountLow))];
      info := Some((entry.sessionFelt, amountLow, Hex.Print(entry.seedBlock)));
    }

    /** The last step of confirm-deposit: the commitment may be gone by now. */
    method LockSeedBlock(id: string, confirmedBlock: U64, deployBlock: U64)
      modifies this
      ensures commitments == LockSeed(old(commitments), id, Later(confirmedBlock, deployBlock))
    {
      var seedBlock := if confirmedBlock >= deployBlock then confirmedBlock else deployBlock;
      if id in commitments {
        var entry := commitments[id];
        commitments := commitments[id := entry.(seedBlock := seedBlock)];
      }
    }

    /** The commitment is consumed before the reveal is checked, so a wrong reveal uses it up. */
    method TakeForPlay(pedersen: Pedersen, id: string, player: string, bet: nat, nonce: string)
        returns (task: Option<PlayTask>)
      modifies this
      ensures task == Reveal(pedersen, old(commitments), id, player, bet, nonce)
      ensures commitments == old(commitments) - {id}
    {
      if id !in commitments {
        return None;
      }
      var entry := commitments[id];
      commitments := commitments - {id};
      var b: Felt := if bet < 1 then 0 else 1;
      if player != entry.player {
        return None;
      }
      var parsed := Hex.ParseFelt(nonce);
      if parsed.None? {
        return None;
      }
      var computed := pedersen(b, parsed.value);
      if Hex.Print(computed) != entry.commitment {
        return None;
      }
      task := Some(PlayTask(id, player, b, parsed.value, entry.seedBlock));
    }
  }

  // ----- server and contract together

  /** `block` is where the match was confirmed, as far as the server could tell. */
  datatype Phase = Waiting | Matched(block: U64) | Done

  /** A confirm-deposit request that has looked its session up. */
  datatype Confirm = Confirm(session: string, felt: string, phase: Phase)

  /** A proving task; `over` once it has sent its settlement. */
  datatype Game = Game(task: PlayTask, over: bool)

  /**
   `committed`, `consumed` and `calls` are history: commitments as made, ids taken by a play request,
   and the calls that have reached the chain; `pending` are the server's calls sent and not landed.
   */
  datatype System = System(
    commitments: Commitments,
    committed: Commitments,
    consumed: set<string>,
    confirms: seq<Confirm>,
    games: seq<Game>,
    pending: seq<Call>,
    calls: seq<Call>)

  datatype Event =
    | CommitRequest(id: string, commitment: string, player: string)
    | DepositInfoRequest(id: string, wei: U128)
    | ConfirmRequest(id: string)
    | InvokeMatch(i: nat, submitted: bool, answer: Option<U64>)
    | FinishConfirm(i: nat, deployBlock: U64)
    | PlayRequest(id: string, player: string, bet: nat, nonce: string)
    | InvokeSettle(i: nat, submitted: bool)
    | Land(k: nat)
    | Elsewhere(call: Call)

  /** The deployed bank and the hash function. */
  datatype Env = Env(world: World, pedersen: Pedersen)

  ghost predicate Deployed(env: Env) {
    Fresh(env.world) && env.world.bank.owner != env.world.self
  }

  /** Calls that do not go through the server: the owner's key settles and matches only there. */
  predicate NotServer(env: Env, c: Call) {
    c.caller != env.world.self && (c.MatchCall? || c.SettleCall? ==> c.caller != env.world.bank.owner)
  }

  function Send(s: System, submitted: bool, c: Call): System {
    if submitted then s.(pending := s.pending + [c]) else s
  }

  function Landed(s: System, c: Call): System {
    s.(calls := s.calls + [c])
  }

  /** One step; an event that is not possible changes nothing. */
  function Apply(env: Env, s: System, e: Event): System {
    match e
    case CommitRequest(id, commitment, player) =>
      if !IsUuid(id) || id in s.committed then s  // version-4 UUIDs do not repeat
      else
        s.(commitments := Commit(s.commitments, id, commitment, player),
           committed := Commit(s.committed, id, commitment, player))
    case DepositInfoRequest(id, wei) => s.(commitments := NoteAmount(s.commitments, id, wei))
    case ConfirmRequest(id) =>
      if id !in s.commitments then s
      else s.(confirms := s.confirms + [Confirm(id, s.commitments[id].sessionFelt, Waiting)])
    case InvokeMatch(i, submitted, answer) =>
      if i >= |s.confirms| || s.confirms[i].phase != Waiting then s
      else
        var c := s.confirms[i];
        var felt := Hex.ParseFelt(c.felt);
        var phase := if answer.Some? then Matched(answer.value) else Done;
        var next := s.(confirms := s.confirms[i := c.(phase := phase)]);
        if felt.None? then next else Send(next, submitted, MatchCall(env.world.bank.owner, felt.value))
    case FinishConfirm(i, deployBlock) =>
      if i >= |s.confirms| || !s.confirms[i].phase.Matched? then s
      else
        var c := s.confirms[i];
        s.(commitments := LockSeed(s.commitments, c.session, Later(c.phase.block, deployBlock)),
           confirms := s.confirms[i := c.(phase := Done)])
    case PlayRequest(id, player, bet, nonce) =>
      if id !in s.commitments then s
      else
        var task := Reveal(env.pedersen, s.commitments, id, player, bet, nonce);
        s.(commitments := s.commitments - {id},
           consumed := s.consumed + {id},
           games := if task.Some? then s.games + [Game(task.value, false)] else s.games)
    case InvokeSettle(i, submitted) =>
      if i >= |s.games| || s.games[i].over then s
      else
        var g := s.games[i];
        var felt := SessionFelt(g.task.session);
        if felt.None? || Hex.ParseFelt(g.task.player).None? then s
        else
          Send(s.(games := s.games[i := g.(over := true)]), submitted,
               SettleCall(env.world.bank.owner, felt.value, g.task.seedBlock))
    case Land(k) =>
      if k >= |s.pending| then s
      else Landed(s.(pending := s.pending[..k] + s.pending[k + 1..]), s.pending[k])
    case Elsewhere(c) => if NotServer(env, c) then Landed(s, c) else s
  }

  const START: System := System(map[], map[], {}, [], [], [], [])

  function Exec(env: Env, events: seq<Event>): System {
    if events == [] then START
    else Apply(env, Exec(env, events[..|events| - 1]), events[|events| - 1])
  }

  // ----- the invariant

  predicate Unchanged(c: BetCommitment, d: BetCommitment) {
    c.commitment == d.commitment && c.player == d.player && c.sessionFelt == d.sessionFelt
  }

  predicate CommittedOk(s: System, id: string) {
    && (id in s.committed ==> IsUuid(id) && s.committed[id].sessionFelt == SessionText(id))
    && (id in s.committed <==> id in s.commitments || id in s.consumed)
    && (id in s.commitments ==> id !in s.consumed && Unchanged(s.commitments[id], s.committed[id]))
  }

  predicate ConfirmOk(s: System, c: Confirm) {
    c.session in s.committed && c.felt == SessionText(c.session)
  }

  predicate TaskOk(env: Env, s: System, t: PlayTask) {
    && t.session in s.committed && t.session in s.consumed
    && t.bet in {0, 1}
    && t.player == s.committed[t.session].player
    && Hex.Print(env.pedersen(t.bet, t.nonce)) == s.committed[t.session].commitment
  }

  predicate OwnMatch(s: System, sid: Felt) {
    exists id :: id in s.committed && SessionFelt(id) == Some(sid)
  }

  predicate OwnSettle(s: System, sid: Felt, seed: Felt) {
    exists i :: 0 <= i < |s.games| && s.games[i].over
                && SessionFelt(s.games[i].task.session) == Some(sid) && s.games[i].task.seedBlock == seed
  }

  predicate CallOk(env: Env, s: System, c: Call) {
    && c.caller != env.world.self
    && (c.MatchCall? && c.caller == env.world.bank.owner ==> OwnMatch(s, c.sid))
    && (c.SettleCall? && c.caller == env.world.bank.owner ==> OwnSettle(s, c.sid, c.seed))
  }

  ghost predicate Invariant(env: Env, s: System) {
    && (forall id :: CommittedOk(s, id))
    && (forall c :: c in s.confirms ==> ConfirmOk(s, c))
    && (forall g :: g in s.games ==> TaskOk(env, s, g.task))
    && (forall i, j :: 0 <= i < j < |s.games| ==> s.games[i].task.session != s.games[j].task.session)
    && (forall c :: c in s.pending ==> CallOk(env, s, c))
    && (forall c :: c in s.calls ==> CallOk(env, s, c))
  }

  /** History only grows, which is why earlier calls and tasks stay accounted for. */
  ghost predicate Grown(s: System, t: System) {
    && (forall id :: id in s.committed ==> id in t.committed && t.committed[id] == s.committed[id])
    && s.consumed <= t.consumed
    && |s.games| <= |t.games|
    && forall i :: 0 <= i < |s.games| ==> t.games[i].task == s.games[i].task && (s.games[i].over ==> t.games[i].over)
  }

  lemma CallStaysOk(env: Env, s: System, t: System, c: Call)
    requires Grown(s, t) && CallOk(env, s, c)
    ensures CallOk(env, t, c)
  {
    if c.MatchCall? && c.caller == env.world.bank.owner {
      var id :| id in s.committed && SessionFelt(id) == Some(c.sid);
      assert id in t.committed;
    }
    if c.SettleCall? && c.caller == env.world.bank.owner {
      var i :| 0 <= i < |s.games| && s.games[i].over
               && SessionFelt(s.games[i].task.session) == Some(c.sid) && s.games[i].task.seedBlock == c.seed;
      assert t.games[i].over && t.games[i].task == s.games[i].task;
    }
  }

  /** Growth alone keeps everything that was said about earlier requests, tasks and calls. */
  lemma HistoryKeeps(env: Env, s: System, t: System)
    requires Invariant(env, s) && Grown(s, t)
    ensures forall c :: c in s.confirms ==> ConfirmOk(t, c)
    ensures forall g :: g in s.games ==> TaskOk(env, t, g.task)
    ensures forall c :: c in s.pending || c in s.calls ==> CallOk(env, t, c)
  {
    forall c | c in s.confirms
      ensures ConfirmOk(t, c)
    {
      assert ConfirmOk(s, c);
    }
    forall g | g in s.games
      ensures TaskOk(env, t, g.task)
    {
      assert TaskOk(env, s, g.task);
    }
    forall c | c in s.pending || c in s.calls
      ensures CallOk(env, t, c)
    {
      CallStaysOk(env, s, t, c);
    }
  }

  /** The commitments side of the invariant survives any change to the open entries' seeds and amounts. */
  lemma CommittedKeeps(env: Env, s: System, t: System)
    requires Invariant(env, s)
    requires t.committed == s.committed && t.consumed == s.consumed && t.commitments.Keys == s.commitments.Keys
    requires forall id :: id in s.commitments ==> Unchanged(t.commitments[id], s.commitments[id])
    ensures forall id :: CommittedOk(t, id)
  {
    forall id
      ensures CommittedOk(t, id)
    {
      assert CommittedOk(s, id);
    }
  }

  lemma CommitKeeps(env: Env, s: System, id: string, commitment: string, player: string)
    requires Invariant(env, s)
    ensures Invariant(env, Apply(env, s, CommitRequest(id, commitment, player)))
  {
    var t := Apply(env, s, CommitRequest(id, commitment, player));
    if t != s {
      HistoryKeeps(env, s, t);
      assert CommittedOk(s, id);
      forall x
        ensures CommittedOk(t, x)
      {
        assert CommittedOk(s, x);
      }
    }
  }

  lemma AmountKeeps(env: Env, s: System, id: string, wei: U128)
    requires Invariant(env, s)
    ensures Invariant(env, Apply(env, s, DepositInfoRequest(id, wei)))
  {
    var t := Apply(env, s, DepositInfoRequest(id, wei));
    HistoryKeeps(env, s, t);
    CommittedKeeps(env, s, t);
  }

  lemma ConfirmKeeps(env: Env, s: System, id: string)
    requires Invariant(env, s)
    ensures Invariant(env, Apply(env, s, ConfirmRequest(id)))
  {
    var t := Apply(env, s, ConfirmRequest(id));
    HistoryKeeps(env, s, t);
    CommittedKeeps(env, s, t);
    assert CommittedOk(s, id);
    assert forall c :: c in t.confirms ==> c in s.confirms || ConfirmOk(t, c);
  }

  lemma PhaseChange(env: Env, s: System, i: nat, phase: Phase)
    requires Invariant(env, s) && i < |s.confirms|
    ensures Invariant(env, s.(confirms := s.confirms[i := s.confirms[i].(phase := phase)]))
  {
    var changed := s.confirms[i].(phase := phase);
    var t := s.(confirms := s.confirms[i := changed]);
    HistoryKeeps(env, s, t);
    CommittedKeeps(env, s, t);
    assert ConfirmOk(s, s.confirms[i]);
    assert forall c :: c in t.confirms ==> c in s.confirms || c == changed;
  }

  lemma SendKeeps(env: Env, s: System, submitted: bool, c: Call)
    requires Invariant(env, s) && CallOk(env, s, c)
    ensures Invariant(env, Send(s, submitted, c))
  {
    var t := Send(s, submitted, c);
    HistoryKeeps(env, s, t);
    CommittedKeeps(env, s, t);
    CallStaysOk(env, s, t, c);
    assert forall x :: x in t.pending ==> x in s.pending || x == c;
  }

  lemma LandedKeeps(env: Env, s: System, c: Call)
    requires Invariant(env, s) && CallOk(env, s, c)
    ensures Invariant(env, Landed(s, c))
  {
    var t := Landed(s, c);
    HistoryKeeps(env, s, t);
    CommittedKeeps(env, s, t);
    CallStaysOk(env, s, t, c);
    assert forall x :: x in t.calls ==> x in s.calls || x == c;
  }

  lemma LandKeeps(env: Env, s: System, k: nat)
    requires Invariant(env, s)
    ensures Invariant(env, Apply(env, s, Land(k)))
  {
    if k < |s.pending| {
      var t := s.(pending := s.pending[..k] + s.pending[k + 1..]);
      HistoryKeeps(env, s, t);
      CommittedKeeps(env, s, t);
      assert forall x :: x in t.pending ==> x in s.pending;
      assert s.pending[k] in s.pending;
      LandedKeeps(env, t, s.pending[k]);
    }
  }

  lemma MatchStepKeeps(env: Env, s: System, i: nat, submitted: bool, answer: Option<U64>)
    requires Deployed(env) && Invariant(env, s)
    ensures Invariant(env, Apply(env, s, InvokeMatch(i, submitted, answer)))
  {
    if i < |s.confirms| && s.confirms[i].phase == Waiting {
      var c := s.confirms[i];
      var next := s.(confirms := s.confirms[i := c.(phase := if answer.Some? then Matched(answer.value) else Done)]);
      PhaseChange(env, s, i, if answer.Some? then Matched(answer.value) else Done);
      assert c in s.confirms && ConfirmOk(s, c);
      var felt := Hex.ParseFelt(c.felt);
      if felt.Some? {
        assert SessionFelt(c.session) == felt;
        assert OwnMatch(next, felt.value);
        SendKeeps(env, next, submitted, MatchCall(env.world.bank.owner, felt.value));
      }
    }
  }

  lemma FinishKeeps(env: Env, s: System, i: nat, deployBlock: U64)
    requires Invariant(env, s)
    ensures Invariant(env, Apply(env, s, FinishConfirm(i, deployBlock)))
  {
    if i < |s.confirms| && s.confirms[i].phase.Matched? {
      var c := s.confirms[i];
      var locked := s.(commitments := LockSeed(s.commitments, c.session, Later(c.phase.block, deployBlock)));
      HistoryKeeps(env, s, locked);
      CommittedKeeps(env, s, locked);
      PhaseChange(env, locked, i, Done);
    }
  }

  lemma RevealKeeps(env: Env, s: System, t: System, id: string)
    requires Invariant(env, s) && id in s.commitments
    requires t.committed == s.committed && t.commitments == s.commitments - {id} && t.consumed == s.consumed + {id}
    ensures forall x :: CommittedOk(t, x)
  {
    assert CommittedOk(s, id);
    forall x
      ensures CommittedOk(t, x)
    {
      assert CommittedOk(s, x);
    }
  }

  lemma NotPlayedYet(env: Env, s: System, id: string)
    requires Invariant(env, s) && id in s.commitments
    ensures forall g :: g in s.games ==> g.task.session != id
    ensures id in s.committed && Unchanged(s.commitments[id], s.committed[id])
  {
    assert CommittedOk(s, id);
    forall g | g in s.games
      ensures g.task.session != id
    {
      assert TaskOk(env, s, g.task);
    }
  }

  lemma PlayKeeps(env: Env, s: System, id: string, player: string, bet: nat, nonce: string)
    requires Invariant(env, s)
    ensures Invariant(env, Apply(env, s, PlayRequest(id, player, bet, nonce)))
  {
    if id in s.commitments {
      var t := Apply(env, s, PlayRequest(id, player, bet, nonce));
      HistoryKeeps(env, s, t);
      RevealKeeps(env, s, t, id);
      NotPlayedYet(env, s, id);
      assert forall g :: g in t.games ==> g in s.games || TaskOk(env, t, g.task);
      assert forall i :: 0 <= i < |s.games| ==> s.games[i] in s.games && t.games[i] == s.games[i];
    }
  }

  lemma GameOver(env: Env, s: System, i: nat)
    requires Invariant(env, s) && i < |s.games|
    ensures Invariant(env, s.(games := s.games[i := s.games[i].(over := true)]))
  {
    var t := s.(games := s.games[i := s.games[i].(over := true)]);
    HistoryKeeps(env, s, t);
    CommittedKeeps(env, s, t);
    assert s.games[i] in s.games;
    assert forall g :: g in t.games ==> g in s.games || g == t.games[i];
  }

  lemma SettleStepKeeps(env: Env, s: System, i: nat, submitted: bool)
    requires Deployed(env) && Invariant(env, s)
    ensures Invariant(env, Apply(env, s, InvokeSettle(i, submitted)))
  {
    if i < |s.games| && !s.games[i].over {
      var g := s.games[i];
      var next := s.(games := s.games[i := g.(over := true)]);
      GameOver(env, s, i);
      var felt := SessionFelt(g.task.session);
      if felt.Some? && Hex.ParseFelt(g.task.player).Some? {
        assert next.games[i].over && next.games[i].task == g.task;
        assert OwnSettle(next, felt.value, g.task.seedBlock);
        SendKeeps(env, next, submitted, SettleCall(env.world.bank.owner, felt.value, g.task.seedBlock));
      }
    }
  }

  lemma ApplyKeeps(env: Env, s: System, e: Event)
    requires Deployed(env) && Invariant(env, s)
    ensures Invariant(env, Apply(env, s, e))
  {
    match e
    case CommitRequest(id, commitment, player) => CommitKeeps(env, s, id, commitment, player);
    case DepositInfoRequest(id, wei) => AmountKeeps(env, s, id, wei);
    case ConfirmRequest(id) => ConfirmKeeps(env, s, id);
    case InvokeMatch(i, submitted, answer) => MatchStepKeeps(env, s, i, submitted, answer);
    case FinishConfirm(i, deployBlock) => FinishKeeps(env, s, i, deployBlock);
    case PlayRequest(id, player, bet, nonce) => PlayKeeps(env, s, id, player, bet, nonce);
    case InvokeSettle(i, submitted) => SettleStepKeeps(env, s, i, submitted);
    case Land(k) => LandKeeps(env, s, k);
    case Elsewhere(c) =>
      if NotServer(env, c) {
        LandedKeeps(env, s, c);
      }
  }

  lemma {:induction false} ExecKeeps(env: Env, events: seq<Event>)
    requires Deployed(env)
    ensures Invariant(env, Exec(env, events))
  {
    if events != [] {
      ExecKeeps(env, events[..|events| - 1]);
      ApplyKeeps(env, Exec(env, events[..|events| - 1]), events[|events| - 1]);
    }
  }

  // ----- what the events alone say of a session

  /** Commitment and player of the first commit request with the id. */
  function CommitOf(events: seq<Event>, id: string): Option<(string, string)> {
    if events == [] then None
    else
      var front, e := events[..|events| - 1], events[|events| - 1];
      if CommitOf(front, id).Some? then CommitOf(front, id)
      else if e.CommitRequest? && e.id == id && IsUuid(id) then Some((e.commitment, e.player))
      else None
  }

  /** Committed, and no play request since. */
  predicate OpenAfter(events: seq<Event>, id: string) {
    events != []
    && var front, e := events[..|events| - 1], events[|events| - 1];
       if CommitOf(front, id).None? then CommitOf(events, id).Some?
       else OpenAfter(front, id) && !(e.PlayRequest? && e.id == id)
  }

  /** The sessions of the confirm requests that found their session open, in order. */
  function Requested(events: seq<Event>): seq<string> {
    if events == [] then []
    else
      var front, e := events[..|events| - 1], events[|events| - 1];
      Requested(front) + if e.ConfirmRequest? && OpenAfter(front, e.id) then [e.id] else []
  }

  /** What the match of confirm request `i` answered: None while it has not, Some(None) for a failure. */
  function AnswerTo(events: seq<Event>, i: nat): Option<Option<U64>> {
    if events == [] then None
    else
      var front, e := events[..|events| - 1], events[|events| - 1];
      if AnswerTo(front, i).Some? then AnswerTo(front, i)
      else if e.InvokeMatch? && e.i == i && i < |Requested(front)| then Some(e.answer)
      else None
  }

  /** The last event is the first to finish a confirm request that is matched. */
  predicate FinishesNow(events: seq<Event>)
    decreases |events|, 0
  {
    events != []
    && var front, e := events[..|events| - 1], events[|events| - 1];
       e.FinishConfirm? && AnswerTo(front, e.i).Some? && AnswerTo(front, e.i).value.Some? && !FinishedBy(front, e.i)
  }

  predicate FinishedBy(events: seq<Event>, i: nat)
    decreases |events|, 1
  {
    events != [] && (FinishedBy(events[..|events| - 1], i) || (FinishesNow(events) && events[|events| - 1].i == i))
  }

  /** The later of match and deployment block of the last confirm finished for the session, or 0. */
  function SeedAfter(events: seq<Event>, id: string): U64 {
    if events == [] then 0
    else
      var front, e := events[..|events| - 1], events[|events| - 1];
      if FinishesNow(events) && e.i < |Requested(front)| && Requested(front)[e.i] == id
      then Later(AnswerTo(front, e.i).value.value, e.deployBlock)
      else SeedAfter(front, id)
  }

  /** The amount of the last deposit-info request that found the session open. */
  function AmountAfter(events: seq<Event>, id: string): Option<string> {
    if events == [] then None
    else
      var front, e := events[..|events| - 1], events[|events| - 1];
      if e.DepositInfoRequest? && e.id == id && OpenAfter(front, id) then Some(Hex.Print(e.wei))
      else AmountAfter(front, id)
  }

  function PhaseAfter(events: seq<Event>, i: nat): Phase {
    match AnswerTo(events, i)
    case None => Waiting
    case Some(None) => Done
    case Some(Some(block)) => if FinishedBy(events, i) then Done else Matched(block)
  }

  /** The entry of an open session, read off the events. */
  function EntryAfter(events: seq<Event>, id: string): BetCommitment
    requires CommitOf(events, id).Some?
  {
    BetCommitment(CommitOf(events, id).value.0, SeedAfter(events, id), CommitOf(events, id).value.1,
                  AmountAfter(events, id), SessionText(id))
  }

  ghost predicate SessionTracked(s: System, events: seq<Event>, id: string) {
    && (id in s.committed <==> CommitOf(events, id).Some?)
    && (id in s.commitments <==> OpenAfter(events, id))
    && (OpenAfter(events, id) ==> CommitOf(events, id).Some? && s.commitments[id] == EntryAfter(events, id))
    && (CommitOf(events, id).None? ==> SeedAfter(events, id) == 0 && AmountAfter(events, id) == None && id !in Requested(events))
  }

  ghost predicate ConfirmTracked(s: System, events: seq<Event>, i: nat) {
    && (i < |Requested(events)| ==>
          i < |s.confirms|
          && s.confirms[i] == Confirm(Requested(events)[i], SessionText(Requested(events)[i]), PhaseAfter(events, i)))
    && (i >= |Requested(events)| ==> AnswerTo(events, i).None?)
    && (AnswerTo(events, i).None? ==> !FinishedBy(events, i))
  }

  ghost predicate Tracked(s: System, events: seq<Event>) {
    && |s.confirms| == |Requested(events)|
    && (forall id :: SessionTracked(s, events, id))
    && forall i: nat :: ConfirmTracked(s, events, i)
  }

  lemma {:induction false} ExecTracked(env: Env, events: seq<Event>)
    ensures Tracked(Exec(env, events), events)
  {
    if events != [] {
      ExecTracked(env, events[..|events| - 1]);
      StepTracked(env, Exec(env, events[..|events| - 1]), events);
    }
  }

  lemma StepTracked(env: Env, s: System, events: seq<Event>)
    requires events != [] && Tracked(s, events[..|events| - 1])
    ensures Tracked(Apply(env, s, events[|events| - 1]), events)
  {
    var front, e := events[..|events| - 1], events[|events| - 1];
    var t := Apply(env, s, e);
    forall id
      ensures SessionTracked(t, events, id)
    {
      SessionStep(env, s, events, id);
    }
    RequestStep(env, s, events);
    forall i: nat
      ensures ConfirmTracked(t, events, i)
    {
      ConfirmStep(env, s, events, i);
    }
  }

  lemma RequestStep(env: Env, s: System, events: seq<Event>)
    requires events != [] && Tracked(s, events[..|events| - 1])
    ensures |Apply(env, s, events[|events| - 1]).confirms| == |Requested(events)|
  {
    var front, e := events[..|events| - 1], events[|events| - 1];
    if e.ConfirmRequest? {
      assert SessionTracked(s, front, e.id);
    }
  }

  lemma SessionStep(env: Env, s: System, events: seq<Event>, id: string)
    requires events != [] && Tracked(s, events[..|events| - 1])
    ensures SessionTracked(Apply(env, s, events[|events| - 1]), events, id)
  {
    var front, e := events[..|events| - 1], events[|events| - 1];
    assert SessionTracked(s, front, id);
    if e.FinishConfirm? {
      assert ConfirmTracked(s, front, e.i);
      FinishStep(env, s, events, id);
    } else {
      OtherStep(env, s, events, id);
    }
  }

  lemma FinishStep(env: Env, s: System, events: seq<Event>, id: string)
    requires events != [] && events[|events| - 1].FinishConfirm?
    requires SessionTracked(s, events[..|events| - 1], id) && |s.confirms| == |Requested(events[..|events| - 1])|
    requires ConfirmTracked(s, events[..|events| - 1], events[|events| - 1].i)
    ensures SessionTracked(Apply(env, s, events[|events| - 1]), events, id)
  {
  }

  lemma OtherStep(env: Env, s: System, events: seq<Event>, id: string)
    requires events != [] && !events[|events| - 1].FinishConfirm?
    requires SessionTracked(s, events[..|events| - 1], id)
    ensures SessionTracked(Apply(env, s, events[|events| - 1]), events, id)
  {
  }

  lemma ConfirmStep(env: Env, s: System, events: seq<Event>, i: nat)
    requires events != [] && Tracked(s, events[..|events| - 1])
    requires |Apply(env, s, events[|events| - 1]).confirms| == |Requested(events)|
    ensures ConfirmTracked(Apply(env, s, events[|events| - 1]), events, i)
  {
    var front, e := events[..|events| - 1], events[|events| - 1];
    assert ConfirmTracked(s, front, i);
    if e.ConfirmRequest? {
      assert SessionTracked(s, front, e.id);
      NewConfirm(env, s, events, i);
    } else {
      OldConfirm(env, s, events, i);
    }
  }

  lemma OldConfirm(env: Env, s: System, events: seq<Event>, i: nat)
    requires events != [] && !events[|events| - 1].ConfirmRequest? && |s.confirms| == |Requested(events[..|events| - 1])|
    requires ConfirmTracked(s, events[..|events| - 1], i)
    ensures ConfirmTracked(Apply(env, s, events[|events| - 1]), events, i)
  {
    var front, e := events[..|events| - 1], events[|events| - 1];
    assert Requested(events) == Requested(front);
    if e.InvokeMatch? {
      AnsweredConfirm(env, s, events, i);
    } else if e.FinishConfirm? {
      assert AnswerTo(events, i) == AnswerTo(front, i);
      assert FinishedBy(events, i) == (FinishedBy(front, i) || (FinishesNow(events) && e.i == i));
    } else {
      assert AnswerTo(events, i) == AnswerTo(front, i);
      assert FinishedBy(events, i) == FinishedBy(front, i);
    }
  }

  lemma AnsweredConfirm(env: Env, s: System, events: seq<Event>, i: nat)
    requires events != [] && events[|events| - 1].InvokeMatch? && |s.confirms| == |Requested(events[..|events| - 1])|
    requires ConfirmTracked(s, events[..|events| - 1], i)
    ensures ConfirmTracked(Apply(env, s, events[|events| - 1]), events, i)
  {
    var front, e := events[..|events| - 1], events[|events| - 1];
    assert Requested(events) == Requested(front);
    assert FinishedBy(events, i) == FinishedBy(front, i);
    assert e.i != i ==> AnswerTo(events, i) == AnswerTo(front, i);
  }

  lemma NewConfirm(env: Env, s: System, events: seq<Event>, i: nat)
    requires events != [] && events[|events| - 1].ConfirmRequest? && |s.confirms| == |Requested(events[..|events| - 1])|
    requires SessionTracked(s, events[..|events| - 1], events[|events| - 1].id)
    requires ConfirmTracked(s, events[..|events| - 1], i)
    ensures ConfirmTracked(Apply(env, s, events[|events| - 1]), events, i)
  {
    var front, e := events[..|events| - 1], events[|events| - 1];
    assert AnswerTo(events, i) == AnswerTo(front, i);
    assert !FinishesNow(events);
    assert FinishedBy(events, i) == FinishedBy(front, i);
    if OpenAfter(front, e.id) {
      assert Requested(events) == Requested(front) + [e.id];
    } else {
      assert Requested(events) == Requested(front);
    }
  }

  /** A session stays open, with what was committed, until a play request for it. */
  lemma {:induction false} OpenUntilPlayed(before: seq<Event>, id: string, commitment: string, player: string, after: seq<Event>)
    requires IsUuid(id) && forall e :: e in before ==> !(e.CommitRequest? && e.id == id)
    requires forall e :: e in after ==> !(e.PlayRequest? && e.id == id)
    ensures var events := before + [CommitRequest(id, commitment, player)] + after;
            CommitOf(events, id) == Some((commitment, player)) && OpenAfter(events, id)
  {
    var events := before + [CommitRequest(id, commitment, player)] + after;
    var front := events[..|events| - 1];
    if after == [] {
      assert front == before;
      NotCommitted(before, id);
    } else {
      var k := |after| - 1;
      assert front == before + [CommitRequest(id, commitment, player)] + after[..k] && events[|events| - 1] == after[k];
      assert forall e :: e in after[..k] ==> e in after;
      OpenUntilPlayed(before, id, commitment, player, after[..k]);
      assert after[k] in after;
    }
  }

  lemma {:induction false} NotCommitted(events: seq<Event>, id: string)
    requires forall e :: e in events ==> !(e.CommitRequest? && e.id == id)
    ensures CommitOf(events, id).None?
  {
    if events != [] {
      var k := |events| - 1;
      assert forall e :: e in events[..k] ==> e in events;
      NotCommitted(events[..k], id);
      assert events[k] in events;
    }
  }

  /** The bet, capped at 1, and the nonce give the committed hash. */
  predicate RevealFits(pedersen: Pedersen, commitment: string, bet: nat, nonce: string) {
    && Hex.ParseFelt(nonce).Some?
    && commitment == Hex.Print(pedersen(if bet == 0 then 0 else 1, Hex.ParseFelt(nonce).value))
  }

  /**
   Over every interleaving, the first play request for a committed session starts a task exactly when
   the player is the committed one and the reveal gives the committed hash.  The task is for that
   session, player, bet and nonce, with the seed of the last confirm finished for the session, or 0.
   Right or wrong, the reveal uses the session up.
   */
  lemma RevealStartsTask(env: Env, before: seq<Event>, id: string, commitment: string, player: string, after: seq<Event>,
                         caller: string, bet: nat, nonce: string)
    requires IsUuid(id) && forall e :: e in before ==> !(e.CommitRequest? && e.id == id)
    requires forall e :: e in after ==> !(e.PlayRequest? && e.id == id)
    ensures var events := before + [CommitRequest(id, commitment, player)] + after;
            var s, t := Exec(env, events), Exec(env, events + [PlayRequest(id, caller, bet, nonce)]);
            && id in s.commitments && t.commitments == s.commitments - {id} && t.confirms == s.confirms
            && t.pending == s.pending && t.calls == s.calls
            && t.games == s.games +
                 if caller == player && RevealFits(env.pedersen, commitment, bet, nonce)
                 then [Game(PlayTask(id, player, if bet == 0 then 0 else 1, Hex.ParseFelt(nonce).value, SeedAfter(events, id)),
                            false)]
                 else []
  {
    var events := before + [CommitRequest(id, commitment, player)] + after;
    var more := events + [PlayRequest(id, caller, bet, nonce)];
    assert more[..|more| - 1] == events;
    OpenUntilPlayed(before, id, commitment, player, after);
    ExecTracked(env, events);
    assert SessionTracked(Exec(env, events), events, id);
  }

  // ----- results over every interleaving

  /**
   Commit-reveal safety: a session is open, or was taken by a play request and never reappears;
   while open its commitment, player and felt are as committed; each session starts at most one
   proving task, and every task reveals what was committed.
   */
  lemma CommitRevealSafety(env: Env, events: seq<Event>)
    requires Deployed(env)
    ensures var s := Exec(env, events);
            && s.commitments.Keys + s.consumed == s.committed.Keys
            && s.commitments.Keys !! s.consumed
            && (forall id :: id in s.commitments ==> Unchanged(s.commitments[id], s.committed[id]))
            && (forall g :: g in s.games ==> TaskOk(env, s, g.task))
            && forall i, j :: 0 <= i < j < |s.games| ==> s.games[i].task.session != s.games[j].task.session
  {
    ExecKeeps(env, events);
    var s := Exec(env, events);
    forall id
      ensures id in s.committed <==> id in s.commitments || id in s.consumed
      ensures id in s.commitments ==> id !in s.consumed && Unchanged(s.commitments[id], s.committed[id])
    {
      assert CommittedOk(s, id);
    }
  }

  lemma ApplyGrows(env: Env, s: System, e: Event)
    requires Invariant(env, s)
    ensures Grown(s, Apply(env, s, e))
  {
  }

  /** History is never undone: a consumed session stays consumed, so its commitment never reappears. */
  lemma {:induction false} ConsumedForGood(env: Env, events: seq<Event>, more: seq<Event>)
    requires Deployed(env)
    ensures Grown(Exec(env, events), Exec(env, events + more))
    ensures forall id :: id in Exec(env, events).consumed ==> id !in Exec(env, events + more).commitments
  {
    var all := events + more;
    if more == [] {
      assert all == events;
    } else {
      var k := |more| - 1;
      ConsumedForGood(env, events, more[..k]);
      assert all[..|all| - 1] == events + more[..k];
      ExecKeeps(env, events + more[..k]);
      ApplyGrows(env, Exec(env, events + more[..k]), all[|all| - 1]);
    }
    ExecKeeps(env, all);
    forall id | id in Exec(env, events).consumed
      ensures id !in Exec(env, all).commitments
    {
      assert CommittedOk(Exec(env, all), id);
    }
  }

  lemma CallsOutside(env: Env, s: System)
    requires Invariant(env, s)
    ensures Outside(env.world, s.calls)
  {
    forall i | 0 <= i < |s.calls|
      ensures s.calls[i].caller != env.world.self
    {
      assert CallOk(env, s, s.calls[i]);
    }
  }

  /** The bank after everything the system has sent to it. */
  function BankNow(env: Env, s: System): World {
    Run(env.world, env.pedersen, s.calls)
  }

  /** The receipt of `play` that the task proves, where its player is a field element. */
  function ReceiptOf(env: Env, t: PlayTask): Option<Receipt> {
    match Hex.ParseFelt(t.player)
    case Some(player) => Some(Play(env.pedersen, t.seedBlock, player, t.bet))
    case None => None
  }

  /**
   The session was settled with the task's seed, and its money trail is stake, equal stake and one
   payout of twice the amount to the payee that this seed picks.
   */
  ghost predicate SettledByTask(env: Env, s: System, t: PlayTask, sid: Felt) {
    var w := BankNow(env, s);
    var amount := AmountOf(w.bank, sid);
    && SettledWith(env.world, env.pedersen, s.calls, sid) == Some(t.seedBlock)
    && SessionEvents(env.world, env.pedersen, s.calls, sid)
         == [Transfer(PlayerOf(w.bank, sid), w.self, amount), Transfer(w.bank.owner, w.self, amount),
             Transfer(w.self, Payee(env.pedersen, w.bank, sid, t.seedBlock), 2 * amount)]
  }

  /**
   For a depositor who is the committed player with the revealed bet, the payee of the settlement is
   the player exactly when the task's own receipt says `won` = 1, and the owner otherwise.
   */
  lemma PayeeByReceipt(env: Env, b: Storage, t: PlayTask, sid: Felt)
    requires ReceiptOf(env, t).Some?
    requires ReceiptOf(env, t).value.player == PlayerOf(b, sid) && ReceiptOf(env, t).value.bet == BetOf(b, sid)
    ensures Payee(env.pedersen, b, sid, t.seedBlock)
         == if ReceiptOf(env, t).value.won == 1 then ReceiptOf(env, t).value.player else b.owner
  {
    OneOutcome(env.pedersen, b, sid, t.seedBlock);
  }

  /** A felt the owner has matched is the felt of exactly one committed session. */
  lemma MatchedIsCommitted(env: Env, events: seq<Event>, sid: Felt)
    requires Deployed(env)
    ensures var s := Exec(env, events);
            StateOf(BankNow(env, s).bank, sid) >= MATCHED ==>
              exists id :: id in s.committed && SessionFelt(id) == Some(sid)
    ensures var s := Exec(env, events);
            forall id, other ::
              id in s.committed && other in s.committed && SessionFelt(id) == SessionFelt(other) ==> id == other
  {
    ExecKeeps(env, events);
    var s := Exec(env, events);
    MatchedByOwner(env.world, env.pedersen, s.calls, sid);
    if StateOf(BankNow(env, s).bank, sid) >= MATCHED {
      assert CallOk(env, s, MatchCall(env.world.bank.owner, sid));
    }
    forall id, other | id in s.committed && other in s.committed && SessionFelt(id) == SessionFelt(other)
      ensures id == other
    {
      assert CommittedOk(s, id) && CommittedOk(s, other);
      SessionFeltInjective(id, other);
    }
  }

  /** Task `i` is one of the session with the felt, and has sent its settlement. */
  predicate TaskOfFelt(s: System, i: int, sid: Felt) {
    0 <= i < |s.games| && s.games[i].over && SessionFelt(s.games[i].task.session) == Some(sid)
  }

  /**
   Server and contract together, over every interleaving of the handlers, of landing calls and of
   outside calls: a settled session was settled by exactly one proving task, the one of the session
   with that felt, with that task's seed; the owner funded it once and it was paid out once, to the
   payee this seed picks.
   */
  lemma SettledByOneTask(env: Env, events: seq<Event>, sid: Felt)
    requires Deployed(env)
    ensures var s := Exec(env, events);
            StateOf(BankNow(env, s).bank, sid) == SETTLED ==>
              exists i :: TaskOfFelt(s, i, sid) && SettledByTask(env, s, s.games[i].task, sid)
    ensures var s := Exec(env, events);
            forall i, j :: TaskOfFelt(s, i, sid) && TaskOfFelt(s, j, sid) ==> i == j
  {
    ExecKeeps(env, events);
    var s := Exec(env, events);
    if StateOf(BankNow(env, s).bank, sid) == SETTLED {
      var settled := SettledWith(env.world, env.pedersen, s.calls, sid);
      SessionAccounting(env.world, env.pedersen, s.calls, sid);
      SettledByOwner(env.world, env.pedersen, s.calls, sid);
      assert CallOk(env, s, SettleCall(env.world.bank.owner, sid, settled.value));
      var i :| 0 <= i < |s.games| && s.games[i].over
               && SessionFelt(s.games[i].task.session) == Some(sid) && s.games[i].task.seedBlock == settled.value;
      SeedDecides(env, s, s.games[i].task, sid);
      assert TaskOfFelt(s, i, sid);
    }
    forall i, j | TaskOfFelt(s, i, sid) && TaskOfFelt(s, j, sid)
      ensures i == j
    {
      OneTaskPerFelt(env, s, i, j);
    }
  }

  lemma OneTaskPerFelt(env: Env, s: System, i: nat, j: nat)
    requires Invariant(env, s) && i < |s.games| && j < |s.games|
    requires SessionFelt(s.games[i].task.session) == SessionFelt(s.games[j].task.session)
    ensures i == j
  {
    var t, u := s.games[i].task, s.games[j].task;
    assert s.games[i] in s.games && TaskOk(env, s, t) && s.games[j] in s.games && TaskOk(env, s, u);
    assert CommittedOk(s, t.session) && CommittedOk(s, u.session);
    SessionFeltInjective(t.session, u.session);
  }

  lemma SeedDecides(env: Env, s: System, t: PlayTask, sid: Felt)
    requires Accounted(BankNow(env, s), env.pedersen, SessionEvents(env.world, env.pedersen, s.calls, sid),
                       SettledWith(env.world, env.pedersen, s.calls, sid), sid)
    requires SettledWith(env.world, env.pedersen, s.calls, sid) == Some(t.seedBlock)
    ensures SettledByTask(env, s, t, sid)
  {
    var w := BankNow(env, s);
    var amount := AmountOf(w.bank, sid);
    assert SessionEvents(env.world, env.pedersen, s.calls, sid)
        == [Transfer(PlayerOf(w.bank, sid), w.self, amount), Transfer(w.bank.owner, w.self, amount),
            Transfer(w.self, Payee(env.pedersen, w.bank, sid, t.seedBlock), 2 * amount)];
  }

  /**
   The receipt rules: where the depositor is the committed player with the revealed bet, the payout
   of a settled session goes to that player exactly when the receipt of its task says `won` = 1.
   */
  lemma PaidByReceipt(env: Env, events: seq<Event>, sid: Felt, i: nat)
    requires Deployed(env) && StateOf(BankNow(env, Exec(env, events)).bank, sid) == SETTLED
    requires TaskOfFelt(Exec(env, events), i, sid)
    requires var receipt := ReceiptOf(env, Exec(env, events).games[i].task);
             var b := BankNow(env, Exec(env, events)).bank;
             receipt.Some? && receipt.value.player == PlayerOf(b, sid) && receipt.value.bet == BetOf(b, sid)
    ensures var s := Exec(env, events);
            var w, receipt := BankNow(env, s), ReceiptOf(env, s.games[i].task).value;
            var payout := SessionEvents(env.world, env.pedersen, s.calls, sid);
            |payout| == 3 && payout[2] == Transfer(w.self, if receipt.won == 1 then receipt.player else w.bank.owner,
                                                   2 * AmountOf(w.bank, sid))
  {
    SettledByOneTask(env, events, sid);
    var s := Exec(env, events);
    var k :| TaskOfFelt(s, k, sid) && SettledByTask(env, s, s.games[k].task, sid);
    assert k == i;
    PayeeByReceipt(env, BankNow(env, s).bank, s.games[i].task, sid);
  }

  /** A settlement that was sent always succeeds if its session is matched when it lands. */
  lemma SettlementGoesThrough(env: Env, events: seq<Event>, k: nat)
    requires Deployed(env) && k < |Exec(env, events).pending| && Exec(env, events).pending[k].SettleCall?
    requires Exec(env, events).pending[k].caller == env.world.bank.owner
    requires StateOf(BankNow(env, Exec(env, events)).bank, Exec(env, events).pending[k].sid) == MATCHED
    ensures StateOf(BankNow(env, Apply(env, Exec(env, events), Land(k))).bank, Exec(env, events).pending[k].sid) == SETTLED
  {
    ExecKeeps(env, events);
    CallsOutside(env, Exec(env, events));
    var s := Exec(env, events);
    LandCalls(env, s, k);
    SettleLands(env, s, s.pending[k]);
  }

  lemma LandCalls(env: Env, s: System, k: nat)
    requires k < |s.pending|
    ensures Apply(env, s, Land(k)).calls == s.calls + [s.pending[k]]
  {
  }

  lemma SettleLands(env: Env, s: System, c: Call)
    requires Fresh(env.world) && Outside(env.world, s.calls)
    requires c.SettleCall? && c.caller == env.world.bank.owner && StateOf(BankNow(env, s).bank, c.sid) == MATCHED
    ensures StateOf(Run(env.world, env.pedersen, s.calls + [c]).bank, c.sid) == SETTLED
  {
    SettleNeverStuck(env.world, env.pedersen, s.calls, c.caller, c.sid, c.seed);
    SettleReaches(BankNow(env, s), env.pedersen, c.caller, c.sid, c.seed);
    RunOneMore(env.world, env.pedersen, s.calls, c);
  }

  /** The committed text fixes one hash: two reveals a commitment would accept have equal Pedersen hashes. */
  lemma CommitmentBinds(pedersen: Pedersen, m: Commitments, id: string, p: string, b: nat, n: string,
                        q: string, c: nat, o: string)
    requires Reveal(pedersen, m, id, p, b, n).Some? && Reveal(pedersen, m, id, q, c, o).Some?
    ensures var t, u := Reveal(pedersen, m, id, p, b, n).value, Reveal(pedersen, m, id, q, c, o).value;
            && t.player == u.player && t.seedBlock == u.seedBlock
            && pedersen(t.bet, t.nonce) == pedersen(u.bet, u.nonce)
  {
    var t, u := Reveal(pedersen, m, id, p, b, n).value, Reveal(pedersen, m, id, q, c, o).value;
    Hex.PrintInjective(pedersen(t.bet, t.nonce), pedersen(u.bet, u.nonce));
  }

  /** In particular the bank stays solvent whatever the server and its clients do. */
  lemma SystemSolvent(env: Env, events: seq<Event>)
    requires Deployed(env)
    ensures var w := BankNow(env, Exec(env, events));
            BalanceOf(w.token, w.self) >= TotalEscrow(w.bank)
  {
    ExecKeeps(env, events);
    CallsOutside(env, Exec(env, events));
    RunKeeps(env.world, env.pedersen, Exec(env, events).calls);
  }

  // ----- an honest game from commit to payout

  /** What the server, a player and the chain do in a game where nothing fails. */
  function HonestEvents(env: Env, s: System, id: string, commitment: string, player: string, bet: nat, nonce: string,
                        deposit: Call, block: U64, deployBlock: U64): seq<Event>
  {
    OpeningEvents(id, commitment, player, deposit)
    + (MatchingEvents(|s.confirms|, |s.pending|, block, deployBlock)
       + RevealingEvents(id, player, bet, nonce, |s.games|, |s.pending|))
  }

  function OpeningEvents(id: string, commitment: string, player: string, deposit: Call): seq<Event> {
    [CommitRequest(id, commitment, player), ConfirmRequest(id), Elsewhere(deposit)]
  }

  function MatchingEvents(confirm: nat, pending: nat, block: U64, deployBlock: U64): seq<Event> {
    [InvokeMatch(confirm, true, Some(block)), Land(pending), FinishConfirm(confirm, deployBlock)]
  }

  function RevealingEvents(id: string, player: string, bet: nat, nonce: string, game: nat, pending: nat): seq<Event> {
    [PlayRequest(id, player, bet, nonce), InvokeSettle(game, true), Land(pending)]
  }

  function ApplyAll(env: Env, s: System, events: seq<Event>): System {
    if events == [] then s
    else Apply(env, ApplyAll(env, s, events[..|events| - 1]), events[|events| - 1])
  }

  lemma {:induction false} ExecApplies(env: Env, before: seq<Event>, events: seq<Event>)
    ensures Exec(env, before + events) == ApplyAll(env, Exec(env, before), events)
  {
    if events == [] {
      Seqs.Units(before);
    } else {
      ExecApplies(env, before, events[..|events| - 1]);
      Seqs.FrontOfConcat(before, events);
    }
  }

  lemma {:induction false} AppliesConcat(env: Env, s: System, a: seq<Event>, b: seq<Event>)
    ensures ApplyAll(env, s, a + b) == ApplyAll(env, ApplyAll(env, s, a), b)
  {
    if b == [] {
      Seqs.Units(a);
    } else {
      AppliesConcat(env, s, a, b[..|b| - 1]);
      Seqs.FrontOfConcat(a, b);
    }
  }

  lemma ApplyThree(env: Env, s: System, a: Event, b: Event, c: Event)
    ensures ApplyAll(env, s, [a, b, c]) == Apply(env, Apply(env, Apply(env, s, a), b), c)
  {
    assert [a, b, c][..2] == [a, b] && [a, b][..1] == [a] && [a][..0] == [];
    assert ApplyAll(env, s, [a]) == Apply(env, s, a);
    assert ApplyAll(env, s, [a, b]) == Apply(env, Apply(env, s, a), b);
  }

  /** Commit, confirm request and deposit. */
  lemma Opening(env: Env, s: System, id: string, commitment: string, player: string, deposit: Call)
    requires IsUuid(id) && id !in s.committed && NotServer(env, deposit)
    ensures var t := ApplyAll(env, s, OpeningEvents(id, commitment, player, deposit));
            && id in t.commitments && t.commitments[id].commitment == commitment && t.commitments[id].player == player
            && t.confirms == s.confirms + [Confirm(id, SessionText(id), Waiting)]
            && t.games == s.games && t.pending == s.pending && t.calls == s.calls + [deposit]
  {
    ApplyThree(env, s, CommitRequest(id, commitment, player), ConfirmRequest(id), Elsewhere(deposit));
  }

  /** The match is sent, lands and is answered. */
  lemma Matching(env: Env, s: System, i: nat, id: string, block: U64, deployBlock: U64)
    requires i < |s.confirms| && s.confirms[i] == Confirm(id, SessionText(id), Waiting)
    requires id in s.commitments && SessionFelt(id).Some?
    ensures var t := ApplyAll(env, s, MatchingEvents(i, |s.pending|, block, deployBlock));
            var seed := if block >= deployBlock then block else deployBlock;
            && t.commitments == s.commitments[id := s.commitments[id].(seedBlock := seed)]
            && t.games == s.games && t.pending == s.pending
            && t.calls == s.calls + [MatchCall(env.world.bank.owner, SessionFelt(id).value)]
  {
    var c := MatchCall(env.world.bank.owner, SessionFelt(id).value);
    ApplyThree(env, s, InvokeMatch(i, true, Some(block)), Land(|s.pending|), FinishConfirm(i, deployBlock));
    var t1 := Apply(env, s, InvokeMatch(i, true, Some(block)));
    assert t1 == s.(pending := s.pending + [c], confirms := s.confirms[i := Confirm(id, SessionText(id), Matched(block))]);
    LandLast(env, t1, s.pending, c);
    var t2 := Apply(env, t1, Land(|s.pending|));
    assert t2 == t1.(pending := s.pending, calls := s.calls + [c]);
    assert Apply(env, t2, FinishConfirm(i, deployBlock)).commitments == LockSeed(s.commitments, id, Later(block, deployBlock));
  }

  lemma LandLast(env: Env, s: System, before: seq<Call>, c: Call)
    requires s.pending == before + [c]
    ensures Apply(env, s, Land(|before|)) == s.(pending := before, calls := s.calls + [c])
  {
    assert s.pending[..|before|] + s.pending[|before| + 1..] == before;
  }

  /** The reveal starts a task, whose settlement is sent and lands. */
  lemma Revealing(env: Env, s: System, id: string, player: string, bet: nat, nonce: string)
    requires id in s.commitments && s.commitments[id].player == player
    requires RevealFits(env.pedersen, s.commitments[id].commitment, bet, nonce)
    requires SessionFelt(id).Some? && Hex.ParseFelt(player).Some?
    ensures var t := ApplyAll(env, s, RevealingEvents(id, player, bet, nonce, |s.games|, |s.pending|));
            t.calls == s.calls + [SettleCall(env.world.bank.owner, SessionFelt(id).value, s.commitments[id].seedBlock)]
  {
    var c := SettleCall(env.world.bank.owner, SessionFelt(id).value, s.commitments[id].seedBlock);
    ApplyThree(env, s, PlayRequest(id, player, bet, nonce), InvokeSettle(|s.games|, true), Land(|s.pending|));
    var t1 := Apply(env, s, PlayRequest(id, player, bet, nonce));
    assert |t1.games| == |s.games| + 1 && t1.pending == s.pending;
    var t2 := Apply(env, t1, InvokeSettle(|s.games|, true));
    assert t2.pending == s.pending + [c];
    LandLast(env, t2, s.pending, c);
  }

  lemma {:induction false} RunConcat(w: World, pedersen: Pedersen, a: seq<Call>, b: seq<Call>)
    ensures Run(w, pedersen, a + b) == Run(Run(w, pedersen, a), pedersen, b)
  {
    if b == [] {
      Seqs.Units(a);
    } else {
      RunConcat(w, pedersen, a, b[..|b| - 1]);
      Seqs.FrontOfConcat(a, b);
    }
  }

  /** The nine steps from any state that has not seen the session. */
  lemma HonestSteps(env: Env, s: System, id: string, commitment: string, player: string, bet: nat, nonce: string,
                    deposit: Call, block: U64, deployBlock: U64)
    requires IsUuid(id) && SessionFelt(id).Some? && NotServer(env, deposit) && id !in s.committed
    requires Hex.ParseFelt(player).Some? && RevealFits(env.pedersen, commitment, bet, nonce)
    ensures var owner, sid := env.world.bank.owner, SessionFelt(id).value;
            ApplyAll(env, s, HonestEvents(env, s, id, commitment, player, bet, nonce, deposit, block, deployBlock)).calls
              == s.calls + [deposit, MatchCall(owner, sid),
                            SettleCall(owner, sid, if block >= deployBlock then block else deployBlock)]
  {
    var opening := OpeningEvents(id, commitment, player, deposit);
    var matching := MatchingEvents(|s.confirms|, |s.pending|, block, deployBlock);
    var revealing := RevealingEvents(id, player, bet, nonce, |s.games|, |s.pending|);
    Opening(env, s, id, commitment, player, deposit);
    var s1 := ApplyAll(env, s, opening);
    Matching(env, s1, |s.confirms|, id, block, deployBlock);
    Revealing(env, ApplyAll(env, s1, matching), id, player, bet, nonce);
    AppliesConcat(env, s, opening, matching + revealing);
    AppliesConcat(env, s1, matching, revealing);
  }

  /** The calls of an honest game, in the order they land. */
  lemma HonestCalls(env: Env, before: seq<Event>, id: string, commitment: string, player: string, bet: nat, nonce: string,
                    deposit: Call, block: U64, deployBlock: U64)
    requires IsUuid(id) && SessionFelt(id).Some? && NotServer(env, deposit)
    requires forall e :: e in before ==> !(e.CommitRequest? && e.id == id)
    requires Hex.ParseFelt(player).Some? && RevealFits(env.pedersen, commitment, bet, nonce)
    ensures var s := Exec(env, before);
            var owner, sid := env.world.bank.owner, SessionFelt(id).value;
            Exec(env, before + HonestEvents(env, s, id, commitment, player, bet, nonce, deposit, block, deployBlock)).calls
              == s.calls + [deposit, MatchCall(owner, sid),
                            SettleCall(owner, sid, if block >= deployBlock then block else deployBlock)]
  {
    var s := Exec(env, before);
    NotCommitted(before, id);
    ExecTracked(env, before);
    assert SessionTracked(s, before, id);
    HonestSteps(env, s, id, commitment, player, bet, nonce, deposit, block, deployBlock);
    ExecApplies(env, before, HonestEvents(env, s, id, commitment, player, bet, nonce, deposit, block, deployBlock));
  }

  /**
   Whatever came before, an honest game both sides can fund runs from commit to payout: the session
   is settled with the later of match and deployment block, and the stake goes from the loser to the
   winner by the coin, every other balance staying as it was.
   */
  lemma HonestGameCompletes(env: Env, before: seq<Event>, id: string, commitment: string, player: string, bet: nat,
                            nonce: string, amount: U256, stored: Felt, block: U64, deployBlock: U64)
    requires Deployed(env) && IsUuid(id) && amount > 0
    requires forall e :: e in before ==> !(e.CommitRequest? && e.id == id)
    requires Hex.ParseFelt(player).Some? && RevealFits(env.pedersen, commitment, bet, nonce)
    requires Hex.ParseFelt(player).value != env.world.self && Hex.ParseFelt(player).value != env.world.bank.owner
    requires var w := BankNow(env, Exec(env, before));
             && CanStake(w, Hex.ParseFelt(player).value, amount) && CanStake(w, env.world.bank.owner, amount)
             && SessionFelt(id).Some? && StateOf(w.bank, SessionFelt(id).value) == EMPTY
    ensures var s, p, sid := Exec(env, before), Hex.ParseFelt(player).value, SessionFelt(id).value;
            var b := if bet == 0 then 0 else 1;
            var deposit := DepositCall(p, sid, amount, stored, b);
            var events := HonestEvents(env, s, id, commitment, player, bet, nonce, deposit, block, deployBlock);
            var w, end := BankNow(env, s), BankNow(env, Exec(env, before + events));
            var coin := env.pedersen(if block >= deployBlock then block else deployBlock, p) % 2;
            && StateOf(end.bank, sid) == SETTLED
            && WonBy(w, end, p, env.world.bank.owner, coin == b, amount)
  {
    var s, p, sid := Exec(env, before), Hex.ParseFelt(player).value, SessionFelt(id).value;
    var b: Felt := if bet == 0 then 0 else 1;
    var seed := if block >= deployBlock then block else deployBlock;
    var w, owner := BankNow(env, s), env.world.bank.owner;
    ExecKeeps(env, before);
    CallsOutside(env, s);
    RunKeeps(env.world, env.pedersen, s.calls);
    HonestCalls(env, before, id, commitment, player, bet, nonce, DepositCall(p, sid, amount, stored, b), block, deployBlock);
    FundedGameCompletes(w, env.pedersen, p, sid, amount, stored, b, seed);
    RunConcat(env.world, env.pedersen, s.calls, GameCalls(p, owner, sid, amount, stored, b, seed));
    LowBit(env.pedersen(seed, p));
  }
}
