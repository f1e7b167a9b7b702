/** What holds of the arena between any two calls, and the steps that keep its roster and its phase in order. */
module ArenaInvariants {
  import opened Wrappers
  import opened MachineInts
  import opened Token
  import opened ArenaTypes
  import opened RwaVault
  import opened ArenaModel
  import opened ArenaRounds

  function ActivePlayers(a: ArenaState): seq<Address> {
    ActiveOf(a.board, a.board.players)
  }

  /** The player list matches the stored states and counters, and respects the platform's limits. */
  ghost predicate Roster(a: ArenaState) {
    && WellListed(a.board)
    && a.config.playerCount == |a.board.players| <= MAX_PLAYERS_ALLOWED
    && a.config.entryFee > 0
    && MIN_PLAYERS_TO_START <= a.minPlayers <= a.maxPlayers <= MAX_PLAYERS_ALLOWED
    && a.config.roundCount <= U32_MAX
    && (forall p :: p in a.board.players ==> p > VAULT && a.board.playerStates[p].roundsSurvived <= a.config.roundCount)
    && (forall p :: p in a.refunded ==> p in a.board.players)
  }

  /** A recorded winner is the only active player; prizes belong to settled arenas, refunds to cancelled ones. */
  ghost predicate Phase(a: ArenaState) {
    && (a.prizeClaimed <==> a.config.state == Settled)
    && (a.config.state == Settled ==> a.winner.Some?)
    && (a.winner.Some? ==> a.config.state in {Finished, Settled} && ActivePlayers(a) == [a.winner.value])
    && (a.refunded != {} ==> a.config.state == Cancelled)
    && (a.config.state == Active || (a.config.state == Open && a.config.roundCount > 0) ==> |ActivePlayers(a)| >= 2)
  }

  // ---- Frames ---------------------------------------------------------------------------------------------

  /** Who is active depends on the stored states alone. */
  lemma {:induction false} ActiveFrame(b: Board, c: Board, ps: seq<Address>)
    requires forall p :: p in ps ==> IsActive(b, p) == IsActive(c, p)
    ensures ActiveOf(b, ps) == ActiveOf(c, ps)
  {
    if ps != [] {
      assert ps == ps[..|ps| - 1] + [ps[|ps| - 1]];
      ActiveFrame(b, c, ps[..|ps| - 1]);
    }
  }

  lemma ActiveAfterJoin(a: ArenaState, p: Address)
    requires WellListed(a.board)
    ensures p !in a.board.players ==> ActivePlayers(AddPlayer(a, p)) == ActivePlayers(a) + [p]
    ensures p !in a.board.players ==> WellListed(AddPlayer(a, p).board)
  {
    if p in a.board.players { return; }
    var b := AddPlayer(a, p).board;
    ActiveFrame(a.board, b, a.board.players);
    assert b.players[..|a.board.players|] == a.board.players;
  }

  /** Opening a round changes no player and no counter. */
  lemma RoundOpened(a: ArenaState, duration: nat, now: nat, balance: int)
    ensures var o := OpenRound(a, duration, now, balance);
      && o.board.players == a.board.players && o.board.playerStates == a.board.playerStates
      && o.config == a.config.(commitDeadline := SatAdd64(now, duration), state := Active)
      && o.roundStart == Some(now) && o.roundDuration == duration && o.lastVaultBalance == balance
      && o.results == a.results && o.snapshots == a.snapshots
      && o.minPlayers == a.minPlayers && o.maxPlayers == a.maxPlayers
      && o.winner == a.winner && o.refunded == a.refunded && o.prizeClaimed == a.prizeClaimed
      && ActivePlayers(o) == ActivePlayers(a)
  {
    hide ActiveOf;
    ActiveFrame(a.board, OpenRound(a, duration, now, balance).board, a.board.players);
  }

  function Accrued(a: ArenaState, balance: int): int {
    if balance >= a.lastVaultBalance then balance - a.lastVaultBalance else 0
  }

  /** Everything settling a round does, apart from the leaderboard and the ballots. */
  lemma RoundSettled(a: ArenaState, rateBps: nat, balance: int)
    ensures var s, round, r := SettleRound(a, rateBps, balance), NextRound(a), ResolutionOf(a.board, NextRound(a));
      && s.board.players == a.board.players && s.board.playerStates == ResolvePlayers(a.board, round).playerStates
      && s.config == a.config.(cumulativeYield := SatAdd128(a.config.cumulativeYield, Accrued(a, balance)),
                               roundCount := round, state := if r.survivors <= 1 then Finished else Open)
      && s.lastVaultBalance == balance && s.roundStart == a.roundStart && s.roundDuration == a.roundDuration
      && s.minPlayers == a.minPlayers && s.maxPlayers == a.maxPlayers
      && s.refunded == a.refunded && s.prizeClaimed == a.prizeClaimed
      && s.winner == (if r.winner.Some? then r.winner else a.winner)
      && s.snapshots == a.snapshots[round := YieldSnapshot(round, rateBps, Accrued(a, balance))]
      && s.results == a.results[round := RoundResult(round, r.eliminated, r.survivors, s.snapshots[round])]
      && ActivePlayers(s) == ActiveOf(ResolvePlayers(a.board, round), a.board.players)
  {
    var s := SettleRound(a, rateBps, balance);
    ActiveFrame(ResolvePlayers(a.board, NextRound(a)), s.board, a.board.players);
    RoundOutcome(a.board, NextRound(a));
    hide ResolutionOf, TopPlayers, ActiveOf, ResolvePlayers;
  }

  /** What a call leaves alone, by the kind of call. */
  ghost predicate Frame(op: Op, a: ArenaState, s: ArenaState) {
    && s.config.entryFee == a.config.entryFee
    && (!op.OpJoin? ==> s.board.players == a.board.players && s.config.playerCount == a.config.playerCount)
    && (!op.OpJoin? && !op.OpResolveRound? ==>
          s.board.playerStates == a.board.playerStates && ActivePlayers(s) == ActivePlayers(a))
    && (!op.OpResolveRound? ==>
          && s.winner == a.winner && s.config.roundCount == a.config.roundCount && s.results == a.results
          && s.snapshots == a.snapshots && s.config.cumulativeYield == a.config.cumulativeYield)
    && (!op.OpClaimRefund? ==> s.refunded == a.refunded)
    && (!op.OpClaim? ==> s.prizeClaimed == a.prizeClaimed)
    && (!op.OpStartRound? ==>
          && s.roundStart == a.roundStart && s.roundDuration == a.roundDuration
          && s.config.commitDeadline == a.config.commitDeadline)
    && (!op.OpStartRound? && !op.OpResolveRound? && !op.OpJoin? ==> s.lastVaultBalance == a.lastVaultBalance)
    && (!PlaysRound(op) && !EndsGame(op) ==> s.config.state == a.config.state)
    && (op.OpJoin? || op.OpCommit? || op.OpReveal? || op.OpClaimRefund? ==> s.config.state == a.config.state)
    && (op.OpJoin? || !PlaysRound(op) ==> s.commitments == a.commitments && s.board.choices == a.board.choices)
    && (!op.OpConfigureLimits? ==> s.minPlayers == a.minPlayers && s.maxPlayers == a.maxPlayers)
  }

  /** The calls that move players through rounds, as opposed to the rest. */
  predicate PlaysRound(op: Op) {
    op.OpJoin? || op.OpCommit? || op.OpReveal? || op.OpStartRound? || op.OpResolveRound?
  }

  /** The calls that settle, cancel, expire or refund. */
  predicate EndsGame(op: Op) {
    op.OpClaim? || op.OpCancel? || op.OpForceCancel? || op.OpExpire? || op.OpClaimRefund?
  }

  lemma TurnFrame(w: World, op: Op, now: nat)
    requires op.OpJoin? || op.OpCommit? || op.OpReveal?
    ensures Frame(op, w.arena, Apply(w, op, now).0.arena)
  {
    hide ActiveOf, Moved, Deposit, ComputeCommitment, SatAdd128;
    if !op.OpJoin? { ActiveFrame(w.arena.board, Apply(w, op, now).0.arena.board, w.arena.board.players); }
  }

  lemma RoundFrame(w: World, op: Op, now: nat)
    requires op.OpStartRound? || op.OpResolveRound?
    ensures Frame(op, w.arena, Apply(w, op, now).0.arena)
  {
    hide OpenRound, SettleRound, ActiveOf, BalanceOf, ResolvePlayers, ResolutionOf;
    var balance := BalanceOf(w.vault, ARENA, now);
    if op.OpStartRound? {
      RoundOpened(w.arena, op.duration, now, balance);
    } else {
      RoundSettled(w.arena, op.rateBps, balance);
    }
  }

  lemma PayoutFrame(w: World, op: Op, now: nat)
    requires op.OpClaim? || op.OpClaimRefund? || op.OpExpire?
    ensures Frame(op, w.arena, Apply(w, op, now).0.arena)
  {
    hide ActiveOf, WithdrawAll, Moved, RefundActive, SatAdd128;
  }

  lemma CancelFrame(w: World, op: Op, now: nat)
    requires op.OpCancel? || op.OpForceCancel?
    ensures Frame(op, w.arena, Apply(w, op, now).0.arena)
  {
    hide ActiveOf, WithdrawAll;
    var s := Apply(w, op, now).0.arena;
    assert s == w.arena || s == w.arena.(config := w.arena.config.(state := Cancelled));
    hide Apply;
  }

  lemma AdminFrame(w: World, op: Op, now: nat)
    requires !PlaysRound(op) && !EndsGame(op)
    ensures Frame(op, w.arena, Apply(w, op, now).0.arena)
  {
    hide ActiveOf, WithdrawAll, Moved, Deposit;
  }

  lemma StepFrame(w: World, op: Op, now: nat)
    ensures Frame(op, w.arena, Apply(w, op, now).0.arena)
  {
    hide Apply, Frame;
    if op.OpStartRound? || op.OpResolveRound? { RoundFrame(w, op, now); }
    else if PlaysRound(op) { TurnFrame(w, op, now); }
    else if op.OpCancel? || op.OpForceCancel? { CancelFrame(w, op, now); }
    else if EndsGame(op) { PayoutFrame(w, op, now); }
    else { AdminFrame(w, op, now); }
  }

  /** The arena with the next entry fee added to its yield baseline. */
  function FeeBooked(a: ArenaState): ArenaState {
    a.(lastVaultBalance := SatAdd128(a.lastVaultBalance, a.config.entryFee))
  }

  lemma JoinAdds(w: World, p: Address)
    ensures var (v, outcome) := JoinArena(w, p);
      if outcome.Fail? then v == w
      else
        && w.arena.config.state == Open && p !in w.arena.board.playerStates
        && w.arena.config.playerCount < w.arena.maxPlayers
        && v.arena == AddPlayer(FeeBooked(w.arena), p)
  {
    hide Deposit, Moved, SatAdd128, AddPlayer;
  }

  /** A join that passes puts one more active player at the end of the list; one that fails changes nothing. */
  lemma JoinSeats(w: World, p: Address)
    requires WellListed(w.arena.board)
    requires w.arena.config.playerCount == |w.arena.board.players|
    ensures var (v, outcome) := JoinArena(w, p);
      var s := v.arena;
      if outcome.Fail? then v == w
      else
        && w.arena.config.state == Open && p !in w.arena.board.players && WellListed(s.board)
        && |w.arena.board.players| < w.arena.maxPlayers
        && s.board.players == w.arena.board.players + [p]
        && s.board.playerStates == w.arena.board.playerStates[p := PlayerState(true, 0)]
        && s.config.playerCount == w.arena.config.playerCount + 1
        && ActivePlayers(s) == ActivePlayers(w.arena) + [p]
  {
    JoinAdds(w, p);
    assert p in w.arena.board.players <==> p in w.arena.board.playerStates;
    ActiveAfterJoin(FeeBooked(w.arena), p);
    hide JoinArena, ActiveOf, WellListed, SatAdd128;
  }

  // ---- Every step keeps the roster ------------------------------------------------------------------------

  lemma RoundKeepsRoster(w: World, rateBps: nat, now: nat)
    requires Roster(w.arena)
    ensures Roster(ResolveRound(w, rateBps, now).0.arena)
  {
    var a := w.arena;
    RoundSettled(a, rateBps, BalanceOf(w.vault, ARENA, now));
    hide SettleRound;
    var b := ResolvePlayers(a.board, NextRound(a));
    forall p | p in a.board.players
      ensures p in b.playerStates && b.playerStates[p].roundsSurvived <= NextRound(a)
    {
      hide Survives;
    }
  }

  lemma StepKeepsRoster(w: World, op: Op, now: nat)
    requires Roster(w.arena) && Authorized(op)
    ensures Roster(Apply(w, op, now).0.arena)
  {
    StepFrame(w, op, now);
    hide ActiveOf;
    if op.OpJoin? { JoinSeats(w, op.player); hide JoinArena; }
    else if op.OpResolveRound? { RoundKeepsRoster(w, op.rateBps, now); hide Roster; }
    else if op.OpClaimRefund? || op.OpConfigureLimits? { hide Moved; }
    else { hide Apply; }
  }

  // ---- Every step keeps the phase -------------------------------------------------------------------------

  lemma RoundKeepsPhase(w: World, rateBps: nat, now: nat)
    requires Phase(w.arena)
    ensures Phase(ResolveRound(w, rateBps, now).0.arena)
  {
    hide SettleRound, ActiveOf, ResolvePlayers, ResolutionOf, Ballots;
    var a := w.arena;
    RoundSettled(a, rateBps, BalanceOf(w.vault, ARENA, now));
    RoundOutcome(a.board, NextRound(a));
  }

  lemma StepKeepsPhase(w: World, op: Op, now: nat)
    requires Roster(w.arena) && Phase(w.arena) && Authorized(op)
    ensures Phase(Apply(w, op, now).0.arena)
  {
    StepFrame(w, op, now);
    hide ActiveOf;
    if op.OpJoin? { JoinSeats(w, op.player); hide JoinArena; }
    else if op.OpResolveRound? { RoundKeepsPhase(w, op.rateBps, now); hide Phase; }
    else if op.OpStartRound? {
      RoundOpened(w.arena, op.duration, now, BalanceOf(w.vault, ARENA, now));
      hide OpenRound;
    }
    else if EndsGame(op) { hide WithdrawAll, Moved, RefundActive; }
    else { hide Apply; }
  }
}
