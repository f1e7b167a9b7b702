/** The arena's money: what the vault owes it, and what its own account always covers. */
module ArenaFunds {
  import opened Wrappers
  import opened MachineInts
  import opened Token
  import opened ArenaTypes
  import opened RwaVault
  import opened StableSorting
  import opened ArenaModel
  import opened ArenaRounds
  import opened ArenaInvariants
  import opened ArenaAccounts

  /** Still in play: the fees have neither been paid out nor set aside for refunds. */
  predicate InPlay(a: ArenaState) {
    a.config.state in {Open, Active} || (a.config.state == Finished && a.winner.Some?)
  }

  function Principal(a: ArenaState): int {
    a.config.entryFee * a.config.playerCount
  }

  /** The entry fees not yet refunded. */
  function Unrefunded(a: ArenaState): int {
    a.config.entryFee * (a.config.playerCount - |a.refunded|)
  }

  /** While in play, the arena's vault position is open and holds exactly the entry fees. */
  ghost predicate Invested(w: World) {
    InPlay(w.arena) ==>
      && PositionOf(w.vault, ARENA) == Accrual(Principal(w.arena), false)
      && Principal(w.arena) <= I128_MAX
      && (w.arena.config.playerCount > 0 ==> w.vault.initialized)
  }

  /** While in play or cancelled, the arena's own account covers every entry fee not yet refunded. */
  ghost predicate Covered(w: World) {
    InPlay(w.arena) || w.arena.config.state == Cancelled ==> Balance(w.ledger, ARENA) >= Unrefunded(w.arena)
  }

  // ---- Calls and transfers --------------------------------------------------------------------------------

  /** A withdrawal pays what it owes as far as the vault's account reaches, from that account to the owner's. */
  lemma WithdrawalPays(v: VaultState, l: Ledger, from: Address, now: nat)
    requires WithdrawAll(v, l, from, now).Ok? && from != VAULT
    ensures var out := WithdrawAll(v, l, from, now).value;
      && Owed(v, from, now).Ok?
      && out.paid == Min(Owed(v, from, now).value, Balance(l, VAULT)) >= 0
      && Balance(out.ledger, from) == Balance(l, from) + out.paid
      && Balance(out.ledger, VAULT) == Balance(l, VAULT) - out.paid
      && (forall q :: q != from && q != VAULT ==> Balance(out.ledger, q) == Balance(l, q))
      && out.vault.initialized
      && (forall q :: q != from ==> PositionOf(out.vault, q) == PositionOf(v, q))
      && PositionOf(out.vault, from) == Accrual(0, true)
  {
  }

  /** A call that fails leaves the arena, the vault and the ledger as they were. */
  lemma FailureChangesNothing(w: World, op: Op, now: nat)
    requires Apply(w, op, now).1.Fail?
    ensures Apply(w, op, now).0 == w
  {
    hide OpenRound, SettleRound, WithdrawAll, Deposit, Moved, RefundActive;
  }

  /** A game out of play never comes back into play. */
  lemma OutOfPlayStays(w: World, op: Op, now: nat)
    requires !InPlay(w.arena)
    ensures !InPlay(Apply(w, op, now).0.arena)
    ensures w.arena.config.state == Finished ==> Apply(w, op, now).0.arena.config.state == Finished
  {
    StepFollowsLifecycle(w, op, now);
    StepFrame(w, op, now);
    if w.arena.config.state == Finished && (op.OpResolveRound? || op.OpClaim?) {
      assert Apply(w, op, now).0 == w;
    }
    hide Apply, ActiveOf;
  }

  lemma JoinPays(w: World, p: Address)
    requires Roster(w.arena) && p > VAULT && JoinArena(w, p).1.Pass?
    ensures var v := JoinArena(w, p).0;
      && Deposit(w.vault, ARENA, w.arena.config.entryFee) == Ok(v.vault)
      && Moved(w.ledger, p, ARENA, w.arena.config.entryFee) == Some(v.ledger)
      && v.arena.config.state == w.arena.config.state && v.arena.winner == w.arena.winner
      && v.arena.refunded == w.arena.refunded && v.arena.config.entryFee == w.arena.config.entryFee
      && v.arena.config.playerCount == w.arena.config.playerCount + 1
  {
    hide Deposit, Moved, SatAdd128, WellListed;
  }

  /** A call by someone else to the vault or the token leaves the arena's state and position alone. */
  lemma ElsewhereSpares(w: World, op: Op, now: nat)
    requires Authorized(op) && (op.OpVaultDeposit? || op.OpVaultWithdraw? || op.OpTransfer?)
    ensures var v := Apply(w, op, now).0;
      && v.arena == w.arena && PositionOf(v.vault, ARENA) == PositionOf(w.vault, ARENA)
      && v.vault.initialized == w.vault.initialized
      && Balance(v.ledger, ARENA) >= Balance(w.ledger, ARENA)
  {
    hide JoinArena, SubmitCommitment, RevealChoice, StartRound, ResolveRound, Claim, CancelArena, ForceCancelArena;
    hide ExpireArena, ClaimRefund, AcceptAdmin, ConfigurePlayerLimits, ProposeAdmin;
    if op.OpVaultWithdraw? && WithdrawAll(w.vault, w.ledger, op.from, now).Ok? {
      WithdrawalPays(w.vault, w.ledger, op.from, now);
      hide WithdrawAll;
    }
  }

  predicate MovesMoney(op: Op) {
    EndsGame(op) || op.OpJoin? || op.OpVaultDeposit? || op.OpVaultWithdraw? || op.OpTransfer?
  }

  lemma MoneyStaysPut(w: World, op: Op, now: nat)
    requires !MovesMoney(op)
    ensures Apply(w, op, now).0.vault == w.vault && Apply(w, op, now).0.ledger == w.ledger
  {
    hide OpenRound, SettleRound;
  }

  // ---- Every step keeps the money in order ----------------------------------------------------------------

  /** Claiming, cancelling and expiring end the play; a cancelled game keeps at least what it had. */
  lemma EndingsLeavePlay(w: World, op: Op, now: nat)
    requires Phase(w.arena) && EndsGame(op) && Apply(w, op, now).1.Pass?
    ensures !InPlay(Apply(w, op, now).0.arena)
    ensures (op.OpCancel? || op.OpForceCancel?) ==>
      Balance(Apply(w, op, now).0.ledger, ARENA) >= Balance(w.ledger, ARENA)
    ensures op.OpClaim? || op.OpExpire? ==> Apply(w, op, now).0.arena.config.state in {Finished, Settled}
  {
    hide WithdrawAll, Moved, RefundActive, ActiveOf;
    if (op.OpCancel? || op.OpForceCancel?) && WithdrawAll(w.vault, w.ledger, ARENA, now).Ok? {
      WithdrawalPays(w.vault, w.ledger, ARENA, now);
    }
  }

  lemma StepKeepsInvested(w: World, op: Op, now: nat)
    requires Roster(w.arena) && Phase(w.arena) && Invested(w) && Authorized(op)
    ensures Invested(Apply(w, op, now).0)
  {
    if Apply(w, op, now).1.Fail? {
      FailureChangesNothing(w, op, now);
    } else if op.OpJoin? {
      JoinPays(w, op.player);
      assert w.arena.config.state == Open by { JoinSeats(w, op.player); }
      hide JoinArena;
    } else if EndsGame(op) {
      EndingsLeavePlay(w, op, now);
    } else if MovesMoney(op) {
      ElsewhereSpares(w, op, now);
    } else {
      MoneyStaysPut(w, op, now);
      StepFrame(w, op, now);
      if !InPlay(w.arena) { OutOfPlayStays(w, op, now); }
    }
    hide Apply, Roster, Phase, ActiveOf;
  }

  /** Refunding one more player owes one entry fee less. */
  lemma RefundPays(w: World, p: Address)
    requires p > VAULT && ClaimRefund(w, p).1.Pass?
    ensures var v := ClaimRefund(w, p).0;
      && v.arena == w.arena.(refunded := w.arena.refunded + {p}) && p !in w.arena.refunded
      && Balance(v.ledger, ARENA) == Balance(w.ledger, ARENA) - w.arena.config.entryFee
      && Unrefunded(v.arena) == Unrefunded(w.arena) - w.arena.config.entryFee
  {
    var n := w.arena.config.playerCount - |w.arena.refunded|;
    assert w.arena.config.entryFee * (n - 1) == w.arena.config.entryFee * n - w.arena.config.entryFee;
  }

  /** Cover stays where the account does not fall, no fee is added or refunded, and no game comes back. */
  lemma CoverStays(w: World, v: World)
    requires Covered(w) && Balance(v.ledger, ARENA) >= Balance(w.ledger, ARENA)
    requires v.arena.refunded == w.arena.refunded && v.arena.config.entryFee == w.arena.config.entryFee
    requires v.arena.config.playerCount == w.arena.config.playerCount
    requires InPlay(v.arena) || v.arena.config.state == Cancelled ==>
      InPlay(w.arena) || w.arena.config.state == Cancelled
    ensures Covered(v)
  {
    hide InPlay, Balance;
  }

  lemma EndingKeepsCovered(w: World, op: Op, now: nat)
    requires Phase(w.arena) && Covered(w) && EndsGame(op) && !op.OpClaimRefund? && Apply(w, op, now).1.Pass?
    ensures Covered(Apply(w, op, now).0)
  {
    var v := Apply(w, op, now).0;
    EndingsLeavePlay(w, op, now);
    StepFrame(w, op, now);
    StepFollowsLifecycle(w, op, now);
    hide Apply, ActiveOf, Phase, Covered;
    if v.arena.config.state == Cancelled { CoverStays(w, v); } else { assert Covered(v) by { NotOwing(v); } }
  }

  lemma NotOwing(v: World)
    requires !InPlay(v.arena) && v.arena.config.state != Cancelled
    ensures Covered(v)
  {
  }

  lemma StepKeepsCovered(w: World, op: Op, now: nat)
    requires Roster(w.arena) && Phase(w.arena) && Covered(w) && Authorized(op)
    ensures Covered(Apply(w, op, now).0)
  {
    var v := Apply(w, op, now).0;
    if Apply(w, op, now).1.Fail? {
      FailureChangesNothing(w, op, now);
    } else if op.OpJoin? {
      JoinPays(w, op.player);
      OneMoreFee(w.arena.config.entryFee, w.arena.config.playerCount - |w.arena.refunded|);
      hide JoinArena;
    } else if op.OpClaimRefund? {
      RefundPays(w, op.player);
      hide ClaimRefund, Unrefunded;
    } else if EndsGame(op) {
      EndingKeepsCovered(w, op, now);
    } else {
      if MovesMoney(op) { ElsewhereSpares(w, op, now); } else { MoneyStaysPut(w, op, now); }
      StepFrame(w, op, now);
      StepFollowsLifecycle(w, op, now);
      if !InPlay(w.arena) { OutOfPlayStays(w, op, now); }
      hide Apply, Roster, Phase, ActiveOf, Covered;
      CoverStays(w, v);
    }
    hide Apply, Roster, Phase, ActiveOf;
  }

  lemma OneMoreFee(fee: int, n: int)
    ensures fee * (n + 1) == fee * n + fee
  {
  }

  // ---- Joining and pausing --------------------------------------------------------------------------------

  /**
    A join passes exactly for a newcomer who is neither admin nor banned, with room in an open, unpaused arena, who
    can pay, while the vault is up and its books can hold one more fee; it then moves exactly one entry fee and
    raises the arena's position by it.
   */
  lemma JoinPassesIff(w: World, p: Address)
    requires Roster(w.arena) && Invested(w) && p > VAULT
    ensures var (v, outcome) := JoinArena(w, p);
      var a, fee := w.arena, w.arena.config.entryFee;
      && (outcome.Pass? <==>
            && a.config.state == Open && !a.config.paused && p != a.config.admin && p !in a.banned
            && p !in a.board.players && |a.board.players| < a.maxPlayers && fee <= Balance(w.ledger, p)
            && w.vault.initialized && Principal(a) + fee <= I128_MAX && InI128(w.vault.totalDeposited + fee))
      && (outcome.Pass? ==>
            && Balance(v.ledger, p) == Balance(w.ledger, p) - fee
            && Balance(v.ledger, ARENA) == Balance(w.ledger, ARENA) + fee
            && PositionOf(v.vault, ARENA) == Accrual(Principal(a) + fee, false)
            && Principal(v.arena) == Principal(a) + fee)
  {
    hide SatAdd128, NoRepeats;
    var fee, n := w.arena.config.entryFee, w.arena.config.playerCount;
    MulMono(0, n, fee);
    assert fee * (n + 1) == fee * n + fee;
    if JoinArena(w, p).1.Pass? { JoinPays(w, p); }
  }

  /**
    Pausing stops everything but the ways out: a call that passes on a paused arena and changes it is a forced
    cancellation, a refund from a cancelled arena, or an administrator's setting.
   */
  lemma PauseStopsTheGame(w: World, op: Op, now: nat)
    requires w.arena.config.paused && Apply(w, op, now).0.arena != w.arena
    ensures Apply(w, op, now).1.Pass?
    ensures op.OpForceCancel? || (op.OpClaimRefund? && w.arena.config.state == Cancelled)
      || op.OpSetPaused? || op.OpSetBanned? || op.OpConfigureLimits? || op.OpConfigureLeaderboard?
  {
    hide WithdrawAll, Moved, Deposit;
  }
}
