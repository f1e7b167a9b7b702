/** What an error of the arena tells its caller: that the named condition holds, or that the arena is paused. */
module ArenaRefusals {
  import opened Wrappers
  import opened MachineInts
  import opened Token
  import opened ArenaTypes
  import opened RwaVault
  import opened ArenaModel
  import opened ArenaRounds
  import opened ArenaInvariants

  predicate Over(a: ArenaState) {
    a.config.state == Finished || a.config.state == Settled
  }

  /** The calls a pause turns away: all that move the game on, and a refund unless the arena is cancelled. */
  predicate StoppedByPause(a: ArenaState, op: Op) {
    match op
    case OpJoin(_) => true
    case OpCommit(_, _) => true
    case OpReveal(_, _, _) => true
    case OpStartRound(_) => true
    case OpResolveRound(_) => true
    case OpClaim(_) => true
    case OpCancel => true
    case OpExpire => true
    case OpClaimRefund(_) => a.config.state != Cancelled
    case OpProposeAdmin(_) => true
    case OpAcceptAdmin => a.pendingAdmin.Some?
    case _ => false
  }

  /** The player a call is about plays, or has played, here. */
  predicate Plays(a: ArenaState, op: Op) {
    (op.OpJoin? || op.OpCommit? || op.OpReveal? || op.OpClaimRefund?) && op.player in a.board.players
  }

  /** What is the matter where a call that no pause stops is refused with an error. */
  predicate Grounds(w: World, op: Op, now: nat, e: ArenaError) {
    var a, c := w.arena, w.arena.config;
    match e
    case InvalidGameState => if op.OpForceCancel? then Over(a) else if op.OpExpire? then c.state != Active
                             else c.state != Open
    case RoundNotActive => if op.OpReveal? then now < c.commitDeadline else c.state != Active
    case RoundNotStarted => a.roundStart == None
    case GracePeriodNotElapsed => a.roundStart.Some? && now < SatAdd64(a.roundStart.value, a.roundDuration)
    case CommitPhaseEnded => c.state == Active && c.commitDeadline <= now
    case DeadlineTooSoon => c.state == Active && now <= c.commitDeadline
    case CreatorCannotJoin => op == OpJoin(c.admin)
    case PlayerBanned => op.OpJoin? && op.player in a.banned
    case AlreadyJoined => Plays(a, op)
    case ArenaFull => |a.board.players| >= a.maxPlayers
    case NotAPlayer => !Plays(a, op)
    case PlayerEliminated =>
      if op.OpClaim? then a.winner != Some(op.player)
      else Plays(a, op) && op.player !in ActivePlayers(a)
    case ChoiceAlreadyRevealed => op.OpReveal? && (op.player, NextRound(a)) in a.board.choices
    case MissingCommitment => op.OpReveal? && (op.player, NextRound(a)) !in a.commitments
    case InvalidReveal =>
      && op.OpReveal? && (op.player, NextRound(a)) in a.commitments
      && a.commitments[(op.player, NextRound(a))] != ComputeCommitment(op.choice, op.salt)
    case NotEnoughPlayers => |ActivePlayers(a)| < a.minPlayers
    case GameNotFinished => c.state != Finished
    case PrizeAlreadyClaimed => a.prizeClaimed
    case ArenaNotCancelled => c.state != Cancelled
    case RefundAlreadyClaimed => op.OpClaimRefund? && op.player in a.refunded
    case NoPendingAdmin => a.pendingAdmin == None
    case InvalidPlayerLimits => op.OpConfigureLimits? && !(2 <= op.minPlayers <= op.maxPlayers <= 100)
    case VaultDepositFailed => op.OpJoin? && Deposit(w.vault, ARENA, c.entryFee).Err?
    case HostTrap =>
      op.OpJoin? || op.OpClaim? || op.OpCancel? || op.OpExpire? || op.OpClaimRefund? || op.OpVaultDeposit?
      || op.OpVaultWithdraw? || op.OpTransfer?
    case InvalidEntryFee => false
    case ContractPaused => false
  }

  /** The refusal of a call with an error is as it should be: for the pause, or for cause. */
  predicate Justified(w: World, op: Op, now: nat, e: ArenaError) {
    && (e == ContractPaused <==> w.arena.config.paused && StoppedByPause(w.arena, op))
    && (e != ContractPaused ==> Grounds(w, op, now, e))
  }

  lemma EntryRefusals(w: World, op: Op, now: nat)
    requires Roster(w.arena) && (op.OpJoin? || op.OpClaimRefund?) && Apply(w, op, now).1.Fail?
    ensures Justified(w, op, now, Apply(w, op, now).1.error)
  {
    hide Moved, Deposit, SatAdd128, ActiveOf;
  }

  lemma TurnRefusals(w: World, op: Op, now: nat)
    requires Roster(w.arena) && (op.OpCommit? || op.OpReveal?) && Apply(w, op, now).1.Fail?
    ensures Justified(w, op, now, Apply(w, op, now).1.error)
  {
    ActiveAreListed(w.arena.board, w.arena.board.players);
    hide ActiveOf, ComputeCommitment;
  }

  lemma EndingRefusals(w: World, op: Op, now: nat)
    requires op.OpClaim? || op.OpCancel? || op.OpForceCancel? || op.OpExpire?
    requires Apply(w, op, now).1.Fail?
    ensures Justified(w, op, now, Apply(w, op, now).1.error)
  {
    hide WithdrawAll, Moved, RefundActive, SatAdd128, InI128, ActiveOf;
  }

  /**
    Every refusal says what is the matter: a pause comes first and is the answer exactly to the calls it stops; any
    other error is given only where its grounds hold, and only a call that touches tokens can trap.
   */
  lemma RefusalsHaveGrounds(w: World, op: Op, now: nat)
    requires Roster(w.arena) && Apply(w, op, now).1.Fail?
    ensures Justified(w, op, now, Apply(w, op, now).1.error)
  {
    if op.OpJoin? || op.OpClaimRefund? {
      EntryRefusals(w, op, now);
    } else if op.OpCommit? || op.OpReveal? {
      TurnRefusals(w, op, now);
    } else if op.OpClaim? || op.OpCancel? || op.OpForceCancel? || op.OpExpire? {
      EndingRefusals(w, op, now);
    } else {
      hide WithdrawAll, Moved, Deposit, SettleRound, OpenRound, BalanceOf, SatAdd64, Roster, ActiveOf;
    }
  }
}
