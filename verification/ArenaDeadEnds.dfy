/** Games nobody can win: two players always heard, a round without time to commit; and what a cancellation leaves. */
module ArenaDeadEnds {
  import opened MachineInts
  import opened Token
  import opened ArenaTypes
  import opened RwaVault
  import opened ArenaModel
  import opened ArenaRounds
  import opened ArenaInvariants
  import opened ArenaAccounts
  import opened ArenaFunds
  import opened ArenaYield
  import opened ArenaCommitments
  import opened ArenaRuns
  import opened ArenaRefunds
  import opened ArenaPrize
  import opened ArenaReveals

  // ---- Two players always heard ---------------------------------------------------------------------------

  /** Nobody joins, and every round is settled with all active players heard. */
  predicate HeardThroughout(w: World, events: seq<Event>)
    decreases |events|
  {
    events == []
    || (var e := events[0];
        var (v, outcome) := Apply(w, e.op, e.now);
        && (outcome.Pass? ==> !e.op.OpJoin?)
        && (outcome.Pass? && e.op.OpResolveRound? ==> AllHeard(w.arena.board, NextRound(w.arena)))
        && HeardThroughout(v, events[1..]))
  }

  lemma TwoHeardRound(w: World, rateBps: nat, now: nat)
    requires ResolveRound(w, rateBps, now).1.Pass? && |ActivePlayers(w.arena)| == 2
    requires AllHeard(w.arena.board, NextRound(w.arena))
    ensures ActivePlayers(ResolveRound(w, rateBps, now).0.arena) == ActivePlayers(w.arena)
  {
    hide ActiveOf, SettleRound, ResolvePlayers, AllHeard, RoundTally, UnevenSplit, BalanceOf, ResolutionOf;
    var a, b, round := w.arena, w.arena.board, NextRound(w.arena);
    RoundSettled(a, rateBps, BalanceOf(w.vault, ARENA, now));
    TwoNeverSplit(b, round);
    forall p | p in b.players ensures IsActive(b, p) == IsActive(ResolvePlayers(b, round), p) {
      NobodyGoesOut(b, round, p);
    }
    ActiveFrame(b, ResolvePlayers(b, round), b.players);
  }

  lemma TwoHeardStep(w: World, e: Event)
    requires |ActivePlayers(w.arena)| == 2
    requires Apply(w, e.op, e.now).1.Pass? ==> !e.op.OpJoin?
    requires Apply(w, e.op, e.now).1.Pass? && e.op.OpResolveRound? ==> AllHeard(w.arena.board, NextRound(w.arena))
    ensures ActivePlayers(Apply(w, e.op, e.now).0.arena) == ActivePlayers(w.arena)
  {
    hide ActiveOf, AllHeard, ResolveRound, JoinArena;
    if Apply(w, e.op, e.now).1.Fail? {
      FailureChangesNothing(w, e.op, e.now);
    } else if e.op.OpResolveRound? {
      TwoHeardRound(w, e.op.rateBps, e.now);
    } else {
      hide Apply;
      StepFrame(w, e.op, e.now);
    }
  }

  /**
    Two players who are heard in every round are never parted: over every run in which nobody joins, both stay
    active, nobody wins, and no claim can pass.
   */
  lemma {:induction false} TwoHeardPlayersNeverPart(w: World, t: nat, events: seq<Event>)
    requires Sound(w, t) && InOrder(t, events) && |ActivePlayers(w.arena)| == 2 && HeardThroughout(w, events)
    ensures var v := Run(w, events);
      && ActivePlayers(v.arena) == ActivePlayers(w.arena) && v.arena.winner.None?
      && forall p, now :: Claim(v, p, now).1.Fail?
    decreases |events|
  {
    hide Apply, Sound, ActiveOf, AllHeard;
    if events == [] {
      TwoHaveNoWinner(w, t);
    } else {
      var e := events[0];
      TwoHeardStep(w, e);
      StepKeepsSound(w, e.op, t, e.now);
      TwoHeardPlayersNeverPart(Apply(w, e.op, e.now).0, e.now, events[1..]);
    }
  }

  lemma TwoHaveNoWinner(w: World, t: nat)
    requires Sound(w, t) && |ActivePlayers(w.arena)| == 2
    ensures w.arena.winner.None?
  {
    hide Roster, Accounts, Invested, Covered, Booked, Sealed, ActiveOf;
  }

  // ---- No time to commit ----------------------------------------------------------------------------------

  /** A started round takes commitments for exactly its duration. */
  lemma CommitmentsLastTheDuration(w: World, t: nat, duration: nat, now: nat, p: Address, d: Digest, later: nat)
    requires Sound(w, t) && t <= now && StartRound(w, duration, now).1.Pass? && IsActive(w.arena.board, p)
    ensures SubmitCommitment(StartRound(w, duration, now).0, p, d, later).1.Pass? <==> later < SatAdd64(now, duration)
  {
    hide Sound, ActiveOf, OpenRound, SatAdd64, BalanceOf;
    RoundOpened(w.arena, duration, now, BalanceOf(w.vault, ARENA, now));
  }

  /** A round is running whose time to commit is over without a ballot, or the game is over without a winner. */
  predicate Hopeless(a: ArenaState, t: nat) {
    match a.config.state
    case Active => a.commitments == map[] && a.board.choices == map[] && a.config.commitDeadline <= t
    case Finished => a.winner.None?
    case Cancelled => true
    case Open => false
    case Settled => false
  }

  lemma SettlingHopeless(w: World, t: nat, rateBps: nat, now: nat)
    requires Sound(w, t) && Hopeless(w.arena, t) && ResolveRound(w, rateBps, now).1.Pass?
    ensures var s := ResolveRound(w, rateBps, now).0.arena; s.config.state == Finished && s.winner.None?
  {
    hide Sound, SettleRound, BalanceOf;
    assert w.arena.config.state == Active;
    hide ResolveRound;
    RoundStrandsIff(w, t, rateBps, now);
  }

  /** What a hopeless round leaves to do: nothing but pausing, settling, expiring and cancelling by force. */
  lemma HopelessTurns(w: World, t: nat, op: Op, now: nat)
    requires Hopeless(w.arena, t) && t <= now && w.arena.config.state == Active
    requires op.OpCommit? || op.OpReveal? || op.OpStartRound? || op.OpCancel? || op.OpJoin? || op.OpClaim?
    ensures Apply(w, op, now).0 == w
  {
    hide OpenRound, ComputeCommitment, Moved, Deposit, WithdrawAll, ActiveOf, BalanceOf;
  }

  lemma StepStaysHopeless(w: World, t: nat, op: Op, now: nat)
    requires Sound(w, t) && Authorized(op) && Hopeless(w.arena, t) && t <= now
    ensures Hopeless(Apply(w, op, now).0.arena, now)
  {
    hide ActiveOf, ResolveRound, ExpireArena, ForceCancelArena;
    var a, s := w.arena, Apply(w, op, now).0.arena;
    StepFollowsLifecycle(w, op, now);
    StepFrame(w, op, now);
    if a.config.state == Finished {
      hide Sound, Apply;
      OutOfPlayStays(w, op, now);
    } else if a.config.state == Active {
      if op.OpResolveRound? && ResolveRound(w, op.rateBps, now).1.Pass? {
        SettlingHopeless(w, t, op.rateBps, now);
        hide Sound;
      } else if op.OpResolveRound? {
        hide Sound;
        FailureChangesNothing(w, op, now);
      } else if PlaysRound(op) || op.OpCancel? || op.OpClaim? {
        hide Sound;
        HopelessTurns(w, t, op, now);
      } else {
        WinnersEndGames(w, t);
        hide Sound, Apply;
      }
    } else {
      hide Sound, Apply;
    }
  }

  lemma WinnersEndGames(w: World, t: nat)
    requires Sound(w, t) && w.arena.config.state == Active
    ensures w.arena.winner.None?
  {
    hide Roster, Accounts, Invested, Covered, Booked, Sealed, ActiveOf;
  }

  lemma {:induction false} RunStaysHopeless(w: World, t: nat, events: seq<Event>)
    requires Sound(w, t) && InOrder(t, events) && Hopeless(w.arena, t)
    ensures Hopeless(Run(w, events).arena, EndTime(t, events))
    decreases |events|
  {
    hide Apply, Sound, Hopeless;
    if events != [] {
      var e := events[0];
      StepStaysHopeless(w, t, e.op, e.now);
      StepKeepsSound(w, e.op, t, e.now);
      RunStaysHopeless(Apply(w, e.op, e.now).0, e.now, events[1..]);
    }
  }

  /**
    A round started with no time to commit takes no commitment, can be settled at once, and has no winner: over
    every run from its start the game ends without one, or not at all, and no claim can pass.
   */
  lemma NoTimeNoWinner(w: World, t: nat, now: nat, events: seq<Event>)
    requires Sound(w, t) && t <= now <= U64_MAX && StartRound(w, 0, now).1.Pass? && InOrder(now, events)
    ensures var s, v := StartRound(w, 0, now).0, Run(StartRound(w, 0, now).0, events);
      && (forall p, d, later: nat :: now <= later ==> SubmitCommitment(s, p, d, later).1.Fail?)
      && (forall rateBps, later: nat :: now <= later ==> ResolveRound(s, rateBps, later).1.Pass?)
      && v.arena.config.state in {Active, Finished, Cancelled}
      && (v.arena.config.state == Finished ==> v.arena.winner.None?)
      && forall p, later :: Claim(v, p, later).1.Fail?
  {
    hide Sound, ActiveOf, BalanceOf, ResolveRound;
    var s := StartRound(w, 0, now).0;
    StartedEmpty(w, t, now);
    StepKeepsSound(w, OpStartRound(0), t, now);
    assert s == Apply(w, OpStartRound(0), now).0;
    hide StartRound;
    forall rateBps, later: nat | now <= later ensures ResolveRound(s, rateBps, later).1.Pass? {
      SettlingOpensWithReveals(s, now, rateBps, later);
    }
    RunStaysHopeless(s, now, events);
    hide Run;
  }

  lemma StartedEmpty(w: World, t: nat, now: nat)
    requires Sound(w, t) && t <= now <= U64_MAX && StartRound(w, 0, now).1.Pass?
    ensures var a := StartRound(w, 0, now).0.arena;
      a.config.state == Active && !a.config.paused && Hopeless(a, now) && a.config.commitDeadline == now
  {
    hide ActiveOf, BalanceOf;
    assert Sealed(w.arena, t);
    StartClearsNothing(w.arena, t);
    hide Sound, ClearRound;
  }

  // ---- What cancelling leaves -----------------------------------------------------------------------------

  /** What the arena's account holds beyond the entry fees still to be refunded. */
  function Surplus(w: World): int {
    Balance(w.ledger, ARENA) - Unrefunded(w.arena)
  }

  lemma CancelledStep(w: World, t: nat, op: Op, now: nat)
    requires Sound(w, t) && Authorized(op) && w.arena.config.state == Cancelled
    ensures Apply(w, op, now).0.arena.config.state == Cancelled && Surplus(Apply(w, op, now).0) >= Surplus(w)
  {
    hide Sound, ActiveOf, Unrefunded, Balance;
    StepFollowsLifecycle(w, op, now);
    StepFrame(w, op, now);
    if Apply(w, op, now).1.Fail? {
      FailureChangesNothing(w, op, now);
    } else if op.OpClaimRefund? {
      RefundPays(w, op.player);
    } else if op.OpVaultDeposit? || op.OpVaultWithdraw? || op.OpTransfer? {
      ElsewhereSpares(w, op, now);
    } else if !MovesMoney(op) {
      hide Apply;
      MoneyStaysPut(w, op, now);
      SameOwing(w.arena, Apply(w, op, now).0.arena);
    } else if op.OpForceCancel? {
    } else {
      assert false;
    }
  }

  lemma SameOwing(a: ArenaState, s: ArenaState)
    requires s.config.entryFee == a.config.entryFee && s.config.playerCount == a.config.playerCount
    requires s.refunded == a.refunded
    ensures Unrefunded(s) == Unrefunded(a)
  {
  }

  /**
    After a cancellation nothing but refunds leaves the arena's account: what it holds beyond the fees still owed,
    the vault's payment included, stays over every run, the refunds of all players included.
   */
  lemma {:induction false} CancelledKeepsTheSurplus(w: World, t: nat, events: seq<Event>)
    requires Sound(w, t) && InOrder(t, events) && w.arena.config.state == Cancelled
    ensures Surplus(Run(w, events)) >= Surplus(w) >= 0
    ensures Balance(Run(w, events).ledger, ARENA) >= Surplus(w)
    decreases |events|
  {
    hide Apply, Unrefunded;
    SurplusIsCovered(w, t);
    if events != [] {
      hide Sound;
      var e := events[0];
      CancelledStep(w, t, e.op, e.now);
      StepKeepsSound(w, e.op, t, e.now);
      CancelledKeepsTheSurplus(Apply(w, e.op, e.now).0, e.now, events[1..]);
    }
  }

  lemma SurplusIsCovered(w: World, t: nat)
    requires Sound(w, t) && w.arena.config.state == Cancelled
    ensures Surplus(w) >= 0
    ensures Unrefunded(w.arena) >= 0
  {
    hide Phase, Accounts, Invested, Booked, Sealed, ActiveOf;
    var a := w.arena;
    assert forall p :: p in a.refunded ==> p in a.board.players;
    NoMoreThanListed(a.board.players, a.refunded);
    MulMono(0, a.config.playerCount - |a.refunded|, a.config.entryFee);
  }
}
