/** The yield booked round by round never exceeds what the vault owes, so the winner's prize is always covered by it. */
module ArenaYield {
  import opened MachineInts
  import opened Token
  import opened ArenaTypes
  import opened RwaVault
  import opened ArenaModel
  import opened ArenaRounds
  import opened ArenaInvariants
  import opened ArenaAccounts
  import opened ArenaFunds

  /**
    Where the vault's arithmetic fits, the yield booked so far is at most the yield on today's principal; and a
    running round started from exactly what the position was worth then.
   */
  ghost predicate Booked(a: ArenaState, t: nat) {
    var p := Principal(a);
    && p >= 0 && a.config.cumulativeYield >= 0
    && (InPlay(a) && Fits(p, t) ==> a.config.cumulativeYield <= Yield(p, t))
    && (a.config.state == Active ==>
          && a.roundStart.Some? && a.roundStart.value <= t
          && (Fits(p, a.roundStart.value) ==>
                a.lastVaultBalance == p + Yield(p, a.roundStart.value)
                && a.config.cumulativeYield <= Yield(p, a.roundStart.value)))
  }

  lemma BookedLater(a: ArenaState, t: nat, now: nat)
    requires Booked(a, t) && t <= now
    ensures Booked(a, now)
  {
    hide Fits, Yield, Principal;
    if Fits(Principal(a), now) {
      FitsEarlier(Principal(a), t, Principal(a), now);
      YieldMono(Principal(a), t, Principal(a), now);
    }
  }

  /** A larger principal yields more. */
  lemma BookedGrows(a: ArenaState, s: ArenaState, now: nat)
    requires Booked(a, now) && a.config.state == s.config.state == Open
    requires s.config.cumulativeYield == a.config.cumulativeYield && Principal(s) >= Principal(a)
    ensures Booked(s, now)
  {
    hide Principal;
    if Fits(Principal(s), now) {
      FitsEarlier(Principal(a), now, Principal(s), now);
      YieldMono(Principal(a), now, Principal(s), now);
    }
    hide Fits, Yield;
  }

  lemma JoinAddsFee(w: World, p: Address)
    requires Roster(w.arena) && p > VAULT && JoinArena(w, p).1.Pass?
    ensures var a, s := w.arena, JoinArena(w, p).0.arena;
      && a.config.state == s.config.state == Open && s.config.cumulativeYield == a.config.cumulativeYield
      && Principal(s) == Principal(a) + a.config.entryFee >= Principal(a)
  {
    JoinPays(w, p);
    hide Roster, WellListed, Moved, Deposit, SatAdd128;
    var n := w.arena.config.playerCount;
    assert w.arena.config.entryFee * (n + 1) == w.arena.config.entryFee * n + w.arena.config.entryFee;
  }

  /** What the arena reads from the vault while in play, where it fits. */
  lemma ReadsWorth(w: World, now: nat)
    requires InPlay(w.arena) && Invested(w) && w.arena.config.playerCount > 0
    requires Principal(w.arena) >= 0 && Fits(Principal(w.arena), now)
    ensures BalanceOf(w.vault, ARENA, now) == Principal(w.arena) + Yield(Principal(w.arena), now)
  {
    FittingBalance(w.vault, ARENA, now);
  }

  lemma {:induction false} NoMoreActive(b: Board, ps: seq<Address>)
    ensures |ActiveOf(b, ps)| <= |ps|
  {
    if ps != [] { NoMoreActive(b, ps[..|ps| - 1]); }
  }

  lemma StartKeepsBooked(w: World, duration: nat, now: nat)
    requires Roster(w.arena) && Invested(w) && Booked(w.arena, now) && StartRound(w, duration, now).1.Pass?
    ensures Booked(StartRound(w, duration, now).0.arena, now)
  {
    var a := w.arena;
    RoundOpened(a, duration, now, BalanceOf(w.vault, ARENA, now));
    NoMoreActive(a.board, a.board.players);
    hide OpenRound, ActiveOf, WellListed;
    var s := StartRound(w, duration, now).0.arena;
    assert Principal(s) == Principal(a);
    if Fits(Principal(a), now) { ReadsWorth(w, now); }
    hide Fits, Yield, Principal, BalanceOf;
  }

  /** A round accrues exactly what the position grew by since the round's start, so that the rounds telescope. */
  lemma ResolveKeepsBooked(w: World, rateBps: nat, now: nat)
    requires Roster(w.arena) && Phase(w.arena) && Invested(w) && Booked(w.arena, now)
    requires ResolveRound(w, rateBps, now).1.Pass?
    ensures Booked(ResolveRound(w, rateBps, now).0.arena, now)
    ensures var a, p, s := w.arena, Principal(w.arena), ResolveRound(w, rateBps, now).0.arena;
      Fits(p, now) ==>
        && s.config.cumulativeYield == a.config.cumulativeYield + Yield(p, now) - Yield(p, a.roundStart.value)
        && s.snapshots[NextRound(a)].accrued == Yield(p, now) - Yield(p, a.roundStart.value)
  {
    var a, balance := w.arena, BalanceOf(w.vault, ARENA, now);
    RoundSettled(a, rateBps, balance);
    NoMoreActive(a.board, a.board.players);
    hide SettleRound, ActiveOf, WellListed, ResolvePlayers, ResolutionOf;
    var s := ResolveRound(w, rateBps, now).0.arena;
    var p := Principal(a);
    assert Principal(s) == p;
    hide Principal;
    if Fits(p, now) {
      ReadsWorth(w, now);
      FitsEarlier(p, a.roundStart.value, p, now);
      YieldMono(p, a.roundStart.value, p, now);
      assert p + Yield(p, now) <= I128_MAX;
      hide Fits, Yield;
      assert s.config.cumulativeYield == a.config.cumulativeYield + Yield(p, now) - Yield(p, a.roundStart.value);
    }
    hide Fits, Yield, BalanceOf;
  }

  lemma StepKeepsBooked(w: World, op: Op, t: nat, now: nat)
    requires Roster(w.arena) && Phase(w.arena) && Invested(w) && Booked(w.arena, t) && t <= now && Authorized(op)
    ensures Booked(Apply(w, op, now).0.arena, now)
  {
    BookedLater(w.arena, t, now);
    StepFrame(w, op, now);
    hide Phase, Invested, Fits, Yield, ActiveOf;
    if Apply(w, op, now).1.Fail? {
      FailureChangesNothing(w, op, now);
      hide Apply, Booked;
    } else if op.OpJoin? {
      JoinAddsFee(w, op.player);
      BookedGrows(w.arena, JoinArena(w, op.player).0.arena, now);
      hide JoinArena, Booked, Principal;
    } else if op.OpStartRound? {
      StartKeepsBooked(w, op.duration, now);
      hide StartRound, Booked;
    } else if op.OpResolveRound? {
      ResolveKeepsBooked(w, op.rateBps, now);
      hide ResolveRound, Booked;
    } else {
      StepFollowsLifecycle(w, op, now);
      if !InPlay(w.arena) { OutOfPlayStays(w, op, now); }
      hide Apply;
    }
  }
}
