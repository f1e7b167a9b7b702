/** What the winner gets, that an arena pays in one way only, and when nobody can be paid any more. */
module ArenaPrize {
  import opened Wrappers
  import opened MachineInts
  import opened Token
  import opened ArenaTypes
  import opened RwaVault
  import opened ArenaModel
  import opened ArenaRounds
  import opened ArenaInvariants
  import opened ArenaAccounts
  import opened ArenaFunds
  import opened ArenaYield
  import opened ArenaCommitments
  import opened ArenaRuns
  import opened ArenaRefunds

  // ---- The prize ------------------------------------------------------------------------------------------

  /** A recorded winner has joined, and the fees are all in the vault's books. */
  lemma WinnerHasPlayed(w: World, t: nat, p: Address)
    requires Sound(w, t) && w.arena.winner == Some(p)
    ensures p in w.arena.board.players && p > VAULT && w.arena.config.playerCount > 0
    ensures w.arena.config.state == Finished ==> InPlay(w.arena) && 0 < Principal(w.arena) <= I128_MAX
  {
    hide Accounts, Covered, Booked, Sealed;
    ActiveAreListed(w.arena.board, w.arena.board.players);
    assert p in ActivePlayers(w.arena);
    NoMoreActive(w.arena.board, w.arena.board.players);
    MulMono(1, w.arena.config.playerCount, w.arena.config.entryFee);
    hide ActiveOf, WellListed;
  }

  /** Where the vault's arithmetic fits, its position is still open and worth at least principal plus booked yield. */
  lemma VaultOwesThePrize(w: World, t: nat, p: Address, now: nat)
    requires Sound(w, t) && t <= now && w.arena.config.state == Finished && w.arena.winner == Some(p)
    requires Principal(w.arena) >= 0 && Fits(Principal(w.arena), now)
    ensures var principal, prize := Principal(w.arena), Principal(w.arena) + w.arena.config.cumulativeYield;
      && 0 < prize <= BalanceOf(w.vault, ARENA, now) <= I128_MAX
      && Owed(w.vault, ARENA, now) == Ok(principal + Yield(principal, now))
      && prize <= principal + Yield(principal, now)
  {
    WinnerHasPlayed(w, t, p);
    BookedLater(w.arena, t, now);
    FittingBalance(w.vault, ARENA, now);
    assert Principal(w.arena) + Yield(Principal(w.arena), now) <= I128_MAX;
    hide Roster, Phase, Accounts, Covered, Sealed, Principal, Yield, Fits, Owed, BalanceOf;
  }

  /**
    The recorded winner's claim passes unless the arena is paused, and pays the whole principal plus the yield of
    every round, limited only by what the vault's token account holds.
   */
  lemma PrizeIsExact(w: World, t: nat, p: Address, now: nat)
    requires Sound(w, t) && t <= now && w.arena.config.state == Finished && w.arena.winner == Some(p)
    requires Principal(w.arena) >= 0 && Fits(Principal(w.arena), now)
    ensures var (v, outcome) := Claim(w, p, now);
      var prize := Principal(w.arena) + w.arena.config.cumulativeYield;
      && (outcome.Pass? <==> !w.arena.config.paused)
      && (outcome.Pass? ==>
            && v.arena.config.state == Settled && PositionOf(v.vault, ARENA) == Accrual(0, true)
            && Balance(v.ledger, p) == Balance(w.ledger, p) + Min(prize, Balance(w.ledger, VAULT))
            && (Balance(v.ledger, p) == Balance(w.ledger, p) + prize <==> prize <= Balance(w.ledger, VAULT))
            && Balance(v.ledger, ARENA) >= Balance(w.ledger, ARENA)
            && forall q :: q > VAULT && q != p ==> Balance(v.ledger, q) == Balance(w.ledger, q))
  {
    WinnerHasPlayed(w, t, p);
    VaultOwesThePrize(w, t, p, now);
    PhaseOfWinner(w, t);
    var prize := Principal(w.arena) + w.arena.config.cumulativeYield;
    assert SatAdd128(Principal(w.arena), w.arena.config.cumulativeYield) == prize;
    WithdrawalPasses(w, now);
    WithdrawalPays(w.vault, w.ledger, ARENA, now);
    hide Sound, Owed, WithdrawAll, Yield, Fits, BalanceOf, SatAdd128;
  }

  /**
    Every claim, without a condition on overflow: it asks for the saturated sum of principal and booked yield. If the
    vault owes anything it passes unless the arena is paused, and pays the least of that sum, what is owed, and what
    the vault's account holds; the arena's own account does not shrink. If not, the arena's own account pays it all.
   */
  lemma ClaimPaysWhatIsOwed(w: World, t: nat, p: Address, now: nat)
    requires Sound(w, t) && w.arena.config.state == Finished && w.arena.winner == Some(p)
    ensures var (v, outcome) := Claim(w, p, now);
      var prize := SatAdd128(Principal(w.arena), w.arena.config.cumulativeYield);
      var owed := Owed(w.vault, ARENA, now);
      && (owed.Ok? <==> Quotable(Principal(w.arena), now))
      && (outcome.Pass? <==> !w.arena.config.paused && (owed.Err? ==> prize <= Balance(w.ledger, ARENA)))
      && (outcome.Pass? ==>
            && v.arena == w.arena.(prizeClaimed := true, config := w.arena.config.(state := Settled))
            && (owed.Ok? ==>
                  && Balance(v.ledger, p) == Balance(w.ledger, p)
                     + Min(prize, Min(owed.value, Balance(w.ledger, VAULT)))
                  && Balance(v.ledger, ARENA) >= Balance(w.ledger, ARENA) >= Principal(w.arena))
            && (owed.Err? ==>
                  && v.vault == w.vault
                  && Balance(v.ledger, p) == Balance(w.ledger, p) + prize
                  && Balance(v.ledger, ARENA) == Balance(w.ledger, ARENA) - prize))
  {
    WinnerHasPlayed(w, t, p);
    PhaseOfWinner(w, t);
    FeesAreCovered(w, t);
    OwedWhileInPlay(w, t, now);
    assert w.arena.config.cumulativeYield >= 0;
    var tried := WithdrawAll(w.vault, w.ledger, ARENA, now);
    if tried.Ok? { WithdrawalPays(w.vault, w.ledger, ARENA, now); }
    hide Sound, Owed, WithdrawAll, Quotable, BalanceOf, Principal;
  }

  /** While in play the arena's own account holds every entry fee. */
  lemma FeesAreCovered(w: World, t: nat)
    requires Sound(w, t) && InPlay(w.arena)
    ensures Balance(w.ledger, ARENA) >= Principal(w.arena)
  {
    hide Accounts, Booked, Sealed, Invested, ActiveOf, WellListed;
    assert w.arena.refunded == {};
  }

  /** While in play, owing something, being able to quote it, and paying out are the same. */
  lemma OwedWhileInPlay(w: World, t: nat, now: nat)
    requires Sound(w, t) && InPlay(w.arena) && w.arena.config.playerCount > 0
    ensures Owed(w.vault, ARENA, now).Ok? <==> Quotable(Principal(w.arena), now)
    ensures Owed(w.vault, ARENA, now).Ok? <==> WithdrawAll(w.vault, w.ledger, ARENA, now).Ok?
  {
    VaultAnswers(w, now);
    var p := Principal(w.arena);
    MulMono(1, w.arena.config.playerCount, w.arena.config.entryFee);
    assert p > 0;
    hide Accounts, Phase, Booked, Sealed, Covered, Prorated, Principal, Roster;
  }

  lemma PhaseOfWinner(w: World, t: nat)
    requires Sound(w, t) && w.arena.config.state == Finished
    ensures !w.arena.prizeClaimed
  {
  }

  lemma WithdrawalPasses(w: World, now: nat)
    requires Owed(w.vault, ARENA, now).Ok? && Owed(w.vault, ARENA, now).value >= 0
    ensures WithdrawAll(w.vault, w.ledger, ARENA, now).Ok?
  {
    hide Owed;
  }

  /** With entry fees up to 2^60 every winner's claim passes, at any time, without a further condition. */
  lemma SmallFeesAlwaysPay(w: World, t: nat, p: Address, now: nat)
    requires Sound(w, t) && t <= now <= U64_MAX && w.arena.config.state == Finished && w.arena.winner == Some(p)
    requires w.arena.config.entryFee <= 0x1000_0000_0000_0000 && !w.arena.config.paused
    ensures var (v, outcome) := Claim(w, p, now);
      && outcome.Pass?
      && Balance(v.ledger, p) == Balance(w.ledger, p)
         + Min(Principal(w.arena) + w.arena.config.cumulativeYield, Balance(w.ledger, VAULT))
  {
    hide Claim, Phase, Accounts, Invested, Covered, Booked, Sealed, Fits, WellListed;
    WinnerHasPlayed(w, t, p);
    SmallFeesFit(w.arena.config.entryFee, w.arena.config.playerCount, now);
    PrizeIsExact(w, t, p, now);
  }

  /** Only where the vault cannot quote the position is the prize paid from the arena's own account instead. */
  lemma PrizeWithoutTheVault(w: World, t: nat, p: Address, now: nat)
    requires Sound(w, t) && w.arena.config.state == Finished && w.arena.winner == Some(p)
    ensures WithdrawAll(w.vault, w.ledger, ARENA, now).Err? <==> !Quotable(Principal(w.arena), now)
    ensures !Quotable(Principal(w.arena), now) ==>
      var (v, outcome) := Claim(w, p, now);
      var prize := SatAdd128(Principal(w.arena), w.arena.config.cumulativeYield);
      && (outcome.Pass? <==> !w.arena.config.paused && prize <= Balance(w.ledger, ARENA))
      && (outcome.Pass? ==> Balance(v.ledger, p) == Balance(w.ledger, p) + prize && v.vault == w.vault)
  {
    WinnerHasPlayed(w, t, p);
    VaultAnswers(w, now);
    PhaseOfWinner(w, t);
    assert w.arena.config.cumulativeYield >= 0;
    hide Sound, WithdrawAll, Quotable;
  }

  // ---- How long a prize stays funded ----------------------------------------------------------------------

  /** Anything but a withdrawal from the vault, a pause, and the winner's own claim. */
  predicate SparesVault(op: Op, winner: Address) {
    match op
    case OpVaultWithdraw(_) => false
    case OpSetPaused(paused) => !paused
    case OpClaim(p) => p != winner
    case _ => true
  }

  /** The winner's prize is waiting, at least `funds` in the vault's account, and the arena not paused. */
  ghost predicate Waiting(w: World, p: Address, principal: int, booked: int, funds: nat) {
    && w.arena.config.state == Finished && w.arena.winner == Some(p) && !w.arena.config.paused
    && Principal(w.arena) == principal && w.arena.config.cumulativeYield == booked
    && funds <= Balance(w.ledger, VAULT)
  }

  /** Nobody else ends a won game, and only a withdrawal takes from the vault's account. */
  lemma OthersSpareVault(w: World, op: Op, now: nat, p: Address)
    requires w.arena.config.state == Finished && w.arena.winner == Some(p) && Authorized(op) && SparesVault(op, p)
    ensures Apply(w, op, now).1.Pass? ==> !EndsGame(op) && (PlaysRound(op) ==> op.OpReveal?)
    ensures Balance(Apply(w, op, now).0.ledger, VAULT) >= Balance(w.ledger, VAULT)
    ensures !w.arena.config.paused ==> !Apply(w, op, now).0.arena.config.paused
  {
    hide WithdrawAll, RefundActive, OpenRound, SettleRound, Deposit, ActiveOf;
  }

  lemma StepKeepsWaiting(w: World, op: Op, now: nat, p: Address, principal: int, booked: int, funds: nat)
    requires Waiting(w, p, principal, booked, funds) && Authorized(op) && SparesVault(op, p)
    ensures Waiting(Apply(w, op, now).0, p, principal, booked, funds)
  {
    hide Apply, ActiveOf, Balance;
    OthersSpareVault(w, op, now, p);
    StepFrame(w, op, now);
    if Apply(w, op, now).1.Fail? { FailureChangesNothing(w, op, now); }
  }

  lemma {:induction false} RunKeepsWaiting(w: World, t: nat, events: seq<Event>, p: Address, principal: int,
                                           booked: int, funds: nat)
    requires Waiting(w, p, principal, booked, funds) && InOrder(t, events)
    requires forall e :: e in events ==> SparesVault(e.op, p)
    ensures Waiting(Run(w, events), p, principal, booked, funds)
    decreases |events|
  {
    hide Apply, Waiting, SparesVault, Authorized;
    if events != [] {
      var e := events[0];
      StepKeepsWaiting(w, e.op, e.now, p, principal, booked, funds);
      RunKeepsWaiting(Apply(w, e.op, e.now).0, e.now, events[1..], p, principal, booked, funds);
    }
  }

  /** A prize the vault's account covers is paid in full, whatever is called before but a withdrawal or a pause. */
  lemma FundedPrizeIsPaidInFull(w: World, t: nat, events: seq<Event>, p: Address, now: nat)
    requires Sound(w, t) && InOrder(t, events) && EndTime(t, events) <= now
    requires w.arena.config.state == Finished && w.arena.winner == Some(p) && !w.arena.config.paused
    requires Principal(w.arena) >= 0 && Fits(Principal(w.arena), now)
    requires Principal(w.arena) + w.arena.config.cumulativeYield <= Balance(w.ledger, VAULT)
    requires forall e :: e in events ==> SparesVault(e.op, p)
    ensures var v := Run(w, events);
      && Claim(v, p, now).1.Pass?
      && Balance(Claim(v, p, now).0.ledger, p)
         == Balance(v.ledger, p) + Principal(w.arena) + w.arena.config.cumulativeYield
  {
    hide Sound, Run, SparesVault, InOrder, EndTime, Claim, Principal, Fits, Balance;
    WinnerHasPlayed(w, t, p);
    var principal, booked := Principal(w.arena), w.arena.config.cumulativeYield;
    BookedNonNegative(w, t);
    RunKeepsWaiting(w, t, events, p, principal, booked, principal + booked);
    RunKeepsSound(w, t, events);
    PrizeIsExact(Run(w, events), EndTime(t, events), p, now);
  }

  lemma BookedNonNegative(w: World, t: nat)
    requires Sound(w, t)
    ensures Principal(w.arena) >= 0 && w.arena.config.cumulativeYield >= 0
  {
  }

  /** After a withdrawal by somebody else the prize is still paid in full exactly if there was enough for both. */
  lemma WithdrawalCompetes(w: World, t: nat, q: Address, p: Address, now: nat)
    requires Sound(w, t) && t <= now && q > VAULT && WithdrawAll(w.vault, w.ledger, q, now).Ok?
    requires w.arena.config.state == Finished && w.arena.winner == Some(p) && !w.arena.config.paused
    requires Principal(w.arena) >= 0 && Fits(Principal(w.arena), now)
    ensures var v, prize := Apply(w, OpVaultWithdraw(q), now).0, Principal(w.arena) + w.arena.config.cumulativeYield;
      var taken := Min(Owed(w.vault, q, now).value, Balance(w.ledger, VAULT));
      && Claim(v, p, now).1.Pass?
      && (Balance(Claim(v, p, now).0.ledger, p) == Balance(v.ledger, p) + prize
          <==> taken + prize <= Balance(w.ledger, VAULT))
  {
    hide Sound, Claim, Principal, Fits, Owed;
    WithdrawalPays(w.vault, w.ledger, q, now);
    StepKeepsSound(w, OpVaultWithdraw(q), t, now);
    var v := Apply(w, OpVaultWithdraw(q), now).0;
    assert v.arena == w.arena && v.ledger == WithdrawAll(w.vault, w.ledger, q, now).value.ledger;
    hide WithdrawAll, Apply, Balance;
    PrizeIsExact(v, now, p, now);
  }

  // ---- One way of paying ----------------------------------------------------------------------------------

  datatype Payout = Prize | Expiry | RefundOf(player: Address)

  function PayoutOf(op: Op): Option<Payout> {
    match op
    case OpClaim(_) => Some(Prize)
    case OpExpire => Some(Expiry)
    case OpClaimRefund(p) => Some(RefundOf(p))
    case _ => None
  }

  predicate Pays(w: World, e: Event, x: Payout) {
    PayoutOf(e.op) == Some(x) && Apply(w, e.op, e.now).1.Pass?
  }

  /** How often a run makes a payout. */
  function Times(w: World, events: seq<Event>, x: Payout): nat
    decreases |events|
  {
    if events == [] then 0
    else (if Pays(w, events[0], x) then 1 else 0) + Times(Apply(w, events[0].op, events[0].now).0, events[1..], x)
  }

  /** How often a payout can still be made from a state on. */
  function Left(a: ArenaState, x: Payout): nat {
    match a.config.state
    case Open => 1
    case Active => 1
    case Cancelled => if x.RefundOf? && x.player !in a.refunded then 1 else 0
    case Finished => if x.Prize? && a.winner.Some? then 1 else 0
    case Settled => 0
  }

  lemma PayoutUsesItUp(w: World, t: nat, e: Event, x: Payout, y: Payout)
    requires Sound(w, t) && Pays(w, e, x) && t <= e.now && Authorized(e.op)
    ensures Left(w.arena, x) == 1
    ensures var s := Apply(w, e.op, e.now).0.arena;
      Left(s, x) == 0 && (y != x && Left(s, y) > 0 ==> x.RefundOf? && y.RefundOf?)
  {
    hide Roster, Accounts, Invested, Covered, Booked, Sealed, ActiveOf, WithdrawAll, Moved, RefundActive;
    hide SatAdd128;
  }

  lemma NothingGivesBack(w: World, t: nat, e: Event, x: Payout)
    requires Sound(w, t) && t <= e.now && Authorized(e.op)
    ensures Left(Apply(w, e.op, e.now).0.arena, x) <= Left(w.arena, x)
  {
    hide Apply, Roster, Accounts, Invested, Covered, Booked, Sealed, ActiveOf;
    StepFrame(w, e.op, e.now);
    StepFollowsLifecycle(w, e.op, e.now);
    if !InPlay(w.arena) { OutOfPlayStays(w, e.op, e.now); }
    if e.op.OpClaimRefund? { RefundsGrow(w, e.op.player); }
  }

  lemma RefundsGrow(w: World, p: Address)
    ensures w.arena.refunded <= ClaimRefund(w, p).0.arena.refunded
    ensures forall now: nat :: Apply(w, OpClaimRefund(p), now) == ClaimRefund(w, p)
  {
    hide Moved;
  }

  /** The prize, the expiry refunds and each player's refund are paid at most once, and not at all once used up. */
  lemma {:induction false} PaidAtMostOnce(w: World, t: nat, events: seq<Event>, x: Payout)
    requires Sound(w, t) && InOrder(t, events)
    ensures Times(w, events, x) <= Left(w.arena, x) <= 1
    decreases |events|
  {
    if events != [] {
      var e := events[0];
      var v := Apply(w, e.op, e.now).0;
      StepKeepsSound(w, e.op, t, e.now);
      if Pays(w, e, x) { PayoutUsesItUp(w, t, e, x, x); } else { NothingGivesBack(w, t, e, x); }
      hide Apply, Sound, Left, Pays;
      PaidAtMostOnce(v, e.now, events[1..], x);
    }
  }

  /** No run pays in two ways: two different payouts can only be the refunds of two players. */
  lemma {:induction false} OneWayOfPaying(w: World, t: nat, events: seq<Event>, x: Payout, y: Payout)
    requires Sound(w, t) && InOrder(t, events) && x != y
    requires Times(w, events, x) > 0 && Times(w, events, y) > 0
    ensures x.RefundOf? && y.RefundOf?
    decreases |events|
  {
    hide Apply, Sound, Left;
    var e := events[0];
    var v := Apply(w, e.op, e.now).0;
    StepKeepsSound(w, e.op, t, e.now);
    if Pays(w, e, x) {
      PayoutUsesItUp(w, t, e, x, y);
      PaidAtMostOnce(v, e.now, events[1..], y);
    } else if Pays(w, e, y) {
      PayoutUsesItUp(w, t, e, y, x);
      PaidAtMostOnce(v, e.now, events[1..], x);
    } else {
      OneWayOfPaying(v, e.now, events[1..], x, y);
    }
  }

  // ---- Nobody left to pay ---------------------------------------------------------------------------------

  /** A settled round leaves the game over without a winner exactly if no active player revealed. */
  lemma RoundStrandsIff(w: World, t: nat, rateBps: nat, now: nat)
    requires Sound(w, t) && ResolveRound(w, rateBps, now).1.Pass?
    ensures var s := ResolveRound(w, rateBps, now).0.arena;
      (s.config.state == Finished && s.winner.None?) <==>
      (forall p :: p in w.arena.board.players ==> !Revealed(w.arena.board, NextRound(w.arena), p))
  {
    hide Roster, Accounts, Invested, Covered, Booked, Sealed;
    RoundSettled(w.arena, rateBps, BalanceOf(w.vault, ARENA, now));
    RoundOutcome(w.arena.board, NextRound(w.arena));
    hide SettleRound, ActiveOf, ResolvePlayers, Ballots, RoundTally, ResolutionOf, Revealed;
  }

  /** The game is over for good: the prize is paid, or there is nobody to pay it to. */
  predicate PlayedOut(a: ArenaState) {
    a.config.state == Settled || (a.config.state == Finished && a.winner.None?)
  }

  lemma PlayedOutStep(w: World, t: nat, op: Op, now: nat)
    requires Sound(w, t) && Authorized(op) && PlayedOut(w.arena)
    ensures var v := Apply(w, op, now).0;
      && v.arena.config.state == w.arena.config.state && v.arena.winner == w.arena.winner
      && Balance(v.ledger, ARENA) >= Balance(w.ledger, ARENA)
  {
    StepFrame(w, op, now);
    OutOfPlayStays(w, op, now);
    StepFollowsLifecycle(w, op, now);
    hide Sound, ActiveOf;
    if Apply(w, op, now).1.Fail? {
      FailureChangesNothing(w, op, now);
    } else if !MovesMoney(op) {
      MoneyStaysPut(w, op, now);
    } else if op.OpVaultDeposit? || op.OpVaultWithdraw? || op.OpTransfer? {
      ElsewhereSpares(w, op, now);
    } else {
      assert false;
    }
    hide Apply;
  }

  /** Once the game is over for good, whatever is called, nothing leaves the arena's account any more. */
  lemma {:induction false} NothingLeavesAfterwards(w: World, t: nat, events: seq<Event>)
    requires Sound(w, t) && InOrder(t, events) && PlayedOut(w.arena)
    ensures var v := Run(w, events);
      && v.arena.config.state == w.arena.config.state && v.arena.winner == w.arena.winner
      && Balance(v.ledger, ARENA) >= Balance(w.ledger, ARENA)
    decreases |events|
  {
    if events != [] {
      var e := events[0];
      PlayedOutStep(w, t, e.op, e.now);
      StepKeepsSound(w, e.op, t, e.now);
      hide Apply, Sound;
      NothingLeavesAfterwards(Apply(w, e.op, e.now).0, e.now, events[1..]);
    }
  }

  /**
    A game that ends without a winner, in a round nobody revealed in, stays so over every run, and the entry fees of
    all its players stay in the arena's account.
   */
  lemma StrandedForGood(w: World, t: nat, rateBps: nat, now: nat, events: seq<Event>)
    requires Sound(w, t) && t <= now && ResolveRound(w, rateBps, now).1.Pass? && InOrder(now, events)
    requires forall p :: p in w.arena.board.players ==> !Revealed(w.arena.board, NextRound(w.arena), p)
    ensures var v := Run(ResolveRound(w, rateBps, now).0, events);
      && v.arena.config.state == Finished && v.arena.winner.None?
      && Balance(v.ledger, ARENA) >= Principal(w.arena)
  {
    var s := ResolveRound(w, rateBps, now).0;
    RoundStrandsIff(w, t, rateBps, now);
    StepKeepsSound(w, OpResolveRound(rateBps), t, now);
    FeesAreCovered(w, t);
    assert s.ledger == w.ledger && s == Apply(w, OpResolveRound(rateBps), now).0;
    hide Sound, ResolveRound, Principal, Revealed;
    NothingLeavesAfterwards(s, now, events);
  }

  /** After a claim paid through the vault, all entry fees stay in the arena's account, whatever is called later. */
  lemma SettledKeepsTheFees(w: World, t: nat, p: Address, now: nat, events: seq<Event>)
    requires Sound(w, t) && t <= now && p > VAULT && Claim(w, p, now).1.Pass? && InOrder(now, events)
    requires Quotable(Principal(w.arena), now)
    ensures var v := Run(Claim(w, p, now).0, events);
      v.arena.config.state == Settled && Balance(v.ledger, ARENA) >= Principal(w.arena)
  {
    hide Sound, Claim, Principal, Owed, Quotable, Balance;
    ClaimantsHaveWon(w, p, now);
    ClaimPaysWhatIsOwed(w, t, p, now);
    var s := Claim(w, p, now).0;
    StepKeepsSound(w, OpClaim(p), t, now);
    assert s == Apply(w, OpClaim(p), now).0;
    NothingLeavesAfterwards(s, now, events);
  }

  lemma ClaimantsHaveWon(w: World, p: Address, now: nat)
    requires Claim(w, p, now).1.Pass?
    ensures w.arena.config.state == Finished && w.arena.winner == Some(p)
  {
    hide WithdrawAll, Moved;
  }

  /** After an expiry, the fees of the players eliminated before it stay in the arena's account for good. */
  lemma ExpiryKeepsTheRest(w: World, t: nat, now: nat, events: seq<Event>)
    requires Sound(w, t) && t <= now && ExpireArena(w, now).1.Pass? && InOrder(now, events)
    ensures var v := Run(ExpireArena(w, now).0, events);
      && v.arena.config.state == Finished && v.arena.winner.None?
      && Balance(v.ledger, ARENA) >= w.arena.config.entryFee * (w.arena.config.playerCount - |ActivePlayers(w.arena)|)
  {
    ExpiryRefundsSurvivors(w, t, now);
    var s := ExpireArena(w, now).0;
    StepKeepsSound(w, OpExpire, t, now);
    assert s == Apply(w, OpExpire, now).0;
    hide Sound, ExpireArena, Principal, Owed, Quotable, ActiveOf;
    NothingLeavesAfterwards(s, now, events);
  }
}
