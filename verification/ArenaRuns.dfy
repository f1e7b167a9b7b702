/** Whole runs of the arena with its vault and its token: everything that holds after any sequence of calls. */
module ArenaRuns {
  import opened Wrappers
  import opened MachineInts
  import opened Token
  import opened ArenaTypes
  import opened RwaVault
  import opened ArenaModel
  import opened ArenaInvariants
  import opened ArenaAccounts
  import opened ArenaFunds
  import opened ArenaYield
  import opened ArenaCommitments

  /** A newly initialised arena that has never deposited in its vault; the ledger may hold anything. */
  ghost predicate Fresh(w: World) {
    && (exists admin, fee, lo, hi :: Initialize(admin, fee, lo, hi) == Ok(w.arena))
    && ARENA !in w.vault.positions
  }

  ghost predicate Sound(w: World, t: nat) {
    && Roster(w.arena)
    && Phase(w.arena)
    && Accounts(w.arena)
    && Invested(w)
    && Covered(w)
    && Booked(w.arena, t)
    && Sealed(w.arena, t)
    && Timed(w.arena)
  }

  lemma FreshIsSound(w: World, t: nat)
    requires Fresh(w)
    ensures Sound(w, t)
  {
  }

  lemma StepKeepsSound(w: World, op: Op, t: nat, now: nat)
    requires Sound(w, t) && Authorized(op) && t <= now
    ensures Sound(Apply(w, op, now).0, now)
  {
    hide Apply, Roster, Phase, Accounts, Invested, Covered, Booked, Sealed, Timed;
    StepKeepsRoster(w, op, now);
    StepKeepsPhase(w, op, now);
    StepKeepsAccounts(w, op, now);
    StepKeepsInvested(w, op, now);
    StepKeepsCovered(w, op, now);
    StepKeepsBooked(w, op, t, now);
    StepKeepsSealed(w, op, t, now);
    StepKeepsTimed(w, op, now);
  }

  /** Whatever anybody calls, in whatever order, the arena stays sound. */
  lemma {:induction false} RunKeepsSound(w: World, t: nat, events: seq<Event>)
    requires Sound(w, t) && InOrder(t, events)
    ensures Sound(Run(w, events), EndTime(t, events))
    decreases |events|
  {
    if events != [] {
      hide Apply, Sound;
      StepKeepsSound(w, events[0].op, t, events[0].now);
      RunKeepsSound(Apply(w, events[0].op, events[0].now).0, events[0].now, events[1..]);
    }
  }

  /** Every state a newly initialised arena can reach is sound. */
  lemma FreshRunsAreSound(w: World, events: seq<Event>)
    requires Fresh(w) && InOrder(0, events)
    ensures Sound(Run(w, events), EndTime(0, events))
  {
    hide Run;
    FreshIsSound(w, 0);
    RunKeepsSound(w, 0, events);
  }

  // ---- Runs one call at a time from the end ---------------------------------------------------------------

  /** A run is its front, then its last call. */
  lemma {:induction false} RunSnoc(w: World, t: nat, front: seq<Event>, e: Event)
    ensures Run(w, front + [e]) == Apply(Run(w, front), e.op, e.now).0
    ensures InOrder(t, front + [e]) <==>
      InOrder(t, front) && Authorized(e.op) && EndTime(t, front) <= e.now <= U64_MAX
    ensures EndTime(t, front + [e]) == e.now
    decreases |front|
  {
    hide Apply, Authorized;
    if front == [] {
      assert (front + [e])[1..] == [];
    } else {
      assert (front + [e])[1..] == front[1..] + [e];
      RunSnoc(Apply(w, front[0].op, front[0].now).0, front[0].now, front[1..], e);
    }
  }

  // ---- The vault's books ----------------------------------------------------------------------------------

  lemma StepKeepsVaultBooks(w: World, op: Op, now: nat)
    requires BooksAddUp(w.vault)
    ensures BooksAddUp(Apply(w, op, now).0.vault)
  {
    hide BooksAddUp, WithdrawAll, Deposit, OpenRound, SettleRound, RefundActive, Moved;
    if op.OpJoin? {
      if Deposit(w.vault, ARENA, w.arena.config.entryFee).Ok? {
        DepositPassesIff(w.vault, ARENA, w.arena.config.entryFee);
      }
    } else if op.OpVaultDeposit? {
      if Deposit(w.vault, op.from, op.amount).Ok? { DepositPassesIff(w.vault, op.from, op.amount); }
    } else if op.OpVaultWithdraw? {
      if WithdrawAll(w.vault, w.ledger, op.from, now).Ok? {
        WithdrawalClearsBooks(w.vault, w.ledger, op.from, now);
      }
    } else if op.OpClaim? || op.OpCancel? || op.OpForceCancel? || op.OpExpire? {
      if WithdrawAll(w.vault, w.ledger, ARENA, now).Ok? { WithdrawalClearsBooks(w.vault, w.ledger, ARENA, now); }
    }
  }

  /** Over every run the vault's total is the sum of all principals on its books. */
  lemma {:induction false} RunKeepsVaultBooks(w: World, events: seq<Event>)
    requires BooksAddUp(w.vault)
    ensures BooksAddUp(Run(w, events).vault)
    decreases |events|
  {
    hide Apply, BooksAddUp;
    if events != [] {
      StepKeepsVaultBooks(w, events[0].op, events[0].now);
      RunKeepsVaultBooks(Apply(w, events[0].op, events[0].now).0, events[1..]);
    }
  }

  // ---- The token ------------------------------------------------------------------------------------------

  lemma {:induction false} RefundsConserve(b: Board, fee: int, l: Ledger, ps: seq<Address>)
    requires RefundActive(b, fee, l, ps).Some?
    ensures Supply(RefundActive(b, fee, l, ps).value) == Supply(l)
    decreases |ps|
  {
    if ps != [] {
      if IsActive(b, ps[0]) {
        MoveConserves(l, ARENA, ps[0], fee);
        RefundsConserve(b, fee, Moved(l, ARENA, ps[0], fee).value, ps[1..]);
      } else {
        RefundsConserve(b, fee, l, ps[1..]);
      }
      hide Moved, Supply;
    }
  }

  lemma WithdrawalConserves(v: VaultState, l: Ledger, from: Address, now: nat)
    requires WithdrawAll(v, l, from, now).Ok?
    ensures Supply(WithdrawAll(v, l, from, now).value.ledger) == Supply(l)
  {
    MoveConserves(l, VAULT, from, WithdrawAll(v, l, from, now).value.paid);
  }

  lemma ClaimConserves(w: World, p: Address, now: nat)
    ensures Supply(Claim(w, p, now).0.ledger) == Supply(w.ledger)
  {
    hide WithdrawAll, Moved, Supply, SatAdd128;
    var v := Claim(w, p, now).0;
    if Claim(w, p, now).1.Pass? {
      var c := w.arena.config;
      var payout := SatAdd128(c.entryFee * c.playerCount, c.cumulativeYield);
      var tried := WithdrawAll(w.vault, w.ledger, ARENA, now);
      var ledger := if tried.Ok? then tried.value.ledger else w.ledger;
      var amount := Min(payout, if tried.Ok? then tried.value.paid else payout);
      if tried.Ok? { WithdrawalConserves(w.vault, w.ledger, ARENA, now); }
      MoveConserves(ledger, ARENA, p, amount);
    }
  }

  lemma ExpireConserves(w: World, now: nat)
    ensures Supply(ExpireArena(w, now).0.ledger) == Supply(w.ledger)
  {
    hide WithdrawAll, Moved, Supply, RefundActive;
    if ExpireArena(w, now).1.Pass? {
      var a := w.arena;
      var tried := WithdrawAll(w.vault, w.ledger, ARENA, now);
      if a.config.playerCount > 0 {
        WithdrawalConserves(w.vault, w.ledger, ARENA, now);
        RefundsConserve(a.board, a.config.entryFee, tried.value.ledger, a.board.players);
      } else {
        RefundsConserve(a.board, a.config.entryFee, w.ledger, a.board.players);
      }
    }
  }

  /** No call to any of the three contracts creates or destroys a token. */
  lemma StepConservesTokens(w: World, op: Op, now: nat)
    ensures Supply(Apply(w, op, now).0.ledger) == Supply(w.ledger)
  {
    hide Supply;
    if !MovesMoney(op) {
      MoneyStaysPut(w, op, now);
    } else if op.OpClaim? {
      ClaimConserves(w, op.player, now);
    } else if op.OpExpire? {
      ExpireConserves(w, now);
    } else if op.OpCancel? || op.OpForceCancel? {
      if WithdrawAll(w.vault, w.ledger, ARENA, now).Ok? { WithdrawalConserves(w.vault, w.ledger, ARENA, now); }
      hide WithdrawAll;
    } else if op.OpVaultWithdraw? {
      if WithdrawAll(w.vault, w.ledger, op.from, now).Ok? { WithdrawalConserves(w.vault, w.ledger, op.from, now); }
      hide WithdrawAll;
    } else if op.OpJoin? {
      if JoinArena(w, op.player).1.Pass? { MoveConserves(w.ledger, op.player, ARENA, w.arena.config.entryFee); }
      hide Moved, Deposit;
    } else if op.OpClaimRefund? {
      if ClaimRefund(w, op.player).1.Pass? { MoveConserves(w.ledger, ARENA, op.player, w.arena.config.entryFee); }
      hide Moved;
    } else if op.OpTransfer? {
      if Moved(w.ledger, op.from, op.to, op.amount).Some? { MoveConserves(w.ledger, op.from, op.to, op.amount); }
      hide Moved;
    }
  }

  lemma {:induction false} RunConservesTokens(w: World, events: seq<Event>)
    ensures Supply(Run(w, events).ledger) == Supply(w.ledger)
    decreases |events|
  {
    if events != [] {
      hide Apply, Supply;
      StepConservesTokens(w, events[0].op, events[0].now);
      RunConservesTokens(Apply(w, events[0].op, events[0].now).0, events[1..]);
    }
  }
}
