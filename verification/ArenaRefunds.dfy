/** Getting out of an arena: when it can be cancelled or expired, and that every refund is then covered. */
module ArenaRefunds {
  import opened MachineInts
  import opened Token
  import opened ArenaTypes
  import opened RwaVault
  import opened StableSorting
  import opened ArenaModel
  import opened ArenaInvariants
  import opened ArenaAccounts
  import opened ArenaFunds
  import opened ArenaYield
  import opened ArenaCommitments
  import opened ArenaRuns

  /** The vault can compute what it owes on a principal: its checked products and sums stay inside i128. */
  predicate Quotable(principal: int, now: nat) {
    InI128(principal * YIELD_BPS_PER_YEAR)
    && InI128(principal + Prorated(DivTrunc(principal * YIELD_BPS_PER_YEAR, 10_000), now))
  }

  // ---- Counting listed players ----------------------------------------------------------------------------

  lemma {:induction false} NoMoreThanListed(ps: seq<Address>, s: set<Address>)
    requires forall p :: p in s ==> p in ps
    ensures |s| <= |ps|
  {
    if ps == [] {
      assert s == {};
    } else {
      var last, front := ps[|ps| - 1], ps[..|ps| - 1];
      assert ps == front + [last];
      NoMoreThanListed(front, s - {last});
      assert |s| <= |s - {last}| + 1;
    }
  }

  /** A listed player without a refund is owed one entry fee of what is unrefunded. */
  lemma OwedMeansCovered(w: World, p: Address)
    requires Roster(w.arena) && Covered(w) && (InPlay(w.arena) || w.arena.config.state == Cancelled)
    requires p in w.arena.board.players && p !in w.arena.refunded
    ensures w.arena.config.entryFee <= Unrefunded(w.arena) <= Balance(w.ledger, ARENA)
  {
    var a := w.arena;
    NoMoreThanListed(a.board.players, a.refunded + {p});
    MulMono(1, a.config.playerCount - |a.refunded|, a.config.entryFee);
  }

  // ---- Refunds after a cancellation -----------------------------------------------------------------------

  /**
    In a cancelled arena, paused or not, whatever the vault paid: a claim passes exactly for a listed player not
    yet refunded, and moves exactly one entry fee from the arena to that player.
   */
  lemma RefundIsDue(w: World, t: nat, p: Address)
    requires Sound(w, t) && w.arena.config.state == Cancelled && p > VAULT
    ensures var v := ClaimRefund(w, p).0;
      && (ClaimRefund(w, p).1.Pass? <==> p in w.arena.board.players && p !in w.arena.refunded)
      && (ClaimRefund(w, p).1.Pass? ==>
            && v.arena == w.arena.(refunded := w.arena.refunded + {p}) && v.vault == w.vault
            && Balance(v.ledger, p) == Balance(w.ledger, p) + w.arena.config.entryFee
            && Balance(v.ledger, ARENA) == Balance(w.ledger, ARENA) - w.arena.config.entryFee
            && forall q :: q != p && q != ARENA ==> Balance(v.ledger, q) == Balance(w.ledger, q))
  {
    hide Phase, Accounts, Invested, Booked, Sealed, Covered;
    if p in w.arena.board.players && p !in w.arena.refunded { OwedMeansCovered(w, p); }
    hide Unrefunded;
  }

  /** The claims of a list of players, one after another. */
  function Refunds(order: seq<Address>, now: nat): seq<Event>
    decreases |order|
  {
    if order == [] then [] else [Event(OpClaimRefund(order[0]), now)] + Refunds(order[1..], now)
  }

  /** Between two ledgers the arena paid one fee to each of the listed players, and no other token moved. */
  ghost predicate PaidEach(l: Ledger, m: Ledger, order: seq<Address>, fee: int) {
    && Balance(m, ARENA) == Balance(l, ARENA) - fee * |order|
    && forall q :: q != ARENA ==> Balance(m, q) == Balance(l, q) + (if q in order then fee else 0)
  }

  lemma PaidOneMoreFee(l: Ledger, m: Ledger, n: Ledger, order: seq<Address>, fee: nat)
    requires order != [] && order[0] !in order[1..]
    requires PaidEach(l, m, [order[0]], fee) && PaidEach(m, n, order[1..], fee)
    ensures PaidEach(l, n, order, fee)
  {
    hide Balance;
    assert order == [order[0]] + order[1..];
    OneMoreFee(fee, |order| - 1);
  }

  /** In whatever order players claim, each is paid one entry fee, and the arena pays no more than that. */
  lemma {:induction false} RefundsInAnyOrder(w: World, t: nat, order: seq<Address>, now: nat)
    requires Sound(w, t) && w.arena.config.state == Cancelled && t <= now
    requires NoRepeats(order)
    requires forall p :: p in order ==> p in w.arena.board.players && p !in w.arena.refunded
    ensures PaidEach(w.ledger, Run(w, Refunds(order, now)).ledger, order, w.arena.config.entryFee)
    decreases |order|
  {
    if order != [] {
      var p, rest := order[0], order[1..];
      var v := RefundStep(w, t, p, now);
      FirstRefund(w, order, now);
      hide Sound, Run, Refunds, PaidEach;
      assert p !in rest && NoRepeats(rest);
      hide NoRepeats;
      RefundsInAnyOrder(v, now, rest, now);
      PaidOneMoreFee(w.ledger, v.ledger, Run(v, Refunds(rest, now)).ledger, order, w.arena.config.entryFee);
    }
  }

  lemma FirstRefund(w: World, order: seq<Address>, now: nat)
    requires order != []
    ensures Run(w, Refunds(order, now)) == Run(ClaimRefund(w, order[0]).0, Refunds(order[1..], now))
  {
    hide ClaimRefund;
    assert Refunds(order, now)[1..] == Refunds(order[1..], now);
  }

  lemma RefundStep(w: World, t: nat, p: Address, now: nat) returns (v: World)
    requires Sound(w, t) && w.arena.config.state == Cancelled && t <= now
    requires p in w.arena.board.players && p !in w.arena.refunded
    ensures v == ClaimRefund(w, p).0 && Sound(v, now) && w.arena.config.entryFee > 0
    ensures v.arena == w.arena.(refunded := w.arena.refunded + {p})
    ensures PaidEach(w.ledger, v.ledger, [p], w.arena.config.entryFee)
  {
    assert p > VAULT;
    RefundIsDue(w, t, p);
    v := ClaimRefund(w, p).0;
    StepKeepsSound(w, OpClaimRefund(p), t, now);
    hide Sound, ClaimRefund;
  }

  /** After a cancellation, and after anything else that follows it, whoever was not refunded still can be. */
  lemma RefundsNeverLapse(w: World, t: nat, events: seq<Event>, p: Address)
    requires Sound(w, t) && w.arena.config.state == Cancelled && InOrder(t, events) && p in w.arena.board.players
    ensures var v := Run(w, events);
      && v.arena.config.state == Cancelled && p in v.arena.board.players
      && (ClaimRefund(v, p).1.Pass? <==> p !in v.arena.refunded)
  {
    assert p > VAULT;
    ExitsAreFinal(w, events);
    RunKeepsSound(w, t, events);
    PlayersStayListed(w, events, p);
    RefundIsDue(Run(w, events), EndTime(t, events), p);
    hide Run, Sound, ClaimRefund;
  }

  lemma {:induction false} PlayersStayListed(w: World, events: seq<Event>, p: Address)
    requires p in w.arena.board.players
    ensures p in Run(w, events).arena.board.players
    decreases |events|
  {
    if events != [] {
      StepFrame(w, events[0].op, events[0].now);
      if events[0].op.OpJoin? { JoinKeepsListed(w, events[0].op.player, p); }
      hide Apply, ActiveOf;
      PlayersStayListed(Apply(w, events[0].op, events[0].now).0, events[1..], p);
    }
  }

  lemma JoinKeepsListed(w: World, joining: Address, p: Address)
    requires p in w.arena.board.players
    ensures p in Apply(w, OpJoin(joining), 0).0.arena.board.players
    ensures forall now: nat :: Apply(w, OpJoin(joining), now) == JoinArena(w, joining)
  {
    hide Deposit, Moved, SatAdd128;
  }

  // ---- When the arena can be left -------------------------------------------------------------------------

  /** While in play the vault owes the arena something it can compute, or refuses because it cannot. */
  lemma VaultAnswers(w: World, now: nat)
    requires Roster(w.arena) && InPlay(w.arena) && Invested(w) && w.arena.config.playerCount > 0
    ensures WithdrawAll(w.vault, w.ledger, ARENA, now).Ok? <==> Quotable(Principal(w.arena), now)
  {
    var p := Principal(w.arena);
    MulMono(1, w.arena.config.playerCount, w.arena.config.entryFee);
    assert p > 0;
    var b := DivTrunc(p * YIELD_BPS_PER_YEAR, 10_000);
    MulMono(0, now, b);
    assert Prorated(b, now) >= 0;
    hide Prorated, Principal, Roster;
  }

  /** An admin's cancellation passes exactly if the arena is open, unpaused, and empty or quotable by the vault. */
  lemma CancelPassesIff(w: World, t: nat, now: nat)
    requires Sound(w, t)
    ensures CancelArena(w, now).1.Pass? <==>
      && w.arena.config.state == Open && !w.arena.config.paused
      && (w.arena.config.playerCount == 0 || Quotable(Principal(w.arena), now))
  {
    hide WithdrawAll, Quotable, Roster, Accounts, Phase, Booked, Sealed;
    if w.arena.config.state == Open && w.arena.config.playerCount > 0 { VaultAnswers(w, now); }
  }

  /** A forced cancellation passes exactly while the game is not over, paused or not, whatever the vault does. */
  lemma ForceCancelPassesIff(w: World, now: nat)
    ensures var (v, outcome) := ForceCancelArena(w, now);
      && (outcome.Pass? <==> w.arena.config.state !in {Finished, Settled})
      && (outcome.Pass? ==> v.arena == w.arena.(config := w.arena.config.(state := Cancelled)))
  {
    hide WithdrawAll;
  }

  /**
    What a cancellation, forced or not, leaves: nothing of the arena changes but its state. If anybody joined and the
    vault can quote the position, the position is closed and the arena gains what is owed as far as the vault's
    account reaches; otherwise neither the vault nor any account changes.
   */
  lemma CancellationPays(w: World, t: nat, op: Op, now: nat)
    requires Sound(w, t) && (op.OpCancel? || op.OpForceCancel?) && Apply(w, op, now).1.Pass?
    requires w.arena.config.state != Cancelled
    ensures var a, v := w.arena, Apply(w, op, now).0;
      && v.arena == a.(config := a.config.(state := Cancelled))
      && (if a.config.playerCount > 0 && Quotable(Principal(a), now) then
            && Owed(w.vault, ARENA, now).Ok?
            && var gain := Min(Owed(w.vault, ARENA, now).value, Balance(w.ledger, VAULT));
               && PositionOf(v.vault, ARENA) == Accrual(0, true)
               && Balance(v.ledger, ARENA) == Balance(w.ledger, ARENA) + gain
               && Balance(v.ledger, VAULT) == Balance(w.ledger, VAULT) - gain
               && forall q :: q > VAULT ==> Balance(v.ledger, q) == Balance(w.ledger, q)
          else v.vault == w.vault && v.ledger == w.ledger)
  {
    hide Sound, Quotable, Owed, Balance, Principal, PositionOf;
    CancellableIsInPlay(w, t, op, now);
    if w.arena.config.playerCount > 0 { OpenVaultAnswers(w, t, now); } else { NothingInvested(w, t, now); }
    if WithdrawAll(w.vault, w.ledger, ARENA, now).Ok? { WithdrawalPays(w.vault, w.ledger, ARENA, now); }
    hide WithdrawAll;
  }

  lemma CancellableIsInPlay(w: World, t: nat, op: Op, now: nat)
    requires Sound(w, t) && (op.OpCancel? || op.OpForceCancel?) && Apply(w, op, now).1.Pass?
    requires w.arena.config.state != Cancelled
    ensures w.arena.config.state in {Open, Active} && InPlay(w.arena)
  {
    hide Sound, WithdrawAll;
  }

  lemma OpenVaultAnswers(w: World, t: nat, now: nat)
    requires Sound(w, t) && InPlay(w.arena) && w.arena.config.playerCount > 0
    ensures WithdrawAll(w.vault, w.ledger, ARENA, now).Ok? <==> Quotable(Principal(w.arena), now)
  {
    hide Phase, Accounts, Covered, Booked, Sealed, Timed;
    VaultAnswers(w, now);
  }

  lemma NothingInvested(w: World, t: nat, now: nat)
    requires Sound(w, t) && InPlay(w.arena) && w.arena.config.playerCount == 0
    ensures WithdrawAll(w.vault, w.ledger, ARENA, now).Err?
  {
    hide Roster, Phase, Accounts, Covered, Booked, Sealed, Timed;
    assert Principal(w.arena) == 0;
  }

  // ---- Expiry ---------------------------------------------------------------------------------------------

  lemma {:induction false} ActiveFromFront(b: Board, ps: seq<Address>)
    requires ps != []
    ensures ActiveOf(b, ps) == (if IsActive(b, ps[0]) then [ps[0]] else []) + ActiveOf(b, ps[1..])
  {
    hide IsActive;
    if |ps| > 1 {
      var front := ps[..|ps| - 1];
      ActiveFromFront(b, front);
      assert front[1..] == ps[1..][..|ps| - 2];
      assert ps[1..][|ps| - 2] == ps[|ps| - 1];
    }
  }

  lemma FeeMoves(l: Ledger, p: Address, fee: nat)
    requires p != ARENA && Balance(l, ARENA) >= fee
    ensures Moved(l, ARENA, p, fee).Some?
    ensures var m := Moved(l, ARENA, p, fee).value;
      && Balance(m, ARENA) == Balance(l, ARENA) - fee
      && forall q :: q != ARENA ==> Balance(m, q) == Balance(l, q) + (if q == p then fee else 0)
  {
  }

  /** Refunding the active players of a list pays each of them one fee, and fails only for lack of funds. */
  lemma {:induction false} RefundActivePays(b: Board, fee: int, l: Ledger, ps: seq<Address>)
    requires fee > 0 && NoRepeats(ps) && forall p :: p in ps ==> p > VAULT
    requires Balance(l, ARENA) >= fee * |ActiveOf(b, ps)|
    ensures RefundActive(b, fee, l, ps).Some?
    ensures var m := RefundActive(b, fee, l, ps).value;
      && Balance(m, ARENA) == Balance(l, ARENA) - fee * |ActiveOf(b, ps)|
      && forall q :: q != ARENA ==>
           Balance(m, q) == Balance(l, q) + (if q in ps && IsActive(b, q) then fee else 0)
    decreases |ps|
  {
    if ps != [] {
      var p, rest := ps[0], ps[1..];
      ActiveFromFront(b, ps);
      assert ps == [p] + rest && p !in rest;
      assert p in ps && forall q :: q in rest ==> q in ps;
      OneMoreFee(fee, |ActiveOf(b, rest)|);
      if IsActive(b, p) {
        assert |ActiveOf(b, ps)| == |ActiveOf(b, rest)| + 1;
        FeeMoves(l, p, fee);
        var next := Moved(l, ARENA, p, fee).value;
        hide ActiveOf, IsActive, Moved, Balance;
        RefundActivePays(b, fee, next, rest);
      } else {
        hide ActiveOf, IsActive, Moved, Balance;
        RefundActivePays(b, fee, l, rest);
      }
    }
  }

  /**
    Expiry passes exactly on an unpaused running arena past its commit deadline whose vault can quote the
    position; it then returns one entry fee to each active player, and can always fund it. What the vault pays in
    and the fees of the eliminated players stay with the arena.
   */
  lemma ExpiryRefundsSurvivors(w: World, t: nat, now: nat)
    requires Sound(w, t)
    ensures var a, v := w.arena, ExpireArena(w, now).0;
      && (ExpireArena(w, now).1.Pass? <==>
            a.config.state == Active && !a.config.paused && a.config.commitDeadline < now
            && Quotable(Principal(a), now))
      && (ExpireArena(w, now).1.Pass? ==>
            && v.arena == a.(config := a.config.(state := Finished)) && v.arena.winner.None?
            && Owed(w.vault, ARENA, now).Ok?
            && Balance(v.ledger, ARENA) == Balance(w.ledger, ARENA)
               + Min(Owed(w.vault, ARENA, now).value, Balance(w.ledger, VAULT))
               - a.config.entryFee * |ActivePlayers(a)|
            && Balance(v.ledger, ARENA) >= a.config.entryFee * (a.config.playerCount - |ActivePlayers(a)|)
            && forall q :: q > VAULT ==>
                 Balance(v.ledger, q) == Balance(w.ledger, q)
                 + (if IsActive(a.board, q) then a.config.entryFee else 0))
  {
    var a := w.arena;
    hide Accounts, Booked, Sealed, Quotable, Owed;
    if a.config.state == Active {
      NoMoreActive(a.board, a.board.players);
      assert a.config.playerCount > 0;
      VaultAnswers(w, now);
      var tried := WithdrawAll(w.vault, w.ledger, ARENA, now);
      if tried.Ok? {
        WithdrawalPays(w.vault, w.ledger, ARENA, now);
        MulMono(|ActivePlayers(a)|, a.config.playerCount, a.config.entryFee);
        assert a.refunded == {} && Unrefunded(a) == a.config.entryFee * a.config.playerCount;
        FeesSplit(a.config.entryFee, a.config.playerCount, |ActivePlayers(a)|);
        hide WithdrawAll;
        RefundActivePays(a.board, a.config.entryFee, tried.value.ledger, a.board.players);
      }
    }
    hide WithdrawAll, ActiveOf, RefundActive, Principal, Unrefunded, Covered, Invested;
  }

  lemma FeesSplit(fee: int, all: int, some: int)
    ensures fee * (all - some) == fee * all - fee * some
  {
  }
}
