/** Every choice that is tallied was committed to before the deadline, revealed after it, and never recommitted. */
module ArenaReveals {
  import opened Wrappers
  import opened MachineInts
  import opened Token
  import opened ArenaTypes
  import opened RwaVault
  import opened ArenaModel
  import opened ArenaRounds
  import opened ArenaInvariants
  import opened ArenaAccounts
  import opened ArenaFunds
  import opened ArenaYield
  import opened ArenaCommitments
  import opened ArenaRuns

  /** The call stores a digest for the seat: its player, in its round. */
  predicate Commits(w: World, e: Event, seat: Seat, d: Digest) {
    e.op == OpCommit(seat.0, d) && Apply(w, e.op, e.now).1.Pass? && NextRound(w.arena) == seat.1
  }

  /** The call stores a choice for the seat. */
  predicate Reveals(w: World, e: Event, seat: Seat, c: Choice, salt: seq<nat>) {
    e.op == OpReveal(seat.0, c, salt) && Apply(w, e.op, e.now).1.Pass? && NextRound(w.arena) == seat.1
  }

  /** The k-th call of a run commits to a digest, in time. */
  predicate CommittedAt(w: World, events: seq<Event>, k: nat, seat: Seat, d: Digest) {
    && k < |events|
    && Commits(Run(w, events[..k]), events[k], seat, d)
    && events[k].now < Run(w, events[..k]).arena.config.commitDeadline
  }

  /** The k-th call of a run reveals a choice, after the deadline. */
  predicate RevealedAt(w: World, events: seq<Event>, k: nat, seat: Seat, c: Choice, salt: seq<nat>) {
    && k < |events|
    && Reveals(Run(w, events[..k]), events[k], seat, c, salt)
    && Run(w, events[..k]).arena.config.commitDeadline <= events[k].now
  }

  // ---- Where a stored commitment or choice comes from -----------------------------------------------------

  /** What the other calls do to commitments and choices: nothing, or they remove some. */
  lemma OnlyCommitsAndRevealsAdd(w: World, op: Op, now: nat)
    requires !op.OpCommit? && !op.OpReveal?
    ensures var s := Apply(w, op, now).0.arena;
      && (forall seat :: seat in s.commitments ==>
            seat in w.arena.commitments && s.commitments[seat] == w.arena.commitments[seat])
      && (forall seat :: seat in s.board.choices ==>
            seat in w.arena.board.choices && s.board.choices[seat] == w.arena.board.choices[seat])
  {
    if op.OpStartRound? {
      hide ActiveOf, BalanceOf;
    } else if op.OpResolveRound? {
      hide EliminatedOf, BalanceOf, TopPlayers, ResolutionOf, StateAfter;
    } else {
      StepFrame(w, op, now);
      hide Apply, ActiveOf;
    }
  }

  lemma CommitmentSource(w: World, e: Event, seat: Seat)
    requires seat in Apply(w, e.op, e.now).0.arena.commitments
    ensures var d := Apply(w, e.op, e.now).0.arena.commitments[seat];
      || (Commits(w, e, seat, d) && e.now < w.arena.config.commitDeadline)
      || (seat in w.arena.commitments && w.arena.commitments[seat] == d && forall d' :: !Commits(w, e, seat, d'))
  {
    if !e.op.OpCommit? && !e.op.OpReveal? {
      OnlyCommitsAndRevealsAdd(w, e.op, e.now);
      hide Apply;
    } else {
      hide ComputeCommitment;
    }
  }

  lemma ChoiceSource(w: World, t: nat, e: Event, seat: Seat)
    requires Sealed(w.arena, t) && t <= e.now && seat in Apply(w, e.op, e.now).0.arena.board.choices
    ensures var s := Apply(w, e.op, e.now).0.arena;
      || (e.op.OpReveal? && seat in w.arena.commitments
          && Reveals(w, e, seat, s.board.choices[seat], e.op.salt) && w.arena.config.commitDeadline <= e.now
          && w.arena.commitments[seat] == ComputeCommitment(s.board.choices[seat], e.op.salt))
      || (seat in w.arena.board.choices && w.arena.board.choices[seat] == s.board.choices[seat])
    ensures forall d :: !Commits(w, e, seat, d)
  {
    if !e.op.OpCommit? && !e.op.OpReveal? {
      OnlyCommitsAndRevealsAdd(w, e.op, e.now);
      hide Apply;
    } else {
      hide ComputeCommitment, Binds;
    }
  }

  // ---- Whole runs -----------------------------------------------------------------------------------------

  /** Looking at an earlier call, later calls do not matter. */
  lemma SameEarlier(w: World, front: seq<Event>, e: Event, k: nat)
    requires k < |front|
    ensures (front + [e])[..k] == front[..k] && (front + [e])[k] == front[k]
  {
  }

  lemma NoLaterCommit(w: World, front: seq<Event>, e: Event, seat: Seat, i: nat)
    requires forall k, d :: i < k < |front| ==> !CommittedAt(w, front, k, seat, d)
    requires forall d :: !Commits(Run(w, front), e, seat, d)
    ensures forall k, d :: i < k < |front| + 1 ==> !CommittedAt(w, front + [e], k, seat, d)
  {
    forall k, d | i < k < |front| + 1 ensures !CommittedAt(w, front + [e], k, seat, d) {
      if k < |front| {
        SameEarlier(w, front, e, k);
        assert !CommittedAt(w, front, k, seat, d);
      } else {
        assert (front + [e])[..k] == front;
      }
      hide Commits, Run;
    }
  }

  /** A stored commitment is the last one its player made for the round. */
  lemma {:induction false} StoredIsLastCommitted(w: World, events: seq<Event>, seat: Seat) returns (i: nat)
    requires seat !in w.arena.commitments && seat in Run(w, events).arena.commitments
    ensures CommittedAt(w, events, i, seat, Run(w, events).arena.commitments[seat])
    ensures forall k, d :: i < k < |events| ==> !CommittedAt(w, events, k, seat, d)
    decreases |events|
  {
    var front, e := events[..|events| - 1], events[|events| - 1];
    assert events == front + [e];
    RunSnoc(w, 0, front, e);
    var v := Run(w, front);
    CommitmentSource(v, e, seat);
    hide Apply, Run, Commits;
    if seat in v.arena.commitments && forall d' :: !Commits(v, e, seat, d') {
      i := StoredIsLastCommitted(w, front, seat);
      SameEarlier(w, front, e, i);
      NoLaterCommit(w, front, e, seat, i);
    } else {
      i := |front|;
    }
  }

  /**
    Every stored choice was committed to before the deadline and revealed after it, with the salt that opens the
    commitment; and its player made no other commitment for the round after that one.
   */
  lemma {:induction false} StoredChoiceWasCommitted(w: World, t: nat, events: seq<Event>, seat: Seat)
    returns (i: nat, j: nat, salt: seq<nat>)
    requires Sound(w, t) && InOrder(t, events)
    requires seat !in w.arena.commitments && seat in Run(w, events).arena.board.choices
    ensures i < j
    ensures var c := Run(w, events).arena.board.choices[seat];
      CommittedAt(w, events, i, seat, ComputeCommitment(c, salt)) && RevealedAt(w, events, j, seat, c, salt)
    ensures forall k, d :: i < k < |events| ==> !CommittedAt(w, events, k, seat, d)
    decreases |events|
  {
    if events == [] { NoChoiceYet(w, t, seat); }
    var front, e := events[..|events| - 1], events[|events| - 1];
    assert events == front + [e];
    RunSnoc(w, t, front, e);
    RunKeepsSound(w, t, front);
    var v := Run(w, front);
    ChoiceSource(v, EndTime(t, front), e, seat);
    hide Apply, Run, Commits, Reveals, Sound, ComputeCommitment;
    if seat in v.arena.board.choices && v.arena.board.choices[seat] == Run(w, events).arena.board.choices[seat] {
      i, j, salt := StoredChoiceWasCommitted(w, t, front, seat);
      SameEarlier(w, front, e, j);
    } else {
      i := StoredIsLastCommitted(w, front, seat);
      j, salt := |front|, e.op.salt;
      assert events[..j] == front;
    }
    SameEarlier(w, front, e, i);
    NoLaterCommit(w, front, e, seat, i);
  }

  lemma NoChoiceYet(w: World, t: nat, seat: Seat)
    requires Sound(w, t) && seat !in w.arena.commitments
    ensures seat !in w.arena.board.choices
  {
  }

  /** No commitment changed, and every stored choice is still there. */
  ghost predicate BallotsStand(a: ArenaState, s: ArenaState) {
    && s.commitments == a.commitments
    && forall seat :: seat in a.board.choices ==>
         seat in s.board.choices && s.board.choices[seat] == a.board.choices[seat]
  }

  /** The round was closed and no ballot is left. */
  predicate BallotsCleared(a: ArenaState, s: ArenaState) {
    s.config.roundCount == NextRound(a) && s.commitments == map[] && s.board.choices == map[]
  }

  lemma RevealAddsOne(w: World, op: Op, now: nat)
    requires op.OpReveal?
    ensures BallotsStand(w.arena, Apply(w, op, now).0.arena)
  {
    hide ComputeCommitment;
  }

  /** Once somebody has revealed it is too late to commit, and too early to start another round. */
  lemma TooLateToCommit(w: World, t: nat, op: Op, now: nat)
    requires Sealed(w.arena, t) && t <= now && w.arena.board.choices != map[] && (op.OpCommit? || op.OpStartRound?)
    ensures Apply(w, op, now).0 == w
  {
    hide OpenRound, ActiveOf, Binds, BalanceOf;
  }

  lemma SettlingClears(w: World, t: nat, op: Op, now: nat)
    requires Sealed(w.arena, t) && op.OpResolveRound?
    ensures var s := Apply(w, op, now).0.arena; s == w.arena || BallotsCleared(w.arena, s)
  {
    hide SettleRound, ActiveOf, ResolvePlayers, ResolutionOf, Sealed, BalanceOf;
    SettlingClearsAll(w.arena, op.rateBps, BalanceOf(w.vault, ARENA, now), t);
    RoundSettled(w.arena, op.rateBps, BalanceOf(w.vault, ARENA, now));
  }

  lemma OtherCallsKeepBallots(w: World, op: Op, now: nat)
    requires op.OpJoin? || !PlaysRound(op)
    ensures BallotsStand(w.arena, Apply(w, op, now).0.arena)
  {
    hide Apply, ActiveOf;
    StepFrame(w, op, now);
  }

  /** Once anyone has revealed, commitments and choices stand until settling the round clears them all. */
  lemma RevealsFreezeBallots(w: World, t: nat, op: Op, now: nat)
    requires Sound(w, t) && t <= now && w.arena.board.choices != map[]
    ensures var s := Apply(w, op, now).0.arena;
      BallotsStand(w.arena, s) || (op.OpResolveRound? && BallotsCleared(w.arena, s))
  {
    hide Roster, Phase, Accounts, Invested, Covered, Booked, Timed, Sealed, Apply;
    if op.OpResolveRound? {
      SettlingClears(w, t, op, now);
    } else if op.OpReveal? {
      RevealAddsOne(w, op, now);
    } else if op.OpCommit? || op.OpStartRound? {
      TooLateToCommit(w, t, op, now);
    } else {
      OtherCallsKeepBallots(w, op, now);
    }
    hide BallotsStand, BallotsCleared;
  }

  /** A round can be settled from the very moment its first reveal can pass: no time is set aside for revealing. */
  lemma SettlingOpensWithReveals(w: World, t: nat, rateBps: nat, now: nat)
    requires Sound(w, t) && w.arena.config.state == Active && !w.arena.config.paused
    ensures ResolveRound(w, rateBps, now).1.Pass? <==> w.arena.config.commitDeadline <= now
    ensures forall p, c, salt :: RevealChoice(w, p, c, salt, now).1.Pass? ==> ResolveRound(w, rateBps, now).1.Pass?
  {
    hide Roster, Phase, Accounts, Invested, Covered, Booked, Sealed, SettleRound, BalanceOf, ComputeCommitment;
  }

  /** From the commit deadline on, settling the round eliminates every active player whose choice is not stored. */
  lemma UnheardPlayersGoOut(w: World, t: nat, rateBps: nat, now: nat, p: Address)
    requires Sound(w, t) && w.arena.config.state == Active && !w.arena.config.paused
    requires w.arena.config.commitDeadline <= now
    requires IsActive(w.arena.board, p) && (p, NextRound(w.arena)) !in w.arena.board.choices
    ensures ResolveRound(w, rateBps, now).1.Pass?
    ensures Eliminated(ResolveRound(w, rateBps, now).0.arena.board, p)
  {
    SettlingOpensWithReveals(w, t, rateBps, now);
    RoundSettled(w.arena, rateBps, BalanceOf(w.vault, ARENA, now));
    assert p in w.arena.board.players;
    WhoSurvives(w.arena.board, NextRound(w.arena), p);
    hide Sound, SettleRound, ActiveOf, BalanceOf, RoundTally, ResolutionOf;
  }

  // ---- When a round starts, and when a turn counts --------------------------------------------------------

  /**
    A round starts exactly in an open, unpaused arena with as many active players as configured; it changes only the
    clock of the round, the state and the yield baseline, which is what the vault says the position is worth.
   */
  lemma StartPassesIff(w: World, t: nat, duration: nat, now: nat)
    requires Sound(w, t)
    ensures var a, (v, outcome) := w.arena, StartRound(w, duration, now);
      && (outcome.Pass? <==>
            a.config.state == Open && !a.config.paused && a.minPlayers <= |ActivePlayers(a)|)
      && (outcome.Pass? ==>
            && v.vault == w.vault && v.ledger == w.ledger
            && v.arena == a.(
                 config := a.config.(state := Active, commitDeadline := SatAdd64(now, duration)),
                 roundStart := Some(now), roundDuration := duration,
                 lastVaultBalance := BalanceOf(w.vault, ARENA, now)))
  {
    hide Roster, Phase, Accounts, Invested, Covered, Booked, Timed, ActiveOf, BalanceOf, SatAdd64;
    if w.arena.config.state == Open { StartClearsNothing(w.arena, t); }
    hide Sound, Sealed, ClearRound;
  }

  /** A commitment that passes is stored for the coming round, awaiting its reveal. */
  lemma CommitmentAwaitsReveal(w: World, t: nat, p: Address, d: Digest, now: nat)
    requires Sound(w, t) && t <= now && SubmitCommitment(w, p, d, now).1.Pass?
    ensures var s := SubmitCommitment(w, p, d, now).0.arena;
      Awaited(s, p, d, s.config.commitDeadline) && now < s.config.commitDeadline
  {
    hide Roster, Phase, Accounts, Invested, Covered, Booked, Timed, Binds;
    assert Sealed(w.arena, t);
    hide Sound;
  }

  /** A reveal that passes puts its player's choice among the ballots of the round, and no second one passes. */
  lemma RevealCounts(w: World, p: Address, c: Choice, salt: seq<nat>, now: nat)
    requires RevealChoice(w, p, c, salt, now).1.Pass?
    ensures var v := RevealChoice(w, p, c, salt, now).0;
      && Revealed(v.arena.board, NextRound(v.arena), p) && v.arena.board.choices[(p, NextRound(v.arena))] == c
      && forall c', salt', later :: RevealChoice(v, p, c', salt', later).1.Fail?
  {
    hide ComputeCommitment;
  }

  // ---- Being heard ----------------------------------------------------------------------------------------

  /** Anything but settling the round, pausing, and the player's own commitments and reveals. */
  predicate Bystanding(op: Op, player: Address) {
    match op
    case OpResolveRound(_) => false
    case OpSetPaused(paused) => !paused
    case OpCommit(p, _) => p != player
    case OpReveal(p, _, _) => p != player
    case _ => true
  }

  /** The player's commitment for the coming round is stored and not yet revealed, in a game under way. */
  predicate Awaited(a: ArenaState, player: Address, d: Digest, deadline: nat) {
    var seat := (player, NextRound(a));
    && a.config.state != Open && !a.config.paused && a.config.commitDeadline == deadline
    && IsActive(a.board, player) && seat !in a.board.choices
    && seat in a.commitments && a.commitments[seat] == d
  }

  lemma BystandersLeaveAwaited(w: World, op: Op, now: nat, player: Address, d: Digest, deadline: nat)
    requires Awaited(w.arena, player, d, deadline) && Bystanding(op, player) && WellListed(w.arena.board)
    ensures Awaited(Apply(w, op, now).0.arena, player, d, deadline)
  {
    StepFollowsLifecycle(w, op, now);
    StepFrame(w, op, now);
    if !op.OpStartRound? { PauseIsExplicit(w, op, now); }
    hide ActiveOf, ComputeCommitment, WithdrawAll;
    if op.OpStartRound? {
      assert Apply(w, op, now).0 == w;
    } else if op.OpJoin? {
      assert Apply(w, op, now).0 == w;
    } else if !op.OpCommit? && !op.OpReveal? {
      hide Apply;
    }
  }

  lemma PauseIsExplicit(w: World, op: Op, now: nat)
    requires !op.OpResolveRound? && !op.OpStartRound?
    ensures !op.OpSetPaused? ==> Apply(w, op, now).0.arena.config.paused == w.arena.config.paused
    ensures op.OpSetPaused? ==> Apply(w, op, now).0.arena.config.paused == op.paused
  {
    hide WithdrawAll, Moved, Deposit, RefundActive, ComputeCommitment;
  }

  /** Whatever others do meanwhile, cancelling and expiring included, a committed choice can still be revealed. */
  lemma {:induction false} CommittedChoiceCanBeRevealed(
    w: World, t: nat, events: seq<Event>, player: Address, c: Choice, salt: seq<nat>, now: nat)
    requires Sound(w, t) && InOrder(t, events)
    requires Awaited(w.arena, player, ComputeCommitment(c, salt), w.arena.config.commitDeadline)
    requires forall e :: e in events ==> Bystanding(e.op, player)
    requires w.arena.config.commitDeadline <= now
    ensures forall c': Choice, salt': seq<nat> ::
      RevealChoice(Run(w, events), player, c', salt', now).1.Pass? <==> c' == c && salt' == salt
    decreases |events|
  {
    if events == [] {
      forall c': Choice, salt': seq<nat>
        ensures RevealChoice(w, player, c', salt', now).1.Pass? <==> c' == c && salt' == salt
      {
        CommitmentBinds(c, salt, c', salt');
        hide ComputeCommitment, Sound;
      }
    } else {
      var e := events[0];
      StepKeepsSound(w, e.op, t, e.now);
      assert WellListed(w.arena.board);
      BystandersLeaveAwaited(w, e.op, e.now, player, ComputeCommitment(c, salt), w.arena.config.commitDeadline);
      assert Apply(w, e.op, e.now).0.arena.config.commitDeadline == w.arena.config.commitDeadline;
      hide Apply, Sound, Awaited, Bystanding, RevealChoice;
      CommittedChoiceCanBeRevealed(Apply(w, e.op, e.now).0, e.now, events[1..], player, c, salt, now);
    }
  }
}
