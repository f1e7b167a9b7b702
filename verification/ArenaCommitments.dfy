/** Commit and reveal: what the stored commitments and choices are worth at any moment. */
module ArenaCommitments {
  import opened MachineInts
  import opened Token
  import opened ArenaTypes
  import opened RwaVault
  import opened ArenaModel
  import opened ArenaRounds
  import opened ArenaInvariants
  import opened ArenaAccounts

  /** The digest commits to the choice: no other choice opens it, whatever the salt. */
  predicate Binds(d: Digest, c: Choice) {
    d.Sha256? && d.preimage != [] && d.preimage[0] == ToByte(c)
  }

  /** A digest opens to at most one choice, and only with the salt it was made from. */
  lemma CommitmentBinds(c: Choice, salt: seq<nat>, other: Choice, otherSalt: seq<nat>)
    ensures ComputeCommitment(c, salt) == ComputeCommitment(other, otherSalt) <==> c == other && salt == otherSalt
    ensures Binds(ComputeCommitment(c, salt), other) <==> c == other
  {
    var d, e := [ToByte(c)] + salt, [ToByte(other)] + otherSalt;
    assert d[0] == ToByte(c) && e[0] == ToByte(other);
    assert d[1..] == salt && e[1..] == otherSalt;
  }

  /**
    Stored commitments and choices belong to the round to come; a choice is bound by its player's commitment; no
    choice is stored before the commit deadline; and while the arena is open none of either is stored at all.
   */
  ghost predicate Sealed(a: ArenaState, t: nat) {
    && (a.config.state == Open ==> a.commitments == map[] && a.board.choices == map[])
    && (forall seat :: seat in a.commitments ==> seat.0 in a.board.players && seat.1 == NextRound(a))
    && (forall seat :: seat in a.board.choices ==>
          seat in a.commitments && Binds(a.commitments[seat], a.board.choices[seat]))
    && (a.board.choices != map[] ==> a.config.commitDeadline <= t)
  }

  lemma SeatsOf(ps: seq<Address>, round: nat)
    ensures forall seat: Seat :: seat in Seats(ps, round) <==> seat.0 in ps && seat.1 == round
  {
    forall seat: Seat ensures seat in Seats(ps, round) <==> seat.0 in ps && seat.1 == round {
      assert seat == (seat.0, seat.1);
    }
  }

  lemma CommitKeepsSealed(w: World, p: Address, d: Digest, t: nat, now: nat)
    requires Roster(w.arena) && Sealed(w.arena, t) && t <= now
    ensures Sealed(SubmitCommitment(w, p, d, now).0.arena, now)
  {
    hide Binds;
    if SubmitCommitment(w, p, d, now).1.Pass? { assert w.arena.board.choices == map[]; }
  }

  lemma ChoiceKeepsSealed(a: ArenaState, seat: Seat, c: Choice, t: nat)
    requires Sealed(a, t) && a.config.state != Open && a.config.commitDeadline <= t
    requires seat in a.commitments && Binds(a.commitments[seat], c)
    ensures Sealed(a.(board := a.board.(choices := a.board.choices[seat := c])), t)
  {
    hide Binds;
  }

  lemma RevealKeepsSealed(w: World, p: Address, c: Choice, salt: seq<nat>, t: nat, now: nat)
    requires Sealed(w.arena, t) && t <= now
    ensures Sealed(RevealChoice(w, p, c, salt, now).0.arena, now)
  {
    hide ComputeCommitment, Binds;
    if RevealChoice(w, p, c, salt, now).1.Pass? {
      CommitmentBinds(c, salt, c, salt);
      ChoiceKeepsSealed(w.arena, (p, NextRound(w.arena)), c, now);
      hide Sealed;
    }
  }

  /** Starting a round finds nothing to clear. */
  lemma StartClearsNothing(a: ArenaState, t: nat)
    requires Sealed(a, t) && a.config.state == Open
    ensures ClearRound(a, NextRound(a)) == a
  {
    assert a.commitments - Seats(a.board.players, NextRound(a)) == a.commitments;
    assert a.board.choices - Seats(a.board.players, NextRound(a)) == a.board.choices;
  }

  /** Settling a round clears every commitment and every choice there is. */
  lemma SettlingClearsAll(a: ArenaState, rateBps: nat, balance: int, t: nat)
    requires Sealed(a, t)
    ensures var s := SettleRound(a, rateBps, balance); s.commitments == map[] && s.board.choices == map[]
  {
    var s := SettleRound(a, rateBps, balance);
    SeatsOf(a.board.players, NextRound(a));
    assert s.commitments == a.commitments - Seats(a.board.players, NextRound(a));
    assert s.board.choices.Keys <= a.board.choices.Keys - Seats(a.board.players, NextRound(a));
    hide SettleRound, Seats, NextRound, Binds;
  }

  lemma StartKeepsSealed(w: World, duration: nat, t: nat, now: nat)
    requires Sealed(w.arena, t) && t <= now
    ensures Sealed(StartRound(w, duration, now).0.arena, now)
  {
    hide ClearRound, ActiveOf, Binds, BalanceOf;
    if StartRound(w, duration, now).1.Pass? { StartClearsNothing(w.arena, t); }
  }

  lemma ResolveKeepsSealed(w: World, rateBps: nat, t: nat, now: nat)
    requires Sealed(w.arena, t) && t <= now
    ensures Sealed(ResolveRound(w, rateBps, now).0.arena, now)
  {
    hide SettleRound, Binds, BalanceOf;
    SettlingClearsAll(w.arena, rateBps, BalanceOf(w.vault, ARENA, now), t);
  }

  /** Where commitments, choices, rounds and deadline stand and players only join, everything stays sealed. */
  lemma SealedFrame(a: ArenaState, s: ArenaState, t: nat, now: nat)
    requires Sealed(a, t) && t <= now
    requires s.commitments == a.commitments && s.board.choices == a.board.choices
    requires s.config.roundCount == a.config.roundCount && s.config.commitDeadline == a.config.commitDeadline
    requires s.config.state == Open ==> a.config.state == Open
    requires a.board.players <= s.board.players
    ensures Sealed(s, now)
  {
    hide Binds;
  }

  lemma StepKeepsSealed(w: World, op: Op, t: nat, now: nat)
    requires Roster(w.arena) && Sealed(w.arena, t) && t <= now
    ensures Sealed(Apply(w, op, now).0.arena, now)
  {
    hide SubmitCommitment, RevealChoice, StartRound, ResolveRound, Sealed;
    if op.OpCommit? { CommitKeepsSealed(w, op.player, op.commitment, t, now); }
    else if op.OpReveal? { RevealKeepsSealed(w, op.player, op.choice, op.salt, t, now); }
    else if op.OpStartRound? { StartKeepsSealed(w, op.duration, t, now); }
    else if op.OpResolveRound? { ResolveKeepsSealed(w, op.rateBps, t, now); }
    else {
      if op.OpJoin? { JoinSeats(w, op.player); }
      StepFrame(w, op, now);
      StepFollowsLifecycle(w, op, now);
      hide JoinArena, ActiveOf, WellListed, Sealed;
      SealedFrame(w.arena, Apply(w, op, now).0.arena, t, now);
    }
  }

  // ---- The clock of a round -------------------------------------------------------------------------------

  /** A running round's commit deadline is its start plus its duration. */
  predicate Timed(a: ArenaState) {
    a.config.state == Active ==>
      a.roundStart.Some? && a.config.commitDeadline == SatAdd64(a.roundStart.value, a.roundDuration)
  }

  lemma StepKeepsTimed(w: World, op: Op, now: nat)
    requires Timed(w.arena)
    ensures Timed(Apply(w, op, now).0.arena)
  {
    if op.OpStartRound? {
      RoundOpened(w.arena, op.duration, now, BalanceOf(w.vault, ARENA, now));
      hide OpenRound, ActiveOf, SatAdd64;
    } else {
      StepFrame(w, op, now);
      StepFollowsLifecycle(w, op, now);
      hide Apply, ActiveOf, SatAdd64;
    }
  }
}
