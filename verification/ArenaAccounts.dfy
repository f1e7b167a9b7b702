/** The lifecycle every run follows, and the books it leaves: rounds, eliminations and yield snapshots add up. */
module ArenaAccounts {
  import opened MachineInts
  import opened Token
  import opened ArenaTypes
  import opened RwaVault
  import opened ArenaModel
  import opened ArenaRounds
  import opened ArenaInvariants

  // ---- Lifecycle ------------------------------------------------------------------------------------------

  /** Which call moves the lifecycle state from where to where. */
  predicate Moves(op: Op, before: GameState, after: GameState) {
    match op
    case OpStartRound(_) => before == Open && after == Active
    case OpResolveRound(_) => before == Active && (after == Open || after == Finished)
    case OpExpire => before == Active && after == Finished
    case OpClaim(_) => before == Finished && after == Settled
    case OpCancel => before == Open && after == Cancelled
    case OpForceCancel => (before == Open || before == Active) && after == Cancelled
    case _ => false
  }

  lemma RoundMoves(w: World, op: Op, now: nat)
    requires op.OpStartRound? || op.OpResolveRound?
    ensures var before, after := w.arena.config.state, Apply(w, op, now).0.arena.config.state;
      before == after || Moves(op, before, after)
  {
    hide OpenRound, SettleRound, ActiveOf, ResolvePlayers, ResolutionOf;
    if op.OpStartRound? {
      RoundOpened(w.arena, op.duration, now, BalanceOf(w.vault, ARENA, now));
    } else {
      RoundSettled(w.arena, op.rateBps, BalanceOf(w.vault, ARENA, now));
    }
  }

  lemma EndMoves(w: World, op: Op, now: nat)
    requires EndsGame(op)
    ensures var before, after := w.arena.config.state, Apply(w, op, now).0.arena.config.state;
      before == after || Moves(op, before, after)
  {
    hide WithdrawAll, Moved, RefundActive, ActiveOf;
  }

  /** Every change of the lifecycle state is the work of the one call meant for it, and a legal transition. */
  lemma StepFollowsLifecycle(w: World, op: Op, now: nat)
    ensures var before, after := w.arena.config.state, Apply(w, op, now).0.arena.config.state;
      before == after || (Moves(op, before, after) && CanTransition(before, after))
  {
    hide Apply, ActiveOf;
    if op.OpStartRound? || op.OpResolveRound? { RoundMoves(w, op, now); }
    else if EndsGame(op) { EndMoves(w, op, now); }
    else { StepFrame(w, op, now); }
  }

  /** Once cancelled or settled, always cancelled or settled. */
  lemma {:induction false} ExitsAreFinal(w: World, events: seq<Event>)
    requires w.arena.config.state in {Cancelled, Settled}
    ensures Run(w, events).arena.config.state == w.arena.config.state
    decreases |events|
  {
    if events != [] {
      StepFollowsLifecycle(w, events[0].op, events[0].now);
      hide Apply;
      ExitsAreFinal(Apply(w, events[0].op, events[0].now).0, events[1..]);
    }
  }

  predicate Eliminated(b: Board, p: Address) {
    p in b.playerStates && !b.playerStates[p].active
  }

  lemma StepKeepsEliminated(w: World, op: Op, now: nat, p: Address)
    requires Eliminated(w.arena.board, p)
    ensures var b := Apply(w, op, now).0.arena.board;
      Eliminated(b, p) && b.playerStates[p] == w.arena.board.playerStates[p]
  {
    if op.OpJoin? {
      hide Deposit, Moved, SatAdd128;
    } else if op.OpResolveRound? {
      RoundSettled(w.arena, op.rateBps, BalanceOf(w.vault, ARENA, now));
      hide SettleRound, ActiveOf, ResolutionOf, Survives, EliminatedOf;
    } else {
      StepFrame(w, op, now);
      hide Apply, ActiveOf;
    }
  }

  /** Elimination is final: over every run an eliminated player stays so, and can neither commit nor reveal. */
  lemma {:induction false} EliminationIsFinal(w: World, events: seq<Event>, p: Address)
    requires Eliminated(w.arena.board, p)
    ensures var v := Run(w, events);
      && Eliminated(v.arena.board, p) && v.arena.board.playerStates[p] == w.arena.board.playerStates[p]
      && (forall d, now :: SubmitCommitment(v, p, d, now).1.Fail?)
      && (forall c, salt, now :: RevealChoice(v, p, c, salt, now).1.Fail?)
    decreases |events|
  {
    hide ComputeCommitment;
    if events != [] {
      StepKeepsEliminated(w, events[0].op, events[0].now, p);
      hide Apply;
      EliminationIsFinal(Apply(w, events[0].op, events[0].now).0, events[1..], p);
    }
  }

  // ---- Round accounting -----------------------------------------------------------------------------------

  function EliminatedIn(results: map<nat, RoundResult>, rounds: nat): nat {
    if rounds == 0 then 0
    else EliminatedIn(results, rounds - 1) + (if rounds in results then results[rounds].eliminated else 0)
  }

  function AccruedIn(snapshots: map<nat, YieldSnapshot>, rounds: nat): int {
    if rounds == 0 then 0
    else AccruedIn(snapshots, rounds - 1) + (if rounds in snapshots then snapshots[rounds].accrued else 0)
  }

  /** Every finished round left its result and its snapshot, under its own number. */
  ghost predicate RoundsKept(a: ArenaState) {
    forall k :: 1 <= k <= a.config.roundCount ==>
      && k in a.results && k in a.snapshots
      && a.results[k].round == k && a.snapshots[k].round == k
      && a.results[k].yieldSnapshot == a.snapshots[k] && a.snapshots[k].accrued >= 0
  }

  /**
    While the round counter has not run into its ceiling: eliminations by round plus active players make up
    everyone who joined, and the cumulative yield is the sum of the snapshots, up to its saturation.
   */
  ghost predicate Accounts(a: ArenaState) {
    a.config.roundCount < U32_MAX ==>
      && RoundsKept(a)
      && EliminatedIn(a.results, a.config.roundCount) + |ActivePlayers(a)| == |a.board.players|
      && a.config.cumulativeYield == Min(AccruedIn(a.snapshots, a.config.roundCount), I128_MAX)
  }

  lemma {:induction false} EliminatedFrame(results: map<nat, RoundResult>, rounds: nat, r: RoundResult, k: nat)
    requires k > rounds
    ensures EliminatedIn(results[k := r], rounds) == EliminatedIn(results, rounds)
  {
    if rounds > 0 { EliminatedFrame(results, rounds - 1, r, k); }
  }

  lemma {:induction false} AccruedFrame(snapshots: map<nat, YieldSnapshot>, rounds: nat, s: YieldSnapshot, k: nat)
    requires k > rounds
    ensures AccruedIn(snapshots[k := s], rounds) == AccruedIn(snapshots, rounds)
  {
    if rounds > 0 { AccruedFrame(snapshots, rounds - 1, s, k); }
  }

  lemma {:induction false} AccruedNonNegative(a: ArenaState, rounds: nat)
    requires RoundsKept(a) && rounds <= a.config.roundCount
    ensures AccruedIn(a.snapshots, rounds) >= 0
  {
    if rounds > 0 { AccruedNonNegative(a, rounds - 1); }
  }

  lemma SettlingKeepsRounds(a: ArenaState, rateBps: nat, balance: int)
    requires a.config.roundCount < U32_MAX && RoundsKept(a)
    ensures RoundsKept(SettleRound(a, rateBps, balance))
  {
    hide SettleRound, ActiveOf, ResolvePlayers, ResolutionOf;
    RoundSettled(a, rateBps, balance);
  }

  lemma SettlingKeepsHeads(a: ArenaState, rateBps: nat, balance: int)
    requires Roster(a) && NextRound(a) < U32_MAX
    requires EliminatedIn(a.results, a.config.roundCount) + |ActivePlayers(a)| == |a.board.players|
    ensures var s := SettleRound(a, rateBps, balance);
      EliminatedIn(s.results, s.config.roundCount) + |ActivePlayers(s)| == |s.board.players|
  {
    var s, round := SettleRound(a, rateBps, balance), NextRound(a);
    assert round == a.config.roundCount + 1;
    RoundSettled(a, rateBps, balance);
    RoundOutcome(a.board, round);
    hide SettleRound, ActiveOf, ResolvePlayers, ResolutionOf, Ballots, WellListed, NextRound, SatAdd128;
    EliminatedFrame(a.results, round - 1, s.results[round], round);
  }

  lemma SettlingKeepsYield(a: ArenaState, rateBps: nat, balance: int)
    requires RoundsKept(a) && NextRound(a) < U32_MAX
    requires a.config.cumulativeYield == Min(AccruedIn(a.snapshots, a.config.roundCount), I128_MAX)
    ensures var s := SettleRound(a, rateBps, balance);
      s.config.cumulativeYield == Min(AccruedIn(s.snapshots, s.config.roundCount), I128_MAX)
  {
    var s, round := SettleRound(a, rateBps, balance), NextRound(a);
    assert round == a.config.roundCount + 1;
    RoundSettled(a, rateBps, balance);
    AccruedNonNegative(a, round - 1);
    hide SettleRound, ActiveOf, ResolvePlayers, ResolutionOf, RoundsKept, NextRound;
    AccruedFrame(a.snapshots, round - 1, s.snapshots[round], round);
  }

  lemma SettlingKeepsAccounts(a: ArenaState, rateBps: nat, balance: int)
    requires Roster(a) && Accounts(a)
    ensures Accounts(SettleRound(a, rateBps, balance))
  {
    hide SettleRound, ActiveOf, ResolvePlayers, ResolutionOf, RoundsKept, EliminatedIn, AccruedIn, SatAdd128;
    RoundSettled(a, rateBps, balance);
    if NextRound(a) < U32_MAX {
      SettlingKeepsRounds(a, rateBps, balance);
      SettlingKeepsHeads(a, rateBps, balance);
      SettlingKeepsYield(a, rateBps, balance);
    }
  }

  lemma StepKeepsAccounts(w: World, op: Op, now: nat)
    requires Roster(w.arena) && Accounts(w.arena)
    ensures Accounts(Apply(w, op, now).0.arena)
  {
    StepFrame(w, op, now);
    hide ActiveOf, EliminatedIn, AccruedIn, WellListed;
    if op.OpJoin? { JoinSeats(w, op.player); hide JoinArena; }
    else if op.OpResolveRound? {
      SettlingKeepsAccounts(w.arena, op.rateBps, BalanceOf(w.vault, ARENA, now));
      hide Accounts, SettleRound;
    }
    else { hide Apply; }
  }
}
