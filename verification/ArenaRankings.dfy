/** What players are credited with: rounds survived over whole runs, and the ranking a finished game keeps. */
module ArenaRankings {
  import opened MachineInts
  import opened Token
  import opened ArenaTypes
  import opened RwaVault
  import opened StableSorting
  import opened ArenaModel
  import opened ArenaRounds
  import opened ArenaInvariants
  import opened ArenaFunds
  import opened ArenaYield
  import opened ArenaAccounts
  import opened ArenaCommitments
  import opened ArenaRuns

  // ---- One round ------------------------------------------------------------------------------------------

  /** Who comes out of a round active is credited with one more round; nobody else's count changes. */
  lemma SurvivorsAreCredited(b: Board, round: nat, p: Address)
    requires WellListed(b)
    ensures var c := ResolvePlayers(b, round);
      StateOf(c, p).roundsSurvived
      == if IsActive(c, p) then SatAdd32(StateOf(b, p).roundsSurvived, 1) else StateOf(b, p).roundsSurvived
  {
    hide RoundTally, EliminatedOf, NoRepeats;
    if p in b.players { ActiveMeansSurvived(b, round, p); }
  }

  /** Settling takes back exactly the choices of those who go out; clearing takes exactly the round's. */
  lemma ChoicesTakenBack(a: ArenaState, round: nat, p: Address, r: nat)
    requires WellListed(a.board)
    ensures var b, c := a.board, ResolvePlayers(a.board, round);
      && ((p, r) in c.choices <==> (p, r) in b.choices && !(r == round && IsActive(b, p) && !IsActive(c, p)))
      && ((p, r) in c.choices ==> c.choices[(p, r)] == b.choices[(p, r)])
    ensures var d := ClearRound(a, round);
      && ((p, r) in d.board.choices <==> (p, r) in a.board.choices && !(r == round && p in a.board.players))
      && ((p, r) in d.commitments <==> (p, r) in a.commitments && !(r == round && p in a.board.players))
  {
    hide RoundTally, NoRepeats;
    EliminatedAreListed(a.board, round, a.board.players);
    if p in a.board.players { ActiveMeansSurvived(a.board, round, p); }
  }

  lemma {:induction false} EliminatedAreListed(b: Board, round: nat, ps: seq<Address>)
    ensures forall p :: p in EliminatedOf(b, round, ps) <==> p in ps && IsActive(b, p) && !Survives(b, round, p)
  {
    hide IsActive, Survives;
    if ps != [] {
      EliminatedAreListed(b, round, ps[..|ps| - 1]);
      assert ps == ps[..|ps| - 1] + [ps[|ps| - 1]];
    }
  }

  // ---- Whole runs -----------------------------------------------------------------------------------------

  /** The call settles a round the player comes out of active. */
  predicate SettlesFor(w: World, e: Event, p: Address) {
    var (v, outcome) := Apply(w, e.op, e.now);
    e.op.OpResolveRound? && outcome.Pass? && IsActive(v.arena.board, p)
  }

  /** How many rounds settled in a run the player came out of active. */
  function RoundsCameOutOf(w: World, events: seq<Event>, p: Address): nat
    decreases |events|
  {
    if events == [] then 0
    else (if SettlesFor(w, events[0], p) then 1 else 0)
         + RoundsCameOutOf(Apply(w, events[0].op, events[0].now).0, events[1..], p)
  }

  lemma JoiningStartsAtZero(w: World, joining: Address, p: Address)
    requires WellListed(w.arena.board) && w.arena.config.playerCount == |w.arena.board.players|
    ensures StateOf(JoinArena(w, joining).0.arena.board, p).roundsSurvived
      == StateOf(w.arena.board, p).roundsSurvived
  {
    JoinSeats(w, joining);
    hide JoinArena, ActiveOf, NoRepeats;
  }

  lemma SettlingCredits(w: World, e: Event, p: Address)
    requires WellListed(w.arena.board) && e.op.OpResolveRound? && Apply(w, e.op, e.now).1.Pass?
    ensures StateOf(Apply(w, e.op, e.now).0.arena.board, p).roundsSurvived
      == if SettlesFor(w, e, p) then SatAdd32(StateOf(w.arena.board, p).roundsSurvived, 1)
         else StateOf(w.arena.board, p).roundsSurvived
  {
    hide SettleRound, ActiveOf, ResolvePlayers, ResolutionOf, BalanceOf, SatAdd32, WellListed;
    RoundSettled(w.arena, e.op.rateBps, BalanceOf(w.vault, ARENA, e.now));
    SurvivorsAreCredited(w.arena.board, NextRound(w.arena), p);
  }

  lemma StepCredits(w: World, t: nat, e: Event, p: Address)
    requires Sound(w, t)
    ensures StateOf(Apply(w, e.op, e.now).0.arena.board, p).roundsSurvived
      == if SettlesFor(w, e, p) then SatAdd32(StateOf(w.arena.board, p).roundsSurvived, 1)
         else StateOf(w.arena.board, p).roundsSurvived
  {
    hide Phase, Accounts, Invested, Covered, Booked, Sealed, Timed, ActiveOf, SatAdd32, NoRepeats;
    if e.op.OpJoin? {
      JoiningStartsAtZero(w, e.op.player, p);
    } else if e.op.OpResolveRound? && Apply(w, e.op, e.now).1.Pass? {
      SettlingCredits(w, e, p);
    } else if e.op.OpResolveRound? {
      hide Sound;
      FailureChangesNothing(w, e.op, e.now);
    } else {
      hide Sound, Apply;
      StepFrame(w, e.op, e.now);
    }
  }

  lemma {:induction false} CreditsAddUp(w: World, t: nat, events: seq<Event>, p: Address)
    requires Sound(w, t) && InOrder(t, events) && StateOf(w.arena.board, p).roundsSurvived <= U32_MAX
    ensures StateOf(Run(w, events).arena.board, p).roundsSurvived
      == Min(StateOf(w.arena.board, p).roundsSurvived + RoundsCameOutOf(w, events, p), U32_MAX)
    decreases |events|
  {
    hide Apply, Sound, SettlesFor, StateOf;
    if events != [] {
      var e := events[0];
      StepCredits(w, t, e, p);
      StepKeepsSound(w, e.op, t, e.now);
      CreditsAddUp(Apply(w, e.op, e.now).0, e.now, events[1..], p);
    }
  }

  /**
    Over every run from a new arena, a player's count is the number of rounds settled since that they came out of
    active, up to the counter's ceiling; so the leaderboard ranks by just that.
   */
  lemma RoundsSurvivedAreRoundsComeOutOf(w: World, events: seq<Event>, p: Address)
    requires Fresh(w) && InOrder(0, events)
    ensures StateOf(Run(w, events).arena.board, p).roundsSurvived == Min(RoundsCameOutOf(w, events, p), U32_MAX)
  {
    hide Run, InOrder, RoundsCameOutOf;
    FreshIsSound(w, 0);
    NobodyYet(w, p);
    CreditsAddUp(w, 0, events, p);
  }

  lemma NobodyYet(w: World, p: Address)
    requires Fresh(w)
    ensures StateOf(w.arena.board, p).roundsSurvived == 0
  {
  }

  // ---- The ranking of a finished game ---------------------------------------------------------------------

  lemma {:induction false} EntriesFrame(b: Board, c: Board, ps: seq<Address>)
    requires b.playerStates == c.playerStates
    ensures EntriesOf(b, ps) == EntriesOf(c, ps)
  {
    if ps != [] { EntriesFrame(b, c, ps[..|ps| - 1]); }
  }

  lemma RankingIgnoresChoices(b: Board, c: Board, limit: nat)
    requires b.playerStates == c.playerStates && b.players == c.players
    ensures TopPlayers(b, limit) == TopPlayers(c, limit)
  {
    EntriesFrame(b, c, b.players);
    hide StableSort, EntriesOf;
  }

  /**
    The leaderboard is drawn up when settling a round finishes the game, from the players as that round leaves them
    and by the limit in force; settling any other round leaves it.
   */
  lemma FinishingRanksTheFinalBoard(w: World, rateBps: nat, now: nat)
    requires ResolveRound(w, rateBps, now).1.Pass?
    ensures var s := ResolveRound(w, rateBps, now).0.arena;
      s.leaderboard == if s.config.state == Finished then TopPlayers(s.board, w.arena.leaderboardLimit)
                       else w.arena.leaderboard
  {
    hide TopPlayers, ResolutionOf, ResolvePlayers, BalanceOf, ActiveOf;
    var a, balance := w.arena, BalanceOf(w.vault, ARENA, now);
    var s := SettleRound(a, rateBps, balance);
    RankingIgnoresChoices(ResolvePlayers(a.board, NextRound(a)), s.board, a.leaderboardLimit);
  }

  /** The limit in force is the one configured last: so many players are ranked, or all of them if fewer. */
  lemma LeaderboardLimitGoverns(w: World, limit: nat, rateBps: nat, now: nat)
    ensures var (v, outcome) := ConfigureLeaderboardLimit(w, limit);
      && outcome.Pass?
      && (ResolveRound(v, rateBps, now).1.Pass? <==> ResolveRound(w, rateBps, now).1.Pass?)
      && var s := ResolveRound(v, rateBps, now).0.arena;
         (s.config.state == Finished && w.arena.config.state == Active ==>
            |s.leaderboard| == Min(limit, |w.arena.board.players|))
  {
    hide TopPlayers, ResolutionOf, StateAfter, EliminatedOf, BalanceOf, ActiveOf;
    var v := ConfigureLeaderboardLimit(w, limit).0;
    if ResolveRound(v, rateBps, now).1.Pass? {
      FinishingRanksTheFinalBoard(v, rateBps, now);
      var rest := LeaderboardIsTopOfRanking(ResolveRound(v, rateBps, now).0.arena.board, limit);
    }
  }

  /** The leaderboard stands: no call but settling a round changes it. */
  lemma OnlySettlingRanks(w: World, op: Op, now: nat)
    requires !op.OpResolveRound?
    ensures Apply(w, op, now).0.arena.leaderboard == w.arena.leaderboard
  {
    hide WithdrawAll, Moved, Deposit, RefundActive, ComputeCommitment, ActiveOf, BalanceOf;
  }

  /** A game that is over keeps its ranking and its players' counts over every run. */
  lemma {:induction false} FinalRankingStands(w: World, events: seq<Event>)
    requires w.arena.config.state in {Finished, Settled}
    ensures var v := Run(w, events);
      && v.arena.config.state in {Finished, Settled} && v.arena.leaderboard == w.arena.leaderboard
      && v.arena.board.players == w.arena.board.players && v.arena.board.playerStates == w.arena.board.playerStates
    decreases |events|
  {
    hide Apply;
    if events != [] {
      var e := events[0];
      OverStep(w, e.op, e.now);
      FinalRankingStands(Apply(w, e.op, e.now).0, events[1..]);
    }
  }

  lemma OverStep(w: World, op: Op, now: nat)
    requires w.arena.config.state in {Finished, Settled}
    ensures var s := Apply(w, op, now).0.arena;
      && s.config.state in {Finished, Settled} && s.leaderboard == w.arena.leaderboard
      && s.board.players == w.arena.board.players && s.board.playerStates == w.arena.board.playerStates
  {
    hide SettleRound, Deposit, Moved, ActiveOf;
    if op.OpJoin? || op.OpResolveRound? {
      assert Apply(w, op, now).0 == w;
    } else {
      hide Apply;
      StepFollowsLifecycle(w, op, now);
      StepFrame(w, op, now);
      OnlySettlingRanks(w, op, now);
    }
  }
}
