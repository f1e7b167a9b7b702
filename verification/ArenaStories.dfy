/**
  Two short games from a newly initialised arena: in one a committed player is not heard and the game strands, in the
  other the winner's claim passes and pays nothing.
 */
module ArenaStories {
  import opened Wrappers
  import opened MachineInts
  import opened Token
  import opened ArenaTypes
  import opened RwaVault
  import opened ArenaModel
  import opened ArenaRounds
  import opened ArenaInvariants
  import opened ArenaAccounts
  import opened ArenaFunds
  import opened ArenaRuns
  import opened ArenaPrize
  import opened ArenaReveals

  const ANNA: Address := 2
  const BEN: Address := 3
  const FEE: int := 10

  /** A new arena for two players with a fee each, over a vault whose own account is empty. */
  function Beginning(): World {
    World(Initialize(9, FEE, 2, 2).value, VaultState(true, map[], 0), map[ANNA := 10, BEN := 10])
  }

  /** Both join, a round of a hundred seconds starts, and Anna commits to heads. */
  function Opening(): seq<Event> {
    [Event(OpJoin(ANNA), 1), Event(OpJoin(BEN), 1), Event(OpStartRound(100), 1),
     Event(OpCommit(ANNA, ComputeCommitment(Heads, [])), 50)]
  }

  function Seated(): World {
    var b := Beginning();
    World(b.arena.(lastVaultBalance := 20, config := b.arena.config.(playerCount := 2),
                   board := Board([ANNA, BEN], map[ANNA := PlayerState(true, 0), BEN := PlayerState(true, 0)], map[])),
          VaultState(true, map[ARENA := Accrual(20, false)], 20),
          map[ANNA := 0, BEN := 0, ARENA := 20])
  }

  function Committed(): World {
    var s := Seated();
    s.(arena := s.arena.(config := s.arena.config.(state := Active, commitDeadline := 101),
                         roundStart := Some(1), roundDuration := 100,
                         commitments := map[(ANNA, 1) := ComputeCommitment(Heads, [])]))
  }

  lemma BothJoin()
    ensures JoinArena(JoinArena(Beginning(), ANNA).0, BEN).0 == Seated()
  {
    var w := JoinArena(Beginning(), ANNA).0;
    assert w.arena.board == Board([ANNA], map[ANNA := PlayerState(true, 0)], map[]);
    assert w.ledger == map[ANNA := 0, BEN := 10, ARENA := 10];
    var v := JoinArena(w, BEN).0;
    assert v.arena.board == Seated().arena.board;
    assert v.ledger == Seated().ledger;
    assert v.vault == Seated().vault;
  }

  lemma RoundStarts()
    ensures SubmitCommitment(StartRound(Seated(), 100, 1).0, ANNA, ComputeCommitment(Heads, []), 50).0 == Committed()
  {
    var s := Seated();
    assert s.arena.board.players[..1] == [ANNA] && [ANNA][..0] == [];
    assert ActiveOf(s.arena.board, [ANNA]) == [ANNA];
    assert |ActiveOf(s.arena.board, s.arena.board.players)| == 2;
    assert BalanceOf(s.vault, ARENA, 1) == 20 by { WorthAtStart(); }
    hide ComputeCommitment, ActiveOf, BalanceOf;
    var w := StartRound(s, 100, 1).0;
    assert w.arena.board == s.arena.board && w.arena.commitments == map[];
  }

  lemma WorthAtStart()
    ensures BalanceOf(Seated().vault, ARENA, 1) == 20
  {
    assert BaseYield(20) == Some(1);
    assert Prorated(1, 1) == 0;
  }

  lemma RunOne(w: World, e: Event, rest: seq<Event>)
    ensures Run(w, [e] + rest) == Run(Apply(w, e.op, e.now).0, rest)
    ensures forall t: nat ::
      InOrder(t, [e] + rest) <==> Authorized(e.op) && t <= e.now <= U64_MAX && InOrder(e.now, rest)
    ensures forall t: nat :: EndTime(t, [e] + rest) == EndTime(e.now, rest)
  {
    hide Apply;
    assert ([e] + rest)[1..] == rest;
  }

  /** The opening is a run in order; what it leaves is sound, with Anna committed and nobody revealed. */
  lemma OpeningRuns(rest: seq<Event>)
    ensures Fresh(Beginning()) && Sound(Committed(), 50)
    ensures Run(Beginning(), Opening() + rest) == Run(Committed(), rest)
    ensures InOrder(50, rest) ==> InOrder(0, Opening() + rest)
  {
    hide JoinArena, StartRound, SubmitCommitment, ComputeCommitment, Sound;
    var es := Opening();
    assert Initialize(9, FEE, 2, 2) == Ok(Beginning().arena);
    BothJoin();
    RoundStarts();
    OpeningUnfolds(rest);
    OpeningUnfolds([]);
    assert es + [] == es;
    FreshRunsAreSound(Beginning(), es);
  }

  lemma OpeningUnfolds(rest: seq<Event>)
    ensures Run(Beginning(), Opening() + rest)
      == Run(SubmitCommitment(StartRound(JoinArena(JoinArena(Beginning(), ANNA).0, BEN).0, 100, 1).0, ANNA,
                              ComputeCommitment(Heads, []), 50).0, rest)
    ensures InOrder(50, rest) ==> InOrder(0, Opening() + rest)
    ensures EndTime(0, Opening() + rest) == EndTime(50, rest)
  {
    hide JoinArena, StartRound, SubmitCommitment, ComputeCommitment, Beginning, Run, InOrder, EndTime;
    var es := Opening();
    var w0 := Beginning();
    assert es + rest == [es[0]] + ([es[1]] + ([es[2]] + ([es[3]] + rest)));
    var w1 := JoinArena(w0, ANNA).0;
    var w2 := JoinArena(w1, BEN).0;
    var w3 := StartRound(w2, 100, 1).0;
    RunOne(w0, es[0], [es[1]] + ([es[2]] + ([es[3]] + rest)));
    RunOne(w1, es[1], [es[2]] + ([es[3]] + rest));
    RunOne(w2, es[2], [es[3]] + rest);
    RunOne(w3, es[3], rest);
  }

  // ---- Not heard ------------------------------------------------------------------------------------------

  /** A round nobody revealed in, settled at its deadline. */
  lemma NobodyHeard(w: World, t: nat)
    requires Sound(w, t) && w.arena.config.state == Active && !w.arena.config.paused
    requires w.arena.config.commitDeadline <= 101
    requires w.arena.board.choices == map[] && IsActive(w.arena.board, ANNA)
    ensures var v := ResolveRound(w, 0, 101).0;
      && Eliminated(v.arena.board, ANNA) && v.arena.config.state == Finished && v.arena.winner.None?
      && v.ledger == w.ledger
  {
    hide Sound, ResolveRound, Eliminated, NextRound;
    UnheardPlayersGoOut(w, t, 0, 101, ANNA);
    RoundStrandsIff(w, t, 0, 101);
    MoneyStaysPut(w, OpResolveRound(0), 101);
  }

  lemma BothGoOut()
    requires Sound(Committed(), 50)
    ensures var v := ResolveRound(Committed(), 0, 101).0;
      && Eliminated(v.arena.board, ANNA) && v.arena.config.state == Finished && v.arena.winner.None?
      && v.ledger == map[ANNA := 0, BEN := 0, ARENA := 20]
  {
    hide Sound, ResolveRound, Eliminated, NextRound, ComputeCommitment;
    NobodyHeard(Committed(), 50);
  }

  /** Settled at its deadline, before anyone can reveal, the round is over for both, and both fees stay behind. */
  lemma CommittedButUnheard()
    ensures var events := Opening() + [Event(OpResolveRound(0), 101)];
      var v := Run(Beginning(), events);
      && Fresh(Beginning()) && InOrder(0, events)
      && Eliminated(v.arena.board, ANNA) && v.arena.config.state == Finished && v.arena.winner.None?
      && Balance(v.ledger, ANNA) == 0 && Balance(v.ledger, ARENA) == 2 * FEE
  {
    hide ResolveRound, Sound, Beginning, Committed, Run, InOrder, Opening, Fresh;
    var e := Event(OpResolveRound(0), 101);
    OpeningRuns([e]);
    RunOne(Committed(), e, []);
    assert [e] + [] == [e];
    BothGoOut();
    NoMoreCalls(ResolveRound(Committed(), 0, 101).0, 101);
  }

  lemma NoMoreCalls(w: World, t: nat)
    ensures Run(w, []) == w && InOrder(t, [])
  {
  }

  // ---- Paid nothing ---------------------------------------------------------------------------------------

  /** Anna reveals, alone. */
  function Heard(): World {
    var c := Committed();
    c.(arena := c.arena.(board := c.arena.board.(choices := map[(ANNA, 1) := Heads])))
  }

  lemma AnnaReveals()
    ensures RevealChoice(Committed(), ANNA, Heads, [], 101).0 == Heard()
  {
    hide ComputeCommitment;
    assert Committed().arena.board.choices[(ANNA, 1) := Heads] == Heard().arena.board.choices;
  }

  /** Settled, the round has one survivor, who wins. */
  lemma AnnaWins()
    requires Sound(Heard(), 101)
    ensures var v := ResolveRound(Heard(), 0, 101).0;
      && v.arena.config.state == Finished && v.arena.winner == Some(ANNA) && v.ledger == Heard().ledger
      && v.arena.config.entryFee == FEE && v.arena.config.playerCount == 2 && !v.arena.config.paused
  {
    var w := Heard();
    var b := w.arena.board;
    SettlingOpensWithReveals(w, 101, 0, 101);
    RoundSettled(w.arena, 0, BalanceOf(w.vault, ARENA, 101));
    RoundOutcome(b, 1);
    OneBallot();
    assert NextRound(w.arena) == 1;
    var r := ResolutionOf(b, 1);
    var x := r.winner.value;
    ActiveAreListed(ResolvePlayers(b, 1), b.players);
    assert x in ActiveOf(ResolvePlayers(b, 1), b.players);
    WhoSurvives(b, 1, x);
    hide Sound, SettleRound, ActiveOf, ResolvePlayers, ResolutionOf, RoundTally, Ballots, BalanceOf;
    assert x == ANNA;
  }

  lemma OneBallot()
    ensures Ballots(Heard().arena.board, 1, [ANNA, BEN]) == [Heads]
    ensures var t := RoundTally(Heard().arena.board, 1); t.heads == 1 && t.tails == 0
  {
    var b := Heard().arena.board;
    assert [ANNA, BEN][..1] == [ANNA] && [ANNA][..0] == [];
    assert Ballots(b, 1, [ANNA]) == [Heads];
    assert [Heads][..0] == [];
  }

  /** The winner's claim passes and settles the arena; the vault's account is empty, so it pays nothing. */
  lemma WonButPaidNothing()
    ensures var events := Opening() + [Event(OpReveal(ANNA, Heads, []), 101), Event(OpResolveRound(0), 101),
                                       Event(OpClaim(ANNA), 101)];
      var v := Run(Beginning(), events);
      && Fresh(Beginning()) && InOrder(0, events)
      && v.arena.config.state == Settled && v.arena.winner == Some(ANNA)
      && Balance(v.ledger, ANNA) == 0 && Balance(v.ledger, ARENA) >= 2 * FEE
  {
    hide ResolveRound, RevealChoice, Claim, Sound, Beginning, Heard, Committed, Run, InOrder, Opening, Fresh;
    var heard, settled, paid := Event(OpReveal(ANNA, Heads, []), 101), Event(OpResolveRound(0), 101),
                                Event(OpClaim(ANNA), 101);
    OpeningRuns([heard, settled, paid]);
    assert [heard, settled, paid] == [heard] + ([settled] + ([paid] + []));
    AnnaReveals();
    var w := ResolveRound(Heard(), 0, 101).0;
    RunOne(Committed(), heard, [settled] + ([paid] + []));
    RunOne(Heard(), settled, [paid] + []);
    RunOne(w, paid, []);
    NoMoreCalls(Claim(w, ANNA, 101).0, 101);
    StepKeepsSound(Committed(), heard.op, 50, 101);
    StepKeepsSound(Heard(), settled.op, 101, 101);
    AnnaWins();
    AnnaIsPaid(w);
  }

  lemma AnnaIsPaid(w: World)
    requires Sound(w, 101) && w.arena.config.state == Finished && w.arena.winner == Some(ANNA)
    requires w.ledger == Heard().ledger && w.arena.config.entryFee == FEE && w.arena.config.playerCount == 2
    requires !w.arena.config.paused
    ensures var v := Claim(w, ANNA, 101).0;
      && v.arena.config.state == Settled && v.arena.winner == Some(ANNA)
      && Balance(v.ledger, ANNA) == 0 && Balance(v.ledger, ARENA) >= 2 * FEE
  {
    hide Sound, Claim, Fits;
    WinnerHasPlayed(w, 101, ANNA);
    SmallFeesFit(FEE, 2, 101);
    PrizeIsExact(w, 101, ANNA, 101);
    ClaimPaysWhatIsOwed(w, 101, ANNA, 101);
    BookedIsPositive(w);
  }

  lemma BookedIsPositive(w: World)
    requires Sound(w, 101)
    ensures w.arena.config.cumulativeYield >= 0
  {
  }
}
