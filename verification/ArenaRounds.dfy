/** What settling one round means: who stays in, how many, who wins, and who tops the leaderboard. */
module ArenaRounds {
  import opened MachineInts
  import opened Token
  import opened ArenaTypes
  import opened Eliminations
  import opened StableSorting
  import opened ArenaModel

  /** Every listed player has a state, everyone with a state is listed, and nobody twice. */
  ghost predicate WellListed(b: Board) {
    NoRepeats(b.players) && forall p :: p in b.playerStates <==> p in b.players
  }

  lemma {:induction false} ActiveAreListed(b: Board, ps: seq<Address>)
    ensures forall p :: p in ActiveOf(b, ps) <==> p in ps && IsActive(b, p)
  {
    if ps != [] {
      ActiveAreListed(b, ps[..|ps| - 1]);
      assert ps == ps[..|ps| - 1] + [ps[|ps| - 1]];
    }
  }

  lemma {:induction false} SurvivorsAreListed(b: Board, round: nat, ps: seq<Address>)
    ensures forall p :: p in SurvivorsOf(b, round, ps) <==> p in ps && Survives(b, round, p)
  {
    hide Survives;
    if ps != [] {
      SurvivorsAreListed(b, round, ps[..|ps| - 1]);
      assert ps == ps[..|ps| - 1] + [ps[|ps| - 1]];
    }
  }

  /** Each active player of the list either survives or is eliminated. */
  lemma {:induction false} ActiveSplit(b: Board, round: nat, ps: seq<Address>)
    ensures |ActiveOf(b, ps)| == |SurvivorsOf(b, round, ps)| + |EliminatedOf(b, round, ps)|
  {
    if ps != [] {
      var last := ps[|ps| - 1];
      ActiveSplit(b, round, ps[..|ps| - 1]);
      assert Survives(b, round, last) ==> IsActive(b, last);
      hide Survives;
    }
  }

  /** After the round a listed player is active exactly if they survived it. */
  lemma ActiveMeansSurvived(b: Board, round: nat, p: Address)
    requires p in b.players
    ensures IsActive(ResolvePlayers(b, round), p) <==> Survives(b, round, p)
  {
    hide RoundTally;
    assert Survives(b, round, p) ==> IsActive(b, p);
  }

  lemma {:induction false} ActiveAfterRound(b: Board, round: nat, ps: seq<Address>)
    requires forall p :: p in ps ==> p in b.players
    ensures ActiveOf(ResolvePlayers(b, round), ps) == SurvivorsOf(b, round, ps)
  {
    if ps != [] {
      ActiveAfterRound(b, round, ps[..|ps| - 1]);
      ActiveMeansSurvived(b, round, ps[|ps| - 1]);
      hide Survives, ResolvePlayers;
    }
  }

  /** How many ballots of a list were cast for a side that stays in. */
  ghost function Kept(t: Tally, ballots: seq<Choice>): nat {
    (if IsEliminated(Heads, t) then 0 else Votes(ballots, Heads))
    + (if IsEliminated(Tails, t) then 0 else Votes(ballots, Tails))
  }

  lemma VotesAppend(ballots: seq<Choice>, c: Choice, d: Choice)
    ensures Votes(ballots + [c], d) == Votes(ballots, d) + (if c == d then 1 else 0)
  {
    assert (ballots + [c])[..|ballots|] == ballots;
  }

  /** What one more player adds to the ballots. */
  lemma BallotsGrow(b: Board, round: nat, ps: seq<Address>)
    requires ps != []
    ensures var last, front := ps[|ps| - 1], Ballots(b, round, ps[..|ps| - 1]);
      Ballots(b, round, ps) == if Revealed(b, round, last) then front + [b.choices[(last, round)]] else front
  {
  }

  lemma {:induction false} SurvivorsAreKeptBallots(b: Board, round: nat, ps: seq<Address>)
    ensures |SurvivorsOf(b, round, ps)| == Kept(RoundTally(b, round), Ballots(b, round, ps))
  {
    if ps != [] {
      var last := ps[|ps| - 1];
      SurvivorsAreKeptBallots(b, round, ps[..|ps| - 1]);
      BallotsGrow(b, round, ps);
      if Revealed(b, round, last) {
        VotesAppend(Ballots(b, round, ps[..|ps| - 1]), b.choices[(last, round)], Heads);
        VotesAppend(Ballots(b, round, ps[..|ps| - 1]), b.choices[(last, round)], Tails);
      }
      hide RoundTally, Ballots, Votes;
    }
  }

  lemma {:induction false} VotesSum(ballots: seq<Choice>)
    ensures Votes(ballots, Heads) + Votes(ballots, Tails) == |ballots|
  {
    if ballots != [] { VotesSum(ballots[..|ballots| - 1]); }
  }

  lemma {:induction false} SomeBallotMeansRevealed(b: Board, round: nat, ps: seq<Address>)
    ensures Ballots(b, round, ps) == [] <==> forall p :: p in ps ==> !Revealed(b, round, p)
  {
    if ps != [] {
      SomeBallotMeansRevealed(b, round, ps[..|ps| - 1]);
      assert ps == ps[..|ps| - 1] + [ps[|ps| - 1]];
    }
  }

  lemma {:induction false} OwnBallotCounts(b: Board, round: nat, ps: seq<Address>, p: Address)
    requires p in ps && Revealed(b, round, p)
    ensures Votes(Ballots(b, round, ps), b.choices[(p, round)]) > 0
  {
    hide Ballots, Votes;
    var last := ps[|ps| - 1];
    BallotsGrow(b, round, ps);
    if Revealed(b, round, last) {
      VotesAppend(Ballots(b, round, ps[..|ps| - 1]), b.choices[(last, round)], b.choices[(p, round)]);
    }
    if p != last {
      assert p in ps[..|ps| - 1];
      OwnBallotCounts(b, round, ps[..|ps| - 1], p);
    }
  }

  /** Who stays in: a listed player survives exactly if active, revealed, and not on a strict, opposed majority. */
  lemma WhoSurvives(b: Board, round: nat, p: Address)
    requires p in b.players
    ensures IsActive(ResolvePlayers(b, round), p) <==>
      Revealed(b, round, p)
      && var c := b.choices[(p, round)];
         var other := if c == Heads then Tails else Heads;
         !(0 < For(RoundTally(b, round), other) < For(RoundTally(b, round), c))
  {
    ActiveMeansSurvived(b, round, p);
    if Revealed(b, round, p) {
      OwnBallotCounts(b, round, b.players, p);
      MinorityWins(RoundTally(b, round), b.choices[(p, round)]);
    }
  }

  /**
    The counts of a settled round: survivors and eliminated make up the players that were active; nobody survives
    exactly if nobody active revealed; a split leaves fewer than half of the ballots, a tie or a unanimous round
    all of them; and there is a winner exactly if one player is left, namely that player, who survived.
   */
  lemma RoundOutcome(b: Board, round: nat)
    ensures var r, t, n := ResolutionOf(b, round), RoundTally(b, round), |Ballots(b, round, b.players)|;
      && r.survivors + r.eliminated == |ActiveOf(b, b.players)|
      && r.survivors == |ActiveOf(ResolvePlayers(b, round), b.players)|
      && t.heads + t.tails == n
      && (r.survivors == 0 <==> forall p :: p in b.players ==> !Revealed(b, round, p))
      && (r.tied <==> 0 < t.heads == t.tails)
      && (if t.heads > 0 && t.tails > 0 && t.heads != t.tails then 2 * r.survivors < n else r.survivors == n)
      && (r.winner.Some? <==> r.survivors == 1)
      && (r.winner.Some? ==>
            && ActiveOf(ResolvePlayers(b, round), b.players) == [r.winner.value]
            && r.winner.value in b.players && Survives(b, round, r.winner.value))
  {
    hide Ballots, SurvivorsOf, EliminatedOf, ActiveOf, ResolvePlayers, Votes, Survives;
    SurvivorsAreListed(b, round, b.players);
    ActiveSplit(b, round, b.players);
    ActiveAfterRound(b, round, b.players);
    SurvivorsAreKeptBallots(b, round, b.players);
    VotesSum(Ballots(b, round, b.players));
    SomeBallotMeansRevealed(b, round, b.players);
  }

  // ---- When a round eliminates anybody --------------------------------------------------------------------

  /** Every active player revealed. */
  predicate AllHeard(b: Board, round: nat) {
    forall p :: p in b.players && IsActive(b, p) ==> Revealed(b, round, p)
  }

  /** Both sides were chosen, one more often than the other. */
  predicate UnevenSplit(t: Tally) {
    t.heads > 0 && t.tails > 0 && t.heads != t.tails
  }

  /** There are as many ballots as active players if all of them revealed, and fewer otherwise. */
  lemma {:induction false} BallotsOfActive(b: Board, round: nat, ps: seq<Address>)
    ensures |Ballots(b, round, ps)| <= |ActiveOf(b, ps)|
    ensures |Ballots(b, round, ps)| == |ActiveOf(b, ps)| <==>
      forall p :: p in ps && IsActive(b, p) ==> Revealed(b, round, p)
  {
    if ps != [] {
      BallotsOfActive(b, round, ps[..|ps| - 1]);
      BallotsGrow(b, round, ps);
      assert ps == ps[..|ps| - 1] + [ps[|ps| - 1]];
    }
  }

  /** A round eliminates somebody exactly if an active player is not heard, or the ballots split unevenly. */
  lemma RoundEliminatesIff(b: Board, round: nat)
    ensures ResolutionOf(b, round).eliminated > 0 <==> !AllHeard(b, round) || UnevenSplit(RoundTally(b, round))
  {
    hide Ballots, ActiveOf, ResolutionOf, RoundTally, ResolvePlayers, Revealed, Survives;
    RoundOutcome(b, round);
    BallotsOfActive(b, round, b.players);
  }

  /** A round that eliminates nobody leaves exactly the same players active. */
  lemma NobodyGoesOut(b: Board, round: nat, p: Address)
    requires p in b.players && AllHeard(b, round) && !UnevenSplit(RoundTally(b, round))
    ensures IsActive(ResolvePlayers(b, round), p) <==> IsActive(b, p)
  {
    hide RoundTally, ResolvePlayers;
    WhoSurvives(b, round, p);
  }

  /** Two ballots never split unevenly. */
  lemma TwoNeverSplit(b: Board, round: nat)
    requires AllHeard(b, round) && |ActiveOf(b, b.players)| == 2
    ensures !UnevenSplit(RoundTally(b, round))
  {
    BallotsOfActive(b, round, b.players);
    VotesSum(Ballots(b, round, b.players));
    hide Ballots, ActiveOf, Votes;
  }

  // ---- The leaderboard ------------------------------------------------------------------------------------

  lemma {:induction false} EntriesFollowPlayers(b: Board, ps: seq<Address>)
    ensures |EntriesOf(b, ps)| == |ps|
    ensures forall i :: 0 <= i < |ps| ==> EntriesOf(b, ps)[i] == EntryOf(b, ps[i])
  {
    if ps != [] { EntriesFollowPlayers(b, ps[..|ps| - 1]); }
  }

  /**
    The leaderboard continues to a full ranking of all players: best first by rounds survived, equally many rounds in
    join order, every player exactly once and with their own count. So nobody left out beats anybody listed.
   */
  lemma LeaderboardIsTopOfRanking(b: Board, limit: nat) returns (rest: seq<LeaderboardEntry>)
    ensures var top, all := TopPlayers(b, limit), EntriesOf(b, b.players);
      && |top| == Min(limit, |b.players|) && |all| == |b.players|
      && (forall i :: 0 <= i < |all| ==> all[i].player == b.players[i])
      && (forall i :: 0 <= i < |all| && b.players[i] in b.playerStates ==>
            all[i].roundsSurvived == b.playerStates[b.players[i]].roundsSurvived)
      && (forall e: LeaderboardEntry :: BY_ROUNDS(e) == e.roundsSurvived)
      && Descending(top + rest, BY_ROUNDS)
      && multiset(top + rest) == multiset(all)
      && forall k :: WithKey(top + rest, BY_ROUNDS, k) == WithKey(all, BY_ROUNDS, k)
  {
    var all := EntriesOf(b, b.players);
    var sorted := StableSort(all, BY_ROUNDS);
    EntriesFollowPlayers(b, b.players);
    SortFacts(all, BY_ROUNDS);
    forall k ensures WithKey(sorted, BY_ROUNDS, k) == WithKey(all, BY_ROUNDS, k) {
      SortStable(all, BY_ROUNDS, k);
    }
    rest := sorted[|TopPlayers(b, limit)|..];
    assert TopPlayers(b, limit) + rest == sorted;
  }

  // ---- Pages of players -----------------------------------------------------------------------------------

  function FirstPages(ps: seq<Address>, n: nat): seq<Address>
    requires n <= 100
  {
    if n == 0 then [] else FirstPages(ps, n - 1) + PageOf(ps, (n - 1) * PAGE_SIZE, PAGE_SIZE)
  }

  /** Reading page after page yields every player once, in join order. */
  lemma {:induction false} PagesCoverPlayers(ps: seq<Address>, n: nat)
    requires n <= 100
    ensures FirstPages(ps, n) == ps[..Min(n * 50, |ps|)]
  {
    if n > 0 {
      PagesCoverPlayers(ps, n - 1);
      var start := (n - 1) * PAGE_SIZE;
      assert start + PAGE_SIZE == n * PAGE_SIZE;
      if start < |ps| {
        assert ps[..start] + ps[start..Min(n * PAGE_SIZE, |ps|)] == ps[..Min(n * PAGE_SIZE, |ps|)];
      }
    }
  }
}
