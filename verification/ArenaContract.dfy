/** The arena contract in place: its persistent entries, its loops, and its calls to the vault and the token. */
module ArenaContracts {
  import opened Wrappers
  import opened MachineInts
  import opened Token
  import opened ArenaTypes
  import opened Eliminations
  import opened RwaVault
  import opened StableSorting
  import M = ArenaModel

  /** One field per persistent entry. */
  class ArenaStorage {
    var config: ArenaConfig
    var players: seq<Address>
    var playerStates: map<Address, PlayerState>
    var banned: set<Address>
    var minPlayers: nat
    var maxPlayers: nat
    var commitments: map<Seat, Digest>
    var choices: map<Seat, Choice>
    var snapshots: map<nat, YieldSnapshot>
    var results: map<nat, RoundResult>
    var roundStart: Option<nat>
    var roundDuration: nat
    var lastVaultBalance: int
    var prizeClaimed: bool
    var winner: Option<Address>
    var refunded: set<Address>
    var leaderboard: seq<LeaderboardEntry>
    var leaderboardLimit: nat
    var pendingAdmin: Option<Address>

    constructor (a: ArenaState)
      ensures View() == a
    {
      config, banned := a.config, a.banned;
      players, playerStates, choices := a.board.players, a.board.playerStates, a.board.choices;
      minPlayers, maxPlayers := a.minPlayers, a.maxPlayers;
      commitments, snapshots, results := a.commitments, a.snapshots, a.results;
      roundStart, roundDuration, lastVaultBalance := a.roundStart, a.roundDuration, a.lastVaultBalance;
      prizeClaimed, winner, refunded := a.prizeClaimed, a.winner, a.refunded;
      leaderboard, leaderboardLimit, pendingAdmin := a.leaderboard, a.leaderboardLimit, a.pendingAdmin;
    }

    ghost function BoardView(): Board
      reads this
    {
      Board(players, playerStates, choices)
    }

    ghost function View(): ArenaState
      reads this
    {
      ArenaState(config, BoardView(), banned, minPlayers, maxPlayers, commitments, snapshots, results, roundStart,
                 roundDuration, lastVaultBalance, prizeClaimed, winner, refunded, leaderboard, leaderboardLimit,
                 pendingAdmin)
    }

    method AddPlayer(p: Address)
      modifies this`players, this`playerStates, this`config
      ensures View() == M.AddPlayer(old(View()), p)
    {
      players := players + [p];
      playerStates := playerStates[p := PlayerState(true, 0)];
      config := config.(playerCount := |players|);
    }

    method ClearRoundData(round: nat)
      modifies this`choices, this`commitments
      ensures View() == M.ClearRound(old(View()), round)
    {
      for i := 0 to |players|
        invariant choices == old(choices) - M.Seats(players[..i], round)
        invariant commitments == old(commitments) - M.Seats(players[..i], round)
      {
        SeatsGrow(players, i, round);
        choices := choices - {(players[i], round)};
        commitments := commitments - {(players[i], round)};
      }
      assert players[..|players|] == players;
    }

    static lemma SeatsGrow(ps: seq<Address>, i: nat, round: nat)
      requires i < |ps|
      ensures M.Seats(ps[..i + 1], round) == M.Seats(ps[..i], round) + {(ps[i], round)}
    {
      assert ps[..i + 1] == ps[..i] + [ps[i]];
    }

    /** Up to `count` players from position `start` on. */
    method LoadPlayerPage(start: nat, count: nat) returns (page: seq<Address>)
      requires start <= U32_MAX
      ensures page == M.PageOf(players, start, count)
    {
      page := [];
      if start >= |players| { return; }
      var end := Min(SatAdd32(start, count), |players|);
      for i := start to end
        invariant page == players[start..i]
      {
        page := page + [players[i]];
      }
    }

    /** Counts the active players. */
    method CountActive() returns (n: nat)
      ensures n == |M.ActiveOf(BoardView(), players)|
    {
      n := 0;
      for i := 0 to |players|
        invariant n == |M.ActiveOf(BoardView(), players[..i])|
      {
        assert players[..i + 1][..i] == players[..i];
        if players[i] in playerStates && playerStates[players[i]].active { n := n + 1; }
      }
      assert players[..|players|] == players;
    }

    /** The choices active players revealed in the round. */
    method CollectBallots(round: nat) returns (ballots: seq<Choice>)
      ensures ballots == M.Ballots(BoardView(), round, players)
    {
      ballots := [];
      for i := 0 to |players|
        invariant ballots == M.Ballots(BoardView(), round, players[..i])
      {
        assert players[..i + 1][..i] == players[..i];
        var p := players[i];
        if p in playerStates && playerStates[p].active && (p, round) in choices {
          ballots := ballots + [choices[(p, round)]];
        }
      }
      assert players[..|players|] == players;
    }

    static lemma {:induction false} EliminatedAreListed(b: Board, round: nat, ps: seq<Address>)
      ensures forall p :: p in M.EliminatedOf(b, round, ps) ==> p in ps
    {
      if ps != [] { EliminatedAreListed(b, round, ps[..|ps| - 1]); }
    }

    /** What walking one more player adds to the lists of the walk. */
    static lemma WalkGrows(b: Board, round: nat, ps: seq<Address>, i: nat)
      requires i < |ps|
      ensures M.EliminatedOf(b, round, ps[..i + 1]) == M.EliminatedOf(b, round, ps[..i])
        + (if M.IsActive(b, ps[i]) && !M.Survives(b, round, ps[i]) then [ps[i]] else [])
      ensures M.SurvivorsOf(b, round, ps[..i + 1]) == M.SurvivorsOf(b, round, ps[..i])
        + (if M.Survives(b, round, ps[i]) then [ps[i]] else [])
      ensures forall p :: p in ps[..i + 1] <==> p in ps[..i] || p == ps[i]
    {
      assert ps[..i + 1][..i] == ps[..i];
    }

    /** The walk over the players so far: `b` is the board it started from. */
    ghost predicate Walked(b: Board, round: nat, i: nat)
      reads this
      requires i <= |b.players|
    {
      && players == b.players
      && playerStates.Keys == b.playerStates.Keys
      && (forall p :: p in b.playerStates ==>
            playerStates[p] == if p in players[..i] then M.StateAfter(b, round, p) else b.playerStates[p])
      && choices == b.choices - M.Seats(M.EliminatedOf(b, round, players[..i]), round)
    }

    /** Eliminates or advances one player; tells whether they were active, and whether they survived. */
    method ResolvePlayer(ghost b: Board, round: nat, i: nat, tally: Tally) returns (active: bool, survived: bool)
      requires i < |players| && NoRepeats(players) && tally == M.RoundTally(b, round)
      requires i <= |b.players| && Walked(b, round, i)
      modifies this`playerStates, this`choices
      ensures i + 1 <= |b.players| && Walked(b, round, i + 1)
      ensures active == M.IsActive(b, players[i]) && survived == M.Survives(b, round, players[i])
    {
      hide M.RoundTally, M.EliminatedOf, M.SurvivorsOf;
      var p := players[i];
      WalkGrows(b, round, players, i);
      EliminatedAreListed(b, round, players[..i]);
      assert p !in players[..i];
      active := p in playerStates && playerStates[p].active;
      if !active { return active, false; }
      var state := playerStates[p];
      survived := (p, round) in choices && !IsEliminated(choices[(p, round)], tally);
      if survived {
        playerStates := playerStates[p := PlayerState(true, SatAdd32(state.roundsSurvived, 1))];
      } else {
        choices := choices - {(p, round)};
        playerStates := playerStates[p := state.(active := false)];
      }
    }

    /** Tallies the round, then walks the players once more, eliminating and advancing them one at a time. */
    method ResolvePlayers(round: nat) returns (r: M.Resolution)
      requires NoRepeats(players)
      modifies this`playerStates, this`choices
      ensures BoardView() == M.ResolvePlayers(old(BoardView()), round)
      ensures r == M.ResolutionOf(old(BoardView()), round)
    {
      ghost var b := BoardView();
      var ballots := CollectBallots(round);
      var tally := TallyChoices(ballots);
      assert tally == M.RoundTally(b, round);
      WalkStarts(b, round);
      hide M.RoundTally, M.EliminatedOf, M.SurvivorsOf, M.Survives, M.ResolvePlayers, Walked;
      var tied := tally.heads > 0 && tally.heads == tally.tails;
      var eliminated, survivors := 0, 0;
      var winner: Option<Address> := None;
      for i := 0 to |players|
        invariant players == b.players && Walked(b, round, i)
        invariant eliminated == |M.EliminatedOf(b, round, players[..i])|
        invariant survivors == |M.SurvivorsOf(b, round, players[..i])|
        invariant survivors > 0 ==> winner == Some(M.SurvivorsOf(b, round, players[..i])[survivors - 1])
      {
        WalkGrows(b, round, players, i);
        var p := players[i];
        var active, survived := ResolvePlayer(b, round, i, tally);
        if active {
          if survived {
            survivors := survivors + 1;
            winner := Some(p);
          } else {
            eliminated := eliminated + 1;
          }
        }
        SurvivorsAreActive(b, round, p);
      }
      assert players == b.players && players[..|players|] == players;
      WalkEnds(b, round);
      r := M.Resolution(eliminated, survivors, if survivors == 1 then winner else None, tied);
    }

    static lemma SurvivorsAreActive(b: Board, round: nat, p: Address)
      ensures M.Survives(b, round, p) ==> M.IsActive(b, p)
    {
    }

    lemma WalkStarts(b: Board, round: nat)
      requires b == BoardView()
      ensures Walked(b, round, 0)
      ensures M.EliminatedOf(b, round, players[..0]) == [] && M.SurvivorsOf(b, round, players[..0]) == []
    {
      assert M.Seats([], round) == {};
    }

    lemma WalkEnds(b: Board, round: nat)
      requires Walked(b, round, |b.players|)
      ensures BoardView() == M.ResolvePlayers(b, round)
    {
      assert players[..|players|] == players;
      assert playerStates == M.ResolvePlayers(b, round).playerStates;
    }

    /** Position of the first entry nobody beats. */
    static method BestEntry(entries: seq<LeaderboardEntry>) returns (best: nat)
      requires entries != []
      ensures FirstMax(entries, M.BY_ROUNDS, best)
    {
      best := 0;
      var rounds := entries[0].roundsSurvived;
      for j := 1 to |entries|
        invariant best < j && rounds == entries[best].roundsSurvived
        invariant forall i :: 0 <= i < best ==> entries[i].roundsSurvived < rounds
        invariant forall i :: best < i < j ==> entries[i].roundsSurvived <= rounds
      {
        if entries[j].roundsSurvived > rounds {
          rounds := entries[j].roundsSurvived;
          best := j;
        }
      }
    }

    /** Moving the best remaining entry to the end of those picked leaves the ranking as it is. */
    static lemma OnePick(picked: seq<LeaderboardEntry>, entries: seq<LeaderboardEntry>, best: nat)
      requires FirstMax(entries, M.BY_ROUNDS, best)
      ensures picked + StableSort(entries, M.BY_ROUNDS)
        == picked + [entries[best]] + StableSort(Without(entries, best), M.BY_ROUNDS)
    {
      FirstMaxLeads(entries, M.BY_ROUNDS, best);
      hide StableSort, FirstMax;
    }

    /** Partial selection: picks the best remaining entry k times. */
    static method SelectBest(all: seq<LeaderboardEntry>, k: nat) returns (top: seq<LeaderboardEntry>)
      requires k <= |all|
      ensures |StableSort(all, M.BY_ROUNDS)| == |all| && top == StableSort(all, M.BY_ROUNDS)[..k]
    {
      SortFacts(all, M.BY_ROUNDS);
      hide StableSort, Descending, FirstMax;
      ghost var ranking := StableSort(all, M.BY_ROUNDS);
      var entries := all;
      top := [];
      for i := 0 to k
        invariant |top| == i && |entries| == |all| - i
        invariant ranking == top + StableSort(entries, M.BY_ROUNDS)
      {
        var best := BestEntry(entries);
        assert best < |entries| by { IndexOfMax(entries, best); }
        OnePick(top, entries, best);
        top := top + [entries[best]];
        entries := Without(entries, best);
      }
    }

    static lemma IndexOfMax(entries: seq<LeaderboardEntry>, best: nat)
      requires FirstMax(entries, M.BY_ROUNDS, best)
      ensures best < |entries|
    {
    }

    method CollectEntries() returns (entries: seq<LeaderboardEntry>)
      ensures entries == M.EntriesOf(BoardView(), players) && |entries| == |players|
    {
      entries := [];
      for i := 0 to |players|
        invariant entries == M.EntriesOf(BoardView(), players[..i]) && |entries| == i
      {
        assert players[..i + 1][..i] == players[..i];
        var rounds := if players[i] in playerStates then playerStates[players[i]].roundsSurvived else 0;
        entries := entries + [LeaderboardEntry(players[i], rounds)];
      }
      assert players[..|players|] == players;
    }

    method BuildLeaderboard()
      modifies this`leaderboard
      ensures leaderboard == M.TopPlayers(BoardView(), leaderboardLimit)
    {
      var entries := CollectEntries();
      leaderboard := SelectBest(entries, Min(leaderboardLimit, |players|));
    }

    /** Books the yield since the last balance under the round being settled. */
    method TakeSnapshot(rateBps: nat, balance: int)
      modifies this`snapshots, this`lastVaultBalance, this`config
      ensures View() == M.Snapshotted(old(View()), rateBps, balance)
    {
      hide SatAdd128;
      var round := SatAdd32(config.roundCount, 1);
      var accrued := if balance >= lastVaultBalance then balance - lastVaultBalance else 0;
      snapshots := snapshots[round := YieldSnapshot(round, rateBps, accrued)];
      lastVaultBalance := balance;
      config := config.(cumulativeYield := SatAdd128(config.cumulativeYield, accrued));
    }

    /** Books the yield, settles the players, records the result and closes or reopens the arena. */
    method SettleRound(rateBps: nat, balance: int)
      requires NoRepeats(players)
      modifies this
      ensures View() == M.SettleRound(old(View()), rateBps, balance)
    {
      hide M.ResolutionOf, M.ResolvePlayers, M.TopPlayers, M.ClearRound, M.Snapshotted;
      ghost var a := View();
      var round := SatAdd32(config.roundCount, 1);
      TakeSnapshot(rateBps, balance);
      ghost var s := View();
      SnapshotLeaves(a, rateBps, balance);
      var resolution := ResolvePlayers(round);
      CloseRound(round, resolution);
      ClearRoundData(round);
    }

    static lemma SnapshotLeaves(a: ArenaState, rateBps: nat, balance: int)
      ensures var s := M.Snapshotted(a, rateBps, balance);
        && s.board == a.board && s.results == a.results && s.winner == a.winner && s.leaderboard == a.leaderboard
        && s.leaderboardLimit == a.leaderboardLimit && M.NextRound(a) in s.snapshots
    {
    }

    method BeginRound(duration: nat, now: nat, balance: int)
      modifies this`lastVaultBalance, this`config, this`roundStart, this`roundDuration
      ensures View() == M.BeginRound(old(View()), duration, now, balance)
    {
      hide SatAdd64;
      lastVaultBalance := balance;
      config := config.(commitDeadline := SatAdd64(now, duration), state := Active);
      roundStart := Some(now);
      roundDuration := duration;
    }

    /** Clears what an earlier round may have left and opens the next one. */
    method OpenRound(duration: nat, now: nat, balance: int)
      modifies this`choices, this`commitments, this`lastVaultBalance, this`config, this`roundStart, this`roundDuration
      ensures View() == M.OpenRound(old(View()), duration, now, balance)
    {
      hide M.ClearRound, M.BeginRound;
      ClearRoundData(SatAdd32(config.roundCount, 1));
      BeginRound(duration, now, balance);
    }

    method SetSettled(claimed: bool, newConfig: ArenaConfig)
      modifies this`prizeClaimed, this`config
      ensures View() == old(View()).(prizeClaimed := claimed, config := newConfig)
    {
      prizeClaimed, config := claimed, newConfig;
    }

    method RecordResult(round: nat, resolution: M.Resolution)
      requires round in snapshots
      modifies this`results, this`winner
      ensures View() == old(View()).(
        results := old(results)[
          round := RoundResult(round, resolution.eliminated, resolution.survivors, snapshots[round])],
        winner := if resolution.survivors <= 1 && resolution.winner.Some? then resolution.winner else old(winner))
    {
      results := results[round := RoundResult(round, resolution.eliminated, resolution.survivors, snapshots[round])];
      if resolution.survivors <= 1 && resolution.winner.Some? { winner := resolution.winner; }
    }

    /** Records the result of a round and finishes or reopens the arena. */
    method CloseRound(round: nat, resolution: M.Resolution)
      requires round in snapshots
      modifies this`results, this`winner, this`leaderboard, this`config
      ensures View() == M.Closed(old(View()), round, resolution)
    {
      hide M.TopPlayers;
      RecordResult(round, resolution);
      if resolution.survivors <= 1 { BuildLeaderboard(); }
      config := config.(roundCount := round, state := if resolution.survivors <= 1 then Finished else Open);
    }
  }

  class ArenaContract {
    const store: ArenaStorage
    const vault: RwaAdapter
    const token: TokenContract

    constructor (store: ArenaStorage, vault: RwaAdapter, token: TokenContract)
      ensures this.store == store && this.vault == vault && this.token == token
    {
      this.store, this.vault, this.token := store, vault, token;
    }

    ghost function World(): M.World
      reads store, vault, token
    {
      M.World(store.View(), vault.View(), token.balances)
    }

    /** The vault pays out of the arena's own token, and no player is listed twice. */
    ghost predicate Valid()
      reads this, store
    {
      vault.token == token && NoRepeats(store.players) && (forall p :: p in store.players ==> p in store.playerStates)
    }

    method JoinArena(player: Address) returns (r: Outcome<ArenaError>)
      requires Valid()
      modifies store, vault, token
      ensures (World(), r) == M.JoinArena(old(World()), player)
      ensures Valid()
    {
      if store.config.paused { return Fail(ContractPaused); }
      if store.config.state != Open { return Fail(InvalidGameState); }
      if player == store.config.admin { return Fail(CreatorCannotJoin); }
      if player in store.banned { return Fail(PlayerBanned); }
      if player in store.playerStates { return Fail(AlreadyJoined); }
      if store.config.playerCount >= store.maxPlayers { return Fail(ArenaFull); }

      hide SatAdd128, Deposit;
      var ledger := token.balances;
      var moved := token.Transfer(player, ARENA, store.config.entryFee);
      if !moved { return Fail(HostTrap); }
      var deposited := vault.DepositFor(ARENA, store.config.entryFee);
      if deposited.Fail? {
        token.balances := ledger;
        return Fail(VaultDepositFailed);
      }
      store.lastVaultBalance := SatAdd128(store.lastVaultBalance, store.config.entryFee);
      store.AddPlayer(player);
      r := Pass;
    }

    method SubmitCommitment(player: Address, commitment: Digest, now: nat) returns (r: Outcome<ArenaError>)
      modifies store
      ensures (World(), r) == M.SubmitCommitment(old(World()), player, commitment, now)
    {
      if store.config.paused { return Fail(ContractPaused); }
      if store.config.state != Active { return Fail(RoundNotActive); }
      if now >= store.config.commitDeadline { return Fail(CommitPhaseEnded); }
      if player !in store.playerStates { return Fail(NotAPlayer); }
      if !store.playerStates[player].active { return Fail(PlayerEliminated); }
      var round := SatAdd32(store.config.roundCount, 1);
      store.commitments := store.commitments[(player, round) := commitment];
      r := Pass;
    }

    method RevealChoice(player: Address, choice: Choice, salt: seq<nat>, now: nat) returns (r: Outcome<ArenaError>)
      modifies store
      ensures (World(), r) == M.RevealChoice(old(World()), player, choice, salt, now)
    {
      if store.config.paused { return Fail(ContractPaused); }
      if player !in store.playerStates { return Fail(NotAPlayer); }
      if !store.playerStates[player].active { return Fail(PlayerEliminated); }
      var seat := (player, SatAdd32(store.config.roundCount, 1));
      if seat in store.choices { return Fail(ChoiceAlreadyRevealed); }
      if now < store.config.commitDeadline { return Fail(RoundNotActive); }
      if seat !in store.commitments { return Fail(MissingCommitment); }
      if store.commitments[seat] != ComputeCommitment(choice, salt) { return Fail(InvalidReveal); }
      store.choices := store.choices[seat := choice];
      r := Pass;
    }

    method StartRound(duration: nat, now: nat) returns (r: Outcome<ArenaError>)
      requires Valid()
      modifies store
      ensures (World(), r) == M.StartRound(old(World()), duration, now)
      ensures Valid()
    {
      if store.config.paused { return Fail(ContractPaused); }
      if !CanTransition(store.config.state, Active) { return Fail(InvalidGameState); }
      hide BalanceOf, M.ActiveOf, M.OpenRound;
      var active := store.CountActive();
      if active < store.minPlayers { return Fail(NotEnoughPlayers); }
      var balance := vault.ReadBalance(ARENA, now);
      store.OpenRound(duration, now, balance);
      r := Pass;
    }

    method ResolveRound(rateBps: nat, now: nat) returns (r: Outcome<ArenaError>)
      requires Valid()
      modifies store
      ensures (World(), r) == M.ResolveRound(old(World()), rateBps, now)
      ensures Valid()
    {
      if store.config.paused { return Fail(ContractPaused); }
      if store.config.state != Active { return Fail(RoundNotActive); }
      if store.roundStart.None? { return Fail(RoundNotStarted); }
      if now < SatAdd64(store.roundStart.value, store.roundDuration) { return Fail(GracePeriodNotElapsed); }

      var balance := vault.ReadBalance(ARENA, now);
      hide M.SettleRound;
      store.SettleRound(rateBps, balance);
      SettlingKeepsPlayers(old(store.View()), rateBps, balance);
      r := Pass;
    }

    static lemma SettlingKeepsPlayers(a: ArenaState, rateBps: nat, balance: int)
      ensures var b := M.SettleRound(a, rateBps, balance).board;
        b.players == a.board.players && b.playerStates.Keys == a.board.playerStates.Keys
    {
    }

    method Claim(winner: Address, now: nat) returns (r: Outcome<ArenaError>)
      requires Valid()
      modifies store, vault, token
      ensures (World(), r) == M.Claim(old(World()), winner, now)
      ensures Valid()
    {
      if store.config.paused { return Fail(ContractPaused); }
      if store.config.state != Finished { return Fail(GameNotFinished); }
      if store.prizeClaimed { return Fail(PrizeAlreadyClaimed); }
      if store.winner != Some(winner) { return Fail(PlayerEliminated); }
      if !InI128(store.config.entryFee * store.config.playerCount) { return Fail(HostTrap); }

      hide WithdrawAll, SatAdd128, Min;
      var before := (store.config, vault.positions, vault.totalDeposited, token.balances);
      store.SetSettled(true, store.config.(state := Settled));
      var payout := SatAdd128(store.config.entryFee * store.config.playerCount, store.config.cumulativeYield);
      var withdrawn := vault.Withdraw(ARENA, now);
      var amount := Min(payout, if withdrawn.Ok? then withdrawn.value else payout);
      var moved := token.Transfer(ARENA, winner, amount);
      if !moved {
        store.SetSettled(false, before.0);
        vault.positions, vault.totalDeposited, token.balances := before.1, before.2, before.3;
        return Fail(HostTrap);
      }
      r := Pass;
    }

    method CancelArena(now: nat) returns (r: Outcome<ArenaError>)
      requires Valid()
      modifies store, vault, token
      ensures (World(), r) == M.CancelArena(old(World()), now)
      ensures Valid()
    {
      if store.config.paused { return Fail(ContractPaused); }
      if store.config.state != Open { return Fail(InvalidGameState); }
      var before := store.config;
      store.config := store.config.(state := Cancelled);
      if store.config.playerCount > 0 {
        var withdrawn := vault.Withdraw(ARENA, now);
        if withdrawn.Err? {
          store.config := before;
          return Fail(HostTrap);
        }
      }
      r := Pass;
    }

    method ForceCancelArena(now: nat) returns (r: Outcome<ArenaError>)
      requires Valid()
      modifies store, vault, token
      ensures (World(), r) == M.ForceCancelArena(old(World()), now)
      ensures Valid()
    {
      if store.config.state == Finished || store.config.state == Settled { return Fail(InvalidGameState); }
      if store.config.state == Cancelled { return Pass; }
      store.config := store.config.(state := Cancelled);
      var _ := vault.Withdraw(ARENA, now);
      r := Pass;
    }

    method ExpireArena(now: nat) returns (r: Outcome<ArenaError>)
      requires Valid()
      modifies store, vault, token
      ensures (World(), r) == M.ExpireArena(old(World()), now)
      ensures Valid()
    {
      hide WithdrawAll, M.RefundActive;
      if store.config.paused { return Fail(ContractPaused); }
      if store.config.state != Active { return Fail(InvalidGameState); }
      if now <= store.config.commitDeadline { return Fail(DeadlineTooSoon); }
      var before := (store.config, vault.initialized, vault.positions, vault.totalDeposited, token.balances);
      store.config := store.config.(state := Finished);
      if store.config.playerCount > 0 {
        var withdrawn := vault.Withdraw(ARENA, now);
        if withdrawn.Err? {
          store.config := before.0;
          return Fail(HostTrap);
        }
      }
      var refunded := RefundActivePlayers();
      if !refunded {
        store.config := before.0;
        vault.initialized, vault.positions, vault.totalDeposited := before.1, before.2, before.3;
        token.balances := before.4;
        return Fail(HostTrap);
      }
      r := Pass;
    }

    /** The entry fee back to each active player; false where a transfer traps. */
    method RefundActivePlayers() returns (ok: bool)
      modifies token
      ensures M.RefundActive(store.BoardView(), store.config.entryFee, old(token.balances), store.players)
        == if ok then Some(token.balances) else None
    {
      for i := 0 to |store.players|
        invariant M.RefundActive(store.BoardView(), store.config.entryFee, old(token.balances), store.players)
          == M.RefundActive(store.BoardView(), store.config.entryFee, token.balances, store.players[i..])
      {
        var p := store.players[i];
        assert store.players[i..][1..] == store.players[i + 1..];
        if p in store.playerStates && store.playerStates[p].active {
          var moved := token.Transfer(ARENA, p, store.config.entryFee);
          if !moved { return false; }
        }
      }
      ok := true;
    }

    method ClaimRefund(player: Address) returns (r: Outcome<ArenaError>)
      modifies store, token
      ensures (World(), r) == M.ClaimRefund(old(World()), player)
    {
      if store.config.state != Cancelled && store.config.paused { return Fail(ContractPaused); }
      if store.config.state != Cancelled { return Fail(ArenaNotCancelled); }
      if player in store.refunded { return Fail(RefundAlreadyClaimed); }
      if player !in store.playerStates { return Fail(NotAPlayer); }
      var before := store.refunded;
      store.refunded := store.refunded + {player};
      var moved := token.Transfer(ARENA, player, store.config.entryFee);
      if !moved {
        store.refunded := before;
        return Fail(HostTrap);
      }
      r := Pass;
    }

    method ConfigurePlayerLimits(minPlayers: nat, maxPlayers: nat) returns (r: Outcome<ArenaError>)
      modifies store
      ensures (World(), r) == M.ConfigurePlayerLimits(old(World()), minPlayers, maxPlayers)
    {
      if minPlayers < MIN_PLAYERS_TO_START || minPlayers > maxPlayers { return Fail(InvalidPlayerLimits); }
      if maxPlayers > MAX_PLAYERS_ALLOWED { return Fail(InvalidPlayerLimits); }
      store.minPlayers, store.maxPlayers := minPlayers, maxPlayers;
      r := Pass;
    }

    method SetPaused(paused: bool) returns (r: Outcome<ArenaError>)
      modifies store
      ensures (World(), r) == M.SetPaused(old(World()), paused)
    {
      store.config := store.config.(paused := paused);
      r := Pass;
    }

    method SetBanned(player: Address, banned: bool) returns (r: Outcome<ArenaError>)
      modifies store
      ensures (World(), r) == M.SetBanned(old(World()), player, banned)
    {
      store.banned := if banned then store.banned + {player} else store.banned - {player};
      r := Pass;
    }

    method ConfigureLeaderboardLimit(limit: nat) returns (r: Outcome<ArenaError>)
      modifies store
      ensures (World(), r) == M.ConfigureLeaderboardLimit(old(World()), limit)
    {
      store.leaderboardLimit := limit;
      r := Pass;
    }

    method ProposeAdmin(admin: Address) returns (r: Outcome<ArenaError>)
      modifies store
      ensures (World(), r) == M.ProposeAdmin(old(World()), admin)
    {
      if store.config.paused { return Fail(ContractPaused); }
      store.pendingAdmin := Some(admin);
      r := Pass;
    }

    method AcceptAdmin() returns (r: Outcome<ArenaError>)
      modifies store
      ensures (World(), r) == M.AcceptAdmin(old(World()))
    {
      if store.pendingAdmin.None? { return Fail(NoPendingAdmin); }
      if store.config.paused { return Fail(ContractPaused); }
      store.config := store.config.(admin := store.pendingAdmin.value);
      store.pendingAdmin := None;
      r := Pass;
    }

    /** One page of players with their states. */
    method GetPlayers(page: nat) returns (rows: seq<(Address, PlayerState)>)
      ensures var ps := M.PageOf(store.players, Min(page * PAGE_SIZE, U32_MAX), PAGE_SIZE);
        && |rows| == |ps|
        && forall i :: 0 <= i < |ps| ==> rows[i] == (ps[i], M.StateOf(store.BoardView(), ps[i]))
    {
      var start := Min(page * PAGE_SIZE, U32_MAX);
      var addrs := store.LoadPlayerPage(start, PAGE_SIZE);
      rows := [];
      for i := 0 to |addrs|
        invariant |rows| == i
        invariant forall k :: 0 <= k < i ==> rows[k] == (addrs[k], M.StateOf(store.BoardView(), addrs[k]))
      {
        var state := if addrs[i] in store.playerStates then store.playerStates[addrs[i]] else PlayerState(false, 0);
        rows := rows + [(addrs[i], state)];
      }
    }
  }
}
