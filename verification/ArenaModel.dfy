/**
  What each entry point of the arena does to the arena, its vault and the token ledger together. An error or a
  trap anywhere in a call, the token's and the vault's included, leaves all three as they were.
 */
module ArenaModel {
  import opened Wrappers
  import opened MachineInts
  import opened Token
  import opened ArenaTypes
  import opened Eliminations
  import opened RwaVault
  import opened StableSorting

  datatype World = World(arena: ArenaState, vault: VaultState, ledger: Ledger)

  type Called = (World, Outcome<ArenaError>)

  function Refused(w: World, e: ArenaError): Called {
    (w, Fail(e))
  }

  // ---- Players --------------------------------------------------------------------------------------------

  predicate IsActive(b: Board, p: Address) {
    p in b.playerStates && b.playerStates[p].active
  }

  /** The active players of a list, in order. */
  function ActiveOf(b: Board, ps: seq<Address>): seq<Address> {
    if ps == [] then []
    else
      var last := ps[|ps| - 1];
      ActiveOf(b, ps[..|ps| - 1]) + (if IsActive(b, last) then [last] else [])
  }

  function AddPlayer(a: ArenaState, p: Address): ArenaState {
    a.(board := a.board.(players := a.board.players + [p],
                         playerStates := a.board.playerStates[p := PlayerState(true, 0)]),
       config := a.config.(playerCount := |a.board.players| + 1))
  }

  function NextRound(a: ArenaState): nat {
    SatAdd32(a.config.roundCount, 1)
  }

  function Seats(ps: seq<Address>, round: nat): set<Seat> {
    set p | p in ps :: (p, round)
  }

  /** All choices and commitments of the round removed. */
  function ClearRound(a: ArenaState, round: nat): ArenaState {
    a.(board := a.board.(choices := a.board.choices - Seats(a.board.players, round)),
       commitments := a.commitments - Seats(a.board.players, round))
  }

  /** Up to `count` players from position `start` on. */
  function PageOf(ps: seq<Address>, start: nat, count: nat): seq<Address>
    requires start <= U32_MAX
  {
    if start >= |ps| then [] else ps[start..Min(SatAdd32(start, count), |ps|)]
  }

  // ---- Settling a round -----------------------------------------------------------------------------------

  predicate Revealed(b: Board, round: nat, p: Address) {
    IsActive(b, p) && (p, round) in b.choices
  }

  /** The choices revealed by active players of a list. */
  function Ballots(b: Board, round: nat, ps: seq<Address>): seq<Choice> {
    if ps == [] then []
    else
      var last := ps[|ps| - 1];
      Ballots(b, round, ps[..|ps| - 1]) + (if Revealed(b, round, last) then [b.choices[(last, round)]] else [])
  }

  function RoundTally(b: Board, round: nat): Tally {
    var ballots := Ballots(b, round, b.players);
    Tally(Votes(ballots, Heads), Votes(ballots, Tails))
  }

  predicate Survives(b: Board, round: nat, p: Address) {
    Revealed(b, round, p) && !IsEliminated(b.choices[(p, round)], RoundTally(b, round))
  }

  function SurvivorsOf(b: Board, round: nat, ps: seq<Address>): seq<Address> {
    if ps == [] then []
    else
      var last := ps[|ps| - 1];
      SurvivorsOf(b, round, ps[..|ps| - 1]) + (if Survives(b, round, last) then [last] else [])
  }

  function EliminatedOf(b: Board, round: nat, ps: seq<Address>): seq<Address> {
    if ps == [] then []
    else
      var last := ps[|ps| - 1];
      EliminatedOf(b, round, ps[..|ps| - 1])
      + (if IsActive(b, last) && !Survives(b, round, last) then [last] else [])
  }

  /** A listed active player survives with one more round to their name or goes inactive; others stay put. */
  function StateAfter(b: Board, round: nat, p: Address): PlayerState
    requires p in b.playerStates
  {
    var s := b.playerStates[p];
    if !s.active || p !in b.players then s
    else if Survives(b, round, p) then PlayerState(true, SatAdd32(s.roundsSurvived, 1))
    else s.(active := false)
  }

  datatype Resolution = Resolution(eliminated: nat, survivors: nat, winner: Option<Address>, tied: bool)

  function ResolutionOf(b: Board, round: nat): Resolution {
    var survivors := SurvivorsOf(b, round, b.players);
    var t := RoundTally(b, round);
    Resolution(|EliminatedOf(b, round, b.players)|, |survivors|,
               if |survivors| == 1 then Some(survivors[0]) else None,
               t.heads > 0 && t.heads == t.tails)
  }

  function ResolvePlayers(b: Board, round: nat): Board {
    b.(playerStates := map p | p in b.playerStates :: StateAfter(b, round, p),
       choices := b.choices - Seats(EliminatedOf(b, round, b.players), round))
  }

  /** How a player stands; inactive, with no rounds survived, if nothing is stored. */
  function StateOf(b: Board, p: Address): PlayerState {
    if p in b.playerStates then b.playerStates[p] else PlayerState(false, 0)
  }

  function EntryOf(b: Board, p: Address): LeaderboardEntry {
    LeaderboardEntry(p, StateOf(b, p).roundsSurvived)
  }

  function EntriesOf(b: Board, ps: seq<Address>): seq<LeaderboardEntry> {
    if ps == [] then [] else EntriesOf(b, ps[..|ps| - 1]) + [EntryOf(b, ps[|ps| - 1])]
  }

  const BY_ROUNDS: LeaderboardEntry -> int := (e: LeaderboardEntry) => e.roundsSurvived

  /** The best players by rounds survived, ties in join order, as many as the limit allows. */
  function TopPlayers(b: Board, limit: nat): seq<LeaderboardEntry> {
    var sorted := StableSort(EntriesOf(b, b.players), BY_ROUNDS);
    if limit < |sorted| then sorted[..limit] else sorted
  }

  // ---- Entry points ---------------------------------------------------------------------------------------

  /** The state of an arena that has just been initialised; an error where the parameters are refused. */
  function Initialize(admin: Address, entryFee: int, minPlayers: nat, maxPlayers: nat): Result<ArenaState, ArenaError> {
    if entryFee <= 0 then Err(InvalidEntryFee)
    else if minPlayers < MIN_PLAYERS_TO_START || minPlayers > maxPlayers || maxPlayers > MAX_PLAYERS_ALLOWED then
      Err(InvalidPlayerLimits)
    else Ok(ArenaState(ArenaConfig(admin, entryFee, Open, false, 0, 0, 0, 0), Board([], map[], map[]), {}, minPlayers,
                       maxPlayers, map[], map[], map[], None, 0, 0, false, None, {}, [], 100, None))
  }

  function JoinArena(w: World, player: Address): Called {
    var a, c := w.arena, w.arena.config;
    if c.paused then Refused(w, ContractPaused)
    else if c.state != Open then Refused(w, InvalidGameState)
    else if player == c.admin then Refused(w, CreatorCannotJoin)
    else if player in a.banned then Refused(w, PlayerBanned)
    else if player in a.board.playerStates then Refused(w, AlreadyJoined)
    else if c.playerCount >= a.maxPlayers then Refused(w, ArenaFull)
    else
      var moved := Moved(w.ledger, player, ARENA, c.entryFee);
      var deposited := Deposit(w.vault, ARENA, c.entryFee);
      if moved.None? then Refused(w, HostTrap)
      else if deposited.Err? then Refused(w, VaultDepositFailed)
      else (World(AddPlayer(a.(lastVaultBalance := SatAdd128(a.lastVaultBalance, c.entryFee)), player),
                  deposited.value, moved.value),
            Pass)
  }

  function SubmitCommitment(w: World, player: Address, commitment: Digest, now: nat): Called {
    var a, c := w.arena, w.arena.config;
    if c.paused then Refused(w, ContractPaused)
    else if c.state != Active then Refused(w, RoundNotActive)
    else if now >= c.commitDeadline then Refused(w, CommitPhaseEnded)
    else if player !in a.board.playerStates then Refused(w, NotAPlayer)
    else if !a.board.playerStates[player].active then Refused(w, PlayerEliminated)
    else (w.(arena := a.(commitments := a.commitments[(player, NextRound(a)) := commitment])), Pass)
  }

  function RevealChoice(w: World, player: Address, choice: Choice, salt: seq<nat>, now: nat): Called {
    var a, c := w.arena, w.arena.config;
    var seat := (player, NextRound(a));
    if c.paused then Refused(w, ContractPaused)
    else if player !in a.board.playerStates then Refused(w, NotAPlayer)
    else if !a.board.playerStates[player].active then Refused(w, PlayerEliminated)
    else if seat in a.board.choices then Refused(w, ChoiceAlreadyRevealed)
    else if now < c.commitDeadline then Refused(w, RoundNotActive)
    else if seat !in a.commitments then Refused(w, MissingCommitment)
    else if a.commitments[seat] != ComputeCommitment(choice, salt) then Refused(w, InvalidReveal)
    else (w.(arena := a.(board := a.board.(choices := a.board.choices[seat := choice]))), Pass)
  }

  function BeginRound(a: ArenaState, duration: nat, now: nat, balance: int): ArenaState {
    a.(lastVaultBalance := balance,
       config := a.config.(commitDeadline := SatAdd64(now, duration), state := Active),
       roundStart := Some(now),
       roundDuration := duration)
  }

  /** The arena with its next round open, the vault standing at `balance`. */
  function OpenRound(a: ArenaState, duration: nat, now: nat, balance: int): ArenaState {
    BeginRound(ClearRound(a, NextRound(a)), duration, now, balance)
  }

  function StartRound(w: World, duration: nat, now: nat): Called {
    var a, c := w.arena, w.arena.config;
    if c.paused then Refused(w, ContractPaused)
    else if !CanTransition(c.state, Active) then Refused(w, InvalidGameState)
    else if |ActiveOf(a.board, a.board.players)| < a.minPlayers then Refused(w, NotEnoughPlayers)
    else (w.(arena := OpenRound(a, duration, now, BalanceOf(w.vault, ARENA, now))), Pass)
  }

  /** The yield since the last balance booked under the round. */
  function Snapshotted(a: ArenaState, rateBps: nat, balance: int): ArenaState {
    var accrued := if balance >= a.lastVaultBalance then balance - a.lastVaultBalance else 0;
    a.(snapshots := a.snapshots[NextRound(a) := YieldSnapshot(NextRound(a), rateBps, accrued)],
       lastVaultBalance := balance,
       config := a.config.(cumulativeYield := SatAdd128(a.config.cumulativeYield, accrued)))
  }

  /** The result of a round recorded; the arena finished when at most one player survived, reopened otherwise. */
  function Closed(a: ArenaState, round: nat, r: Resolution): ArenaState
    requires round in a.snapshots
  {
    var over := r.survivors <= 1;
    a.(results := a.results[round := RoundResult(round, r.eliminated, r.survivors, a.snapshots[round])],
       winner := if over && r.winner.Some? then r.winner else a.winner,
       leaderboard := if over then TopPlayers(a.board, a.leaderboardLimit) else a.leaderboard,
       config := a.config.(roundCount := round, state := if over then Finished else Open))
  }

  /** The arena after its round is settled, with the vault standing at `balance`. */
  function SettleRound(a: ArenaState, rateBps: nat, balance: int): ArenaState {
    var round := NextRound(a);
    var resolved := Snapshotted(a, rateBps, balance).(board := ResolvePlayers(a.board, round));
    ClearRound(Closed(resolved, round, ResolutionOf(a.board, round)), round)
  }

  function ResolveRound(w: World, rateBps: nat, now: nat): Called {
    var a, c := w.arena, w.arena.config;
    if c.paused then Refused(w, ContractPaused)
    else if c.state != Active then Refused(w, RoundNotActive)
    else if a.roundStart.None? then Refused(w, RoundNotStarted)
    else if now < SatAdd64(a.roundStart.value, a.roundDuration) then Refused(w, GracePeriodNotElapsed)
    else (w.(arena := SettleRound(a, rateBps, BalanceOf(w.vault, ARENA, now))), Pass)
  }

  function Claim(w: World, player: Address, now: nat): Called {
    var a, c := w.arena, w.arena.config;
    if c.paused then Refused(w, ContractPaused)
    else if c.state != Finished then Refused(w, GameNotFinished)
    else if a.prizeClaimed then Refused(w, PrizeAlreadyClaimed)
    else if a.winner != Some(player) then Refused(w, PlayerEliminated)
    else if !InI128(c.entryFee * c.playerCount) then Refused(w, HostTrap)
    else
      var payout := SatAdd128(c.entryFee * c.playerCount, c.cumulativeYield);
      var tried := WithdrawAll(w.vault, w.ledger, ARENA, now);
      var (vault, ledger, withdrawn) :=
        if tried.Ok? then (tried.value.vault, tried.value.ledger, tried.value.paid) else (w.vault, w.ledger, payout);
      var moved := Moved(ledger, ARENA, player, Min(payout, withdrawn));
      if moved.None? then Refused(w, HostTrap)
      else (World(a.(prizeClaimed := true, config := c.(state := Settled)), vault, moved.value), Pass)
  }

  function CancelArena(w: World, now: nat): Called {
    var a, c := w.arena, w.arena.config;
    if c.paused then Refused(w, ContractPaused)
    else if c.state != Open then Refused(w, InvalidGameState)
    else
      var cancelled := a.(config := c.(state := Cancelled));
      if c.playerCount == 0 then (w.(arena := cancelled), Pass)
      else
        var tried := WithdrawAll(w.vault, w.ledger, ARENA, now);
        if tried.Err? then Refused(w, HostTrap)
        else (World(cancelled, tried.value.vault, tried.value.ledger), Pass)
  }

  function ForceCancelArena(w: World, now: nat): Called {
    var a, c := w.arena, w.arena.config;
    if c.state == Finished || c.state == Settled then Refused(w, InvalidGameState)
    else if c.state == Cancelled then (w, Pass)
    else
      var cancelled := a.(config := c.(state := Cancelled));
      var tried := WithdrawAll(w.vault, w.ledger, ARENA, now);
      if tried.Err? then (w.(arena := cancelled), Pass)
      else (World(cancelled, tried.value.vault, tried.value.ledger), Pass)
  }

  /** The entry fee back to each active player of the list, or None where a transfer traps. */
  function RefundActive(b: Board, fee: int, l: Ledger, ps: seq<Address>): Option<Ledger>
    decreases |ps|
  {
    if ps == [] then Some(l)
    else if !IsActive(b, ps[0]) then RefundActive(b, fee, l, ps[1..])
    else
      match Moved(l, ARENA, ps[0], fee)
      case None => None
      case Some(next) => RefundActive(b, fee, next, ps[1..])
  }

  function ExpireArena(w: World, now: nat): Called {
    var a, c := w.arena, w.arena.config;
    if c.paused then Refused(w, ContractPaused)
    else if c.state != Active then Refused(w, InvalidGameState)
    else if now <= c.commitDeadline then Refused(w, DeadlineTooSoon)
    else
      var tried := WithdrawAll(w.vault, w.ledger, ARENA, now);
      if c.playerCount > 0 && tried.Err? then Refused(w, HostTrap)
      else
        var (vault, ledger) :=
          if c.playerCount > 0 then (tried.value.vault, tried.value.ledger) else (w.vault, w.ledger);
        var refunded := RefundActive(a.board, c.entryFee, ledger, a.board.players);
        if refunded.None? then Refused(w, HostTrap)
        else (World(a.(config := c.(state := Finished)), vault, refunded.value), Pass)
  }

  function ClaimRefund(w: World, player: Address): Called {
    var a, c := w.arena, w.arena.config;
    if c.state != Cancelled then Refused(w, if c.paused then ContractPaused else ArenaNotCancelled)
    else if player in a.refunded then Refused(w, RefundAlreadyClaimed)
    else if player !in a.board.playerStates then Refused(w, NotAPlayer)
    else
      var moved := Moved(w.ledger, ARENA, player, c.entryFee);
      if moved.None? then Refused(w, HostTrap)
      else (w.(arena := a.(refunded := a.refunded + {player}), ledger := moved.value), Pass)
  }

  function ConfigurePlayerLimits(w: World, minPlayers: nat, maxPlayers: nat): Called {
    if minPlayers < MIN_PLAYERS_TO_START || minPlayers > maxPlayers || maxPlayers > MAX_PLAYERS_ALLOWED then
      Refused(w, InvalidPlayerLimits)
    else (w.(arena := w.arena.(minPlayers := minPlayers, maxPlayers := maxPlayers)), Pass)
  }

  function SetPaused(w: World, paused: bool): Called {
    (w.(arena := w.arena.(config := w.arena.config.(paused := paused))), Pass)
  }

  function SetBanned(w: World, player: Address, banned: bool): Called {
    (w.(arena := w.arena.(banned := if banned then w.arena.banned + {player} else w.arena.banned - {player})), Pass)
  }

  function ConfigureLeaderboardLimit(w: World, limit: nat): Called {
    (w.(arena := w.arena.(leaderboardLimit := limit)), Pass)
  }

  function ProposeAdmin(w: World, admin: Address): Called {
    if w.arena.config.paused then Refused(w, ContractPaused)
    else (w.(arena := w.arena.(pendingAdmin := Some(admin))), Pass)
  }

  function AcceptAdmin(w: World): Called {
    var a := w.arena;
    if a.pendingAdmin.None? then Refused(w, NoPendingAdmin)
    else if a.config.paused then Refused(w, ContractPaused)
    else (w.(arena := a.(config := a.config.(admin := a.pendingAdmin.value), pendingAdmin := None)), Pass)
  }

  // ---- One call, by anyone, to any of the three contracts -------------------------------------------------

  datatype Op =
    | OpJoin(player: Address)
    | OpCommit(player: Address, commitment: Digest)
    | OpReveal(player: Address, choice: Choice, salt: seq<nat>)
    | OpStartRound(duration: nat)
    | OpResolveRound(rateBps: nat)
    | OpClaim(player: Address)
    | OpCancel
    | OpForceCancel
    | OpExpire
    | OpClaimRefund(player: Address)
    | OpSetPaused(paused: bool)
    | OpSetBanned(player: Address, banned: bool)
    | OpConfigureLimits(minPlayers: nat, maxPlayers: nat)
    | OpConfigureLeaderboard(limit: nat)
    | OpProposeAdmin(admin: Address)
    | OpAcceptAdmin
    | OpVaultDeposit(from: Address, amount: int)
    | OpVaultWithdraw(from: Address)
    | OpTransfer(from: Address, to: Address, amount: int)

  /** Neither the arena nor the vault signs for calls other than those the arena itself makes. */
  predicate Authorized(op: Op) {
    match op
    case OpJoin(p) => p > VAULT
    case OpCommit(p, _) => p > VAULT
    case OpReveal(p, _, _) => p > VAULT
    case OpClaim(p) => p > VAULT
    case OpClaimRefund(p) => p > VAULT
    case OpVaultDeposit(p, _) => p > VAULT
    case OpVaultWithdraw(p) => p > VAULT
    case OpTransfer(p, _, _) => p > VAULT
    case _ => true
  }

  /** A call by someone else to the vault or the token. */
  function Elsewhere(w: World, op: Op, now: nat): Called {
    match op
    case OpVaultDeposit(p, amount) =>
      var r := Deposit(w.vault, p, amount);
      if r.Err? then Refused(w, HostTrap) else (w.(vault := r.value), Pass)
    case OpVaultWithdraw(p) =>
      var r := WithdrawAll(w.vault, w.ledger, p, now);
      if r.Err? then Refused(w, HostTrap) else (w.(vault := r.value.vault, ledger := r.value.ledger), Pass)
    case OpTransfer(p, q, amount) =>
      var r := Moved(w.ledger, p, q, amount);
      if r.None? then Refused(w, HostTrap) else (w.(ledger := r.value), Pass)
    case _ => (w, Pass)
  }

  function Apply(w: World, op: Op, now: nat): Called {
    match op
    case OpJoin(p) => JoinArena(w, p)
    case OpCommit(p, d) => SubmitCommitment(w, p, d, now)
    case OpReveal(p, c, s) => RevealChoice(w, p, c, s, now)
    case OpStartRound(d) => StartRound(w, d, now)
    case OpResolveRound(bps) => ResolveRound(w, bps, now)
    case OpClaim(p) => Claim(w, p, now)
    case OpCancel => CancelArena(w, now)
    case OpForceCancel => ForceCancelArena(w, now)
    case OpExpire => ExpireArena(w, now)
    case OpClaimRefund(p) => ClaimRefund(w, p)
    case OpSetPaused(v) => SetPaused(w, v)
    case OpSetBanned(p, v) => SetBanned(w, p, v)
    case OpConfigureLimits(lo, hi) => ConfigurePlayerLimits(w, lo, hi)
    case OpConfigureLeaderboard(n) => ConfigureLeaderboardLimit(w, n)
    case OpProposeAdmin(p) => ProposeAdmin(w, p)
    case OpAcceptAdmin => AcceptAdmin(w)
    case _ => Elsewhere(w, op, now)
  }

  datatype Event = Event(op: Op, now: nat)

  function Run(w: World, events: seq<Event>): World
    decreases |events|
  {
    if events == [] then w else Run(Apply(w, events[0].op, events[0].now).0, events[1..])
  }

  /** Every call is authorised and the ledger clock never goes back. */
  predicate InOrder(t: nat, events: seq<Event>)
    decreases |events|
  {
    events == []
    || (Authorized(events[0].op) && t <= events[0].now <= U64_MAX && InOrder(events[0].now, events[1..]))
  }

  function EndTime(t: nat, events: seq<Event>): nat
    decreases |events|
  {
    if events == [] then t else EndTime(events[0].now, events[1..])
  }
}
