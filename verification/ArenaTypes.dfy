/** The values the arena stores, and the addresses of the two contracts involved. */
module ArenaTypes {
  import opened Wrappers
  import opened Token

  /** The token accounts of the arena and of its yield vault. Nobody else signs for them. */
  const ARENA: Address := 0
  const VAULT: Address := 1

  const MIN_PLAYERS_TO_START: nat := 2
  const MAX_PLAYERS_ALLOWED: nat := 100
  const PAGE_SIZE: nat := 50

  datatype GameState = Open | Active | Finished | Cancelled | Settled

  datatype Choice = Heads | Tails

  /** An ideal hash: two digests are equal only if their preimages are. Opaque digests have no known preimage. */
  datatype Digest = Sha256(preimage: seq<nat>) | Opaque(n: nat)

  function ToByte(c: Choice): nat {
    match c
    case Heads => 0
    case Tails => 1
  }

  function ComputeCommitment(c: Choice, salt: seq<nat>): Digest {
    Sha256([ToByte(c)] + salt)
  }

  datatype PlayerState = PlayerState(active: bool, roundsSurvived: nat)

  datatype YieldSnapshot = YieldSnapshot(round: nat, rateBps: nat, accrued: int)

  datatype RoundResult = RoundResult(round: nat, eliminated: nat, survivors: nat, yieldSnapshot: YieldSnapshot)

  datatype LeaderboardEntry = LeaderboardEntry(player: Address, roundsSurvived: nat)

  datatype ArenaConfig = ArenaConfig(
    admin: Address,
    entryFee: int,
    state: GameState,
    paused: bool,
    playerCount: nat,
    cumulativeYield: int,
    commitDeadline: nat,
    roundCount: nat)

  /** A player and a round. */
  type Seat = (Address, nat)

  /** Who has joined, in order, how each of them stands, and the choices revealed. */
  datatype Board = Board(
    players: seq<Address>,
    playerStates: map<Address, PlayerState>,
    choices: map<Seat, Choice>)

  datatype ArenaState = ArenaState(
    config: ArenaConfig,
    board: Board,
    banned: set<Address>,
    minPlayers: nat,
    maxPlayers: nat,
    commitments: map<Seat, Digest>,
    snapshots: map<nat, YieldSnapshot>,
    results: map<nat, RoundResult>,
    roundStart: Option<nat>,
    roundDuration: nat,
    lastVaultBalance: int,
    prizeClaimed: bool,
    winner: Option<Address>,
    refunded: set<Address>,
    leaderboard: seq<LeaderboardEntry>,
    leaderboardLimit: nat,
    pendingAdmin: Option<Address>)

  datatype ArenaError =
    | RoundNotActive
    | RoundNotStarted
    | GracePeriodNotElapsed
    | InvalidReveal
    | MissingCommitment
    | ChoiceAlreadyRevealed
    | GameNotFinished
    | PrizeAlreadyClaimed
    | PlayerEliminated
    | NoPendingAdmin
    | ContractPaused
    | InvalidGameState
    | NotEnoughPlayers
    | PlayerBanned
    | CreatorCannotJoin
    | ArenaFull
    | InvalidPlayerLimits
    | RefundAlreadyClaimed
    | ArenaNotCancelled
    | NotAPlayer
    | DeadlineTooSoon
    | AlreadyJoined
    | InvalidEntryFee
    | CommitPhaseEnded
    | VaultDepositFailed
    | HostTrap

  /** Which direct changes of the lifecycle state are legal. */
  predicate CanTransition(from: GameState, to: GameState) {
    match (from, to)
    case (Open, Active) => true
    case (Open, Cancelled) => true
    case (Active, Open) => true
    case (Active, Finished) => true
    case (Active, Cancelled) => true
    case (Finished, Settled) => true
    case _ => false
  }
}
