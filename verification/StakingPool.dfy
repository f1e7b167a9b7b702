/**
  What each entry point of the staking contract does to the stored pool, as a function of the state before the
  call. A call that returns an error or traps leaves the state as it was.
 */
module StakingPool {
  import opened Wrappers
  import opened MachineInts
  import opened Token

  const MIN_INITIAL_STAKE: int := 10_000_000

  /** The staking contract's own token account. No outside account signs for it. */
  const POOL: Address := 0

  datatype StakingError =
    | NotInitialized
    | AlreadyInitialized
    | Paused
    | InvalidAmount
    | InsufficientShares
    | ZeroShares
    | BelowMinimumInitialStake
    | NoSharesOutstanding
    | HostTrap

  datatype StakePosition = StakePosition(amount: int, shares: int)

  datatype Pool = Pool(
    initialized: bool,
    paused: bool,
    totalStaked: int,
    totalShares: int,
    positions: map<Address, StakePosition>,
    ledger: Ledger)

  function PositionOf(p: Pool, staker: Address): StakePosition {
    if staker in p.positions then p.positions[staker] else StakePosition(0, 0)
  }

  function Guard(p: Pool, amount: int): Option<StakingError> {
    if p.paused then Some(Paused)
    else if !p.initialized then Some(NotInitialized)
    else if amount <= 0 then Some(InvalidAmount)
    else None
  }

  /** How many shares a deposit of `amount` would mint. */
  function SharesFor(p: Pool, amount: int): Result<int, StakingError> {
    if p.totalStaked == 0 || p.totalShares == 0 then
      if amount < MIN_INITIAL_STAKE then Err(BelowMinimumInitialStake) else Ok(amount)
    else if !InI128(amount * p.totalShares) then Err(HostTrap)
    else
      var shares := DivTrunc(amount * p.totalShares, p.totalStaked);
      if shares == 0 then Err(ZeroShares) else Ok(shares)
  }

  function Stake(p: Pool, staker: Address, amount: int): (Pool, Result<int, StakingError>) {
    match Guard(p, amount)
    case Some(e) => (p, Err(e))
    case None =>
      match SharesFor(p, amount)
      case Err(e) => (p, Err(e))
      case Ok(shares) =>
        var pos := PositionOf(p, staker);
        var moved := Moved(p.ledger, staker, POOL, amount);
        if !InI128(p.totalStaked + amount) || !InI128(p.totalShares + shares)
           || !InI128(pos.amount + amount) || !InI128(pos.shares + shares) || moved.None?
        then (p, Err(HostTrap))
        else (p.(totalStaked := p.totalStaked + amount,
                 totalShares := p.totalShares + shares,
                 positions := p.positions[staker := StakePosition(pos.amount + amount, pos.shares + shares)],
                 ledger := moved.value),
              Ok(shares))
  }

  function Unstake(p: Pool, staker: Address, shares: int): (Pool, Result<int, StakingError>) {
    match Guard(p, shares)
    case Some(e) => (p, Err(e))
    case None =>
      var pos := PositionOf(p, staker);
      if pos.shares < shares then (p, Err(InsufficientShares))
      else if p.totalShares == 0 then (p, Err(NoSharesOutstanding))
      else if !InI128(shares * p.totalStaked) then (p, Err(HostTrap))
      else
        var tokens := DivTrunc(shares * p.totalStaked, p.totalShares);
        var moved := Moved(p.ledger, POOL, staker, tokens);
        if !InI128(p.totalStaked - tokens) || !InI128(p.totalShares - shares)
           || !InI128(pos.amount - tokens) || !InI128(pos.shares - shares) || moved.None?
        then (p, Err(HostTrap))
        else (p.(totalStaked := p.totalStaked - tokens,
                 totalShares := p.totalShares - shares,
                 positions := p.positions[staker := StakePosition(pos.amount - tokens, pos.shares - shares)],
                 ledger := moved.value),
              Ok(tokens))
  }

  function DistributeRewards(p: Pool, caller: Address, amount: int): (Pool, Result<int, StakingError>) {
    match Guard(p, amount)
    case Some(e) => (p, Err(e))
    case None =>
      var moved := Moved(p.ledger, caller, POOL, amount);
      if !InI128(p.totalStaked + amount) || moved.None? then (p, Err(HostTrap))
      else (p.(totalStaked := p.totalStaked + amount, ledger := moved.value), Ok(amount))
  }

  function Initialize(p: Pool): (Pool, Result<int, StakingError>) {
    if p.initialized then (p, Err(AlreadyInitialized))
    else (p.(initialized := true, paused := false, totalStaked := 0, totalShares := 0), Ok(0))
  }

  function SetPaused(p: Pool, paused: bool): (Pool, Result<int, StakingError>) {
    if !p.initialized then (p, Err(NotInitialized)) else (p.(paused := paused), Ok(0))
  }

  /** A token transfer between outside accounts, or a gift to the pool's account. */
  function OutsideTransfer(p: Pool, from: Address, to: Address, amount: int): (Pool, Result<int, StakingError>) {
    match Moved(p.ledger, from, to, amount)
    case None => (p, Err(HostTrap))
    case Some(l) => (p.(ledger := l), Ok(amount))
  }

  /** What a staker would receive for all their shares right now. */
  function Redeemable(p: Pool, staker: Address): int {
    if p.totalShares == 0 then 0
    else DivTrunc(PositionOf(p, staker).shares * p.totalStaked, p.totalShares)
  }
}
