/**
  The staking contract: persistent entries overwritten one by one, tied to the functions of StakingPool.
  Where the token traps after the entries were written, the host rolls them back.
 */
module StakingContracts {
  import opened Wrappers
  import opened MachineInts
  import opened Token
  import P = StakingPool

  class StakingContract {
    var initialized: bool
    var paused: bool
    var totalStaked: int
    var totalShares: int
    var positions: map<Address, P.StakePosition>
    const token: TokenContract

    constructor (token: TokenContract)
      ensures View() == P.Pool(false, false, 0, 0, map[], token.balances)
      ensures this.token == token
    {
      this.token := token;
      initialized, paused := false, false;
      totalStaked, totalShares := 0, 0;
      positions := map[];
    }

    ghost function View(): P.Pool
      reads this, token
    {
      P.Pool(initialized, paused, totalStaked, totalShares, positions, token.balances)
    }

    method Initialize() returns (r: Result<int, P.StakingError>)
      modifies this
      ensures (View(), r) == P.Initialize(old(View()))
    {
      if initialized {
        return Err(P.AlreadyInitialized);
      }
      initialized := true;
      totalStaked := 0;
      totalShares := 0;
      paused := false;
      r := Ok(0);
    }

    method SetPaused(value: bool) returns (r: Result<int, P.StakingError>)
      modifies this
      ensures (View(), r) == P.SetPaused(old(View()), value)
    {
      if !initialized {
        return Err(P.NotInitialized);
      }
      paused := value;
      r := Ok(0);
    }

    method Stake(staker: Address, amount: int) returns (r: Result<int, P.StakingError>)
      modifies this, token
      ensures (View(), r) == P.Stake(old(View()), staker, amount)
    {
      if paused { return Err(P.Paused); }
      if !initialized { return Err(P.NotInitialized); }
      if amount <= 0 { return Err(P.InvalidAmount); }

      var shares;
      if totalStaked == 0 || totalShares == 0 {
        if amount < P.MIN_INITIAL_STAKE { return Err(P.BelowMinimumInitialStake); }
        shares := amount;
      } else {
        if !InI128(amount * totalShares) { return Err(P.HostTrap); }
        shares := DivTrunc(amount * totalShares, totalStaked);
      }
      if shares == 0 { return Err(P.ZeroShares); }

      var position := if staker in positions then positions[staker] else P.StakePosition(0, 0);
      if !InI128(totalStaked + amount) || !InI128(totalShares + shares)
         || !InI128(position.amount + amount) || !InI128(position.shares + shares) {
        return Err(P.HostTrap);
      }
      var before := (totalStaked, totalShares, positions);
      totalStaked := totalStaked + amount;
      totalShares := totalShares + shares;
      positions := positions[staker := P.StakePosition(position.amount + amount, position.shares + shares)];
      var moved := token.Transfer(staker, P.POOL, amount);
      if !moved {
        totalStaked, totalShares, positions := before.0, before.1, before.2;
        return Err(P.HostTrap);
      }
      r := Ok(shares);
    }

    method Unstake(staker: Address, shares: int) returns (r: Result<int, P.StakingError>)
      modifies this, token
      ensures (View(), r) == P.Unstake(old(View()), staker, shares)
    {
      if paused { return Err(P.Paused); }
      if !initialized { return Err(P.NotInitialized); }
      if shares <= 0 { return Err(P.InvalidAmount); }

      var position := if staker in positions then positions[staker] else P.StakePosition(0, 0);
      if position.shares < shares { return Err(P.InsufficientShares); }
      if totalShares == 0 { return Err(P.NoSharesOutstanding); }
      if !InI128(shares * totalStaked) { return Err(P.HostTrap); }

      var tokens := DivTrunc(shares * totalStaked, totalShares);
      if !InI128(totalStaked - tokens) || !InI128(totalShares - shares)
         || !InI128(position.amount - tokens) || !InI128(position.shares - shares) {
        return Err(P.HostTrap);
      }
      var before := (totalStaked, totalShares, positions);
      totalStaked := totalStaked - tokens;
      totalShares := totalShares - shares;
      positions := positions[staker := P.StakePosition(position.amount - tokens, position.shares - shares)];
      var moved := token.Transfer(P.POOL, staker, tokens);
      if !moved {
        totalStaked, totalShares, positions := before.0, before.1, before.2;
        return Err(P.HostTrap);
      }
      r := Ok(tokens);
    }

    method DistributeRewards(caller: Address, amount: int) returns (r: Result<int, P.StakingError>)
      modifies this, token
      ensures (View(), r) == P.DistributeRewards(old(View()), caller, amount)
    {
      if paused { return Err(P.Paused); }
      if !initialized { return Err(P.NotInitialized); }
      if amount <= 0 { return Err(P.InvalidAmount); }
      if !InI128(totalStaked + amount) { return Err(P.HostTrap); }
      var before := totalStaked;
      totalStaked := totalStaked + amount;
      var moved := token.Transfer(caller, P.POOL, amount);
      if !moved {
        totalStaked := before;
        return Err(P.HostTrap);
      }
      r := Ok(amount);
    }
  }
}
