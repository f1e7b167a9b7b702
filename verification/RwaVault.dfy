/**
  The yield vault: positions that grow with the ledger clock, in floor arithmetic over checked i128 operations.
  A deposit records a position but moves no tokens; a withdrawal pays what the vault's own account can cover.
 */
module RwaVault {
  import opened Wrappers
  import opened MachineInts
  import opened MapSums
  import opened Token
  import opened ArenaTypes

  const YIELD_BPS_PER_YEAR: int := 500
  const SECONDS_PER_YEAR: int := 31_536_000

  datatype RwaError = NotInitialized | NoDeposit | AlreadyWithdrawn | ArithmeticOverflow | InvalidAmount | VaultTrap

  datatype Accrual = Accrual(principal: int, withdrawn: bool)

  datatype VaultState = VaultState(initialized: bool, positions: map<Address, Accrual>, totalDeposited: int)

  function PositionOf(v: VaultState, user: Address): Accrual {
    if user in v.positions then v.positions[user] else Accrual(0, false)
  }

  /** A year's yield on a principal, where the product fits. */
  function BaseYield(principal: int): Option<int> {
    if InI128(principal * YIELD_BPS_PER_YEAR) then Some(DivTrunc(principal * YIELD_BPS_PER_YEAR, 10_000)) else None
  }

  /** The part of a year's yield accrued at a ledger time, or nothing where the product does not fit. */
  function Prorated(base: int, now: nat): int {
    if InI128(base * now) then DivTrunc(base * now, SECONDS_PER_YEAR) else 0
  }

  function BalanceOf(v: VaultState, user: Address, now: nat): int {
    var pos := PositionOf(v, user);
    if !v.initialized || pos.withdrawn then 0
    else
      var base := if BaseYield(pos.principal).Some? then BaseYield(pos.principal).value else 0;
      var total := pos.principal + Prorated(base, now);
      if InI128(total) then total else 0
  }

  function Deposit(v: VaultState, from: Address, amount: int): Result<VaultState, RwaError> {
    if amount <= 0 then Err(InvalidAmount)
    else if !v.initialized then Err(NotInitialized)
    else
      var pos := PositionOf(v, from);
      if !InI128(pos.principal + amount) || !InI128(v.totalDeposited + amount) then Err(VaultTrap)
      else Ok(v.(positions := v.positions[from := pos.(principal := pos.principal + amount)],
                 totalDeposited := v.totalDeposited + amount))
  }

  /** What a withdrawal owes: principal and yield. */
  function Owed(v: VaultState, from: Address, now: nat): Result<int, RwaError> {
    var pos := PositionOf(v, from);
    if !v.initialized then Err(NotInitialized)
    else if pos.principal == 0 then Err(NoDeposit)
    else if pos.withdrawn then Err(AlreadyWithdrawn)
    else if BaseYield(pos.principal).None? then Err(ArithmeticOverflow)
    else
      var total := pos.principal + Prorated(BaseYield(pos.principal).value, now);
      if InI128(total) then Ok(total) else Err(ArithmeticOverflow)
  }

  datatype Withdrawal = Withdrawal(vault: VaultState, ledger: Ledger, paid: int)

  function WithdrawAll(v: VaultState, l: Ledger, from: Address, now: nat): Result<Withdrawal, RwaError> {
    match Owed(v, from, now)
    case Err(e) => Err(e)
    case Ok(total) =>
      var payable := if total > Balance(l, VAULT) then Balance(l, VAULT) else total;
      var moved := Moved(l, VAULT, from, payable);
      if moved.None? then Err(VaultTrap)
      else Ok(Withdrawal(v.(positions := v.positions[from := Accrual(0, true)],
                            totalDeposited := SatSub128(v.totalDeposited, PositionOf(v, from).principal)),
                         moved.value, payable))
  }

  class RwaAdapter {
    var initialized: bool
    var positions: map<Address, Accrual>
    var totalDeposited: int
    const token: TokenContract

    constructor (token: TokenContract)
      ensures View() == VaultState(true, map[], 0) && this.token == token
    {
      this.token := token;
      initialized, positions, totalDeposited := true, map[], 0;
    }

    ghost function View(): VaultState
      reads this
    {
      VaultState(initialized, positions, totalDeposited)
    }

    method LoadPosition(user: Address) returns (pos: Accrual)
      ensures pos == PositionOf(View(), user)
    {
      pos := if user in positions then positions[user] else Accrual(0, false);
    }

    method DepositFor(from: Address, amount: int) returns (r: Outcome<RwaError>)
      modifies this
      ensures var spec := Deposit(old(View()), from, amount);
        && (spec.Ok? ==> r == Pass && View() == spec.value)
        && (spec.Err? ==> r == Fail(spec.error) && View() == old(View()))
    {
      if amount <= 0 { return Fail(InvalidAmount); }
      if !initialized { return Fail(NotInitialized); }
      var pos := LoadPosition(from);
      if !InI128(pos.principal + amount) || !InI128(totalDeposited + amount) { return Fail(VaultTrap); }
      positions := positions[from := pos.(principal := pos.principal + amount)];
      totalDeposited := totalDeposited + amount;
      r := Pass;
    }

    method Withdraw(from: Address, now: nat) returns (r: Result<int, RwaError>)
      modifies this, token
      ensures var spec := WithdrawAll(old(View()), old(token.balances), from, now);
        && (spec.Ok? ==> r == Ok(spec.value.paid) && View() == spec.value.vault && token.balances == spec.value.ledger)
        && (spec.Err? ==> r == Err(spec.error) && View() == old(View()) && token.balances == old(token.balances))
    {
      if !initialized { return Err(NotInitialized); }
      var pos := LoadPosition(from);
      if pos.principal == 0 { return Err(NoDeposit); }
      if pos.withdrawn { return Err(AlreadyWithdrawn); }
      var base := BaseYield(pos.principal);
      if base.None? { return Err(ArithmeticOverflow); }
      var total := pos.principal + Prorated(base.value, now);
      if !InI128(total) { return Err(ArithmeticOverflow); }

      var before := (positions, totalDeposited);
      positions := positions[from := Accrual(0, true)];
      totalDeposited := SatSub128(totalDeposited, pos.principal);

      var balance := Balance(token.balances, VAULT);
      var payable := if total > balance then balance else total;
      var moved := token.Transfer(VAULT, from, payable);
      if !moved {
        positions, totalDeposited := before.0, before.1;
        return Err(VaultTrap);
      }
      r := Ok(payable);
    }

    method ReadBalance(user: Address, now: nat) returns (b: int)
      ensures b == BalanceOf(View(), user, now)
    {
      var pos := LoadPosition(user);
      if !initialized || pos.withdrawn { return 0; }
      var yearly := BaseYield(pos.principal);
      var base := if yearly.Some? then yearly.value else 0;
      var total := pos.principal + Prorated(base, now);
      b := if InI128(total) then total else 0;
    }
  }

  // ---- How a position grows -------------------------------------------------------------------------------

  /** The yield on a principal at a time, as a plain number. */
  function Yield(principal: nat, now: nat): nat {
    principal * YIELD_BPS_PER_YEAR / 10_000 * now / SECONDS_PER_YEAR
  }

  /** Principal and clock so small that no product of the vault leaves i128. */
  predicate Fits(principal: nat, now: nat) {
    && principal * YIELD_BPS_PER_YEAR <= I128_MAX
    && principal * YIELD_BPS_PER_YEAR / 10_000 * now <= I128_MAX
    && principal + Yield(principal, now) <= I128_MAX
  }

  lemma BaseMono(p: nat, q: nat)
    requires p <= q
    ensures p * YIELD_BPS_PER_YEAR / 10_000 <= q * YIELD_BPS_PER_YEAR / 10_000
  {
    DivMono(p * YIELD_BPS_PER_YEAR, q * YIELD_BPS_PER_YEAR, 10_000);
  }

  /** Yield grows with the principal and with the clock. */
  lemma YieldMono(p: nat, t: nat, q: nat, u: nat)
    requires p <= q && t <= u
    ensures p * YIELD_BPS_PER_YEAR / 10_000 * t <= q * YIELD_BPS_PER_YEAR / 10_000 * u
    ensures Yield(p, t) <= Yield(q, u)
  {
    var b, c := p * YIELD_BPS_PER_YEAR / 10_000, q * YIELD_BPS_PER_YEAR / 10_000;
    BaseMono(p, q);
    MulMono(b, c, t);
    MulMono(t, u, c);
    DivMono(b * t, c * u, SECONDS_PER_YEAR);
  }

  /** What fits later, for more, fits now. */
  lemma FitsEarlier(p: nat, t: nat, q: nat, u: nat)
    requires p <= q && t <= u && Fits(q, u)
    ensures Fits(p, t)
  {
    YieldMono(p, t, q, u);
    MulMono(p, q, YIELD_BPS_PER_YEAR);
  }

  /** Where it fits, an open position is worth its principal plus its yield, both to read and to withdraw. */
  lemma FittingBalance(v: VaultState, user: Address, now: nat)
    requires v.initialized && !PositionOf(v, user).withdrawn && PositionOf(v, user).principal >= 0
    requires Fits(PositionOf(v, user).principal, now)
    ensures var p: nat := PositionOf(v, user).principal;
      && BalanceOf(v, user, now) == p + Yield(p, now)
      && (p > 0 ==> Owed(v, user, now) == Ok(p + Yield(p, now)))
  {
    var p: nat := PositionOf(v, user).principal;
    var b := p * YIELD_BPS_PER_YEAR / 10_000;
    assert BaseYield(p) == Some(b);
    MulMono(0, now, b);
    assert Prorated(b, now) == Yield(p, now);
  }

  /** Entry fees up to 2^60, a hundred players and a 64-bit clock always fit. */
  lemma SmallFeesFit(fee: nat, players: nat, now: nat)
    requires fee <= 0x1000_0000_0000_0000 && players <= 100 && now <= U64_MAX
    ensures Fits(fee * players, now)
  {
    var p := fee * players;
    MulMono(players, 100, fee);
    assert p <= 100 * 0x1000_0000_0000_0000;
    var b := p * YIELD_BPS_PER_YEAR / 10_000;
    assert b <= 5 * 0x1000_0000_0000_0000;
    MulMono(b, 5 * 0x1000_0000_0000_0000, now);
    MulMono(now, U64_MAX, 5 * 0x1000_0000_0000_0000);
    assert b * now <= 5 * 0x1000_0000_0000_0000 * U64_MAX <= I128_MAX;
  }

  /** Five percent a year, in whole tokens of a year's yield, in proportion to the seconds gone by. */
  lemma FivePercentAYear(principal: nat, now: nat, years: nat)
    ensures Yield(principal, now) == principal / 20 * now / 31_536_000
    ensures Yield(principal, 31_536_000 * years) == principal / 20 * years
  {
    assert principal * 500 / 10_000 == principal / 20;
    var b := principal / 20;
    assert b * (31_536_000 * years) == b * years * 31_536_000;
    FloorIs(b * (31_536_000 * years), 31_536_000, b * years);
  }

  /**
    Where a product does not fit: a year's yield that cannot be computed makes the balance read the bare principal and
    stops a withdrawal; a part of a year's yield that cannot be counts as nothing for both; and a sum that cannot be
    makes the balance read zero and stops a withdrawal.
   */
  lemma OverflowFallbacks(v: VaultState, x: Address, now: nat)
    requires v.initialized && 0 < PositionOf(v, x).principal <= I128_MAX && !PositionOf(v, x).withdrawn
    ensures var p, worth, owed := PositionOf(v, x).principal, BalanceOf(v, x, now), Owed(v, x, now);
      if p * 500 > I128_MAX then worth == p && owed == Err(ArithmeticOverflow)
      else if p / 20 * now > I128_MAX then worth == p && owed == Ok(p)
      else if p + Yield(p, now) > I128_MAX then worth == 0 && owed == Err(ArithmeticOverflow)
      else worth == p + Yield(p, now) && owed == Ok(worth)
  {
    var p := PositionOf(v, x).principal;
    assert p * 500 / 10_000 == p / 20;
    MulMono(0, p / 20, now);
  }

  // ---- The books of the vault -----------------------------------------------------------------------------

  ghost function Principals(v: VaultState): map<Address, int> {
    map x | x in v.positions :: v.positions[x].principal
  }

  /** The total on the books is what all positions hold, none of them negative. */
  ghost predicate BooksAddUp(v: VaultState) {
    && v.totalDeposited == Sum(Principals(v)) <= I128_MAX
    && forall x :: x in v.positions ==> v.positions[x].principal >= 0
  }

  lemma OneOfThePrincipals(v: VaultState, x: Address)
    requires BooksAddUp(v)
    ensures 0 <= PositionOf(v, x).principal <= v.totalDeposited
  {
    SumNonNegative(Principals(v));
    if x in v.positions { assert Principals(v)[x] == v.positions[x].principal; }
  }

  lemma PrincipalWrite(v: VaultState, x: Address, a: Accrual)
    ensures Sum(Principals(v.(positions := v.positions[x := a])))
      == Sum(Principals(v)) - PositionOf(v, x).principal + a.principal
  {
    SumUpdate(Principals(v), x, a.principal);
    assert Principals(v.(positions := v.positions[x := a])) == Principals(v)[x := a.principal];
  }

  /**
    When a deposit passes: the vault is up, the amount positive, and the total on the books fits; it adds the amount
    to that total and to the owner's position.
   */
  lemma DepositPassesIff(v: VaultState, from: Address, amount: int)
    requires BooksAddUp(v)
    ensures var r := Deposit(v, from, amount);
      && (r.Ok? <==> v.initialized && amount > 0 && v.totalDeposited + amount <= I128_MAX)
      && (r.Ok? ==>
            && BooksAddUp(r.value) && r.value.initialized && r.value.totalDeposited == v.totalDeposited + amount
            && PositionOf(r.value, from).principal == PositionOf(v, from).principal + amount
            && PositionOf(r.value, from).withdrawn == PositionOf(v, from).withdrawn
            && forall q :: q != from ==> PositionOf(r.value, q) == PositionOf(v, q))
  {
    OneOfThePrincipals(v, from);
    var pos := PositionOf(v, from);
    PrincipalWrite(v, from, pos.(principal := pos.principal + amount));
    hide Sum;
    PrincipalsIgnoreTotal(v.(positions := v.positions[from := pos.(principal := pos.principal + amount)]),
                          v.totalDeposited + amount);
  }

  lemma PrincipalsIgnoreTotal(v: VaultState, total: int)
    ensures Principals(v.(totalDeposited := total)) == Principals(v)
  {
  }

  /** A withdrawal takes exactly the owner's principal off the books, whatever it pays. */
  lemma WithdrawalClearsBooks(v: VaultState, l: Ledger, from: Address, now: nat)
    requires BooksAddUp(v) && WithdrawAll(v, l, from, now).Ok?
    ensures var u := WithdrawAll(v, l, from, now).value.vault;
      BooksAddUp(u) && u.totalDeposited == v.totalDeposited - PositionOf(v, from).principal
  {
    OneOfThePrincipals(v, from);
    PrincipalWrite(v, from, Accrual(0, true));
    PrincipalsIgnoreTotal(v.(positions := v.positions[from := Accrual(0, true)]),
                          v.totalDeposited - PositionOf(v, from).principal);
    hide Sum, Principals, Owed, Moved;
  }

  /** A position that has been withdrawn is worth nothing and never pays again, even after a further deposit. */
  lemma WithdrawnStaysShut(v: VaultState, from: Address, amount: int, now: nat)
    requires PositionOf(v, from).withdrawn
    ensures Owed(v, from, now).Err? && BalanceOf(v, from, now) == 0
    ensures var r := Deposit(v, from, amount);
      r.Ok? ==> Owed(r.value, from, now).Err? && BalanceOf(r.value, from, now) == 0
  {
  }

  /** Why the vault refuses: the request itself first, then the state of the vault, of the position, and overflow. */
  lemma RefusalsHaveGrounds(v: VaultState, from: Address, amount: int, now: nat)
    ensures var r := Deposit(v, from, amount);
      r.Err? ==>
        && (r.error == InvalidAmount <==> amount <= 0)
        && (r.error == NotInitialized <==> amount > 0 && !v.initialized)
        && r.error in {InvalidAmount, NotInitialized, VaultTrap}
    ensures var r, pos := Owed(v, from, now), PositionOf(v, from);
      r.Err? ==>
        && (r.error == NotInitialized <==> !v.initialized)
        && (r.error == NoDeposit <==> v.initialized && pos.principal == 0)
        && (r.error == AlreadyWithdrawn <==> v.initialized && pos.principal != 0 && pos.withdrawn)
        && (r.error == ArithmeticOverflow ==> pos.principal > 0 ==> !Fits(pos.principal, now))
        && r.error in {NotInitialized, NoDeposit, AlreadyWithdrawn, ArithmeticOverflow}
  {
  }
}
