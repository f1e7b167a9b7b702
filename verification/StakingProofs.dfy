/**
  What the staking pool guarantees: its books over every run, a share price that never falls, exits that pay out
  exactly the pool whatever their order, and the exact rounding cost of entering, leaving and splitting.
 */
module StakingProofs {
  import opened Wrappers
  import opened MachineInts
  import opened MapSums
  import opened Token
  import opened StakingPool

  // ---- Arithmetic of one mint and one burn ---------------------------------------------------------------

  /** t is what burning s of S shares pays out of T tokens: s * T / S, rounded down. */
  ghost predicate Pays(T: int, S: int, s: int, t: int) {
    0 < s <= S <= T && t * S <= s * T < t * S + S
  }

  lemma BurnPays(T: int, S: int, s: int)
    requires 0 < s <= S <= T
    ensures s * T >= 0 && Pays(T, S, s, s * T / S)
  {
    MulMono(0, s, T);
    FloorBounds(s * T, S);
  }

  /** A share is worth at least a token, nobody gets more than there is, and the last share takes it all. */
  lemma BurnRange(T: int, S: int, s: int, t: int)
    requires Pays(T, S, s, t)
    ensures s <= t <= T && (s == S ==> t == T)
  {
    MulMono(S, T, s);
    MulMono(s, S, T);
    assert (t + 1) * S == t * S + S;
    CancelLess(s, t + 1, S);
    CancelAtMost(t, T, S);
    if s == S { CancelLess(T, t + 1, S); }
  }

  /** What is left keeps the price, rounded up. */
  lemma BurnPrice(T: int, S: int, s: int, t: int)
    requires Pays(T, S, s, t)
    ensures T * (S - s) <= (T - t) * S < T * (S - s) + S
  {
    assert (T - t) * S == T * S - t * S;
    assert T * (S - s) == T * S - s * T;
  }

  lemma BurnGap(T: int, S: int, s: int, t: int)
    requires Pays(T, S, s, t)
    ensures T - t >= S - s
  {
    BurnPrice(T, S, s, t);
    MulMono(S, T, S - s);
    assert S * (S - s) == (S - s) * S;
    CancelAtMost(S - s, T - t, S);
  }

  /** m is what a deposit of a mints against T tokens and S shares: a * S / T, rounded down. */
  ghost predicate Mints(T: int, S: int, a: int, m: int) {
    0 < S <= T && 0 < a && m * T <= a * S < m * T + T
  }

  lemma StakeMints(T: int, S: int, a: int)
    requires 0 < S <= T && 0 < a
    ensures a * S >= 0 && Mints(T, S, a, a * S / T)
  {
    MulMono(0, a, S);
    FloorBounds(a * S, T);
  }

  lemma MintRange(T: int, S: int, a: int, m: int)
    requires Mints(T, S, a, m)
    ensures 0 <= m <= a
  {
    MulMono(S, T, a);
    MulMono(0, a, S);
    CancelAtMost(m, a, T);
    assert (m + 1) * T == m * T + T;
    CancelLess(0, m + 1, T);
  }

  lemma MintPrice(T: int, S: int, a: int, m: int)
    requires Mints(T, S, a, m)
    ensures (T + a) * S >= T * (S + m)
  {
    assert (T + a) * S == T * S + a * S;
    assert T * (S + m) == T * S + m * T;
  }

  /** What one successful unstake does to the totals, in linear terms. */
  lemma UnstakeTotals(b: Books, x: Address, s: int)
    requires Balanced(b) && Unstake(b.pool, x, s).1.Ok?
    ensures var (q, r) := Unstake(b.pool, x, s);
      && Pays(b.pool.totalStaked, b.pool.totalShares, s, r.value)
      && s <= r.value <= b.pool.totalStaked
      && q.totalStaked == b.pool.totalStaked - r.value && q.totalShares == b.pool.totalShares - s
      && 0 <= q.totalShares <= q.totalStaked && (q.totalShares == 0 ==> q.totalStaked == 0)
  {
    OneOfTheShares(b, x);
    var (q, r) := Unstake(b.pool, x, s);
    BurnPays(b.pool.totalStaked, b.pool.totalShares, s);
    BurnRange(b.pool.totalStaked, b.pool.totalShares, s, r.value);
    BurnGap(b.pool.totalStaked, b.pool.totalShares, s, r.value);
  }

  /** What one successful stake into a live pool does to the totals. */
  lemma StakeTotals(b: Books, x: Address, a: int)
    requires Balanced(b) && b.pool.totalShares > 0 && Stake(b.pool, x, a).1.Ok?
    ensures var (q, r) := Stake(b.pool, x, a);
      && Mints(b.pool.totalStaked, b.pool.totalShares, a, r.value) && 0 < r.value <= a
      && q.totalStaked == b.pool.totalStaked + a && q.totalShares == b.pool.totalShares + r.value
  {
    var (q, r) := Stake(b.pool, x, a);
    StakeMints(b.pool.totalStaked, b.pool.totalShares, a);
    MintRange(b.pool.totalStaked, b.pool.totalShares, a, r.value);
  }

  // ---- The books, over every run --------------------------------------------------------------------------

  datatype PoolOp =
    | OpInitialize
    | OpStake(staker: Address, amount: int)
    | OpUnstake(staker: Address, shares: int)
    | OpDistribute(caller: Address, amount: int)
    | OpSetPaused(value: bool)
    | OpOutside(from: Address, to: Address, amount: int)

  /** The pool with what history has put into it: rewards distributed and tokens given to its account. */
  datatype Books = Books(pool: Pool, rewards: int, gifts: int)

  /** The pool's own account never signs. */
  predicate Authorized(op: PoolOp) {
    match op
    case OpInitialize => true
    case OpStake(x, _) => x != POOL
    case OpUnstake(x, _) => x != POOL
    case OpDistribute(x, _) => x != POOL
    case OpSetPaused(_) => true
    case OpOutside(x, _, _) => x != POOL
  }

  function Apply(p: Pool, op: PoolOp): (Pool, Result<int, StakingError>) {
    match op
    case OpInitialize => Initialize(p)
    case OpStake(x, a) => Stake(p, x, a)
    case OpUnstake(x, s) => Unstake(p, x, s)
    case OpDistribute(x, a) => DistributeRewards(p, x, a)
    case OpSetPaused(v) => SetPaused(p, v)
    case OpOutside(x, y, a) => OutsideTransfer(p, x, y, a)
  }

  function Post(b: Books, op: PoolOp): Books {
    var (pool, r) := Apply(b.pool, op);
    Books(pool,
          b.rewards + (if op.OpDistribute? && r.Ok? then op.amount else 0),
          b.gifts + (if op.OpOutside? && r.Ok? && op.to == POOL then op.amount else 0))
  }

  function Run(b: Books, ops: seq<PoolOp>): Books
    decreases |ops|
  {
    if ops == [] then b else Run(Post(b, ops[0]), ops[1..])
  }

  ghost function SharesOf(p: map<Address, StakePosition>): map<Address, int> {
    map x | x in p :: p[x].shares
  }

  ghost function AmountsOf(p: map<Address, StakePosition>): map<Address, int> {
    map x | x in p :: p[x].amount
  }

  ghost predicate Balanced(b: Books) {
    && 0 <= b.pool.totalShares <= b.pool.totalStaked <= I128_MAX
    && 0 <= b.rewards && 0 <= b.gifts
    && (forall x :: x in b.pool.positions ==> b.pool.positions[x].shares >= 0 && InI128(b.pool.positions[x].amount))
    && b.pool.totalShares == Sum(SharesOf(b.pool.positions))
    && b.pool.totalStaked == Sum(AmountsOf(b.pool.positions)) + b.rewards
    && Balance(b.pool.ledger, POOL) == b.pool.totalStaked + b.gifts
    && (!b.pool.initialized ==> b.pool.positions == map[] && b.pool.totalStaked == 0)
  }

  ghost predicate Fresh(b: Books) {
    && b.pool == Pool(false, false, 0, 0, map[], b.pool.ledger)
    && b.rewards == 0
    && b.gifts == Balance(b.pool.ledger, POOL)
  }

  /** One position rewritten: both sums move by exactly the change. */
  lemma PositionWrite(p: map<Address, StakePosition>, x: Address, v: StakePosition)
    ensures var was := if x in p then p[x] else StakePosition(0, 0);
      && Sum(SharesOf(p[x := v])) == Sum(SharesOf(p)) - was.shares + v.shares
      && Sum(AmountsOf(p[x := v])) == Sum(AmountsOf(p)) - was.amount + v.amount
  {
    SumUpdate(SharesOf(p), x, v.shares);
    SumUpdate(AmountsOf(p), x, v.amount);
    assert SharesOf(p[x := v]) == SharesOf(p)[x := v.shares];
    assert AmountsOf(p[x := v]) == AmountsOf(p)[x := v.amount];
  }

  lemma OneOfTheShares(b: Books, x: Address)
    requires Balanced(b)
    ensures 0 <= PositionOf(b.pool, x).shares <= b.pool.totalShares
  {
    SumNonNegative(SharesOf(b.pool.positions));
    if x in b.pool.positions {
      assert SharesOf(b.pool.positions)[x] == b.pool.positions[x].shares;
    }
  }

  lemma StakeKeepsBooks(b: Books, x: Address, a: int)
    requires Balanced(b) && x != POOL
    ensures Balanced(b.(pool := Stake(b.pool, x, a).0))
  {
    var (q, r) := Stake(b.pool, x, a);
    if r.Ok? {
      if b.pool.totalShares > 0 { StakeTotals(b, x, a); }
      OneOfTheShares(b, x);
      PositionWrite(b.pool.positions, x, q.positions[x]);
    }
  }

  lemma UnstakeKeepsBooks(b: Books, x: Address, s: int)
    requires Balanced(b) && x != POOL
    ensures Balanced(b.(pool := Unstake(b.pool, x, s).0))
  {
    var (q, r) := Unstake(b.pool, x, s);
    if r.Ok? {
      UnstakeTotals(b, x, s);
      PositionWrite(b.pool.positions, x, q.positions[x]);
    }
  }

  lemma OtherStepsKeepBooks(b: Books, op: PoolOp)
    requires Balanced(b) && Authorized(op) && !op.OpStake? && !op.OpUnstake?
    ensures Balanced(Post(b, op))
  {
    hide Sum, SharesFor, Stake, Unstake;
    if op.OpInitialize? {
      InitializeKeepsBooks(b);
    } else {
      hide Initialize;
    }
  }

  lemma InitializeKeepsBooks(b: Books)
    requires Balanced(b)
    ensures Balanced(Post(b, OpInitialize))
  {
    if !b.pool.initialized { assert SharesOf(b.pool.positions) == map[]; }
  }

  /** Each step keeps the books: shares, stakes plus rewards, and the token account all add up. */
  lemma StepKeepsBooks(b: Books, op: PoolOp)
    requires Balanced(b) && Authorized(op)
    ensures Balanced(Post(b, op))
  {
    match op {
      case OpStake(x, a) =>
        StakeKeepsBooks(b, x, a);
        assert Post(b, op) == b.(pool := Stake(b.pool, x, a).0);
      case OpUnstake(x, s) =>
        UnstakeKeepsBooks(b, x, s);
        assert Post(b, op) == b.(pool := Unstake(b.pool, x, s).0);
      case _ => OtherStepsKeepBooks(b, op);
    }
  }

  lemma {:induction false} BooksBalance(b: Books, ops: seq<PoolOp>)
    requires Balanced(b) && forall i :: 0 <= i < |ops| ==> Authorized(ops[i])
    ensures Balanced(Run(b, ops))
    decreases |ops|
  {
    hide Balanced, Post, Authorized;
    if ops != [] {
      StepKeepsBooks(b, ops[0]);
      BooksBalance(Post(b, ops[0]), ops[1..]);
    }
  }

  /** Conservation over every run from deployment. */
  lemma StakingConservation(b: Books, ops: seq<PoolOp>)
    requires Fresh(b) && forall i :: 0 <= i < |ops| ==> Authorized(ops[i])
    ensures var e := Run(b, ops);
      && e.pool.totalShares == Sum(SharesOf(e.pool.positions))
      && e.pool.totalStaked == Sum(AmountsOf(e.pool.positions)) + e.rewards
      && Balance(e.pool.ledger, POOL) == e.pool.totalStaked + e.gifts
      && 0 <= e.pool.totalShares <= e.pool.totalStaked
  {
    hide Run, Authorized, Sum;
    FreshIsBalanced(b);
    BooksBalance(b, ops);
  }

  lemma FreshIsBalanced(b: Books)
    requires Fresh(b)
    ensures Balanced(b)
  {
    assert SharesOf(b.pool.positions) == map[];
    assert AmountsOf(b.pool.positions) == map[];
  }

  // ---- When a call passes, and what it moves -------------------------------------------------------------

  /** A stake is at least 10 000 000 into an empty pool; into a live one it must be worth a share. */
  ghost predicate WorthStaking(p: Pool, a: int) {
    if p.totalStaked == 0 || p.totalShares == 0 then a >= 10_000_000
    else a * p.totalShares <= I128_MAX && a * p.totalShares >= p.totalStaked
  }

  lemma SharesAreMinted(b: Books, a: int)
    requires Balanced(b) && a > 0
    ensures var p := b.pool;
      && (SharesFor(p, a).Ok? <==> WorthStaking(p, a))
      && (SharesFor(p, a).Ok? ==>
            var m := SharesFor(p, a).value;
            && 0 < m <= a
            && (if p.totalStaked == 0 || p.totalShares == 0 then m == a
                else m * p.totalStaked <= a * p.totalShares < m * p.totalStaked + p.totalStaked))
  {
    var T, S := b.pool.totalStaked, b.pool.totalShares;
    if T > 0 && S > 0 {
      StakeMints(T, S, a);
      var m := a * S / T;
      MintRange(T, S, a, m);
      if a * S >= T { DivMono(T, a * S, T); }
      if m > 0 { MulMono(1, m, T); }
    }
  }

  /**
    When a stake passes: the pool is in business, the amount positive and within the staker's means, it is worth
    staking, and neither the pool's total nor the staker's recorded amount leaves i128. It takes exactly the amount
    from the staker, and mints a share per token into an empty pool, the floor of its part of the shares otherwise.
   */
  lemma StakePassesIff(b: Books, x: Address, a: int)
    requires Balanced(b) && x != POOL
    ensures var p := b.pool;
      var (q, r) := Stake(p, x, a);
      && (r.Ok? <==>
            && InBusiness(p) && 0 < a <= Balance(p.ledger, x) && WorthStaking(p, a)
            && p.totalStaked + a <= I128_MAX && PositionOf(p, x).amount + a <= I128_MAX)
      && (r.Ok? ==>
            && (if p.totalStaked == 0 || p.totalShares == 0 then r.value == a
                else r.value * p.totalStaked <= a * p.totalShares < r.value * p.totalStaked + p.totalStaked)
            && PositionOf(q, x) == StakePosition(PositionOf(p, x).amount + a, PositionOf(p, x).shares + r.value)
            && q.totalStaked == p.totalStaked + a && q.totalShares == p.totalShares + r.value
            && Balance(q.ledger, x) == Balance(p.ledger, x) - a
            && Balance(q.ledger, POOL) == Balance(p.ledger, POOL) + a
            && forall y :: y != x ==> PositionOf(q, y) == PositionOf(p, y))
  {
    OneOfTheShares(b, x);
    if a > 0 { SharesAreMinted(b, a); }
    AmountsFit(b, x);
    hide SharesFor, Sum, WorthStaking;
  }

  lemma AmountsFit(b: Books, x: Address)
    requires Balanced(b)
    ensures InI128(PositionOf(b.pool, x).amount)
  {
  }

  /**
    When an unstake passes: the pool is in business, the staker holds that many shares, and the exit fits. It pays
    the staker the floor of their part of the pool.
   */
  lemma UnstakePassesIff(b: Books, x: Address, s: int)
    requires Balanced(b) && x != POOL
    ensures var p := b.pool;
      var (q, r) := Unstake(p, x, s);
      && (r.Ok? <==> InBusiness(p) && 0 < s <= PositionOf(p, x).shares && FitsNow(p, Exit(x, s)))
      && (r.Ok? ==>
            && Pays(p.totalStaked, p.totalShares, s, r.value)
            && PositionOf(q, x) == StakePosition(PositionOf(p, x).amount - r.value, PositionOf(p, x).shares - s)
            && Balance(q.ledger, x) == Balance(p.ledger, x) + r.value
            && Balance(q.ledger, POOL) == Balance(p.ledger, POOL) - r.value
            && forall y :: y != x ==> PositionOf(q, y) == PositionOf(p, y))
  {
    OneOfTheShares(b, x);
    if InBusiness(b.pool) && 0 < s <= PositionOf(b.pool, x).shares && FitsNow(b.pool, Exit(x, s)) { ExitFits(b, x, s); }
    if Unstake(b.pool, x, s).1.Ok? { UnstakeTotals(b, x, s); }
    hide Sum, Balanced, Pays;
  }

  /** When rewards pass: they are positive, covered by the caller, and fit; they raise the total and no position. */
  lemma RewardsPassIff(b: Books, x: Address, a: int)
    requires Balanced(b) && x != POOL
    ensures var p := b.pool;
      var (q, r) := DistributeRewards(p, x, a);
      && (r.Ok? <==> InBusiness(p) && 0 < a <= Balance(p.ledger, x) && p.totalStaked + a <= I128_MAX)
      && (r.Ok? ==>
            && q.totalStaked == p.totalStaked + a && q.totalShares == p.totalShares && q.positions == p.positions
            && Balance(q.ledger, x) == Balance(p.ledger, x) - a
            && Balance(q.ledger, POOL) == Balance(p.ledger, POOL) + a)
  {
    hide Sum;
  }

  /**
    A pause lasts until it is lifted and stops staking, unstaking and rewards; lifting it leaves the pool as it was.
   */
  lemma PausingGoverns(p: Pool, x: Address, n: int)
    ensures var (q, r) := SetPaused(p, true);
      && (r.Ok? <==> p.initialized)
      && (r.Ok? ==>
            && !InBusiness(q)
            && Stake(q, x, n) == (q, Err(Paused)) && Unstake(q, x, n) == (q, Err(Paused))
            && DistributeRewards(q, x, n) == (q, Err(Paused))
            && InBusiness(SetPaused(q, false).0) && SetPaused(q, false).0 == p.(paused := false))
  {
    hide Moved, SharesFor;
  }

  /** Why a stake or an unstake is refused: a pause comes first, and every other error names what is the matter. */
  lemma RefusalsHaveGrounds(b: Books, x: Address, n: int, stakes: bool)
    requires Balanced(b) && x != POOL
    ensures var p := b.pool;
      var r := if stakes then Stake(p, x, n).1 else Unstake(p, x, n).1;
      r.Err? ==>
        && (r.error == Paused <==> p.paused)
        && (r.error == NotInitialized <==> !p.initialized && !p.paused)
        && (r.error == InvalidAmount <==> InBusiness(p) && n <= 0)
        && (r.error == BelowMinimumInitialStake <==>
              stakes && InBusiness(p) && 0 < n < 10_000_000 && (p.totalStaked == 0 || p.totalShares == 0))
        && (r.error == ZeroShares ==> stakes && InBusiness(p) && 0 < n * p.totalShares < p.totalStaked)
        && (r.error == InsufficientShares <==> !stakes && InBusiness(p) && 0 < n && PositionOf(p, x).shares < n)
        && r.error in {Paused, NotInitialized, InvalidAmount, BelowMinimumInitialStake, ZeroShares, InsufficientShares,
                       HostTrap}
  {
    OneOfTheShares(b, x);
    if n > 0 && b.pool.totalShares > 0 && b.pool.totalStaked > 0 { SharesAreMinted(b, n); }
    hide Sum, Moved;
  }

  // ---- The share price never falls ------------------------------------------------------------------------

  /** The price T/S after `op` is at least the price before it, by cross-multiplication. */
  lemma PriceNeverFalls(b: Books, op: PoolOp)
    requires Balanced(b) && Authorized(op) && b.pool.totalShares > 0
    ensures var q := Post(b, op).pool; q.totalStaked * b.pool.totalShares >= b.pool.totalStaked * q.totalShares
  {
    var p := b.pool;
    var (q, r) := Apply(p, op);
    match op {
      case OpStake(x, a) =>
        if r.Ok? {
          StakeTotals(b, x, a);
          MintPrice(p.totalStaked, p.totalShares, a, r.value);
        }
      case OpUnstake(x, s) =>
        if r.Ok? {
          UnstakeTotals(b, x, s);
          BurnPrice(p.totalStaked, p.totalShares, s, r.value);
        }
      case OpDistribute(x, a) =>
        MulMono(p.totalStaked, q.totalStaked, p.totalShares);
      case _ =>
    }
  }

  predicate ActsOnPosition(op: PoolOp, x: Address) {
    (op.OpStake? || op.OpUnstake?) && op.staker == x
  }

  /** A higher price redeems at least as much for the same shares. */
  lemma RedeemMonotone(T: int, S: int, T': int, S': int, k: int, v: int, v': int)
    requires S > 0 && S' > 0 && k >= 0 && T' * S >= T * S'
    requires v * S <= k * T && k * T' < v' * S' + S'
    ensures v <= v'
  {
    MulMono(v * S, k * T, S');
    MulMono(T * S', T' * S, k);
    assert k * T * S' == k * (T * S') && k * (T' * S) == k * T' * S;
    assert v * S * S' == v * S' * S;
    CancelAtMost(v * S', k * T', S);
    assert (v' + 1) * S' == v' * S' + S';
    CancelLess(v, v' + 1, S');
  }

  lemma RedeemBounds(p: Pool, x: Address)
    requires p.totalShares > 0 && p.totalStaked >= 0 && PositionOf(p, x).shares >= 0
    ensures Redeemable(p, x) * p.totalShares <= PositionOf(p, x).shares * p.totalStaked
    ensures PositionOf(p, x).shares * p.totalStaked < Redeemable(p, x) * p.totalShares + p.totalShares
    ensures Redeemable(p, x) >= 0
  {
    var k, T := PositionOf(p, x).shares, p.totalStaked;
    MulMono(0, k, T);
    DivTruncBounds(k * T, p.totalShares);
  }

  lemma DivTruncBounds(a: int, b: int)
    requires a >= 0 && b > 0
    ensures DivTrunc(a, b) * b <= a < DivTrunc(a, b) * b + b && DivTrunc(a, b) >= 0
  {
    FloorBounds(a, b);
  }

  lemma BystanderKeepsShares(p: Pool, op: PoolOp, x: Address)
    requires !ActsOnPosition(op, x) && (!p.initialized ==> p.positions == map[])
    ensures PositionOf(Apply(p, op).0, x) == PositionOf(p, x)
  {
  }

  lemma BystanderNeverLoses(b: Books, op: PoolOp, x: Address)
    requires Balanced(b) && Authorized(op) && !ActsOnPosition(op, x)
    ensures PositionOf(Post(b, op).pool, x) == PositionOf(b.pool, x)
    ensures Redeemable(Post(b, op).pool, x) >= Redeemable(b.pool, x)
  {
    var p, q, k := b.pool, Post(b, op).pool, PositionOf(b.pool, x).shares;
    BystanderKeepsShares(p, op, x);
    StepKeepsBooks(b, op);
    OneOfTheShares(b, x);
    OneOfTheShares(Post(b, op), x);
    if p.totalShares > 0 { PriceNeverFalls(b, op); }
    RedeemableFollowsPrice(p, q, x);
  }

  lemma RedeemableFollowsPrice(p: Pool, q: Pool, x: Address)
    requires 0 <= PositionOf(p, x).shares == PositionOf(q, x).shares
    requires PositionOf(p, x).shares <= p.totalShares && PositionOf(q, x).shares <= q.totalShares
    requires p.totalStaked >= 0 && q.totalStaked >= 0
    requires p.totalShares > 0 ==> q.totalStaked * p.totalShares >= p.totalStaked * q.totalShares
    ensures Redeemable(q, x) >= Redeemable(p, x)
  {
    if q.totalShares > 0 { RedeemBounds(q, x); }
    if p.totalShares > 0 { RedeemBounds(p, x); }
    if p.totalShares > 0 && q.totalShares > 0 {
      RedeemMonotone(p.totalStaked, p.totalShares, q.totalStaked, q.totalShares, PositionOf(p, x).shares,
                     Redeemable(p, x), Redeemable(q, x));
    } else if p.totalShares > 0 {
      CancelAtMost(Redeemable(p, x), 0, p.totalShares);
    }
  }

  /** Over any run in which a staker does nothing, what their shares redeem for never falls. */
  lemma {:induction false} HoldersNeverLose(b: Books, ops: seq<PoolOp>, x: Address)
    requires Balanced(b)
    requires forall i :: 0 <= i < |ops| ==> Authorized(ops[i]) && !ActsOnPosition(ops[i], x)
    ensures PositionOf(Run(b, ops).pool, x) == PositionOf(b.pool, x)
    ensures Redeemable(Run(b, ops).pool, x) >= Redeemable(b.pool, x)
    decreases |ops|
  {
    if ops != [] {
      BystanderNeverLoses(b, ops[0], x);
      StepKeepsBooks(b, ops[0]);
      HoldersNeverLose(Post(b, ops[0]), ops[1..], x);
    }
  }

  // ---- Leaving the pool -----------------------------------------------------------------------------------

  datatype Exit = Exit(staker: Address, shares: int)

  /** A run of exits: the final pool, what they paid in all, and whether every one succeeded. */
  function Leave(p: Pool, exits: seq<Exit>): (Pool, int, bool)
    decreases |exits|
  {
    if exits == [] then (p, 0, true)
    else
      var (q, r) := Unstake(p, exits[0].staker, exits[0].shares);
      var (end, paid, ok) := Leave(q, exits[1..]);
      (end, paid + (if r.Ok? then r.value else 0), ok && r.Ok?)
  }

  function Burnt(exits: seq<Exit>): int {
    if exits == [] then 0 else exits[0].shares + Burnt(exits[1..])
  }

  function BurntBy(exits: seq<Exit>, x: Address): int {
    if exits == [] then 0
    else (if exits[0].staker == x then exits[0].shares else 0) + BurntBy(exits[1..], x)
  }

  /** Every exit burns something, and nobody burns more than they hold. */
  ghost predicate Covered(p: Pool, exits: seq<Exit>) {
    && (forall i :: 0 <= i < |exits| ==> exits[i].shares > 0 && exits[i].staker != POOL)
    && (forall x :: BurntBy(exits, x) <= PositionOf(p, x).shares)
  }

  predicate InBusiness(p: Pool) {
    p.initialized && !p.paused
  }

  /** The product and the difference an exit computes stay inside i128. */
  predicate FitsNow(p: Pool, e: Exit) {
    && p.totalShares > 0 && InI128(e.shares * p.totalStaked)
    && InI128(PositionOf(p, e.staker).amount - DivTrunc(e.shares * p.totalStaked, p.totalShares))
  }

  /** Each exit fits when its turn comes. */
  predicate Fit(p: Pool, exits: seq<Exit>)
    decreases |exits|
  {
    exits == [] || (FitsNow(p, exits[0]) && Fit(Unstake(p, exits[0].staker, exits[0].shares).0, exits[1..]))
  }

  lemma {:induction false} BurntNonNegative(exits: seq<Exit>)
    requires forall i :: 0 <= i < |exits| ==> exits[i].shares > 0
    ensures Burnt(exits) >= 0 && (Burnt(exits) == 0 ==> exits == [])
    ensures forall x :: BurntBy(exits, x) >= 0
  {
    if exits != [] {
      BurntNonNegative(exits[1..]);
    }
  }

  /** A covered exit succeeds exactly if it fits, and leaves the remaining exits covered. */
  lemma OneExit(b: Books, exits: seq<Exit>)
    requires Balanced(b) && InBusiness(b.pool) && exits != [] && Covered(b.pool, exits)
    ensures var e, p := exits[0], b.pool;
      var (q, r) := Unstake(p, e.staker, e.shares);
      && (r.Ok? <==> FitsNow(p, e)) && (r.Err? ==> q == p)
      && Balanced(b.(pool := q)) && InBusiness(q) && (r.Ok? ==> Covered(q, exits[1..]))
  {
    var e, p := exits[0], b.pool;
    BurntNonNegative(exits[1..]);
    assert BurntBy(exits, e.staker) == e.shares + BurntBy(exits[1..], e.staker);
    OneOfTheShares(b, e.staker);
    if FitsNow(p, e) { ExitFits(b, e.staker, e.shares); }
    var (q, r) := Unstake(p, e.staker, e.shares);
    StepKeepsBooks(b, OpUnstake(e.staker, e.shares));
    if r.Ok? {
      forall x ensures BurntBy(exits[1..], x) <= PositionOf(q, x).shares {
        assert BurntBy(exits, x) <= PositionOf(p, x).shares;
        assert x != e.staker ==> PositionOf(q, x) == PositionOf(p, x);
      }
    }
  }

  lemma ProductShrinks(a: int, b: int, c: int, d: int)
    requires 0 <= a <= c && 0 <= b <= d
    ensures 0 <= a * b <= c * d
  {
    MulMono(a, c, b);
    MulMono(b, d, c);
    MulMono(0, a, b);
  }

  /** An exit of shares the staker holds fits the machine and is funded. */
  lemma ExitFits(b: Books, x: Address, s: int)
    requires Balanced(b) && InBusiness(b.pool) && FitsNow(b.pool, Exit(x, s))
    requires 0 < s <= PositionOf(b.pool, x).shares <= b.pool.totalShares
    ensures Unstake(b.pool, x, s).1.Ok?
  {
    var T, S := b.pool.totalStaked, b.pool.totalShares;
    BurnPays(T, S, s);
    BurnRange(T, S, s, s * T / S);
  }

  lemma NothingLeftToBurn(b: Books, exits: seq<Exit>)
    requires Balanced(b) && b.pool.totalShares == 0 && Covered(b.pool, exits)
    ensures exits == []
  {
    if exits != [] {
      BurntNonNegative(exits[1..]);
      assert BurntBy(exits, exits[0].staker) <= PositionOf(b.pool, exits[0].staker).shares;
      OneOfTheShares(b, exits[0].staker);
    }
  }

  /** T2 and S2 are what n exits leave of T and S: the price rounded up, by less than one token per exit. */
  ghost predicate LeavesThePrice(T: int, S: int, T2: int, S2: int, n: int) {
    && 0 <= S2 <= S && 0 <= T2
    && (S2 == 0 && S > 0 ==> T2 == 0)
    && T * S2 <= S * T2 <= T * S2 + n * S
    && (n > 0 ==> S * T2 < T * S2 + n * S)
  }

  /**
    Exits by anyone, in any order and split in any way: all of them succeed exactly if each fits when its turn
    comes, and then what they leave is the pool's price rounded up, by less than one token per exit.
   */
  lemma {:induction false} ExitsPayThePrice(b: Books, exits: seq<Exit>)
    requires Balanced(b) && InBusiness(b.pool) && Covered(b.pool, exits) && b.pool.totalShares > 0
    ensures var (q, paid, ok) := Leave(b.pool, exits);
      && (ok <==> Fit(b.pool, exits))
      && (ok ==>
            && paid == b.pool.totalStaked - q.totalStaked && q.totalShares == b.pool.totalShares - Burnt(exits)
            && LeavesThePrice(b.pool.totalStaked, b.pool.totalShares, q.totalStaked, q.totalShares, |exits|))
    decreases |exits|
  {
    hide Unstake, Balanced, Covered, InBusiness, FitsNow, LeavesThePrice, Pays;
    var T, S := b.pool.totalStaked, b.pool.totalShares;
    if exits == [] {
      NoExits(b);
    } else {
      OneExit(b, exits);
      var (p, r) := Unstake(b.pool, exits[0].staker, exits[0].shares);
      if r.Ok? {
        UnstakeTotals(b, exits[0].staker, exits[0].shares);
        if p.totalShares == 0 {
          NothingLeftToBurn(b.(pool := p), exits[1..]);
          assert Leave(p, exits[1..]) == (p, 0, true);
          AllGone(T, S);
        } else {
          ExitsPayThePrice(b.(pool := p), exits[1..]);
          var q := Leave(p, exits[1..]).0;
          if Leave(p, exits[1..]).2 {
            PriceChain(T, S, exits[0].shares, r.value, q.totalStaked, q.totalShares, |exits| - 1);
          }
        }
      }
    }
  }

  lemma NoExits(b: Books)
    requires Balanced(b)
    ensures LeavesThePrice(b.pool.totalStaked, b.pool.totalShares, b.pool.totalStaked, b.pool.totalShares, 0)
  {
    assert b.pool.totalStaked * b.pool.totalShares == b.pool.totalShares * b.pool.totalStaked;
  }

  /** One exit that burns all there is leaves nothing. */
  lemma AllGone(T: int, S: int)
    requires S > 0
    ensures LeavesThePrice(T, S, 0, 0, 1)
  {
    assert T * 0 == 0 == S * 0;
  }

  /** The first exit burns s for t; the n that follow leave T2 and S2. */
  lemma PriceChain(T: int, S: int, s: int, t: int, T2: int, S2: int, n: int)
    requires Pays(T, S, s, t) && s < S && n >= 0 && LeavesThePrice(T - t, S - s, T2, S2, n)
    ensures LeavesThePrice(T, S, T2, S2, n + 1)
  {
    BurnPrice(T, S, s, t);
    PriceChainBelow(T, S, T - t, S - s, T2, S2);
    if S2 == 0 {
      MulMono(1, n + 1, S);
      assert T * S2 == 0 && S * T2 == 0;
    } else {
      PriceChainAbove(T, S, T - t, S - s, T2, S2, n);
    }
  }

  lemma PriceChainBelow(T: int, S: int, T1: int, S1: int, T2: int, S2: int)
    requires S > 0 && S1 > 0 && S2 >= 0 && T * S1 <= T1 * S && T1 * S2 <= S1 * T2
    ensures T * S2 <= S * T2
  {
    MulMono(T * S1, T1 * S, S2);
    MulMono(T1 * S2, S1 * T2, S);
    assert T * S1 * S2 == T * S2 * S1;
    assert T1 * S * S2 == T1 * S2 * S;
    assert S1 * T2 * S == S * T2 * S1;
    CancelAtMost(T * S2, S * T2, S1);
  }

  lemma PriceChainAbove(T: int, S: int, T1: int, S1: int, T2: int, S2: int, n: int)
    requires 0 < S2 <= S1 <= S && T1 * S < T * S1 + S && S1 * T2 <= T1 * S2 + n * S1
    ensures S * T2 < T * S2 + (n + 1) * S
  {
    RestScaled(T1, S, S1, T2, S2, n);
    FirstScaled(T, S, T1 * S, S1, S2);
    assert (T * S2 + n * S + S) * S1 == T * S2 * S1 + n * S * S1 + S * S1;
    CancelLess(S * T2, T * S2 + n * S + S, S1);
    assert (n + 1) * S == n * S + S;
  }

  lemma RestScaled(T1: int, S: int, S1: int, T2: int, S2: int, n: int)
    requires S >= 0 && S1 * T2 <= T1 * S2 + n * S1
    ensures S * T2 * S1 <= T1 * S * S2 + n * S * S1
  {
    MulMono(S1 * T2, T1 * S2 + n * S1, S);
    assert S1 * T2 * S == S * T2 * S1;
    assert (T1 * S2 + n * S1) * S == T1 * S2 * S + n * S1 * S;
    assert T1 * S2 * S == T1 * S * S2;
    assert n * S1 * S == n * S * S1;
  }

  lemma FirstScaled(T: int, S: int, a: int, S1: int, S2: int)
    requires 0 < S2 <= S1 <= S && a < T * S1 + S
    ensures a * S2 < T * S2 * S1 + S * S1
  {
    MulMono(a + 1, T * S1 + S, S2);
    MulMono(S2, S1, S);
    assert (a + 1) * S2 == a * S2 + S2;
    assert (T * S1 + S) * S2 == T * S1 * S2 + S * S2;
    assert T * S1 * S2 == T * S2 * S1;
  }

  /**
    Unwinding: whatever the order and the splitting, burning every share succeeds exactly if each exit fits, and
    then pays out exactly the pool.
   */
  lemma UnwindPaysExactlyThePool(b: Books, exits: seq<Exit>)
    requires Balanced(b) && InBusiness(b.pool) && Covered(b.pool, exits)
    requires b.pool.totalShares > 0 && Burnt(exits) == b.pool.totalShares
    ensures var (q, paid, ok) := Leave(b.pool, exits);
      && (ok <==> Fit(b.pool, exits))
      && (ok ==> paid == b.pool.totalStaked && q.totalStaked == 0 && q.totalShares == 0)
  {
    ExitsPayThePrice(b, exits);
  }

  /** Exits fit whose products fit in the pool as it stands, by stakers not too deep below zero. */
  lemma {:induction false} SmallExitsFit(b: Books, exits: seq<Exit>)
    requires Balanced(b) && InBusiness(b.pool) && Covered(b.pool, exits)
    requires forall i :: 0 <= i < |exits| ==>
      && exits[i].shares * b.pool.totalStaked <= I128_MAX
      && PositionOf(b.pool, exits[i].staker).amount >= I128_MIN + b.pool.totalStaked
    ensures Fit(b.pool, exits)
    decreases |exits|
  {
    if exits != [] {
      var e, p := exits[0], b.pool;
      SmallExitFits(b, exits);
      OneExit(b, exits);
      UnstakeTotals(b, e.staker, e.shares);
      var (q, r) := Unstake(p, e.staker, e.shares);
      forall i | 0 <= i < |exits[1..]|
        ensures exits[1..][i].shares * q.totalStaked <= I128_MAX
        ensures PositionOf(q, exits[1..][i].staker).amount >= I128_MIN + q.totalStaked
      {
        assert exits[1..][i] == exits[i + 1];
        MulMono(q.totalStaked, p.totalStaked, exits[i + 1].shares);
      }
      hide Unstake, Balanced, InBusiness, FitsNow;
      SmallExitsFit(b.(pool := q), exits[1..]);
    }
  }

  lemma SmallExitFits(b: Books, exits: seq<Exit>)
    requires Balanced(b) && exits != [] && Covered(b.pool, exits)
    requires exits[0].shares * b.pool.totalStaked <= I128_MAX
    requires PositionOf(b.pool, exits[0].staker).amount >= I128_MIN + b.pool.totalStaked
    ensures FitsNow(b.pool, exits[0])
  {
    var e := exits[0];
    BurntNonNegative(exits[1..]);
    assert BurntBy(exits, e.staker) <= PositionOf(b.pool, e.staker).shares;
    OneOfTheShares(b, e.staker);
    BurnPays(b.pool.totalStaked, b.pool.totalShares, e.shares);
    BurnRange(b.pool.totalStaked, b.pool.totalShares, e.shares, e.shares * b.pool.totalStaked / b.pool.totalShares);
  }

  function Pieces(x: Address, parts: seq<int>): seq<Exit> {
    seq(|parts|, i requires 0 <= i < |parts| => Exit(x, parts[i]))
  }

  lemma {:induction false} PiecesBurn(x: Address, parts: seq<int>)
    ensures Burnt(Pieces(x, parts)) == Total(parts)
    ensures forall y :: BurntBy(Pieces(x, parts), y) == if y == x then Total(parts) else 0
  {
    if parts != [] {
      PiecesBurn(x, parts[1..]);
      assert Pieces(x, parts)[1..] == Pieces(x, parts[1..]);
    }
  }

  function Total(parts: seq<int>): int {
    if parts == [] then 0 else parts[0] + Total(parts[1..])
  }

  /** Two exits in a row, for t1 and t2, get no more than one for both. */
  lemma TwoPieces(T: int, S: int, s1: int, t1: int, s2: int, t2: int, whole: int)
    requires Pays(T, S, s1, t1) && s1 < S && Pays(T - t1, S - s1, s2, t2) && Pays(T, S, s1 + s2, whole)
    ensures t1 + t2 <= whole
  {
    BurnPrice(T, S, s1, t1);
    BurnPrice(T - t1, S - s1, s2, t2);
    var T2, S2 := T - t1 - t2, S - s1 - s2;
    PriceChainBelow(T, S, T - t1, S - s1, T2, S2);
    assert T * S2 == T * S - (s1 + s2) * T;
    assert S * T2 == T * S - (t1 + t2) * S;
    assert (whole + 1) * S == whole * S + S;
    CancelLess(t1 + t2, whole + 1, S);
  }

  /** If leaving at once fits, so does leaving in pieces. */
  lemma {:induction false} PiecesFit(b: Books, x: Address, parts: seq<int>)
    requires Balanced(b) && InBusiness(b.pool) && x != POOL && parts != []
    requires forall i :: 0 <= i < |parts| ==> parts[i] > 0
    requires Total(parts) <= PositionOf(b.pool, x).shares && FitsNow(b.pool, Exit(x, Total(parts)))
    ensures Fit(b.pool, Pieces(x, parts))
    decreases |parts|
  {
    var T, S, rest := b.pool.totalStaked, b.pool.totalShares, parts[1..];
    assert Pieces(x, parts)[0] == Exit(x, parts[0]) && Pieces(x, parts)[1..] == Pieces(x, rest);
    OneOfTheShares(b, x);
    if rest == [] {
      assert Total(parts) == parts[0];
    } else {
      TotalPositive(rest);
      FirstPieceFits(b, x, parts[0], Total(rest));
      var (q, r) := Unstake(b.pool, x, parts[0]);
      StepKeepsBooks(b, OpUnstake(x, parts[0]));
      UnstakeTotals(b, x, parts[0]);
      RestFits(b, x, parts[0], Total(rest));
      hide FitsNow, Balanced;
      PiecesFit(b.(pool := q), x, rest);
    }
  }

  lemma {:induction false} TotalPositive(parts: seq<int>)
    requires parts != [] && forall i :: 0 <= i < |parts| ==> parts[i] > 0
    ensures Total(parts) > 0
  {
    if parts[1..] != [] { TotalPositive(parts[1..]); }
  }

  lemma FirstPieceFits(b: Books, x: Address, s1: int, s2: int)
    requires Balanced(b) && InBusiness(b.pool) && x != POOL && s1 > 0 && s2 > 0
    requires s1 + s2 <= PositionOf(b.pool, x).shares <= b.pool.totalShares && FitsNow(b.pool, Exit(x, s1 + s2))
    ensures FitsNow(b.pool, Exit(x, s1)) && Unstake(b.pool, x, s1).1.Ok?
  {
    var T, S := b.pool.totalStaked, b.pool.totalShares;
    MulMono(s1, s1 + s2, T);
    MulMono(0, s1, T);
    DivMono(s1 * T, (s1 + s2) * T, S);
    BurnPays(T, S, s1);
    BurnRange(T, S, s1, s1 * T / S);
    ExitFits(b, x, s1);
  }

  lemma RestFits(b: Books, x: Address, s1: int, s2: int)
    requires Balanced(b) && x != POOL && s1 > 0 && s2 > 0
    requires s1 + s2 <= PositionOf(b.pool, x).shares <= b.pool.totalShares && FitsNow(b.pool, Exit(x, s1 + s2))
    requires Unstake(b.pool, x, s1).1.Ok?
    ensures FitsNow(Unstake(b.pool, x, s1).0, Exit(x, s2))
    ensures s2 <= PositionOf(Unstake(b.pool, x, s1).0, x).shares
  {
    var T, S := b.pool.totalStaked, b.pool.totalShares;
    var (q, r) := Unstake(b.pool, x, s1);
    UnstakeTotals(b, x, s1);
    ProductShrinks(s2, T - r.value, s1 + s2, T);
    BurnPays(T, S, s1 + s2);
    BurnPays(T - r.value, S - s1, s2);
    var t2 := s2 * (T - r.value) / (S - s1);
    BurnRange(T - r.value, S - s1, s2, t2);
    TwoPieces(T, S, s1, r.value, s2, t2, (s1 + s2) * T / S);
  }

  /**
    Splitting an exit never pays more than leaving at once, costs less than one token a piece, and succeeds
    whenever leaving at once does.
   */
  lemma SplittingNeverPays(b: Books, x: Address, parts: seq<int>)
    requires Balanced(b) && InBusiness(b.pool) && x != POOL && parts != []
    requires forall i :: 0 <= i < |parts| ==> parts[i] > 0
    requires Total(parts) <= PositionOf(b.pool, x).shares
    ensures var (_, split, ok) := Leave(b.pool, Pieces(x, parts));
      var whole := Unstake(b.pool, x, Total(parts)).1;
      && (whole.Ok? <==> FitsNow(b.pool, Exit(x, Total(parts))))
      && (whole.Ok? ==> ok && split <= whole.value < split + |parts|)
  {
    hide Unstake, Balanced, Fit, FitsNow, Covered, Leave, LeavesThePrice, InBusiness, Pays;
    var T, S, s := b.pool.totalStaked, b.pool.totalShares, Total(parts);
    var exits, one := Pieces(x, parts), [Exit(x, s)];
    PiecesCovered(b, x, parts);
    OneExit(b, one);
    var whole := Unstake(b.pool, x, s).1;
    if whole.Ok? {
      PiecesFit(b, x, parts);
      ExitsPayThePrice(b, exits);
      UnstakeTotals(b, x, s);
      var (q, split, _) := Leave(b.pool, exits);
      SplitBounds(T, S, s, whole.value, q.totalStaked, |parts|);
    }
  }

  /** The pieces of an exit, and the exit at once, burn no more than the staker holds. */
  lemma PiecesCovered(b: Books, x: Address, parts: seq<int>)
    requires Balanced(b) && x != POOL && parts != []
    requires forall i :: 0 <= i < |parts| ==> parts[i] > 0
    requires Total(parts) <= PositionOf(b.pool, x).shares
    ensures var exits, one := Pieces(x, parts), [Exit(x, Total(parts))];
      && Covered(b.pool, exits) && Covered(b.pool, one) && Burnt(exits) == Total(parts)
      && |exits| == |parts| && b.pool.totalShares > 0
  {
    hide Balanced;
    var exits, one := Pieces(x, parts), [Exit(x, Total(parts))];
    PiecesBurn(x, parts);
    TotalPositive(parts);
    OneOfTheShares(b, x);
    forall y ensures BurntBy(exits, y) <= PositionOf(b.pool, y).shares { OneOfTheShares(b, y); }
    forall y ensures BurntBy(one, y) <= PositionOf(b.pool, y).shares {
      OneOfTheShares(b, y);
      assert one[1..] == [];
    }
  }

  lemma SplitBounds(T: int, S: int, s: int, whole: int, T2: int, n: int)
    requires Pays(T, S, s, whole) && n > 0 && LeavesThePrice(T, S, T2, S - s, n)
    ensures T - T2 <= whole < T - T2 + n
  {
    var split := T - T2;
    assert S * T2 == T * S - split * S;
    assert T * (S - s) == T * S - s * T;
    assert (whole + 1) * S == whole * S + S;
    CancelLess(split, whole + 1, S);
    assert (split + n) * S == split * S + n * S;
    CancelLess(whole, split + n, S);
  }

  // ---- In and straight out --------------------------------------------------------------------------------

  /** The quotient rounded up. */
  function CeilDiv(a: int, b: int): int
    requires b > 0
  {
    (a + b - 1) / b
  }

  lemma CeilBounds(a: int, b: int)
    requires b > 0
    ensures a <= CeilDiv(a, b) * b < a + b
  {
    FloorBounds(a + b - 1, b);
  }

  /** What rounding keeps of a deposit of a that minted m shares and is burnt again at once. */
  function RoundTripLoss(T: int, S: int, a: int, m: int): int {
    if T > 0 && S + m > 0 then CeilDiv(a * S % T, S + m) else 0
  }

  /** What a stake leaves, in terms the way back needs. */
  lemma StakeSettles(b: Books, x: Address, a: int)
    requires Balanced(b) && x != POOL && b.pool.totalShares > 0 && Stake(b.pool, x, a).1.Ok?
    ensures var (q, r) := Stake(b.pool, x, a);
      && Balanced(b.(pool := q)) && InBusiness(q)
      && 0 < r.value <= PositionOf(q, x).shares <= q.totalShares
      && Mints(b.pool.totalStaked, b.pool.totalShares, a, r.value)
      && q.totalStaked == b.pool.totalStaked + a && q.totalShares == b.pool.totalShares + r.value
  {
    StakeTotals(b, x, a);
    StakeKeepsBooks(b, x, a);
    OneOfTheShares(b, x);
    OneOfTheShares(b.(pool := Stake(b.pool, x, a).0), x);
  }

  /** What a stake into a pool without shares leaves: as many shares as tokens staked, all of them the staker's. */
  lemma FirstStakeSettles(b: Books, x: Address, a: int)
    requires Balanced(b) && x != POOL && b.pool.totalShares == 0 && Stake(b.pool, x, a).1.Ok?
    ensures var (q, r) := Stake(b.pool, x, a);
      && Balanced(b.(pool := q)) && InBusiness(q)
      && r.value == a > 0 && PositionOf(q, x).shares == q.totalShares == a
      && q.totalStaked == b.pool.totalStaked + a
  {
    OneOfTheShares(b, x);
    StakeKeepsBooks(b, x, a);
    hide Balanced;
  }

  /** Burning the only shares there are takes the whole pool. */
  lemma FirstStakeTakesAll(b: Books, x: Address, a: int)
    requires Balanced(b) && x != POOL && b.pool.totalShares == 0 && Stake(b.pool, x, a).1.Ok?
    ensures var (q, r) := Stake(b.pool, x, a);
      var back := Unstake(q, x, r.value).1;
      && (back.Ok? <==> FitsNow(q, Exit(x, r.value)))
      && (back.Ok? ==> back.value == b.pool.totalStaked + a)
  {
    FirstStakeSettles(b, x, a);
    var (q, r) := Stake(b.pool, x, a);
    if FitsNow(q, Exit(x, r.value)) { ExitFits(b.(pool := q), x, r.value); }
    if Unstake(q, x, r.value).1.Ok? { UnstakeTotals(b.(pool := q), x, r.value); }
    hide Balanced, Stake;
  }

  /**
    A deposit burnt again at once succeeds exactly if the burn fits. With shares outstanding it then returns all of
    the deposit but the remainder of its own mint, spread over the new share total and rounded up: never a profit,
    and less than one share's price plus one token lost. Into a pool without shares it returns the deposit and
    whatever was in the pool; so the round trip is a profit exactly if there are rewards but no shares.
   */
  lemma StakeThenUnstake(b: Books, x: Address, a: int)
    requires Balanced(b) && x != POOL && Stake(b.pool, x, a).1.Ok?
    ensures var (q, r) := Stake(b.pool, x, a);
      var back := Unstake(q, x, r.value).1;
      var loss := RoundTripLoss(b.pool.totalStaked, b.pool.totalShares, a, r.value);
      && (back.Ok? <==> FitsNow(q, Exit(x, r.value)))
      && (back.Ok? && b.pool.totalShares > 0 ==>
            back.value == a - loss && 0 <= loss && loss * q.totalShares < q.totalStaked + q.totalShares)
      && (back.Ok? && b.pool.totalShares == 0 ==> back.value == a + b.pool.totalStaked)
      && (back.Ok? ==> (back.value > a <==> b.pool.totalShares == 0 && b.pool.totalStaked > 0))
  {
    if b.pool.totalShares == 0 {
      FirstStakeTakesAll(b, x, a);
    } else {
      LiveStakeThenUnstake(b, x, a);
    }
    hide Stake, Unstake, FitsNow, RoundTripLoss;
  }

  lemma LiveStakeThenUnstake(b: Books, x: Address, a: int)
    requires Balanced(b) && x != POOL && b.pool.totalShares > 0 && Stake(b.pool, x, a).1.Ok?
    ensures var (q, r) := Stake(b.pool, x, a);
      var back := Unstake(q, x, r.value).1;
      var loss := RoundTripLoss(b.pool.totalStaked, b.pool.totalShares, a, r.value);
      && (back.Ok? <==> FitsNow(q, Exit(x, r.value)))
      && (back.Ok? ==> back.value == a - loss && 0 <= loss && loss * q.totalShares < q.totalStaked + q.totalShares)
  {
    var T, S := b.pool.totalStaked, b.pool.totalShares;
    var (q, r) := Stake(b.pool, x, a);
    StakeSettles(b, x, a);
    if FitsNow(q, Exit(x, r.value)) { ExitFits(b.(pool := q), x, r.value); }
    var back := Unstake(q, x, r.value).1;
    assert back.Ok? ==> FitsNow(q, Exit(x, r.value));
    if back.Ok? {
      UnstakeTotals(b.(pool := q), x, r.value);
      hide Stake, Unstake, Balanced, FitsNow;
      RoundTripIs(T, S, a, r.value, back.value);
    }
  }

  /** The arithmetic of the way there and back. */
  lemma RoundTripIs(T: int, S: int, a: int, m: int, t: int)
    requires Mints(T, S, a, m) && m > 0 && Pays(T + a, S + m, m, t)
    ensures var loss := RoundTripLoss(T, S, a, m);
      t == a - loss && 0 <= loss && loss * (S + m) < (T + a) + (S + m)
  {
    var rem := a * S % T;
    MintRemainder(a * S, T, m);
    CeilBounds(rem, S + m);
    RoundTripPays(T, S, a, m, rem, CeilDiv(rem, S + m), t);
  }

  lemma MintRemainder(p: int, T: int, m: int)
    requires T > 0 && m * T <= p < m * T + T
    ensures p % T == p - m * T && 0 <= p % T < T
  {
    FloorIs(p, T, m);
    assert T * (p / T) == m * T;
  }

  lemma RoundTripPays(T: int, S: int, a: int, m: int, rem: int, loss: int, t: int)
    requires 0 < S <= T && m > 0 && 0 <= rem < T && a * S == m * T + rem
    requires rem <= loss * (S + m) < rem + (S + m)
    requires Pays(T + a, S + m, m, t)
    ensures t == a - loss && 0 <= loss
  {
    var S1 := S + m;
    assert m * (T + a) == m * T + m * a;
    assert a * S1 == a * S + a * m;
    assert (a - loss) * S1 == a * S1 - loss * S1;
    assert (t + 1) * S1 == t * S1 + S1;
    CancelLess(a - loss, t + 1, S1);
    assert (a - loss + 1) * S1 == (a - loss) * S1 + S1;
    CancelLess(t, a - loss + 1, S1);
    assert (loss + 1) * S1 == loss * S1 + S1;
    CancelLess(0, loss + 1, S1);
  }

  /** A staker's recorded amount can go below zero: rewards are paid out of it but never credited to it. */
  lemma RecordedAmountsCanGoNegative(x: Address)
    requires x != POOL
    ensures var b := Books(Pool(false, false, 0, 0, map[], map[x := 20_000_000]), 0, 0);
      var e := Run(b, [OpInitialize, OpStake(x, 10_000_000), OpDistribute(x, 10_000_000),
                       OpUnstake(x, 10_000_000)]);
      Fresh(b) && PositionOf(e.pool, x) == StakePosition(-10_000_000, 0)
  {
    var b := Books(Pool(false, false, 0, 0, map[], map[x := 20_000_000]), 0, 0);
    var b1 := Post(b, OpInitialize);
    var b2 := Post(b1, OpStake(x, 10_000_000));
    var b3 := Post(b2, OpDistribute(x, 10_000_000));
    assert b3.pool.totalStaked == 20_000_000 && b3.pool.totalShares == 10_000_000;
    assert DivTrunc(10_000_000 * 20_000_000, 10_000_000) == 20_000_000;
    var b4 := Post(b3, OpUnstake(x, 10_000_000));
    assert Run(b3, [OpUnstake(x, 10_000_000)]) == b4;
    assert Run(b2, [OpDistribute(x, 10_000_000), OpUnstake(x, 10_000_000)]) == b4;
    assert Run(b1, [OpStake(x, 10_000_000), OpDistribute(x, 10_000_000), OpUnstake(x, 10_000_000)]) == b4;
  }
}
