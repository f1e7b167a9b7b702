/**
  The payment pipeline over its in-memory repository: what each service, worker and reconciler call does to one
  payout record, and to the repository. Absent strings are modelled as empty ones, which the code reads alike.
 */
module PaymentModel {
  import opened Wrappers
  import opened Stroops
  import opened StableSorting
  import CB = CircuitBreakers

  datatype Status = Built | Queued | AwaitingSignature | Submitted | Confirmed | FailedPayout | Dead

  datatype Record = Record(
    id: string,
    payoutId: string,
    idempotencyKey: string,
    sourceAccount: string,
    destinationAccount: string,
    amountStroops: string,
    nonce: nat,
    status: Status,
    signedXdr: string,
    txHash: string,
    attempts: nat,
    createdAt: int,
    updatedAt: int)

  datatype Config = Config(
    liveExecution: bool,
    signWithHotKey: bool,
    maxAttempts: nat,
    failedRetryMax: nat,
    failedRetryBaseMs: nat,
    maxGasStroops: int,
    sourceAccount: string,
    payoutContractId: string,
    payoutMethodName: string)

  /** What the node answers to a submission, if it is asked. */
  datatype NodeReply = Throws | Error(hash: string) | TryAgainLater | Accepts(hash: string)

  datatype SendResult = CircuitOpen | Unparsable | Answered(reply: NodeReply)

  /** What the node answers to a status query. */
  datatype ChainReply = QueryThrows | OnChain | FailedOnChain | NotYet

  datatype RetryOutcome = Retried | DeadLettered | Waiting

  // ---- One record -----------------------------------------------------------------------------------------

  predicate ReadyToSend(r: Record, cfg: Config) {
    r.status == Queued && cfg.liveExecution && r.signedXdr != "" && r.attempts < cfg.maxAttempts
  }

  /** submitQueuedTransaction on the record. */
  function Submit(r: Record, cfg: Config, s: SendResult, now: int): Record {
    if r.status != Queued || !cfg.liveExecution then r
    else if r.signedXdr == "" || r.attempts >= cfg.maxAttempts then r.(status := FailedPayout, updatedAt := now)
    else
      match s
      case CircuitOpen => r
      case Unparsable => r.(attempts := r.attempts + 1, status := FailedPayout, updatedAt := now)
      case Answered(Throws) => r.(attempts := r.attempts + 1, status := FailedPayout, updatedAt := now)
      case Answered(Error(h)) =>
        r.(attempts := r.attempts + 1, status := FailedPayout, txHash := h, updatedAt := now)
      case Answered(TryAgainLater) => r.(attempts := r.attempts + 1, updatedAt := now)
      case Answered(Accepts(h)) =>
        r.(attempts := r.attempts + 1, status := Submitted, txHash := h, updatedAt := now)
  }

  /** confirmSubmittedTransaction: the record afterwards, and whether the call throws. None is an open circuit. */
  function Confirm(r: Record, reply: Option<ChainReply>, now: int): (Record, bool) {
    if r.status != Submitted || r.txHash == "" then (r, false)
    else
      match reply
      case None => (r, false)
      case Some(QueryThrows) => (r, true)
      case Some(OnChain) => (r.(status := Confirmed, updatedAt := now), false)
      case Some(FailedOnChain) => (r.(status := FailedPayout, updatedAt := now), false)
      case Some(NotYet) => (r, false)
  }

  function Pow2(n: nat): nat {
    if n == 0 then 1 else 2 * Pow2(n - 1)
  }

  function BackoffMs(cfg: Config, attempts: nat): nat {
    cfg.failedRetryBaseMs * Pow2(if attempts == 0 then 0 else attempts - 1)
  }

  /** handleFailedTransaction on a failed record. */
  function HandleFailed(r: Record, cfg: Config, now: int): (Record, RetryOutcome) {
    if r.signedXdr == "" || r.attempts >= cfg.failedRetryMax then (r.(status := Dead, updatedAt := now), DeadLettered)
    else if now - r.updatedAt < BackoffMs(cfg, r.attempts) then (r, Waiting)
    else (r.(status := Queued, updatedAt := now), Retried)
  }

  /** An argument of a contract call, where it reads as an address and where it reads as a plain value. */
  datatype Arg = Arg(address: Option<string>, native: Option<string>)

  datatype Operation = NoInvocation | OtherHostFunction | Invoke(contract: string, entryPoint: string, args: seq<Arg>)

  /** What a signed form decodes to. */
  datatype SignedForm = Garbled | FeeBump | Plain(source: string, operations: seq<Operation>)

  /** assertSignedTransactionMatches: the form makes the authorised call for the record's destination and amount. */
  predicate Matches(form: SignedForm, r: Record, cfg: Config) {
    && form.Plain? && form.source == cfg.sourceAccount && |form.operations| == 1
    && var op := form.operations[0];
       && op.Invoke? && op.contract == cfg.payoutContractId && op.entryPoint == cfg.payoutMethodName && |op.args| == 3
       && op.args[1].address == Some(r.destinationAccount) && op.args[2].native == Some(r.amountStroops)
  }

  /** queueSignedTransaction: refused unless a signature is awaited and the signed form matches the record. */
  function QueueSigned(r: Record, cfg: Config, xdr: string, form: SignedForm, now: int): Option<Record> {
    if (r.status != AwaitingSignature && r.status != Built) || !Matches(form, r, cfg) then None
    else Some(r.(status := Queued, signedXdr := xdr, updatedAt := now))
  }

  /** The last confirmation job and its exhausted-retries handler, as one step: a payout still pending dies. */
  function LastConfirmation(r: Record, reply: Option<ChainReply>, now: int): Record {
    var (checked, threw) := Confirm(r, reply, now);
    if threw || checked.status == Submitted then checked.(status := Dead, updatedAt := now) else checked
  }

  datatype Step =
    | Sign(xdr: string, form: SignedForm)
    | Send(result: SendResult)
    | Check(reply: Option<ChainReply>)
    | LastCheck(reply: Option<ChainReply>)
    | Retry

  function RecordStep(r: Record, cfg: Config, step: Step, now: int): Record {
    match step
    case Sign(xdr, form) =>
      var signed := QueueSigned(r, cfg, xdr, form, now);
      if signed.None? then r else signed.value
    case Send(result) => Submit(r, cfg, result, now)
    case Check(reply) => Confirm(r, reply, now).0
    case LastCheck(reply) => LastConfirmation(r, reply, now)
    case Retry => if r.status == FailedPayout then HandleFailed(r, cfg, now).0 else r
  }

  // ---- The circuit breaker between the service and the node -----------------------------------------------

  /** Submitting through the breaker: an open circuit never asks the node. */
  function AskToSend(b: CB.Breaker, o: CB.Options, parses: bool, reply: NodeReply, now: int): (CB.Breaker, SendResult) {
    if !parses then (b, Unparsable)
    else
      var (c, f) := CB.Fired(b, o, CB.Call(now, now, reply != Throws));
      (c, if f == CB.Rejected then CircuitOpen else Answered(reply))
  }

  function AskStatus(b: CB.Breaker, o: CB.Options, reply: ChainReply, now: int): (CB.Breaker, Option<ChainReply>) {
    var (c, f) := CB.Fired(b, o, CB.Call(now, now, reply != QueryThrows));
    (c, if f == CB.Rejected then None else Some(reply))
  }

  /** What the outside answers while a payout is being built; the fee is 0 where it is not a number. */
  datatype Build = Build(account: bool, encodes: bool, prepares: bool, fee: int)

  /** buildPreparedTransaction: asks the node twice through the breaker; the amount in stroops if all goes well. */
  function Prepare(b: CB.Breaker, o: CB.Options, cfg: Config, amount: string, build: Build, now: int)
    : (CB.Breaker, Option<string>)
  {
    var (c, asked) := CB.Fired(b, o, CB.Call(now, now, build.account));
    if asked != CB.Resolved || ToStroops(amount).Err? || !build.encodes then (c, None)
    else
      var (d, prepared) := CB.Fired(c, o, CB.Call(now, now, build.prepares));
      if prepared != CB.Resolved || build.fee <= 0 || build.fee > cfg.maxGasStroops then (d, None)
      else (d, Some(ToStroops(amount).value))
  }

  // ---- The repository -------------------------------------------------------------------------------------

  /** `order` is the insertion order of the record map. */
  datatype Repo = Repo(
    records: map<string, Record>,
    order: seq<string>,
    idempotency: map<string, string>,
    nonces: map<string, nat>)

  /** The record map and its insertion order describe the same records, each stored under its own id. */
  ghost predicate Indexed(repo: Repo) {
    && NoRepeats(repo.order)
    && (forall id :: id in repo.records <==> id in repo.order)
    && (forall id :: id in repo.records ==> repo.records[id].id == id)
  }

  datatype Request = Request(
    payoutId: string,
    destinationAccount: string,
    amount: string,
    idempotencyKey: string,
    wellFormed: bool)

  datatype CreateError = InvalidRequest | BuildFailed

  function FindByKey(repo: Repo, key: string): Option<Record> {
    if key !in repo.idempotency || repo.idempotency[key] == "" then None
    else if repo.idempotency[key] !in repo.records then None
    else Some(repo.records[repo.idempotency[key]])
  }

  function NextNonce(repo: Repo, source: string): nat {
    (if source in repo.nonces then repo.nonces[source] else 0) + 1
  }

  function Inserted(repo: Repo, r: Record): Repo {
    repo.(records := repo.records[r.id := r],
          order := if r.id in repo.records then repo.order else repo.order + [r.id],
          idempotency := repo.idempotency[r.idempotencyKey := r.id])
  }

  // ---- Creating payouts ------------------------------------------------------------------------------------

  /** The request is valid and its key has no record yet. */
  predicate TakesOff(repo: Repo, req: Request) {
    req.wellFormed && AcceptedAmount(req.amount) && FindByKey(repo, req.idempotencyKey).None?
  }

  function Reserved(repo: Repo, source: string): Repo {
    repo.(nonces := repo.nonces[source := NextNonce(repo, source)])
  }

  /** The record of a payout just built. */
  function NewRecord(cfg: Config, req: Request, newId: string, nonce: nat, stroops: string, now: int): Record {
    var hot := cfg.liveExecution && cfg.signWithHotKey;
    Record(newId, req.payoutId, req.idempotencyKey, cfg.sourceAccount, req.destinationAccount, stroops, nonce,
           if hot then Queued else if cfg.liveExecution then AwaitingSignature else Built,
           if hot then "signed" else "", "", 0, now, now)
  }

  /** createPayoutTransaction without interruption; a nonce stays used up even where building then fails. */
  function Create(repo: Repo, cfg: Config, req: Request, newId: string, built: bool, now: int)
    : (Repo, Result<Record, CreateError>)
  {
    if !req.wellFormed || !AcceptedAmount(req.amount) then (repo, Err(InvalidRequest))
    else if FindByKey(repo, req.idempotencyKey).Some? then (repo, Ok(FindByKey(repo, req.idempotencyKey).value))
    else
      var reserved := Reserved(repo, cfg.sourceAccount);
      var stroops := ToStroops(req.amount);
      if !built || stroops.Err? then (reserved, Err(BuildFailed))
      else
        var r := NewRecord(cfg, req, newId, NextNonce(repo, cfg.sourceAccount), stroops.value, now);
        (Inserted(reserved, r), Ok(r))
  }

  // ---- Steps on stored records ----------------------------------------------------------------------------

  datatype Op = On(id: string, step: Step)

  datatype Timed = Timed(op: Op, now: int)

  function RepoStep(repo: Repo, cfg: Config, t: Timed): Repo {
    var On(id, step) := t.op;
    if id !in repo.records then repo
    else repo.(records := repo.records[id := RecordStep(repo.records[id], cfg, step, t.now)])
  }

  function RepoRun(repo: Repo, cfg: Config, ops: seq<Timed>): Repo
    decreases |ops|
  {
    if ops == [] then repo else RepoRun(RepoStep(repo, cfg, ops[0]), cfg, ops[1..])
  }

  // ---- Overlapping calls ----------------------------------------------------------------------------------

  /** A creation that found no record and waits: for its nonce, then for the node. */
  datatype Flight = Flight(req: Request, nonce: Option<nat>)

  /** The repository and the creations under way, by call. */
  datatype Desk = Desk(repo: Repo, flights: map<nat, Flight>)

  /** What happens between two points where a service call waits. */
  datatype DeskOp =
    | Ask(call: nat, req: Request)
    | Reserve(call: nat)
    | Finish(call: nat, newId: string, built: bool)
    | Advance(id: string, step: Step)

  datatype DeskEvent = DeskEvent(op: DeskOp, now: int)

  /** The creation ends with a new record. */
  predicate Lands(d: Desk, op: DeskOp) {
    && op.Finish? && op.call in d.flights && d.flights[op.call].nonce.Some?
    && op.built && ToStroops(d.flights[op.call].req.amount).Ok?
  }

  function DeskStep(d: Desk, cfg: Config, e: DeskEvent): Desk {
    match e.op
    case Ask(call, req) =>
      if call in d.flights || !TakesOff(d.repo, req) then d
      else d.(flights := d.flights[call := Flight(req, None)])
    case Reserve(call) =>
      if call !in d.flights || d.flights[call].nonce.Some? then d
      else Desk(Reserved(d.repo, cfg.sourceAccount),
                d.flights[call := Flight(d.flights[call].req, Some(NextNonce(d.repo, cfg.sourceAccount)))])
    case Finish(call, newId, built) =>
      if call !in d.flights || d.flights[call].nonce.None? then d
      else
        var f := d.flights[call];
        Desk(if Lands(d, e.op)
             then Inserted(d.repo, NewRecord(cfg, f.req, newId, f.nonce.value, ToStroops(f.req.amount).value, e.now))
             else d.repo,
             d.flights - {call})
    case Advance(id, step) => d.(repo := RepoStep(d.repo, cfg, Timed(On(id, step), e.now)))
  }

  function DeskRun(d: Desk, cfg: Config, events: seq<DeskEvent>): Desk
    decreases |events|
  {
    if events == [] then d else DeskRun(DeskStep(d, cfg, events[0]), cfg, events[1..])
  }

  // ---- Listings -------------------------------------------------------------------------------------------

  function RowsOf(repo: Repo, order: seq<string>, statuses: set<Status>): seq<Record> {
    if order == [] then []
    else
      (if order[0] in repo.records && repo.records[order[0]].status in statuses then [repo.records[order[0]]] else [])
      + RowsOf(repo, order[1..], statuses)
  }

  /** The oldest `limit` records with one of the statuses, oldest first. */
  function ListByStatus(repo: Repo, statuses: set<Status>, limit: nat): seq<Record> {
    var rows := StableSort(RowsOf(repo, repo.order, statuses), (r: Record) => -r.createdAt);
    if limit < |rows| then rows[..limit] else rows
  }
}
