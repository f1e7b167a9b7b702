/** The repository, the payment service and the worker, updating their maps in place. */
module PaymentServices {
  import opened Wrappers
  import opened PaymentModel
  import opened Stroops
  import CB = CircuitBreakers

  class InMemoryTransactionRepository {
    var records: map<string, Record>
    var order: seq<string>
    var idempotency: map<string, string>
    var nonces: map<string, nat>

    constructor ()
      ensures View() == Repo(map[], [], map[], map[])
    {
      records, order, idempotency, nonces := map[], [], map[], map[];
    }

    ghost function View(): Repo
      reads this
    {
      Repo(records, order, idempotency, nonces)
    }

    method FindByIdempotencyKey(key: string) returns (r: Option<Record>)
      ensures r == FindByKey(View(), key)
    {
      if key !in idempotency { return None; }
      var id := idempotency[key];
      if id == "" { return None; }
      r := if id in records then Some(records[id]) else None;
    }

    method ReserveNextNonce(source: string) returns (next: nat)
      modifies this`nonces
      ensures next == NextNonce(old(View()), source)
      ensures View() == old(View()).(nonces := old(nonces)[source := next])
    {
      var current := if source in nonces then nonces[source] else 0;
      next := current + 1;
      nonces := nonces[source := next];
    }

    method Insert(r: Record)
      modifies this
      ensures View() == Inserted(old(View()), r)
    {
      if r.id !in records { order := order + [r.id]; }
      records := records[r.id := r];
      idempotency := idempotency[r.idempotencyKey := r.id];
    }

    /** Overwrites a record; false, and no change, where there is none. */
    method Update(id: string, r: Record) returns (found: bool)
      modifies this`records
      ensures found <==> id in old(records)
      ensures records == if found then old(records)[id := r] else old(records)
    {
      found := id in records;
      if found { records := records[id := r]; }
    }

    method List(statuses: set<Status>, limit: nat) returns (rows: seq<Record>)
      ensures rows == ListByStatus(View(), statuses, limit)
    {
      rows := ListByStatus(Repo(records, order, idempotency, nonces), statuses, limit);
    }
  }

  class PaymentService {
    const repo: InMemoryTransactionRepository
    const breaker: CB.CircuitBreaker
    const config: Config

    constructor (repo: InMemoryTransactionRepository, breaker: CB.CircuitBreaker, config: Config)
      ensures this.repo == repo && this.breaker == breaker && this.config == config
    {
      this.repo, this.breaker, this.config := repo, breaker, config;
    }

    /** Builds the payment through the breaker; the amount in stroops, unless something on the way fails. */
    method BuildPreparedTransaction(amount: string, build: Build, now: int) returns (stroops: Option<string>)
      modifies breaker
      ensures (breaker.View(), stroops) == Prepare(old(breaker.View()), breaker.options, config, amount, build, now)
    {
      var asked := breaker.Fire(now, now, build.account);
      if asked != CB.Resolved { return None; }
      var converted := ToStroops(amount);
      if converted.Err? || !build.encodes { return None; }
      var prepared := breaker.Fire(now, now, build.prepares);
      if prepared != CB.Resolved { return None; }
      if build.fee <= 0 || build.fee > config.maxGasStroops { return None; }
      stroops := Some(converted.value);
    }

    /** Creates a payout, no other call coming between. */
    method CreatePayoutTransaction(req: Request, newId: string, build: Build, now: int)
      returns (r: Result<Record, CreateError>)
      modifies repo, breaker
      ensures var prepared := Prepare(old(breaker.View()), breaker.options, config, req.amount, build, now);
        && (repo.View(), r) == Create(old(repo.View()), config, req, newId, prepared.1.Some?, now)
        && breaker.View() == if TakesOff(old(repo.View()), req) then prepared.0 else old(breaker.View())
    {
      if !req.wellFormed || !AcceptedAmount(req.amount) { return Err(InvalidRequest); }
      var existing := repo.FindByIdempotencyKey(req.idempotencyKey);
      if existing.Some? { return Ok(existing.value); }

      var nonce := repo.ReserveNextNonce(config.sourceAccount);
      var stroops := BuildPreparedTransaction(req.amount, build, now);
      if stroops.None? { return Err(BuildFailed); }

      var status, signedXdr := Built, "";
      if config.liveExecution {
        if config.signWithHotKey {
          status, signedXdr := Queued, "signed";
        } else {
          status := AwaitingSignature;
        }
      }
      var transaction := Record(newId, req.payoutId, req.idempotencyKey, config.sourceAccount,
                                req.destinationAccount, stroops.value, nonce, status, signedXdr, "", 0, now, now);
      repo.Insert(transaction);
      r := Ok(transaction);
    }

    /** Checks a signed form against the record and the service's settings, one point after another. */
    method SignedTransactionMatches(form: SignedForm, transaction: Record) returns (ok: bool)
      ensures ok <==> Matches(form, transaction, config)
    {
      if !form.Plain? { return false; }
      if form.source != config.sourceAccount { return false; }
      if |form.operations| != 1 { return false; }
      var op := form.operations[0];
      if !op.Invoke? { return false; }
      if op.contract != config.payoutContractId { return false; }
      if op.entryPoint != config.payoutMethodName { return false; }
      if |op.args| != 3 { return false; }
      if op.args[1].address != Some(transaction.destinationAccount) { return false; }
      if op.args[2].native != Some(transaction.amountStroops) { return false; }
      ok := true;
    }

    method QueueSignedTransaction(id: string, xdr: string, form: SignedForm, now: int) returns (ok: bool)
      modifies repo
      ensures repo.View() == RepoStep(old(repo.View()), config, Timed(On(id, Sign(xdr, form)), now))
      ensures ok <==>
        id in old(repo.records) && PaymentModel.QueueSigned(old(repo.records)[id], config, xdr, form, now).Some?
    {
      if id !in repo.records { return false; }
      var transaction := repo.records[id];
      assert repo.records[id := transaction] == repo.records;
      if transaction.status != AwaitingSignature && transaction.status != Built { return false; }
      var matches := SignedTransactionMatches(form, transaction);
      if !matches { return false; }
      ok := repo.Update(id, transaction.(signedXdr := xdr, status := Queued, updatedAt := now));
    }

    /** Sends a queued payout; the result tells whether it was submitted. An unknown id changes nothing. */
    method SubmitQueuedTransaction(id: string, parses: bool, reply: NodeReply, now: int) returns (submitted: bool)
      modifies repo, breaker
      ensures var asked := AskToSend(old(breaker.View()), breaker.options, parses, reply, now);
        && repo.View() == RepoStep(old(repo.View()), config, Timed(On(id, Send(asked.1)), now))
        && breaker.View() == (if id in old(repo.records) && ReadyToSend(old(repo.records)[id], config)
                              then asked.0 else old(breaker.View()))
        && (submitted <==> id in old(repo.records) && old(repo.records)[id].status == Queued
                           && repo.records[id].status == Submitted)
    {
      if id !in repo.records { return false; }
      var transaction := repo.records[id];
      assert repo.records[id := transaction] == repo.records;
      if transaction.status != Queued || !config.liveExecution { return false; }
      if transaction.signedXdr == "" || transaction.attempts >= config.maxAttempts {
        var _ := repo.Update(id, transaction.(status := FailedPayout, updatedAt := now));
        return false;
      }
      var attempts := transaction.attempts + 1;
      if !parses {
        var _ := repo.Update(id, transaction.(attempts := attempts, status := FailedPayout, updatedAt := now));
        return false;
      }
      var fired := breaker.Fire(now, now, reply != Throws);
      if fired == CB.Rejected { return false; }
      var updated;
      match reply {
        case Throws => updated := transaction.(attempts := attempts, status := FailedPayout, updatedAt := now);
        case Error(hash) =>
          updated := transaction.(attempts := attempts, status := FailedPayout, txHash := hash, updatedAt := now);
        case TryAgainLater => updated := transaction.(attempts := attempts, updatedAt := now);
        case Accepts(hash) =>
          updated := transaction.(attempts := attempts, status := Submitted, txHash := hash, updatedAt := now);
      }
      var _ := repo.Update(id, updated);
      submitted := reply.Accepts?;
    }

    /** Queries a submitted payout; the result tells whether the call throws. */
    method ConfirmSubmittedTransaction(id: string, reply: ChainReply, now: int) returns (threw: bool)
      modifies repo, breaker
      ensures var asked := AskStatus(old(breaker.View()), breaker.options, reply, now);
        && repo.View() == RepoStep(old(repo.View()), config, Timed(On(id, Check(asked.1)), now))
        && breaker.View() == (if id in old(repo.records) && old(repo.records)[id].status == Submitted
                                 && old(repo.records)[id].txHash != ""
                              then asked.0 else old(breaker.View()))
        && threw == (id !in old(repo.records) || Confirm(old(repo.records)[id], asked.1, now).1)
    {
      if id !in repo.records { return true; }
      var transaction := repo.records[id];
      assert repo.records[id := transaction] == repo.records;
      if transaction.status != Submitted || transaction.txHash == "" { return false; }
      var fired := breaker.Fire(now, now, reply != QueryThrows);
      if fired == CB.Rejected { return false; }
      if reply == QueryThrows { return true; }
      if reply == OnChain {
        var _ := repo.Update(id, transaction.(status := Confirmed, updatedAt := now));
      } else if reply == FailedOnChain {
        var _ := repo.Update(id, transaction.(status := FailedPayout, updatedAt := now));
      }
      threw := false;
    }

    /** The reconciler's last confirmation job, with the handler that runs when it fails. */
    method ReconcileLast(id: string, reply: ChainReply, now: int)
      modifies repo, breaker
      ensures var asked := AskStatus(old(breaker.View()), breaker.options, reply, now);
        && repo.View() == RepoStep(old(repo.View()), config, Timed(On(id, LastCheck(asked.1)), now))
        && breaker.View() == (if id in old(repo.records) && old(repo.records)[id].status == Submitted
                                 && old(repo.records)[id].txHash != ""
                              then asked.0 else old(breaker.View()))
    {
      var threw := ConfirmSubmittedTransaction(id, reply, now);
      if id in repo.records && (threw || repo.records[id].status == Submitted) {
        var _ := repo.Update(id, repo.records[id].(status := Dead, updatedAt := now));
      }
    }
  }
}
