/** One pass of the payment worker: what it does as a function, and the loop that does it. */
module PaymentWorkers {
  import opened Wrappers
  import opened MachineInts
  import opened PaymentModel
  import opened PaymentServices
  import opened StableSorting
  import CB = CircuitBreakers

  const PENDING: set<Status> := {Queued, Submitted, FailedPayout}

  /** What the node would answer about one payout during the pass. */
  datatype Net = Net(parses: bool, send: NodeReply, query: ChainReply)

  datatype System = System(repo: Repo, breaker: CB.Breaker)

  datatype BatchResult = BatchResult(
    processed: nat, submitted: nat, confirmed: nat, failed: nat, retried: nat, deadLettered: nat)

  /** The step the worker takes for one listed payout, if any, and the breaker afterwards. */
  function StepFor(b: CB.Breaker, o: CB.Options, cfg: Config, r: Record, net: Net, hasQueue: bool, now: int)
    : (CB.Breaker, Option<Step>)
  {
    if r.status == FailedPayout then (b, Some(Retry))
    else if r.status == Queued then
      var asked := AskToSend(b, o, net.parses, net.send, now);
      (if ReadyToSend(r, cfg) then asked.0 else b, Some(Send(asked.1)))
    else if hasQueue then (b, None)
    else
      var asked := AskStatus(b, o, net.query, now);
      (if r.status == Submitted && r.txHash != "" then asked.0 else b, Some(Check(asked.1)))
  }

  function ProcessAll(s: System, o: CB.Options, cfg: Config, pending: seq<Record>, net: string -> Net,
                      hasQueue: bool, now: int): System
    decreases |pending|
  {
    if pending == [] then s
    else
      var (b, step) := StepFor(s.breaker, o, cfg, pending[0], net(pending[0].id), hasQueue, now);
      var repo := if step.None? then s.repo else RepoStep(s.repo, cfg, Timed(On(pending[0].id, step.value), now));
      ProcessAll(System(repo, b), o, cfg, pending[1..], net, hasQueue, now)
  }

  /** 1 where the worker's status query about a payout throws. */
  function ThrownBy(b: CB.Breaker, o: CB.Options, r: Record, net: Net, hasQueue: bool, now: int): nat {
    if r.status == Submitted && r.txHash != "" && !hasQueue && AskStatus(b, o, net.query, now).1 == Some(QueryThrows)
    then 1 else 0
  }

  /** How many status queries throw in the course of a pass. */
  function ThrownIn(b: CB.Breaker, o: CB.Options, cfg: Config, pending: seq<Record>, net: string -> Net,
                  hasQueue: bool, now: int): nat
    decreases |pending|
  {
    if pending == [] then 0
    else
      var r := pending[0];
      ThrownBy(b, o, r, net(r.id), hasQueue, now)
      + ThrownIn(StepFor(b, o, cfg, r, net(r.id), hasQueue, now).0, o, cfg, pending[1..], net, hasQueue, now)
  }

  /** How many of the listed payouts went from one status to another. */
  ghost function Moves(pending: seq<Record>, after: map<string, Record>, from: Status, to: Status): nat {
    if pending == [] then 0
    else
      var last := pending[|pending| - 1];
      Moves(pending[..|pending| - 1], after, from, to)
      + (if last.status == from && last.id in after && after[last.id].status == to then 1 else 0)
  }

  lemma {:induction false} MovesUnchanged(pending: seq<Record>, a: map<string, Record>, b: map<string, Record>,
                                          from: Status, to: Status)
    requires forall i :: 0 <= i < |pending| ==>
      pending[i].id in a && pending[i].id in b && a[pending[i].id] == b[pending[i].id]
    ensures Moves(pending, a, from, to) == Moves(pending, b, from, to)
  {
    if pending != [] { MovesUnchanged(pending[..|pending| - 1], a, b, from, to); }
  }

  /** The counters of a pass say exactly what became of the payouts it went over; queries that threw also failed. */
  ghost predicate Reports(t: BatchResult, pending: seq<Record>, after: map<string, Record>, thrown: nat) {
    && t.processed == |pending|
    && t.submitted == Moves(pending, after, Queued, Submitted)
    && t.confirmed == Moves(pending, after, Submitted, Confirmed)
    && t.retried == Moves(pending, after, FailedPayout, Queued)
    && t.deadLettered == Moves(pending, after, FailedPayout, Dead)
    && t.failed == Moves(pending, after, Queued, FailedPayout) + Moves(pending, after, Submitted, FailedPayout) + thrown
  }

  /** Handling the i-th payout adds its own move and leaves the counts of the earlier ones alone. */
  lemma OneMoreMove(pending: seq<Record>, i: nat, before: map<string, Record>, after: map<string, Record>,
                    from: Status, to: Status)
    requires i < |pending|
    requires forall j :: 0 <= j < |pending| ==> pending[j].id in before
    requires forall j, k :: 0 <= j < k < |pending| ==> pending[j].id != pending[k].id
    requires pending[i].id in after && after == before[pending[i].id := after[pending[i].id]]
    ensures Moves(pending[..i + 1], after, from, to)
      == Moves(pending[..i], before, from, to) + Moves([pending[i]], after, from, to)
  {
    assert pending[..i + 1][..i] == pending[..i];
    assert [pending[i]][..0] == [];
    MovesUnchanged(pending[..i], after, before, from, to);
  }

  lemma SingleMoves(r: Record, after: map<string, Record>)
    requires r.id in after
    ensures forall from, to ::
      Moves([r], after, from, to) == if r.status == from && after[r.id].status == to then 1 else 0
  {
    assert [r][..0] == [];
  }

  function Plus(t: BatchResult, u: BatchResult): BatchResult {
    BatchResult(t.processed + u.processed, t.submitted + u.submitted, t.confirmed + u.confirmed,
                t.failed + u.failed, t.retried + u.retried, t.deadLettered + u.deadLettered)
  }

  lemma ReportsOneMore(t: BatchResult, u: BatchResult, pending: seq<Record>, i: nat, before: map<string, Record>,
                       after: map<string, Record>, thrown: nat, more: nat)
    requires i < |pending|
    requires forall j :: 0 <= j < |pending| ==> pending[j].id in before
    requires forall j, k :: 0 <= j < k < |pending| ==> pending[j].id != pending[k].id
    requires pending[i].id in after && after == before[pending[i].id := after[pending[i].id]]
    requires Reports(t, pending[..i], before, thrown) && Reports(u, [pending[i]], after, more)
    ensures Reports(Plus(t, u), pending[..i + 1], after, thrown + more)
  {
    OneMoreMove(pending, i, before, after, Queued, Submitted);
    OneMoreMove(pending, i, before, after, Submitted, Confirmed);
    OneMoreMove(pending, i, before, after, FailedPayout, Queued);
    OneMoreMove(pending, i, before, after, FailedPayout, Dead);
    OneMoreMove(pending, i, before, after, Queued, FailedPayout);
    OneMoreMove(pending, i, before, after, Submitted, FailedPayout);
  }

  lemma {:induction false} RowsFacts(repo: Repo, order: seq<string>, statuses: set<Status>)
    requires Indexed(repo) && NoRepeats(order)
    ensures var rows := RowsOf(repo, order, statuses);
      && NoRepeats(rows)
      && forall r :: r in rows ==>
           r.id in order && r.id in repo.records && repo.records[r.id] == r && r.status in statuses
  {
    if order != [] {
      RowsFacts(repo, order[1..], statuses);
      assert order[0] !in order[1..];
      var rest := RowsOf(repo, order[1..], statuses);
      assert forall r :: r in rest ==> r.id != order[0];
    }
  }

  lemma SortedRowsFacts(repo: Repo, rows: seq<Record>, sorted: seq<Record>, statuses: set<Status>)
    requires NoRepeats(rows) && multiset(sorted) == multiset(rows)
    requires forall r :: r in rows ==> r.id in repo.records && repo.records[r.id] == r && r.status in statuses
    ensures forall i :: 0 <= i < |sorted| ==>
      sorted[i].id in repo.records && repo.records[sorted[i].id] == sorted[i] && sorted[i].status in statuses
    ensures forall i, j :: 0 <= i < j < |sorted| ==> sorted[i].id != sorted[j].id
  {
    RearrangedNoRepeats(rows, sorted);
    forall i | 0 <= i < |sorted|
      ensures sorted[i].id in repo.records && repo.records[sorted[i].id] == sorted[i] && sorted[i].status in statuses
    {
      assert sorted[i] in multiset(sorted);
      assert sorted[i] in rows;
    }
  }

  /** Every record with one of the statuses is among the rows. */
  lemma {:induction false} RowsComplete(repo: Repo, order: seq<string>, statuses: set<Status>, id: string)
    requires id in order && id in repo.records && repo.records[id].status in statuses
    ensures repo.records[id] in RowsOf(repo, order, statuses)
  {
    if order[0] != id { RowsComplete(repo, order[1..], statuses, id); }
  }

  /** A cut of a descending list leaves out nothing better than what it keeps. */
  lemma LeftOutIsNoOlder(sorted: seq<Record>, limit: nat, r: Record)
    requires Descending(sorted, (r: Record) => -r.createdAt) && r in sorted
    ensures var rows := if limit < |sorted| then sorted[..limit] else sorted;
      r in rows || (|rows| == limit && forall i :: 0 <= i < |rows| ==> rows[i].createdAt <= r.createdAt)
  {
    var k :| 0 <= k < |sorted| && sorted[k] == r;
    OldestFirst(sorted);
    if k < limit { assert k < |sorted[..Min(limit, |sorted|)]|; }
  }

  /** A listing shows current records with the right statuses, none twice, oldest first. */
  lemma ListingFacts(repo: Repo, statuses: set<Status>, limit: nat)
    requires Indexed(repo)
    ensures var rows := ListByStatus(repo, statuses, limit);
      && |rows| <= limit
      && (forall i, j :: 0 <= i < j < |rows| ==> rows[i].id != rows[j].id && rows[i].createdAt <= rows[j].createdAt)
      && (forall i :: 0 <= i < |rows| ==>
            rows[i].id in repo.records && repo.records[rows[i].id] == rows[i] && rows[i].status in statuses)
  {
    var all := RowsOf(repo, repo.order, statuses);
    var key := (r: Record) => -r.createdAt;
    var sorted := StableSort(all, key);
    assert ListByStatus(repo, statuses, limit) == if limit < |sorted| then sorted[..limit] else sorted;
    RowsFacts(repo, repo.order, statuses);
    SortFacts(all, key);
    SortedRowsFacts(repo, all, sorted, statuses);
    OldestFirst(sorted);
    hide StableSort, RowsOf, Indexed, NoRepeats, Descending, ListByStatus;
  }

  /** A record with one of the statuses is left out of a listing only if the listing is full of records no younger. */
  lemma ListingIsComplete(repo: Repo, statuses: set<Status>, limit: nat, id: string)
    requires Indexed(repo) && id in repo.records && repo.records[id].status in statuses
    ensures var r, rows := repo.records[id], ListByStatus(repo, statuses, limit);
      r in rows || (|rows| == limit && forall i :: 0 <= i < |rows| ==> rows[i].createdAt <= r.createdAt)
  {
    var all := RowsOf(repo, repo.order, statuses);
    var key := (r: Record) => -r.createdAt;
    var sorted := StableSort(all, key);
    assert ListByStatus(repo, statuses, limit) == if limit < |sorted| then sorted[..limit] else sorted;
    RowsComplete(repo, repo.order, statuses, id);
    SortFacts(all, key);
    assert repo.records[id] in multiset(sorted);
    hide StableSort, RowsOf, Indexed, ListByStatus;
    LeftOutIsNoOlder(sorted, limit, repo.records[id]);
  }

  lemma OldestFirst(sorted: seq<Record>)
    requires Descending(sorted, (r: Record) => -r.createdAt)
    ensures forall i, j :: 0 <= i < j < |sorted| ==> sorted[i].createdAt <= sorted[j].createdAt
  {
    var key := (r: Record) => -r.createdAt;
    forall i, j | 0 <= i < j < |sorted| ensures sorted[i].createdAt <= sorted[j].createdAt {
      assert key(sorted[i]) >= key(sorted[j]);
    }
  }

  /** A pass is its first payout, then the rest. */
  lemma PassUnfolds(s: System, o: CB.Options, cfg: Config, pending: seq<Record>, i: nat, net: string -> Net,
                    hasQueue: bool, now: int)
    requires i < |pending|
    ensures var r := pending[i];
      var (b, step) := StepFor(s.breaker, o, cfg, r, net(r.id), hasQueue, now);
      var repo := if step.None? then s.repo else RepoStep(s.repo, cfg, Timed(On(r.id, step.value), now));
      && ProcessAll(s, o, cfg, pending[i..], net, hasQueue, now)
         == ProcessAll(System(repo, b), o, cfg, pending[i + 1..], net, hasQueue, now)
      && ThrownIn(s.breaker, o, cfg, pending[i..], net, hasQueue, now)
         == ThrownBy(s.breaker, o, r, net(r.id), hasQueue, now)
            + ThrownIn(b, o, cfg, pending[i + 1..], net, hasQueue, now)
  {
    assert pending[i..][1..] == pending[i + 1..];
  }

  lemma PassStarts(pending: seq<Record>, records: map<string, Record>)
    ensures pending[0..] == pending && Reports(BatchResult(0, 0, 0, 0, 0, 0), pending[..0], records, 0)
  {
  }

  lemma PassEnds(s: System, o: CB.Options, cfg: Config, pending: seq<Record>, net: string -> Net, hasQueue: bool,
                 now: int)
    ensures ProcessAll(s, o, cfg, pending[|pending|..], net, hasQueue, now) == s
    ensures ThrownIn(s.breaker, o, cfg, pending[|pending|..], net, hasQueue, now) == 0
  {
  }

  class PaymentWorker {
    const repo: InMemoryTransactionRepository
    const service: PaymentService

    constructor (repo: InMemoryTransactionRepository, service: PaymentService)
      ensures this.repo == repo && this.service == service
    {
      this.repo, this.service := repo, service;
    }

    /** Retries a failed payout after its backoff, or gives it up for good. */
    method HandleFailedTransaction(r: Record, now: int) returns (outcome: RetryOutcome)
      requires r.id in repo.records && repo.records[r.id] == r && r.status == FailedPayout
      modifies repo
      ensures repo.View() == RepoStep(old(repo.View()), service.config, Timed(On(r.id, Retry), now))
      ensures outcome == HandleFailed(r, service.config, now).1
    {
      var retriable := r.signedXdr != "";
      if !retriable || r.attempts >= service.config.failedRetryMax {
        var _ := repo.Update(r.id, r.(status := Dead, updatedAt := now));
        return DeadLettered;
      }
      if now - r.updatedAt < BackoffMs(service.config, r.attempts) {
        assert repo.records[r.id := r] == repo.records;
        return Waiting;
      }
      var _ := repo.Update(r.id, r.(status := Queued, updatedAt := now));
      outcome := Retried;
    }

    /** Sends one listed queued payout, and counts what became of it. */
    method SendListed(r: Record, net: Net, now: int) returns (t: BatchResult)
      requires service.repo == repo && r.id in repo.records && repo.records[r.id] == r && r.status == Queued
      modifies repo, service.breaker
      ensures var asked := AskToSend(old(service.breaker.View()), service.breaker.options, net.parses, net.send, now);
        && service.breaker.View() == (if ReadyToSend(r, service.config) then asked.0 else old(service.breaker.View()))
        && repo.View() == RepoStep(old(repo.View()), service.config, Timed(On(r.id, Send(asked.1)), now))
      ensures r.id in repo.records && repo.records == old(repo.records)[r.id := repo.records[r.id]]
      ensures Reports(t, [r], repo.records, 0)
    {
      hide AskToSend, Submit;
      var sent := service.SubmitQueuedTransaction(r.id, net.parses, net.send, now);
      t := BatchResult(1, if sent then 1 else 0, 0, if repo.records[r.id].status == FailedPayout then 1 else 0, 0, 0);
      SingleMoves(r, repo.records);
    }

    /** Queries one listed submitted payout, and counts what became of it. */
    method CheckListed(r: Record, net: Net, now: int) returns (t: BatchResult)
      requires service.repo == repo && r.id in repo.records && repo.records[r.id] == r && r.status == Submitted
      modifies repo, service.breaker
      ensures var asked := AskStatus(old(service.breaker.View()), service.breaker.options, net.query, now);
        && service.breaker.View() == (if r.txHash != "" then asked.0 else old(service.breaker.View()))
        && repo.View() == RepoStep(old(repo.View()), service.config, Timed(On(r.id, Check(asked.1)), now))
      ensures r.id in repo.records && repo.records == old(repo.records)[r.id := repo.records[r.id]]
      ensures Reports(t, [r], repo.records,
                      ThrownBy(old(service.breaker.View()), service.breaker.options, r, net, false, now))
    {
      hide AskStatus;
      var threw := service.ConfirmSubmittedTransaction(r.id, net.query, now);
      t := BatchResult(1, 0, 0, 0, 0, 0);
      t := if threw then t.(failed := 1)
           else if repo.records[r.id].status == Confirmed then t.(confirmed := 1)
           else if repo.records[r.id].status == FailedPayout then t.(failed := 1)
           else t;
      SingleMoves(r, repo.records);
    }

    /** Handles one listed payout; the counters it returns are 0 or 1 and say what became of it. */
    method ProcessOne(r: Record, net: Net, hasQueue: bool, now: int) returns (t: BatchResult)
      requires service.repo == repo && r.id in repo.records && repo.records[r.id] == r && r.status in PENDING
      modifies repo, service.breaker
      ensures var (b, step) := StepFor(old(service.breaker.View()), service.breaker.options, service.config, r, net,
                                       hasQueue, now);
        && service.breaker.View() == b
        && repo.View() == if step.None? then old(repo.View())
                          else RepoStep(old(repo.View()), service.config, Timed(On(r.id, step.value), now))
      ensures Reports(t, [r], repo.records,
                      ThrownBy(old(service.breaker.View()), service.breaker.options, r, net, hasQueue, now))
      ensures r.id in repo.records && repo.records == old(repo.records)[r.id := repo.records[r.id]]
    {
      hide AskToSend, AskStatus;
      if r.status == FailedPayout {
        var outcome := HandleFailedTransaction(r, now);
        t := BatchResult(1, 0, 0, 0, if outcome == Retried then 1 else 0, if outcome == DeadLettered then 1 else 0);
        SingleMoves(r, repo.records);
      } else if r.status == Queued {
        t := SendListed(r, net, now);
      } else if !hasQueue {
        t := CheckListed(r, net, now);
      } else {
        assert repo.records[r.id := r] == repo.records;
        t := BatchResult(1, 0, 0, 0, 0, 0);
        SingleMoves(r, repo.records);
      }
    }

    /** One pass over the oldest pending payouts; the counters report exactly the moves it made. */
    method ProcessBatch(limit: nat, net: string -> Net, hasQueue: bool, now: int) returns (result: BatchResult)
      requires service.repo == repo && Indexed(repo.View())
      modifies repo, service.breaker
      ensures var pending := ListByStatus(old(repo.View()), {Queued, Submitted, FailedPayout}, limit);
        && System(repo.View(), service.breaker.View())
           == ProcessAll(System(old(repo.View()), old(service.breaker.View())), service.breaker.options,
                         service.config, pending, net, hasQueue, now)
        && Reports(result, pending, repo.records,
                   ThrownIn(old(service.breaker.View()), service.breaker.options, service.config, pending, net,
                            hasQueue, now))
    {
      hide Reports, Moves, ProcessAll, ThrownIn, StepFor, RepoStep, ThrownBy, ListByStatus, Indexed, Plus;
      ghost var start := System(repo.View(), service.breaker.View());
      ghost var thrown: nat := 0;
      ListingFacts(repo.View(), PENDING, limit);
      var pending := repo.List(PENDING, limit);
      result := BatchResult(0, 0, 0, 0, 0, 0);
      PassStarts(pending, repo.records);
      for i := 0 to |pending|
        invariant ProcessAll(start, service.breaker.options, service.config, pending, net, hasQueue, now)
          == ProcessAll(System(repo.View(), service.breaker.View()), service.breaker.options, service.config,
                        pending[i..], net, hasQueue, now)
        invariant ThrownIn(start.breaker, service.breaker.options, service.config, pending, net, hasQueue, now)
          == thrown + ThrownIn(service.breaker.View(), service.breaker.options, service.config, pending[i..], net,
                               hasQueue, now)
        invariant forall j :: 0 <= j < |pending| ==> pending[j].id in repo.records
        invariant forall j :: i <= j < |pending| ==> repo.records[pending[j].id] == pending[j]
        invariant Reports(result, pending[..i], repo.records, thrown)
      {
        PassUnfolds(System(repo.View(), service.breaker.View()), service.breaker.options, service.config, pending, i,
                    net, hasQueue, now);
        ghost var before := repo.records;
        ghost var more := ThrownBy(service.breaker.View(), service.breaker.options, pending[i], net(pending[i].id),
                                   hasQueue, now);
        var t := ProcessOne(pending[i], net(pending[i].id), hasQueue, now);
        ReportsOneMore(result, t, pending, i, before, repo.records, thrown, more);
        thrown := thrown + more;
        result := Plus(result, t);
      }
      PassEnds(System(repo.View(), service.breaker.View()), service.breaker.options, service.config, pending, net,
               hasQueue, now);
      assert pending[..|pending|] == pending;
    }
  }
}
