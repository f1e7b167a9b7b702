/**
  Creating payouts while other calls are under way: what the repository's maps keep whatever overlaps, and exactly
  when an idempotency key ends up with a single record.
 */
module PaymentCreations {
  import opened Wrappers
  import opened PaymentModel
  import opened Stroops

  const EMPTY: Desk := Desk(Repo(map[], [], map[], map[]), map[])

  // ---- What holds whatever overlaps -----------------------------------------------------------------------

  /** The key index leads to records, under their own keys, and knows every key a record has. */
  ghost predicate Filed(repo: Repo) {
    && (forall id :: id in repo.records ==> repo.records[id].idempotencyKey in repo.idempotency)
    && (forall k :: k in repo.idempotency ==>
          repo.idempotency[k] in repo.records && repo.records[repo.idempotency[k]].idempotencyKey == k)
  }

  /** Whoever has a nonce: a record, or a creation under way. */
  datatype Holder = Stored(id: string) | Flying(call: nat)

  predicate Holds(d: Desk, h: Holder) {
    match h
    case Stored(id) => id in d.repo.records
    case Flying(call) => call in d.flights && d.flights[call].nonce.Some?
  }

  /** The source account and nonce of a holder. */
  function Ticket(d: Desk, cfg: Config, h: Holder): (string, nat)
    requires Holds(d, h)
  {
    match h
    case Stored(id) => (d.repo.records[id].sourceAccount, d.repo.records[id].nonce)
    case Flying(call) => (cfg.sourceAccount, d.flights[call].nonce.value)
  }

  predicate Issued(repo: Repo, ticket: (string, nat)) {
    ticket.0 in repo.nonces && 1 <= ticket.1 <= repo.nonces[ticket.0]
  }

  /** Every nonce held was issued for its source, and no two holders share one. */
  ghost predicate Numbered(d: Desk, cfg: Config) {
    && (forall h {:trigger Ticket(d, cfg, h)} :: Holds(d, h) ==> Issued(d.repo, Ticket(d, cfg, h)))
    && (forall g, h {:trigger Ticket(d, cfg, g), Ticket(d, cfg, h)} ::
          Holds(d, g) && Holds(d, h) && g != h ==> Ticket(d, cfg, g) != Ticket(d, cfg, h))
  }

  ghost predicate DeskSound(d: Desk, cfg: Config) {
    Indexed(d.repo) && "" !in d.repo.records && Filed(d.repo) && Numbered(d, cfg)
  }

  /** Generated ids are new and not empty. */
  predicate FreshId(d: Desk, op: DeskOp) {
    Lands(d, op) ==> op.newId != "" && op.newId !in d.repo.records
  }

  predicate FreshIds(d: Desk, cfg: Config, events: seq<DeskEvent>)
    decreases |events|
  {
    events == [] || (FreshId(d, events[0].op) && FreshIds(DeskStep(d, cfg, events[0]), cfg, events[1..]))
  }

  /** What no step after creation changes. */
  ghost predicate SameIdentity(a: Record, b: Record) {
    && a.id == b.id && a.payoutId == b.payoutId && a.idempotencyKey == b.idempotencyKey
    && a.sourceAccount == b.sourceAccount && a.destinationAccount == b.destinationAccount
    && a.amountStroops == b.amountStroops && a.nonce == b.nonce && a.createdAt == b.createdAt
  }

  lemma StepKeepsIdentity(r: Record, cfg: Config, step: Step, now: int)
    ensures SameIdentity(r, RecordStep(r, cfg, step, now))
  {
  }

  lemma InsertKeepsFiles(repo: Repo, r: Record)
    requires Indexed(repo) && Filed(repo) && r.id !in repo.records
    ensures Indexed(Inserted(repo, r)) && Filed(Inserted(repo, r))
  {
    assert Indexed(Inserted(repo, r)) by { hide Filed; }
    hide Indexed;
  }

  lemma UpdateKeepsFiles(repo: Repo, r: Record)
    requires Indexed(repo) && Filed(repo) && r.id in repo.records && SameIdentity(repo.records[r.id], r)
    ensures var next := repo.(records := repo.records[r.id := r]); Indexed(next) && Filed(next)
  {
    var next := repo.(records := repo.records[r.id := r]);
    assert Indexed(next) by { hide Filed; }
    hide Indexed;
  }

  /** Holders keep their tickets, or pass them on to one other holder each. */
  lemma TicketsCarryOver(d: Desk, e: Desk, cfg: Config, from: Holder -> Holder)
    requires Numbered(d, cfg)
    requires forall h :: Holds(e, h) ==> Holds(d, from(h)) && Ticket(e, cfg, h) == Ticket(d, cfg, from(h))
    requires forall g, h :: Holds(e, g) && Holds(e, h) && g != h ==> from(g) != from(h)
    requires e.repo.nonces == d.repo.nonces
    ensures Numbered(e, cfg)
  {
    forall h | Holds(e, h) ensures Issued(e.repo, Ticket(e, cfg, h)) {
      assert Issued(d.repo, Ticket(d, cfg, from(h)));
    }
    forall g, h | Holds(e, g) && Holds(e, h) && g != h ensures Ticket(e, cfg, g) != Ticket(e, cfg, h) {
      assert Ticket(d, cfg, from(g)) != Ticket(d, cfg, from(h));
    }
  }

  /** A nonce just reserved is larger than every one its source had issued. */
  lemma ReservingKeepsNumbers(d: Desk, cfg: Config, call: nat, now: int)
    requires Numbered(d, cfg)
    ensures Numbered(DeskStep(d, cfg, DeskEvent(Reserve(call), now)), cfg)
  {
    var e := DeskStep(d, cfg, DeskEvent(Reserve(call), now));
    if e != d {
      var mine := Flying(call);
      forall h | Holds(e, h) ensures Issued(e.repo, Ticket(e, cfg, h)) {
        if h != mine { assert Holds(d, h) && Issued(d.repo, Ticket(d, cfg, h)); }
      }
      forall g, h | Holds(e, g) && Holds(e, h) && g != h ensures Ticket(e, cfg, g) != Ticket(e, cfg, h) {
        if g != mine { assert Holds(d, g) && Issued(d.repo, Ticket(d, cfg, g)); }
        if h != mine { assert Holds(d, h) && Issued(d.repo, Ticket(d, cfg, h)); }
        if g != mine && h != mine { assert Ticket(d, cfg, g) != Ticket(d, cfg, h); }
      }
    }
  }

  lemma AskingKeepsNumbers(d: Desk, cfg: Config, call: nat, req: Request, now: int)
    requires Numbered(d, cfg)
    ensures Numbered(DeskStep(d, cfg, DeskEvent(Ask(call, req), now)), cfg)
  {
    TicketsCarryOver(d, DeskStep(d, cfg, DeskEvent(Ask(call, req), now)), cfg, h => h);
  }

  /** A creation that lands hands its nonce to its record; one that fails keeps it out of use. */
  lemma FinishingKeepsNumbers(d: Desk, cfg: Config, call: nat, newId: string, built: bool, now: int)
    requires Numbered(d, cfg) && FreshId(d, Finish(call, newId, built))
    ensures Numbered(DeskStep(d, cfg, DeskEvent(Finish(call, newId, built), now)), cfg)
  {
    var landed := Lands(d, Finish(call, newId, built));
    TicketsCarryOver(d, DeskStep(d, cfg, DeskEvent(Finish(call, newId, built), now)), cfg,
                     h => if landed && h == Stored(newId) then Flying(call) else h);
  }

  lemma AdvancingKeepsNumbers(d: Desk, cfg: Config, id: string, step: Step, now: int)
    requires Numbered(d, cfg)
    ensures Numbered(DeskStep(d, cfg, DeskEvent(Advance(id, step), now)), cfg)
  {
    if id in d.repo.records { StepKeepsIdentity(d.repo.records[id], cfg, step, now); }
    hide RecordStep;
    TicketsCarryOver(d, DeskStep(d, cfg, DeskEvent(Advance(id, step), now)), cfg, h => h);
  }

  lemma StepKeepsNumbers(d: Desk, cfg: Config, e: DeskEvent)
    requires Numbered(d, cfg) && FreshId(d, e.op)
    ensures Numbered(DeskStep(d, cfg, e), cfg)
  {
    match e.op {
      case Ask(call, req) => AskingKeepsNumbers(d, cfg, call, req, e.now);
      case Reserve(call) => ReservingKeepsNumbers(d, cfg, call, e.now);
      case Finish(call, newId, built) => FinishingKeepsNumbers(d, cfg, call, newId, built, e.now);
      case Advance(id, step) => AdvancingKeepsNumbers(d, cfg, id, step, e.now);
    }
  }

  lemma StepKeepsFiles(d: Desk, cfg: Config, e: DeskEvent)
    requires Indexed(d.repo) && "" !in d.repo.records && Filed(d.repo) && FreshId(d, e.op)
    ensures var r := DeskStep(d, cfg, e).repo; Indexed(r) && "" !in r.records && Filed(r)
  {
    if Lands(d, e.op) {
      var f := d.flights[e.op.call];
      InsertKeepsFiles(d.repo, NewRecord(cfg, f.req, e.op.newId, f.nonce.value, ToStroops(f.req.amount).value, e.now));
      hide Indexed, Filed, ToStroops;
    } else if e.op.Advance? && e.op.id in d.repo.records {
      var r := RecordStep(d.repo.records[e.op.id], cfg, e.op.step, e.now);
      StepKeepsIdentity(d.repo.records[e.op.id], cfg, e.op.step, e.now);
      assert r.id == e.op.id;
      UpdateKeepsFiles(d.repo, r);
      hide RecordStep, Indexed, Filed;
    } else {
      hide RecordStep;
    }
  }

  lemma StepKeepsDesk(d: Desk, cfg: Config, e: DeskEvent)
    requires DeskSound(d, cfg) && FreshId(d, e.op)
    ensures DeskSound(DeskStep(d, cfg, e), cfg)
  {
    hide DeskStep, Numbered, Filed, Indexed, FreshId;
    StepKeepsFiles(d, cfg, e);
    StepKeepsNumbers(d, cfg, e);
  }

  /** Whatever overlaps, the repository's maps agree and no nonce is held twice. */
  lemma {:induction false} RunKeepsDesk(d: Desk, cfg: Config, events: seq<DeskEvent>)
    requires DeskSound(d, cfg) && FreshIds(d, cfg, events)
    ensures DeskSound(DeskRun(d, cfg, events), cfg)
    decreases |events|
  {
    hide DeskSound, DeskStep, FreshId;
    if events != [] {
      StepKeepsDesk(d, cfg, events[0]);
      RunKeepsDesk(DeskStep(d, cfg, events[0]), cfg, events[1..]);
    }
  }

  /** From an empty repository, under every interleaving, no two payouts share a nonce of their source. */
  lemma NoncesStayUnique(cfg: Config, events: seq<DeskEvent>, i: string, j: string)
    requires FreshIds(EMPTY, cfg, events)
    requires i in DeskRun(EMPTY, cfg, events).repo.records && j in DeskRun(EMPTY, cfg, events).repo.records && i != j
    ensures var records := DeskRun(EMPTY, cfg, events).repo.records;
      (records[i].sourceAccount, records[i].nonce) != (records[j].sourceAccount, records[j].nonce)
  {
    hide DeskRun;
    RunKeepsDesk(EMPTY, cfg, events);
    var d := DeskRun(EMPTY, cfg, events);
    assert Ticket(d, cfg, Stored(i)) != Ticket(d, cfg, Stored(j));
  }

  // ---- A creation nothing comes between -------------------------------------------------------------------

  /** createPayoutTransaction alone is its three stretches, one after another. */
  lemma CreateIsItsStretches(d: Desk, cfg: Config, req: Request, call: nat, newId: string, built: bool, now: int)
    requires call !in d.flights
    ensures DeskRun(d, cfg, [DeskEvent(Ask(call, req), now), DeskEvent(Reserve(call), now),
                             DeskEvent(Finish(call, newId, built), now)])
      == d.(repo := Create(d.repo, cfg, req, newId, built, now).0)
  {
    hide ToStroops, AcceptedAmount, FindByKey;
    var a, r, f := DeskEvent(Ask(call, req), now), DeskEvent(Reserve(call), now),
                   DeskEvent(Finish(call, newId, built), now);
    assert [a, r, f][1..] == [r, f] && [r, f][1..] == [f] && [f][1..] == [];
    var asked := DeskStep(d, cfg, a);
    var reserved := DeskStep(asked, cfg, r);
    calc {
      DeskRun(d, cfg, [a, r, f]);
      DeskRun(asked, cfg, [r, f]);
      DeskRun(reserved, cfg, [f]);
      DeskRun(DeskStep(reserved, cfg, f), cfg, []);
      DeskStep(reserved, cfg, f);
    }
    if TakesOff(d.repo, req) {
      assert reserved.flights - {call} == d.flights;
    }
  }

  // ---- Answers to repeated requests -----------------------------------------------------------------------

  lemma KnownKeyFinds(repo: Repo, key: string)
    requires Filed(repo) && "" !in repo.records && key in repo.idempotency
    ensures FindByKey(repo, key) == Some(repo.records[repo.idempotency[key]])
  {
  }

  lemma UnknownKeyMisses(repo: Repo, key: string)
    requires Filed(repo) && "" !in repo.records
    ensures FindByKey(repo, key).None? <==> key !in repo.idempotency
  {
  }

  predicate KeyFlies(d: Desk, key: string) {
    exists call :: call in d.flights && d.flights[call].req.idempotencyKey == key
  }

  /** A key that has a record takes no further creation off. */
  lemma KeyStaysDown(d: Desk, cfg: Config, e: DeskEvent, key: string)
    requires Filed(d.repo) && "" !in d.repo.records && key in d.repo.idempotency && !KeyFlies(d, key)
    ensures !KeyFlies(DeskStep(d, cfg, e), key)
  {
    hide FindByKey, RecordStep, ToStroops, Filed;
    UnknownKeyMisses(d.repo, key);
    assert forall call :: call in d.flights ==> d.flights[call].req.idempotencyKey != key;
  }

  /** Only a landing creation changes what a key leads to, and only its own key. */
  lemma IndexMovesByLanding(d: Desk, cfg: Config, e: DeskEvent, key: string)
    requires key in d.repo.idempotency && !KeyFlies(d, key)
    ensures var n := DeskStep(d, cfg, e);
      key in n.repo.idempotency && n.repo.idempotency[key] == d.repo.idempotency[key]
  {
    hide FindByKey, RecordStep, ToStroops;
    assert forall call :: call in d.flights ==> d.flights[call].req.idempotencyKey != key;
  }

  /** No step takes a record away or changes its identity. */
  lemma StepKeepsRecord(d: Desk, cfg: Config, e: DeskEvent, id: string)
    requires FreshId(d, e.op) && id in d.repo.records
    ensures var n := DeskStep(d, cfg, e).repo;
      && id in n.records
      && n.records[id] == (if e.op.Advance? && e.op.id == id then RecordStep(d.repo.records[id], cfg, e.op.step, e.now)
                           else d.repo.records[id])
      && SameIdentity(d.repo.records[id], n.records[id])
  {
    hide RecordStep, FindByKey, ToStroops;
    if e.op.Advance? && e.op.id == id { StepKeepsIdentity(d.repo.records[id], cfg, e.op.step, e.now); }
  }

  lemma {:induction false} RunKeepsAnswer(d: Desk, cfg: Config, events: seq<DeskEvent>, key: string)
    requires DeskSound(d, cfg) && FreshIds(d, cfg, events) && key in d.repo.idempotency && !KeyFlies(d, key)
    requires d.repo.idempotency[key] in d.repo.records
    ensures var n, id := DeskRun(d, cfg, events), d.repo.idempotency[key];
      && key in n.repo.idempotency && n.repo.idempotency[key] == id && id in n.repo.records
      && SameIdentity(d.repo.records[id], n.repo.records[id])
    decreases |events|
  {
    if events != [] {
      KeyStaysDown(d, cfg, events[0], key);
      IndexMovesByLanding(d, cfg, events[0], key);
      StepKeepsRecord(d, cfg, events[0], d.repo.idempotency[key]);
      StepKeepsDesk(d, cfg, events[0]);
      hide DeskSound, DeskStep, KeyFlies, FreshId;
      RunKeepsAnswer(DeskStep(d, cfg, events[0]), cfg, events[1..], key);
    }
  }

  /**
    Once a creation under a key has finished and no other under that key is under way, a request under it changes
    nothing and is answered with that record as it stands, whatever has happened in between.
   */
  lemma CreationIsIdempotent(d: Desk, cfg: Config, events: seq<DeskEvent>, again: Request, id2: string, built2: bool,
                             now2: int)
    requires DeskSound(d, cfg) && FreshIds(d, cfg, events)
    requires again.wellFormed && AcceptedAmount(again.amount)
    requires again.idempotencyKey in d.repo.idempotency && !KeyFlies(d, again.idempotencyKey)
    ensures var id, end := d.repo.idempotency[again.idempotencyKey], DeskRun(d, cfg, events).repo;
      && id in d.repo.records && id in end.records && SameIdentity(d.repo.records[id], end.records[id])
      && Create(end, cfg, again, id2, built2, now2) == (end, Ok(end.records[id]))
  {
    hide AcceptedAmount;
    RunKeepsAnswer(d, cfg, events, again.idempotencyKey);
    RunKeepsDesk(d, cfg, events);
    KnownKeyFinds(DeskRun(d, cfg, events).repo, again.idempotencyKey);
    hide DeskRun, Numbered, FreshIds;
  }
}
