/** Exactly when an idempotency key ends up with a single record. */
module PaymentKeys {
  import opened Wrappers
  import opened PaymentModel
  import opened Stroops
  import opened PaymentCreations

  /**
    A desk with its history: the key of every creation that took off, the record of every one that landed and back,
    and the rivals: pairs of creations under one key, the second of which took off while the first was under way.
   */
  datatype Log = Log(
    desk: Desk,
    keyOf: map<nat, string>,
    filed: map<nat, string>,
    authors: map<string, nat>,
    rivals: set<(nat, nat)>)

  const BLANK: Log := Log(EMPTY, map[], map[], map[], {})

  function UnderWay(d: Desk, key: string): set<nat> {
    set a | a in d.flights && d.flights[a].req.idempotencyKey == key
  }

  function LogStep(l: Log, cfg: Config, e: DeskEvent): Log {
    var next := DeskStep(l.desk, cfg, e);
    if e.op.Ask? && e.op.call !in l.desk.flights && TakesOff(l.desk.repo, e.op.req) then
      var key := e.op.req.idempotencyKey;
      l.(desk := next, keyOf := l.keyOf[e.op.call := key],
         rivals := l.rivals + set a | a in UnderWay(l.desk, key) :: (a, e.op.call))
    else if Lands(l.desk, e.op) then
      l.(desk := next, filed := l.filed[e.op.call := e.op.newId], authors := l.authors[e.op.newId := e.op.call])
    else l.(desk := next)
  }

  function LogRun(l: Log, cfg: Config, events: seq<DeskEvent>): Log
    decreases |events|
  {
    if events == [] then l else LogRun(LogStep(l, cfg, events[0]), cfg, events[1..])
  }

  /** Every call and every generated id is used once. */
  predicate Fresh(l: Log, op: DeskOp) {
    FreshId(l.desk, op) && (op.Ask? ==> op.call !in l.keyOf)
  }

  predicate AllFresh(l: Log, cfg: Config, events: seq<DeskEvent>)
    decreases |events|
  {
    events == [] || (Fresh(l, events[0].op) && AllFresh(LogStep(l, cfg, events[0]), cfg, events[1..]))
  }

  predicate Rivals(l: Log, a: nat, b: nat) {
    (a, b) in l.rivals || (b, a) in l.rivals
  }

  /** Creations that took off: those under way and those that landed know their keys; the landed ones their records. */
  ghost predicate Tracked(l: Log) {
    && (forall c :: c in l.desk.flights ==> c in l.keyOf && l.keyOf[c] == l.desk.flights[c].req.idempotencyKey)
    && (forall c :: c in l.filed ==>
          && c in l.keyOf && c !in l.desk.flights
          && l.filed[c] in l.desk.repo.records && l.desk.repo.records[l.filed[c]].idempotencyKey == l.keyOf[c]
          && l.filed[c] in l.authors && l.authors[l.filed[c]] == c)
    && (forall id :: id in l.desk.repo.records <==> id in l.authors)
    && (forall id :: id in l.authors ==> l.authors[id] in l.filed && l.filed[l.authors[id]] == id)
  }

  /** The creation took off and has not failed. */
  predicate Live(l: Log, c: nat) {
    c in l.keyOf && (c in l.desk.flights || c in l.filed)
  }

  /** Two live creations under one key are rivals; and rivals have one key. */
  ghost predicate Paired(l: Log) {
    && (forall a, b {:trigger Rivals(l, a, b)} ::
          a != b && Live(l, a) && Live(l, b) && l.keyOf[a] == l.keyOf[b] ==> Rivals(l, a, b))
    && (forall p :: p in l.rivals ==>
          p.0 != p.1 && p.0 in l.keyOf && p.1 in l.keyOf && l.keyOf[p.0] == l.keyOf[p.1])
  }

  ghost predicate LogSound(l: Log, cfg: Config) {
    DeskSound(l.desk, cfg) && Tracked(l) && Paired(l)
  }

  /** Creations that end, and records that change but not their keys, leave the tracking right. */
  lemma TrackedFrame(l: Log, n: Log)
    requires Tracked(l) && n.keyOf == l.keyOf && n.filed == l.filed && n.authors == l.authors
    requires forall c :: c in n.desk.flights ==> c in l.desk.flights && n.desk.flights[c].req == l.desk.flights[c].req
    requires n.desk.repo.records.Keys == l.desk.repo.records.Keys
    requires forall id :: id in l.desk.repo.records ==>
      n.desk.repo.records[id].idempotencyKey == l.desk.repo.records[id].idempotencyKey
    ensures Tracked(n)
  {
  }

  /** Creations that land or fail leave no new pair. */
  lemma PairedFrame(l: Log, n: Log)
    requires Paired(l) && n.keyOf == l.keyOf && n.rivals == l.rivals
    requires forall c :: Live(n, c) ==> Live(l, c)
    ensures Paired(n)
  {
    forall a, b | a != b && Live(n, a) && Live(n, b) && n.keyOf[a] == n.keyOf[b] ensures Rivals(n, a, b) {
      assert Rivals(l, a, b);
    }
  }

  lemma TakeOffTracked(l: Log, n: Log, call: nat, req: Request)
    requires Tracked(l) && call !in l.keyOf
    requires n.desk == l.desk.(flights := l.desk.flights[call := Flight(req, None)])
    requires n.keyOf == l.keyOf[call := req.idempotencyKey] && n.filed == l.filed && n.authors == l.authors
    ensures Tracked(n)
  {
  }

  /** Under a key without a record no creation has landed. */
  lemma NoneLanded(l: Log, key: string)
    requires Tracked(l) && Filed(l.desk.repo) && "" !in l.desk.repo.records && FindByKey(l.desk.repo, key).None?
    ensures forall c :: c in l.filed ==> l.keyOf[c] != key
  {
    UnknownKeyMisses(l.desk.repo, key);
  }

  /** A creation that takes off pairs up with those under way under its key; none under its key has landed. */
  lemma TakeOffPaired(l: Log, n: Log, call: nat, req: Request)
    requires Tracked(l) && Paired(l) && call !in l.keyOf
    requires Filed(l.desk.repo) && "" !in l.desk.repo.records && FindByKey(l.desk.repo, req.idempotencyKey).None?
    requires n.desk == l.desk.(flights := l.desk.flights[call := Flight(req, None)])
    requires n.keyOf == l.keyOf[call := req.idempotencyKey] && n.filed == l.filed
    requires n.rivals == l.rivals + set a | a in UnderWay(l.desk, req.idempotencyKey) :: (a, call)
    ensures Paired(n)
  {
    NoneLanded(l, req.idempotencyKey);
    hide FindByKey, Filed;
    forall a, b | a != b && Live(n, a) && Live(n, b) && n.keyOf[a] == n.keyOf[b] ensures Rivals(n, a, b) {
      if a == call || b == call {
        var other := if a == call then b else a;
        assert other in UnderWay(l.desk, req.idempotencyKey);
        assert (other, call) in n.rivals;
      } else {
        assert Rivals(l, a, b);
      }
    }
  }

  lemma LandingTracked(l: Log, n: Log, call: nat, r: Record)
    requires Tracked(l) && call in l.desk.flights && r.id !in l.desk.repo.records
    requires r.idempotencyKey == l.desk.flights[call].req.idempotencyKey
    requires n.desk == Desk(Inserted(l.desk.repo, r), l.desk.flights - {call})
    requires n.keyOf == l.keyOf && n.filed == l.filed[call := r.id] && n.authors == l.authors[r.id := call]
    ensures Tracked(n)
  {
  }

  lemma TakeOffKeepsTrack(l: Log, cfg: Config, e: DeskEvent)
    requires LogSound(l, cfg) && Fresh(l, e.op) && e.op.Ask? && TakesOff(l.desk.repo, e.op.req)
    ensures Tracked(LogStep(l, cfg, e)) && Paired(LogStep(l, cfg, e))
  {
    hide Paired, AcceptedAmount, Numbered, Indexed, Filed, FindByKey;
    TakeOffTracked(l, LogStep(l, cfg, e), e.op.call, e.op.req);
    TakeOffPaired(l, LogStep(l, cfg, e), e.op.call, e.op.req);
  }

  lemma LandingStep(l: Log, cfg: Config, e: DeskEvent) returns (r: Record)
    requires Fresh(l, e.op) && Lands(l.desk, e.op)
    ensures r.id == e.op.newId && r.id !in l.desk.repo.records
    ensures r.idempotencyKey == l.desk.flights[e.op.call].req.idempotencyKey
    ensures LogStep(l, cfg, e) == Log(Desk(Inserted(l.desk.repo, r), l.desk.flights - {e.op.call}), l.keyOf,
                                      l.filed[e.op.call := r.id], l.authors[r.id := e.op.call], l.rivals)
  {
    hide ToStroops, Inserted;
    var f := l.desk.flights[e.op.call];
    r := NewRecord(cfg, f.req, e.op.newId, f.nonce.value, ToStroops(f.req.amount).value, e.now);
  }

  lemma LandingKeepsTrack(l: Log, cfg: Config, e: DeskEvent)
    requires LogSound(l, cfg) && Fresh(l, e.op) && Lands(l.desk, e.op)
    ensures Tracked(LogStep(l, cfg, e)) && Paired(LogStep(l, cfg, e))
  {
    var n := LogStep(l, cfg, e);
    var r := LandingStep(l, cfg, e);
    assert e.op.call in l.desk.flights && e.op.call in l.keyOf;
    hide LogStep, DeskSound, Paired, Lands, Fresh, Inserted;
    LandingTracked(l, n, e.op.call, r);
    hide Tracked;
    PairedFrame(l, n);
  }

  /** Steps that neither take off nor land only end creations, reserve nonces and change records. */
  lemma OtherStep(l: Log, cfg: Config, e: DeskEvent)
    requires !Lands(l.desk, e.op) && !(e.op.Ask? && TakesOff(l.desk.repo, e.op.req))
    ensures var n := LogStep(l, cfg, e);
      && n.keyOf == l.keyOf && n.filed == l.filed && n.authors == l.authors && n.rivals == l.rivals
      && (forall c :: c in n.desk.flights ==> c in l.desk.flights && n.desk.flights[c].req == l.desk.flights[c].req)
      && n.desk.repo.records.Keys == l.desk.repo.records.Keys
      && (forall id :: id in l.desk.repo.records ==>
            n.desk.repo.records[id].idempotencyKey == l.desk.repo.records[id].idempotencyKey)
  {
    hide ToStroops, TakesOff, RecordStep;
    if e.op.Advance? && e.op.id in l.desk.repo.records {
      StepKeepsIdentity(l.desk.repo.records[e.op.id], cfg, e.op.step, e.now);
    }
  }

  lemma OtherStepsKeepTrack(l: Log, cfg: Config, e: DeskEvent)
    requires LogSound(l, cfg) && !Lands(l.desk, e.op) && !(e.op.Ask? && TakesOff(l.desk.repo, e.op.req))
    ensures Tracked(LogStep(l, cfg, e)) && Paired(LogStep(l, cfg, e))
  {
    OtherStep(l, cfg, e);
    hide LogStep, DeskSound, Paired, Tracked, Lands, TakesOff;
    TrackedFrame(l, LogStep(l, cfg, e));
    PairedFrame(l, LogStep(l, cfg, e));
  }

  lemma StepKeepsLog(l: Log, cfg: Config, e: DeskEvent)
    requires LogSound(l, cfg) && Fresh(l, e.op)
    ensures LogSound(LogStep(l, cfg, e), cfg)
  {
    StepKeepsDesk(l.desk, cfg, e);
    if e.op.Ask? && TakesOff(l.desk.repo, e.op.req) { TakeOffKeepsTrack(l, cfg, e); }
    else if Lands(l.desk, e.op) { LandingKeepsTrack(l, cfg, e); }
    else { OtherStepsKeepTrack(l, cfg, e); }
    assert LogStep(l, cfg, e).desk == DeskStep(l.desk, cfg, e);
    hide DeskSound, Tracked, Paired, LogStep;
  }

  lemma {:induction false} RunKeepsLog(l: Log, cfg: Config, events: seq<DeskEvent>)
    requires LogSound(l, cfg) && AllFresh(l, cfg, events)
    ensures LogSound(LogRun(l, cfg, events), cfg)
    ensures LogRun(l, cfg, events).desk == DeskRun(l.desk, cfg, events)
    decreases |events|
  {
    if events != [] {
      StepKeepsLog(l, cfg, events[0]);
      assert LogStep(l, cfg, events[0]).desk == DeskStep(l.desk, cfg, events[0]);
      hide LogSound, LogStep, DeskStep, Fresh;
      RunKeepsLog(LogStep(l, cfg, events[0]), cfg, events[1..]);
    }
  }

  ghost predicate KeysUnique(repo: Repo) {
    forall i, j :: i in repo.records && j in repo.records && i != j ==>
      repo.records[i].idempotencyKey != repo.records[j].idempotencyKey
  }

  /**
    From an empty repository, under every interleaving: each idempotency key has at most one record exactly if, of
    any two creations under one key of which the second took off while the first was under way, not both landed.
   */
  lemma KeysStayUniqueIff(cfg: Config, events: seq<DeskEvent>)
    requires AllFresh(BLANK, cfg, events)
    ensures var l := LogRun(BLANK, cfg, events);
      && l.desk == DeskRun(EMPTY, cfg, events)
      && (KeysUnique(l.desk.repo) <==> forall p :: p in l.rivals ==> !(p.0 in l.filed && p.1 in l.filed))
  {
    hide LogRun, DeskRun;
    RunKeepsLog(BLANK, cfg, events);
    KeysUniqueOfLog(LogRun(BLANK, cfg, events), cfg);
  }

  lemma KeysUniqueOfLog(l: Log, cfg: Config)
    requires LogSound(l, cfg)
    ensures KeysUnique(l.desk.repo) <==> forall p :: p in l.rivals ==> !(p.0 in l.filed && p.1 in l.filed)
  {
    hide DeskSound;
    forall p | p in l.rivals && p.0 in l.filed && p.1 in l.filed ensures !KeysUnique(l.desk.repo) {
      var i, j := l.filed[p.0], l.filed[p.1];
      assert l.authors[i] == p.0 && l.authors[j] == p.1;
      assert l.desk.repo.records[i].idempotencyKey == l.desk.repo.records[j].idempotencyKey;
    }
    if !KeysUnique(l.desk.repo) {
      var i, j :| i in l.desk.repo.records && j in l.desk.repo.records && i != j
                  && l.desk.repo.records[i].idempotencyKey == l.desk.repo.records[j].idempotencyKey;
      assert Rivals(l, l.authors[i], l.authors[j]);
    }
  }

  // ---- What a caller can do about it ----------------------------------------------------------------------

  /** Some creation in the run takes off while another under its key is under way. */
  predicate Overlaps(d: Desk, cfg: Config, events: seq<DeskEvent>)
    decreases |events|
  {
    events != []
    && ((events[0].op.Ask? && TakesOff(d.repo, events[0].op.req)
         && UnderWay(d, events[0].op.req.idempotencyKey) != {})
        || Overlaps(DeskStep(d, cfg, events[0]), cfg, events[1..]))
  }

  lemma {:induction false} NoOverlapNoRivals(l: Log, cfg: Config, events: seq<DeskEvent>)
    requires !Overlaps(l.desk, cfg, events)
    ensures LogRun(l, cfg, events).rivals == l.rivals
    decreases |events|
  {
    if events != [] {
      var n := LogStep(l, cfg, events[0]);
      assert n.desk == DeskStep(l.desk, cfg, events[0]);
      assert n.rivals == l.rivals;
      hide LogStep, DeskStep, TakesOff, UnderWay;
      NoOverlapNoRivals(n, cfg, events[1..]);
    }
  }

  /** If no creation takes off while another under its key is under way, every key has at most one record. */
  lemma OneRecordPerKey(cfg: Config, events: seq<DeskEvent>)
    requires AllFresh(BLANK, cfg, events) && !Overlaps(EMPTY, cfg, events)
    ensures KeysUnique(DeskRun(EMPTY, cfg, events).repo)
  {
    hide LogRun, DeskRun, Overlaps, AllFresh;
    KeysStayUniqueIff(cfg, events);
    NoOverlapNoRivals(BLANK, cfg, events);
  }

  function Overlapping(req: Request, now: int): seq<DeskEvent> {
    [DeskEvent(Ask(0, req), now), DeskEvent(Ask(1, req), now), DeskEvent(Reserve(0), now), DeskEvent(Reserve(1), now),
     DeskEvent(Finish(0, "a", true), now), DeskEvent(Finish(1, "b", true), now)]
  }

  /** The logs of the overlapping run: both took off, both have their nonces, one landed, both landed. */
  function BothAsked(req: Request): Log {
    BLANK.(desk := Desk(EMPTY.repo, map[0 := Flight(req, None), 1 := Flight(req, None)]),
           keyOf := map[0 := req.idempotencyKey, 1 := req.idempotencyKey], rivals := {(0, 1)})
  }

  function BothReserved(cfg: Config, req: Request): Log {
    BothAsked(req).(desk := Desk(Repo(map[], [], map[], map[cfg.sourceAccount := 2]),
                                 map[0 := Flight(req, Some(1)), 1 := Flight(req, Some(2))]))
  }

  lemma AskingTwice(cfg: Config, req: Request, now: int)
    requires TakesOff(EMPTY.repo, req)
    ensures var l := LogStep(BLANK, cfg, DeskEvent(Ask(0, req), now));
      && LogStep(l, cfg, DeskEvent(Ask(1, req), now)) == BothAsked(req)
      && Fresh(BLANK, Ask(0, req)) && Fresh(l, Ask(1, req))
  {
    hide ToStroops, AcceptedAmount;
  }

  lemma ReservingTwice(cfg: Config, req: Request, now: int)
    ensures var l := LogStep(BothAsked(req), cfg, DeskEvent(Reserve(0), now));
      && LogStep(l, cfg, DeskEvent(Reserve(1), now)) == BothReserved(cfg, req)
      && Fresh(BothAsked(req), Reserve(0)) && Fresh(l, Reserve(1))
  {
    hide ToStroops, AcceptedAmount;
  }

  lemma LandingTwice(cfg: Config, req: Request, now: int)
    requires ToStroops(req.amount).Ok?
    ensures var l := LogStep(BothReserved(cfg, req), cfg, DeskEvent(Finish(0, "a", true), now));
      var repo := LogStep(l, cfg, DeskEvent(Finish(1, "b", true), now)).desk.repo;
      var stroops := ToStroops(req.amount).value;
      && Fresh(BothReserved(cfg, req), Finish(0, "a", true)) && Fresh(l, Finish(1, "b", true))
      && repo.records == map["a" := NewRecord(cfg, req, "a", 1, stroops, now),
                             "b" := NewRecord(cfg, req, "b", 2, stroops, now)]
      && repo.idempotency == map[req.idempotencyKey := "b"]
  {
    hide ToStroops, AcceptedAmount;
  }

  /** Two overlapping requests under one key both end with a record; the index then leads to the later one only. */
  lemma OverlappingRequestsShareKey(cfg: Config, req: Request, now: int)
    requires TakesOff(EMPTY.repo, req) && ToStroops(req.amount).Ok?
    ensures var repo := DeskRun(EMPTY, cfg, Overlapping(req, now)).repo;
      && AllFresh(BLANK, cfg, Overlapping(req, now))
      && repo.records.Keys == {"a", "b"} && !KeysUnique(repo)
      && repo.records["a"].payoutId == repo.records["b"].payoutId == req.payoutId
      && FindByKey(repo, req.idempotencyKey) == Some(repo.records["b"])
  {
    SixSteps(BLANK, cfg, Overlapping(req, now));
    AskingTwice(cfg, req, now);
    ReservingTwice(cfg, req, now);
    LandingTwice(cfg, req, now);
    hide ToStroops, AcceptedAmount, LogStep, DeskRun, AllFresh, Fresh, BothAsked, BothReserved;
    var repo := DeskRun(EMPTY, cfg, Overlapping(req, now)).repo;
    assert repo.records["a"].idempotencyKey == repo.records["b"].idempotencyKey;
  }

  lemma SixSteps(l: Log, cfg: Config, es: seq<DeskEvent>)
    requires |es| == 6
    ensures var l1 := LogStep(l, cfg, es[0]);
      var l2 := LogStep(l1, cfg, es[1]);
      var l3 := LogStep(l2, cfg, es[2]);
      var l4 := LogStep(l3, cfg, es[3]);
      var l5 := LogStep(l4, cfg, es[4]);
      && DeskRun(l.desk, cfg, es) == LogStep(l5, cfg, es[5]).desk
      && (AllFresh(l, cfg, es) <==>
            && Fresh(l, es[0].op) && Fresh(l1, es[1].op) && Fresh(l2, es[2].op) && Fresh(l3, es[3].op)
            && Fresh(l4, es[4].op) && Fresh(l5, es[5].op))
  {
    hide DeskStep, Fresh, TakesOff, Lands, UnderWay;
    assert es == [es[0]] + es[1..] && es[1..] == [es[1]] + es[2..] && es[2..] == [es[2]] + es[3..];
    assert es[3..] == [es[3]] + es[4..] && es[4..] == [es[4]] + es[5..] && es[5..] == [es[5]] + [];
    LogAndDesk(l, cfg, es);
    assert es[1..][1..] == es[2..] && es[2..][1..] == es[3..] && es[3..][1..] == es[4..] && es[4..][1..] == es[5..];
    assert es[5..][1..] == [];
    hide LogStep;
    var l1 := LogStep(l, cfg, es[0]);
    var l2 := LogStep(l1, cfg, es[1]);
    var l3 := LogStep(l2, cfg, es[2]);
    var l4 := LogStep(l3, cfg, es[3]);
    var l5 := LogStep(l4, cfg, es[4]);
    assert LogRun(l, cfg, es) == LogRun(l1, cfg, es[1..]) == LogRun(l2, cfg, es[2..]) == LogRun(l3, cfg, es[3..]);
    assert LogRun(l3, cfg, es[3..]) == LogRun(l4, cfg, es[4..]) == LogRun(l5, cfg, es[5..]);
    assert AllFresh(l, cfg, es) <==> Fresh(l, es[0].op) && AllFresh(l1, cfg, es[1..]);
    assert AllFresh(l1, cfg, es[1..]) <==> Fresh(l1, es[1].op) && AllFresh(l2, cfg, es[2..]);
    assert AllFresh(l2, cfg, es[2..]) <==> Fresh(l2, es[2].op) && AllFresh(l3, cfg, es[3..]);
    assert AllFresh(l3, cfg, es[3..]) <==> Fresh(l3, es[3].op) && AllFresh(l4, cfg, es[4..]);
    assert AllFresh(l4, cfg, es[4..]) <==> Fresh(l4, es[4].op) && AllFresh(l5, cfg, es[5..]);
  }

  /** The history only watches: its desk is the desk of the run. */
  lemma {:induction false} LogAndDesk(l: Log, cfg: Config, events: seq<DeskEvent>)
    ensures LogRun(l, cfg, events).desk == DeskRun(l.desk, cfg, events)
    decreases |events|
  {
    if events != [] {
      assert LogStep(l, cfg, events[0]).desk == DeskStep(l.desk, cfg, events[0]);
      hide LogStep, DeskStep;
      LogAndDesk(LogStep(l, cfg, events[0]), cfg, events[1..]);
    }
  }
}
