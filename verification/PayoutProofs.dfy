/**
  The payout contract under re-entry: whatever the token does while it is called, at any depth, every payout id
  takes effect at most once, each recipient of a payout is paid its line exactly once, and a failed call leaves
  nothing behind. With a token that does not call back, a batch goes through exactly when it should.
 */
module PayoutProofs {
  import opened MachineInts
  import opened Token
  import opened PayoutModel

  // ---- What a list of payouts amounts to ------------------------------------------------------------------

  /** The lines paid under one id, in order. */
  ghost function OnId(events: seq<Payment>, id: nat): seq<Line> {
    if events == [] then []
    else
      var last := events[|events| - 1];
      OnId(events[..|events| - 1], id) + (if last.id == id then [last.line] else [])
  }

  /** The lines a list of payouts prescribes for one id. */
  ghost function LinesFor(cs: seq<Commit>, id: nat): seq<Line> {
    if cs == [] then []
    else
      var last := cs[|cs| - 1];
      LinesFor(cs[..|cs| - 1], id) + (if last.id == id then last.lines else [])
  }

  /** What lines credit to one account. */
  ghost function Credit(lines: seq<Line>, x: Address): int {
    if lines == [] then 0
    else
      var last := lines[|lines| - 1];
      Credit(lines[..|lines| - 1], x) + (if last.recipient == x then last.amount else 0)
  }

  ghost function CreditAll(cs: seq<Commit>, x: Address): int {
    if cs == [] then 0 else CreditAll(cs[..|cs| - 1], x) + Credit(cs[|cs| - 1].lines, x)
  }

  ghost function Ids(cs: seq<Commit>): set<nat> {
    set i | 0 <= i < |cs| :: cs[i].id
  }

  ghost predicate DistinctIds(cs: seq<Commit>) {
    forall i, j :: 0 <= i < j < |cs| ==> cs[i].id != cs[j].id
  }

  lemma {:induction false} LinesForAppend(a: seq<Commit>, b: seq<Commit>, id: nat)
    ensures LinesFor(a + b, id) == LinesFor(a, id) + LinesFor(b, id)
    decreases |b|
  {
    if b == [] {
      assert a + b == a;
    } else {
      assert (a + b)[..|a + b| - 1] == a + b[..|b| - 1];
      LinesForAppend(a, b[..|b| - 1], id);
    }
  }

  lemma {:induction false} CreditAllAppend(a: seq<Commit>, b: seq<Commit>, x: Address)
    ensures CreditAll(a + b, x) == CreditAll(a, x) + CreditAll(b, x)
    decreases |b|
  {
    if b == [] {
      assert a + b == a;
    } else {
      assert (a + b)[..|a + b| - 1] == a + b[..|b| - 1];
      CreditAllAppend(a, b[..|b| - 1], x);
    }
  }

  lemma {:induction false} NoLinesForOthers(cs: seq<Commit>, id: nat)
    requires id !in Ids(cs)
    ensures LinesFor(cs, id) == []
    decreases |cs|
  {
    if cs != [] {
      var front, last := cs[..|cs| - 1], cs[|cs| - 1];
      assert last.id in Ids(cs);
      assert Ids(front) <= Ids(cs);
      NoLinesForOthers(front, id);
    }
  }

  /** With distinct ids, the lines prescribed for a payout's id are that payout's own. */
  lemma {:induction false} LinesForOwn(cs: seq<Commit>, k: nat)
    requires k < |cs| && DistinctIds(cs)
    ensures LinesFor(cs, cs[k].id) == cs[k].lines
    decreases |cs|
  {
    var front := cs[..|cs| - 1];
    if k == |cs| - 1 {
      NoLinesForOthers(front, cs[k].id);
    } else {
      LinesForOwn(front, k);
      assert cs[k].id != cs[|cs| - 1].id;
    }
  }

  lemma IdsAppend(a: seq<Commit>, b: seq<Commit>)
    ensures Ids(a + b) == Ids(a) + Ids(b)
  {
    var c := a + b;
    forall id | id in Ids(a) + Ids(b) ensures id in Ids(c) {
      if id in Ids(a) {
        var i :| 0 <= i < |a| && a[i].id == id;
        assert c[i].id == id;
      } else {
        var i :| 0 <= i < |b| && b[i].id == id;
        assert c[|a| + i].id == id;
      }
    }
  }

  // ---- Proper lines ---------------------------------------------------------------------------------------

  ghost function Total(lines: seq<Line>): int {
    if lines == [] then 0 else Total(lines[..|lines| - 1]) + lines[|lines| - 1].amount
  }

  ghost predicate ProperLines(lines: seq<Line>) {
    && (forall i :: 0 <= i < |lines| ==> lines[i].amount > 0)
    && (forall i, j :: 0 <= i < j < |lines| ==> lines[i].recipient != lines[j].recipient)
  }

  /** The scan objects to nothing exactly when all amounts are positive and no recipient repeats. */
  lemma {:induction false} ObjectionIffImproper(lines: seq<Line>)
    ensures Objection(lines).None? <==> ProperLines(lines)
    ensures ProperLines(lines) ==> SaturatedTotal(lines) == Min(Total(lines), I128_MAX) && Total(lines) >= 0
    decreases |lines|
  {
    if lines != [] {
      var front, last := lines[..|lines| - 1], lines[|lines| - 1];
      ObjectionIffImproper(front);
      if Occurs(front, last.recipient) {
        var i :| 0 <= i < |front| && front[i].recipient == last.recipient;
        assert lines[i].recipient == lines[|lines| - 1].recipient;
      }
      if ProperLines(lines) {
        assert ProperLines(front);
      } else if ProperLines(front) && last.amount > 0 {
        var i, j :| 0 <= i < j < |lines| && lines[i].recipient == lines[j].recipient;
        assert j == |lines| - 1 && front[i].recipient == last.recipient;
      }
    }
  }

  lemma {:induction false} NoLineNoCredit(lines: seq<Line>, x: Address)
    requires forall i :: 0 <= i < |lines| ==> lines[i].recipient != x
    ensures Credit(lines, x) == 0
  {
    if lines != [] { NoLineNoCredit(lines[..|lines| - 1], x); }
  }

  /** Proper lines credit each recipient once: with the amount of their one line, and nobody else. */
  lemma {:induction false} ProperLinesCreditOnce(lines: seq<Line>, i: nat)
    requires ProperLines(lines) && i < |lines|
    ensures Credit(lines, lines[i].recipient) == lines[i].amount
  {
    var front := lines[..|lines| - 1];
    if i == |lines| - 1 { NoLineNoCredit(front, lines[i].recipient); } else { ProperLinesCreditOnce(front, i); }
  }

  // ---- How a state grows ----------------------------------------------------------------------------------

  /** Fresh, pairwise different ids were marked paid, each for proper lines, and nothing else. */
  ghost predicate Marked(a: PayoutState, b: PayoutState, made: seq<Commit>) {
    && b.admin == a.admin
    && b.commits == a.commits + made
    && DistinctIds(made) && Ids(made) !! a.paid
    && b.paid == a.paid + Ids(made)
    && forall k :: 0 <= k < |made| ==> ProperLines(made[k].lines)
  }

  /** b is a after the payouts `made` took effect: each under its own id, each line paid and credited once. */
  ghost predicate Grew(a: PayoutState, b: PayoutState, made: seq<Commit>) {
    && Marked(a, b, made)
    && (forall i :: OnId(b.events, i) == OnId(a.events, i) + LinesFor(made, i))
    && (forall x | x != PAYOUT :: Balance(b.ledger, x) == Balance(a.ledger, x) + CreditAll(made, x))
    && Supply(b.ledger) == Supply(a.ledger)
  }

  /**
    b is inside the call that pays `lines` under `id` and started at a: `done` of its lines are paid, and the
    payouts `nested`, made by re-entrant calls meanwhile, took effect.
   */
  ghost predicate Paying(a: PayoutState, b: PayoutState, id: nat, lines: seq<Line>, done: seq<Line>,
                         nested: seq<Commit>) {
    && Marked(a, b, [Commit(id, lines)] + nested)
    && (forall i :: OnId(b.events, i) == OnId(a.events, i) + (if i == id then done else LinesFor(nested, i)))
    && (forall x | x != PAYOUT ::
          Balance(b.ledger, x) == Balance(a.ledger, x) + Credit(done, x) + CreditAll(nested, x))
    && Supply(b.ledger) == Supply(a.ledger)
  }

  lemma GrewNothing(a: PayoutState)
    ensures Grew(a, a, [])
  {
    assert a.commits + [] == a.commits;
    forall i ensures OnId(a.events, i) == OnId(a.events, i) + LinesFor([], i) {}
  }

  lemma MarkedThen(a: PayoutState, b: PayoutState, c: PayoutState, x: seq<Commit>, y: seq<Commit>)
    requires Marked(a, b, x) && Marked(b, c, y)
    ensures Marked(a, c, x + y)
  {
    IdsAppend(x, y);
    forall i, j | 0 <= i < j < |x + y| ensures (x + y)[i].id != (x + y)[j].id {
      if i < |x| && |x| <= j {
        assert x[i].id in Ids(x) && y[j - |x|].id in Ids(y);
      }
    }
    forall k | 0 <= k < |x + y| ensures ProperLines((x + y)[k].lines) {
      assert (x + y)[k] == if k < |x| then x[k] else y[k - |x|];
    }
    assert a.commits + x + y == a.commits + (x + y);
  }

  lemma GrewThen(a: PayoutState, b: PayoutState, c: PayoutState, x: seq<Commit>, y: seq<Commit>)
    requires Grew(a, b, x) && Grew(b, c, y)
    ensures Grew(a, c, x + y)
  {
    MarkedThen(a, b, c, x, y);
    forall i ensures OnId(c.events, i) == OnId(a.events, i) + LinesFor(x + y, i) {
      LinesForAppend(x, y, i);
    }
    forall k | k != PAYOUT ensures Balance(c.ledger, k) == Balance(a.ledger, k) + CreditAll(x + y, k) {
      CreditAllAppend(x, y, k);
    }
  }

  /** Whatever re-entrant calls do while a payout is under way, they cannot touch its id. */
  lemma PayingThen(a: PayoutState, b: PayoutState, c: PayoutState, id: nat, lines: seq<Line>, done: seq<Line>,
                   x: seq<Commit>, y: seq<Commit>)
    requires Paying(a, b, id, lines, done, x) && Grew(b, c, y)
    ensures Paying(a, c, id, lines, done, x + y)
  {
    var own := [Commit(id, lines)];
    MarkedThen(a, b, c, own + x, y);
    assert own + x + y == own + (x + y);
    assert (own + x)[0].id in Ids(own + x);
    forall i ensures OnId(c.events, i) == OnId(a.events, i) + (if i == id then done else LinesFor(x + y, i)) {
      LinesForAppend(x, y, i);
      if i == id { NoLinesForOthers(y, id); }
    }
    forall k | k != PAYOUT
      ensures Balance(c.ledger, k) == Balance(a.ledger, k) + Credit(done, k) + CreditAll(x + y, k)
    {
      CreditAllAppend(x, y, k);
    }
  }

  lemma HeadIdIsFresh(c: Commit, rest: seq<Commit>)
    requires DistinctIds([c] + rest)
    ensures c.id !in Ids(rest)
  {
    var all := [c] + rest;
    forall k | 0 <= k < |rest| ensures rest[k].id != c.id {
      assert all[k + 1] == rest[k] && all[0] == c;
    }
  }

  /** A payout all of whose lines are paid has taken effect. */
  lemma PayingDone(a: PayoutState, b: PayoutState, id: nat, lines: seq<Line>, nested: seq<Commit>)
    requires Paying(a, b, id, lines, lines, nested)
    ensures Grew(a, b, [Commit(id, lines)] + nested)
  {
    var own := [Commit(id, lines)];
    var made := own + nested;
    assert own[..0] == [];
    forall i ensures OnId(b.events, i) == OnId(a.events, i) + LinesFor(made, i) {
      LinesForAppend(own, nested, i);
      if i == id {
        HeadIdIsFresh(Commit(id, lines), nested);
        NoLinesForOthers(nested, id);
      }
    }
    forall x | x != PAYOUT ensures Balance(b.ledger, x) == Balance(a.ledger, x) + CreditAll(made, x) {
      CreditAllAppend(own, nested, x);
    }
  }

  lemma PayingStarts(a: PayoutState, id: nat, lines: seq<Line>)
    requires id !in a.paid && ProperLines(lines)
    ensures Paying(a, Mark(a, id, lines), id, lines, [], [])
  {
    var own := [Commit(id, lines)];
    assert own + [] == own;
    assert Ids(own) == {id} by { assert own[0].id in Ids(own); }
  }

  lemma OnIdAppend(events: seq<Payment>, e: Payment, id: nat)
    ensures OnId(events + [e], id) == OnId(events, id) + (if e.id == id then [e.line] else [])
  {
    assert (events + [e])[..|events|] == events;
  }

  lemma CreditAppend(done: seq<Line>, line: Line, x: Address)
    ensures Credit(done + [line], x) == Credit(done, x) + (if line.recipient == x then line.amount else 0)
  {
    assert (done + [line])[..|done|] == done;
  }

  /** What one transfer out of the contract does to the other accounts. */
  lemma LineCredits(l: Ledger, line: Line)
    requires Moved(l, PAYOUT, line.recipient, line.amount).Some?
    ensures var m := Moved(l, PAYOUT, line.recipient, line.amount).value;
      && Supply(m) == Supply(l)
      && forall x | x != PAYOUT ::
           Balance(m, x) == Balance(l, x) + (if line.recipient == x then line.amount else 0)
  {
    MoveConserves(l, PAYOUT, line.recipient, line.amount);
    hide Supply;
  }

  /** Re-entrant calls made while a payout is under way cannot pay under its id. */
  lemma OwnIdIsTaken(a: PayoutState, b: PayoutState, c: PayoutState, own: Commit, x: seq<Commit>, y: seq<Commit>)
    requires Marked(a, b, [own] + x) && Marked(b, c, y)
    ensures Marked(a, c, [own] + (x + y))
    ensures LinesFor(y, own.id) == []
  {
    MarkedThen(a, b, c, [own] + x, y);
    assert [own] + x + y == [own] + (x + y);
    assert ([own] + x)[0].id in Ids([own] + x);
    hide LinesFor;
    NoLinesForOthers(y, own.id);
  }

  lemma MarkedIgnoresMoney(a: PayoutState, b: PayoutState, made: seq<Commit>, l: Ledger, events: seq<Payment>)
    requires Marked(a, b, made)
    ensures Marked(a, b.(ledger := l), made) && Marked(a, b.(events := events), made)
  {
  }

  /** Moving one line's funds and publishing its event pays that line. */
  lemma PayingLine(a: PayoutState, b: PayoutState, c: PayoutState, d: PayoutState, id: nat, lines: seq<Line>,
                   done: seq<Line>, line: Line, x: seq<Commit>, y: seq<Commit>)
    requires Paying(a, b, id, lines, done, x)
    requires Moved(b.ledger, PAYOUT, line.recipient, line.amount).Some?
    requires Grew(b.(ledger := Moved(b.ledger, PAYOUT, line.recipient, line.amount).value), c, y)
    requires d == c.(events := c.events + [Payment(id, line)])
    ensures Paying(a, d, id, lines, done + [line], x + y)
  {
    hide Marked, OnId, LinesFor, Credit, CreditAll, Supply, Moved, Balance;
    var l := Moved(b.ledger, PAYOUT, line.recipient, line.amount).value;
    LineCredits(b.ledger, line);
    MarkedIgnoresMoney(a, b, [Commit(id, lines)] + x, l, b.events);
    OwnIdIsTaken(a, b.(ledger := l), c, Commit(id, lines), x, y);
    MarkedIgnoresMoney(a, c, [Commit(id, lines)] + (x + y), c.ledger, d.events);
    forall i ensures OnId(d.events, i) == OnId(a.events, i) + (if i == id then done + [line] else LinesFor(x + y, i)) {
      OnIdAppend(c.events, Payment(id, line), i);
      LinesForAppend(x, y, i);
    }
    forall k | k != PAYOUT
      ensures Balance(d.ledger, k) == Balance(a.ledger, k) + Credit(done + [line], k) + CreditAll(x + y, k)
    {
      CreditAppend(done, line, k);
      CreditAllAppend(x, y, k);
    }
  }

  /** The scan says which it is: a line that is not positive, or one that repeats a recipient. */
  lemma {:induction false} ObjectionNamesTheFault(lines: seq<Line>)
    requires Objection(lines).Some?
    ensures Objection(lines).value in {InvalidAmount, DuplicateRecipient}
    ensures Objection(lines).value == InvalidAmount ==> exists i :: 0 <= i < |lines| && lines[i].amount <= 0
    ensures Objection(lines).value == DuplicateRecipient ==>
      exists i, j :: 0 <= i < j < |lines| && lines[i].recipient == lines[j].recipient
    decreases |lines|
  {
    var front, last := lines[..|lines| - 1], lines[|lines| - 1];
    if Objection(front).Some? {
      ObjectionNamesTheFault(front);
      if Objection(front).value == InvalidAmount {
        var i :| 0 <= i < |front| && front[i].amount <= 0;
        assert lines[i].amount <= 0;
      } else {
        var i, j :| 0 <= i < j < |front| && front[i].recipient == front[j].recipient;
        assert lines[i].recipient == lines[j].recipient;
      }
    } else if last.amount > 0 {
      var i :| 0 <= i < |front| && front[i].recipient == last.recipient;
      assert lines[i].recipient == lines[|lines| - 1].recipient;
    }
  }

  /** Why a call is refused before the token is asked anything: each error names what is the matter. */
  lemma RefusalsHaveGrounds(s: PayoutState, c: Call)
    requires Exec(s, c).1.Fail?
    ensures var e := Exec(s, c).1.error;
      && (e == NotInitialised <==> s.admin.None?)
      && (e == EmptyBatch <==> s.admin.Some? && c.Batch? && c.legs == [])
      && (e == BatchTooLarge <==> s.admin.Some? && c.Batch? && |c.legs| > 50)
      && (e in {InvalidAmount, DuplicateRecipient} <==>
            s.admin.Some? && !ProperLines(LinesOfCall(c)) && (c.Batch? ==> 0 < |c.legs| <= 50))
      && (e == DuplicateRecipient ==> c.Batch?)
      && (c.Winnings? ==> (e == AlreadyPaid <==> s.admin.Some? && c.leg.line.amount > 0 && c.id in s.paid))
      && (e == InsufficientBalance ==> !c.probe.traps && c.probe.reported < Total(LinesOfCall(c)))
  {
    hide ExecAll, Moved, SendAll, Send, Probe;
    var lines := LinesOfCall(c);
    ObjectionIffImproper(lines);
    if c.Winnings? {
      assert lines == [c.leg.line];
      assert Total([]) == 0 && Total(lines) == c.leg.line.amount;
    } else if Objection(lines).Some? {
      ObjectionNamesTheFault(lines);
    }
    hide Objection, Total;
  }

  /** The token traps in one of the contract's own calls to it. */
  predicate TokenTraps(c: Call) {
    match c
    case Winnings(_, leg, probe) => probe.traps || leg.hook.traps
    case Batch(_, legs, probe) => probe.traps || exists i :: 0 <= i < |legs| && legs[i].hook.traps
  }

  lemma {:induction false} OneTrapStopsAll(s: PayoutState, id: nat, legs: seq<Leg>, i: nat)
    requires i < |legs| && legs[i].hook.traps
    ensures SendAll(s, id, legs).None?
    decreases |legs|
  {
    hide ExecAll, Moved;
    var sent := Send(s, id, legs[0].line, legs[0].hook);
    if i > 0 && sent.Some? { OneTrapStopsAll(sent.value, id, legs[1..], i - 1); }
  }

  /** A trap of the token in any of a call's transfers, the last of a batch even, undoes the whole call. */
  lemma TrapsUndo(s: PayoutState, c: Call)
    requires TokenTraps(c)
    ensures Exec(s, c).1.Fail? && Exec(s, c).0 == s
  {
    hide ExecAll, Moved, Objection, SaturatedTotal, LinesOfLegs;
    if c.Batch? && !c.probe.traps {
      var i :| 0 <= i < |c.legs| && c.legs[i].hook.traps;
      OneTrapStopsAll(Mark(Probe(s, c.probe), c.id, LinesOfLegs(c.legs)), c.id, c.legs, i);
    }
  }

  // ---- The whole call tree --------------------------------------------------------------------------------

  /** A call that fails, for whatever reason and at whatever depth, changes nothing. */
  lemma FailureChangesNothing(s: PayoutState, c: Call)
    requires Exec(s, c).1.Fail?
    ensures Exec(s, c).0 == s
  {
  }

  ghost function LinesOfCall(c: Call): seq<Line> {
    match c
    case Winnings(_, leg, _) => [leg.line]
    case Batch(_, legs, _) => LinesOfLegs(legs)
  }

  /** The payouts one call adds to the history. */
  ghost function Added(s: PayoutState, t: PayoutState): seq<Commit> {
    if |s.commits| <= |t.commits| then t.commits[|s.commits|..] else []
  }

  /** Any call: its effects are exactly a list of payouts, its own among them when it succeeds. */
  lemma {:induction false} CallTree(s: PayoutState, c: Call)
    ensures var (t, r) := Exec(s, c);
      && Grew(s, t, Added(s, t))
      && (r.Pass? ==> Commit(c.id, LinesOfCall(c)) in Added(s, t) && ProperLines(LinesOfCall(c)))
    decreases c, 1
  {
    if Exec(s, c).1.Fail? {
      FailureChangesNothing(s, c);
      GrewNothing(s);
      assert Added(s, s) == [];
    } else if c.Winnings? {
      WinningsTree(s, c);
    } else {
      BatchTree(s, c);
    }
  }

  lemma {:induction false} WinningsTree(s: PayoutState, c: Call)
    requires c.Winnings? && Exec(s, c).1.Pass?
    ensures var t := Exec(s, c).0;
      Grew(s, t, Added(s, t)) && Commit(c.id, LinesOfCall(c)) in Added(s, t) && ProperLines(LinesOfCall(c))
    decreases c, 0
  {
    var id, leg, lines, m := c.id, c.leg, [c.leg.line], Mark(s, c.id, [c.leg.line]);
    var t := Exec(s, c).0;
    PayingStarts(s, id, lines);
    ProbeTree(m, c.probe);
    var n := Probe(m, c.probe);
    hide Paying, Grew, Probe, Mark, Send;
    PayingThen(s, m, n, id, lines, [], [], Added(m, n));
    var nested := SendTree(s, n, id, lines, [], leg.line, leg.hook, [] + Added(m, n));
    assert [] + [leg.line] == lines;
    PayingDone(s, t, id, lines, nested);
    GrewAdds(s, t, [Commit(id, lines)] + nested);
  }

  lemma {:induction false} BatchTree(s: PayoutState, c: Call)
    requires c.Batch? && Exec(s, c).1.Pass?
    ensures var t := Exec(s, c).0;
      Grew(s, t, Added(s, t)) && Commit(c.id, LinesOfCall(c)) in Added(s, t) && ProperLines(LinesOfCall(c))
    decreases c, 0
  {
    var id, lines := c.id, LinesOfLegs(c.legs);
    var t := Exec(s, c).0;
    ProbeTree(s, c.probe);
    var n := Probe(s, c.probe);
    ObjectionIffImproper(lines);
    PayingStarts(n, id, lines);
    hide Paying, Grew, Probe, Mark, Send, Objection;
    var nested := SendAllTree(n, Mark(n, id, lines), id, lines, c.legs, 0, []);
    PayingDone(n, t, id, lines, nested);
    GrewThen(s, n, t, Added(s, n), [Commit(id, lines)] + nested);
    var made := Added(s, n) + ([Commit(id, lines)] + nested);
    assert made[|Added(s, n)|] == Commit(id, lines);
    GrewAdds(s, t, made);
  }

  /** The payouts a state grew by are those it added. */
  lemma GrewAdds(s: PayoutState, t: PayoutState, made: seq<Commit>)
    requires Grew(s, t, made)
    ensures Added(s, t) == made
  {
  }

  lemma AddedIs(s: PayoutState, t: PayoutState, made: seq<Commit>)
    requires t.commits == s.commits + made
    ensures Added(s, t) == made
  {
  }

  lemma {:induction false} CallsTree(s: PayoutState, calls: seq<Call>)
    ensures Grew(s, ExecAll(s, calls), Added(s, ExecAll(s, calls)))
    decreases calls, 0
  {
    if calls == [] {
      GrewNothing(s);
      assert Added(s, s) == [];
    } else {
      CallTree(s, calls[0]);
      var m := Exec(s, calls[0]).0;
      CallsTree(m, calls[1..]);
      var t := ExecAll(m, calls[1..]);
      GrewThen(s, m, t, Added(s, m), Added(m, t));
      AddedIs(s, t, Added(s, m) + Added(m, t));
    }
  }

  lemma {:induction false} ProbeTree(s: PayoutState, hook: Hook)
    ensures Grew(s, Probe(s, hook), Added(s, Probe(s, hook)))
    decreases hook, 0
  {
    CallsTree(s, hook.before);
    var m := ExecAll(s, hook.before);
    CallsTree(m, hook.after);
    var t := ExecAll(m, hook.after);
    GrewThen(s, m, t, Added(s, m), Added(m, t));
    AddedIs(s, t, Added(s, m) + Added(m, t));
  }

  lemma {:induction false} SendTree(a: PayoutState, b: PayoutState, id: nat, lines: seq<Line>, done: seq<Line>,
                                    line: Line, hook: Hook, x: seq<Commit>) returns (nested: seq<Commit>)
    requires Paying(a, b, id, lines, done, x) && Send(b, id, line, hook).Some?
    ensures Paying(a, Send(b, id, line, hook).value, id, lines, done + [line], nested)
    decreases hook, 0
  {
    CallsTree(b, hook.before);
    var e := ExecAll(b, hook.before);
    PayingThen(a, b, e, id, lines, done, x, Added(b, e));
    var m := e.(ledger := Moved(e.ledger, PAYOUT, line.recipient, line.amount).value);
    CallsTree(m, hook.after);
    var l := ExecAll(m, hook.after);
    nested := x + Added(b, e) + Added(m, l);
    PayingLine(a, e, l, l.(events := l.events + [Payment(id, line)]), id, lines, done, line, x + Added(b, e),
               Added(m, l));
  }

  lemma {:induction false} SendAllTree(a: PayoutState, b: PayoutState, id: nat, lines: seq<Line>, legs: seq<Leg>,
                                       k: nat, x: seq<Commit>) returns (nested: seq<Commit>)
    requires k + |legs| == |lines| && LinesOfLegs(legs) == lines[k..]
    requires Paying(a, b, id, lines, lines[..k], x) && SendAll(b, id, legs).Some?
    ensures Paying(a, SendAll(b, id, legs).value, id, lines, lines, nested)
    decreases legs, 0
  {
    if legs == [] {
      assert lines[..k] == lines;
      nested := x;
    } else {
      var leg := legs[0];
      assert leg.hook < leg;
      assert leg.line == LinesOfLegs(legs)[0];
      var y := SendTree(a, b, id, lines, lines[..k], leg.line, leg.hook, x);
      assert lines[..k] + [leg.line] == lines[..k + 1];
      assert LinesOfLegs(legs[1..]) == LinesOfLegs(legs)[1..];
      nested := SendAllTree(a, Send(b, id, leg.line, leg.hook).value, id, lines, legs[1..], k + 1, y);
    }
  }

  // ---- Over every run -------------------------------------------------------------------------------------

  /**
    From a fresh contract, after any sequence of calls and whatever the token did during them: the ids paid are
    exactly those of the payouts that took effect, each once; each of them has positive amounts and no recipient
    twice; the events under an id are exactly that payout's lines; and every account but the contract's own received
    exactly its lines.
   */
  lemma PaidExactlyOnce(s: PayoutState, calls: seq<Call>)
    requires s.paid == {} && s.commits == [] && s.events == []
    ensures var t := ExecAll(s, calls);
      && DistinctIds(t.commits) && t.paid == Ids(t.commits)
      && (forall k :: 0 <= k < |t.commits| ==> ProperLines(t.commits[k].lines))
      && (forall k :: 0 <= k < |t.commits| ==> OnId(t.events, t.commits[k].id) == t.commits[k].lines)
      && (forall id :: id !in t.paid ==> OnId(t.events, id) == [])
      && (forall x | x != PAYOUT :: Balance(t.ledger, x) == Balance(s.ledger, x) + CreditAll(t.commits, x))
      && Supply(t.ledger) == Supply(s.ledger)
  {
    CallsTree(s, calls);
    var t := ExecAll(s, calls);
    assert t.commits == [] + Added(s, t);
    GrewFromNothing(s, t, t.commits);
  }

  lemma GrewFromNothing(s: PayoutState, t: PayoutState, cs: seq<Commit>)
    requires s.paid == {} && s.events == [] && Grew(s, t, cs)
    ensures DistinctIds(cs) && t.paid == Ids(cs)
    ensures forall k :: 0 <= k < |cs| ==> OnId(t.events, cs[k].id) == cs[k].lines
    ensures forall id :: id !in t.paid ==> OnId(t.events, id) == []
  {
    assert t.paid == Ids(cs);
    forall k | 0 <= k < |cs| ensures OnId(t.events, cs[k].id) == cs[k].lines {
      LinesForOwn(cs, k);
    }
    forall id | id !in t.paid ensures OnId(t.events, id) == [] {
      NoLinesForOthers(cs, id);
    }
  }

  /** An id already paid stays paid, and no later call can pay under it again. */
  lemma PaidStaysPaid(s: PayoutState, calls: seq<Call>, id: nat)
    requires id in s.paid
    ensures var t := ExecAll(s, calls);
      id in t.paid && OnId(t.events, id) == OnId(s.events, id)
      && forall c: Call :: c.id == id ==> Exec(t, c).1.Fail?
  {
    CallsTree(s, calls);
    var t := ExecAll(s, calls);
    NoLinesForOthers(Added(s, t), id);
    forall c: Call | c.id == id ensures Exec(t, c).1.Fail? {
      if c.Batch? { ProbeTree(t, c.probe); }
    }
  }

  // ---- A token that does not call back --------------------------------------------------------------------

  ghost predicate Quiet(h: Hook) {
    h.before == [] && h.after == [] && !h.traps
  }

  lemma {:induction false} TotalFromFront(lines: seq<Line>)
    requires lines != []
    ensures Total(lines) == lines[0].amount + Total(lines[1..])
    decreases |lines|
  {
    var front := lines[..|lines| - 1];
    if front != [] {
      TotalFromFront(front);
      assert front[1..] == lines[1..][..|lines| - 2];
    } else {
      assert lines[1..] == [];
    }
  }

  /** The contract's balance covers the lines one after another; a line to the contract itself costs nothing. */
  ghost predicate Funded(lines: seq<Line>, balance: int)
    decreases |lines|
  {
    lines == []
    || (lines[0].amount <= balance
        && Funded(lines[1..], if lines[0].recipient == PAYOUT then balance else balance - lines[0].amount))
  }

  /** Transfers all go through exactly when funded, if the token stays quiet. */
  lemma {:induction false} QuietSends(s: PayoutState, id: nat, legs: seq<Leg>)
    requires forall i :: 0 <= i < |legs| ==> legs[i].line.amount > 0 && Quiet(legs[i].hook)
    ensures SendAll(s, id, legs).Some? <==> Funded(LinesOfLegs(legs), Balance(s.ledger, PAYOUT))
    decreases |legs|
  {
    if legs != [] {
      var lines := LinesOfLegs(legs);
      assert lines[1..] == LinesOfLegs(legs[1..]);
      assert lines[0] == legs[0].line;
      assert ExecAll(s, legs[0].hook.before) == s;
      var moved := Moved(s.ledger, PAYOUT, legs[0].line.recipient, legs[0].line.amount);
      if moved.Some? {
        var m := s.(ledger := moved.value);
        assert ExecAll(m, legs[0].hook.after) == m;
        QuietSends(Send(s, id, legs[0].line, legs[0].hook).value, id, legs[1..]);
      }
    }
  }

  lemma {:induction false} RestNonNegative(lines: seq<Line>)
    requires forall i :: 0 <= i < |lines| ==> lines[i].amount > 0
    ensures Total(lines) >= 0
    decreases |lines|
  {
    if lines != [] { RestNonNegative(lines[..|lines| - 1]); }
  }

  /** A balance that covers the total covers the lines one after another. */
  lemma {:induction false} TotalFunds(lines: seq<Line>, balance: int)
    requires forall i :: 0 <= i < |lines| ==> lines[i].amount > 0
    requires Total(lines) <= balance
    ensures Funded(lines, balance)
    decreases |lines|
  {
    if lines != [] {
      TotalFromFront(lines);
      RestNonNegative(lines[1..]);
      TotalFunds(lines[1..], if lines[0].recipient == PAYOUT then balance else balance - lines[0].amount);
    }
  }

  /**
    A batch over a quiet, honest token succeeds exactly when it is proper, unpaid, small enough and funded: its
    saturated total within the balance, and each line when its turn comes. Below the i128 maximum that is to say
    that the balance covers the total.
   */
  lemma QuietBatch(s: PayoutState, id: nat, legs: seq<Leg>, probe: Hook)
    requires Quiet(probe) && forall i :: 0 <= i < |legs| ==> Quiet(legs[i].hook)
    requires probe.reported == Balance(s.ledger, PAYOUT)
    ensures var lines, balance := LinesOfLegs(legs), Balance(s.ledger, PAYOUT);
      && (Exec(s, Batch(id, legs, probe)).1.Pass? <==>
            && s.admin.Some? && 0 < |legs| <= 50 && ProperLines(lines) && id !in s.paid
            && Min(Total(lines), I128_MAX) <= balance && Funded(lines, balance))
      && (balance < I128_MAX && ProperLines(lines) ==>
            (Min(Total(lines), I128_MAX) <= balance && Funded(lines, balance) <==> Total(lines) <= balance))
  {
    var lines := LinesOfLegs(legs);
    ObjectionIffImproper(lines);
    assert Probe(s, probe) == s;
    if ProperLines(lines) {
      forall i | 0 <= i < |legs| ensures legs[i].line.amount > 0 { assert lines[i].amount > 0; }
      QuietSends(Mark(s, id, lines), id, legs);
      if Total(lines) <= Balance(s.ledger, PAYOUT) { TotalFunds(lines, Balance(s.ledger, PAYOUT)); }
    }
  }

  /** A single payout over a quiet, honest token succeeds exactly when it is positive, unpaid and funded. */
  lemma QuietWinnings(s: PayoutState, id: nat, leg: Leg, probe: Hook)
    requires Quiet(probe) && Quiet(leg.hook) && probe.reported == Balance(s.ledger, PAYOUT)
    ensures Exec(s, Winnings(id, leg, probe)).1.Pass? <==>
      s.admin.Some? && leg.line.amount > 0 && id !in s.paid && leg.line.amount <= Balance(s.ledger, PAYOUT)
  {
    var m := Mark(s, id, [leg.line]);
    assert Probe(m, probe) == m;
    assert ExecAll(m, leg.hook.before) == m;
    var moved := Moved(m.ledger, PAYOUT, leg.line.recipient, leg.line.amount);
    if moved.Some? {
      var l := m.(ledger := moved.value);
      assert ExecAll(l, leg.hook.after) == l;
    }
  }
}
