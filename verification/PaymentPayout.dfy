/**
  Signed payouts as calls of the payout contract: a form carries a payout id of its own, so that of several queued
  payouts signed with one id at most one is ever paid.
 */
module PaymentPayouts {
  import opened Wrappers
  import opened Token
  import opened PaymentModel
  import opened PaymentProofs
  import P = PayoutModel
  import Q = PayoutProofs

  /** How the texts of a form read on chain. */
  datatype Reading = Reading(id: string -> nat, account: string -> Address, amount: string -> int)

  /** The call a form makes once it is sent, with the token's behaviour during it. */
  function CallOf(r: Record, payoutId: string, reading: Reading, hook: P.Hook, probe: P.Hook): P.Call {
    P.Winnings(reading.id(payoutId),
               P.Leg(P.Line(reading.account(r.destinationAccount), reading.amount(r.amountStroops)), hook), probe)
  }

  /** A form for a record under a payout id given as text. */
  function FormFor(r: Record, cfg: Config, payoutId: string): SignedForm {
    Authorised(r, cfg, Arg(None, Some(payoutId)), Arg(Some(r.destinationAccount), None),
               Arg(None, Some(r.amountStroops)))
  }

  /** Signing accepts a form under any payout id, the record's own or not. */
  lemma AnyPayoutIdQueues(r: Record, cfg: Config, xdr: string, payoutId: string, now: int)
    requires r.status == AwaitingSignature || r.status == Built
    ensures RecordStep(r, cfg, Sign(xdr, FormFor(r, cfg, payoutId)), now).status == Queued
  {
  }

  /**
    Of two waiting payouts signed with one payout id both are queued, but once either is paid the other never is:
    whatever is called in between, its call fails, and the events under the id stay the first one's.
   */
  lemma OnePaidPerSignedId(r1: Record, r2: Record, cfg: Config, payoutId: string, reading: Reading, now: int,
                           s: P.PayoutState, between: seq<P.Call>, hook1: P.Hook, probe1: P.Hook,
                           hook2: P.Hook, probe2: P.Hook)
    requires r1.status == AwaitingSignature && r2.status == AwaitingSignature
    requires P.Exec(s, CallOf(r1, payoutId, reading, hook1, probe1)).1.Pass?
    ensures RecordStep(r1, cfg, Sign("", FormFor(r1, cfg, payoutId)), now).status == Queued
    ensures RecordStep(r2, cfg, Sign("", FormFor(r2, cfg, payoutId)), now).status == Queued
    ensures var paid := P.Exec(s, CallOf(r1, payoutId, reading, hook1, probe1)).0;
      var later := P.ExecAll(paid, between);
      && P.Exec(later, CallOf(r2, payoutId, reading, hook2, probe2)).1.Fail?
      && Q.OnId(later.events, reading.id(payoutId)) == Q.OnId(paid.events, reading.id(payoutId))
  {
    AnyPayoutIdQueues(r1, cfg, "", payoutId, now);
    AnyPayoutIdQueues(r2, cfg, "", payoutId, now);
    var c1 := CallOf(r1, payoutId, reading, hook1, probe1);
    var paid := P.Exec(s, c1).0;
    PassingMarks(s, c1);
    Q.PaidStaysPaid(paid, between, c1.id);
  }

  /** A call that passes leaves its id paid. */
  lemma PassingMarks(s: P.PayoutState, c: P.Call)
    requires P.Exec(s, c).1.Pass?
    ensures c.id in P.Exec(s, c).0.paid
  {
    Q.CallTree(s, c);
    hide P.Exec, Q.OnId, Q.LinesFor;
    var t := P.Exec(s, c).0;
    var made := Q.Added(s, t);
    var k :| 0 <= k < |made| && made[k] == P.Commit(c.id, Q.LinesOfCall(c));
    assert made[k].id in Q.Ids(made);
  }

  /**
    Signed with ids that read differently, over an honest token, the second payout is as payable as if the first
    were none of its business: exactly if it is positive, its own id is unpaid, and the balance left covers it.
   */
  lemma OwnIdsDoNotClash(r1: Record, id1: string, r2: Record, id2: string, reading: Reading, s: P.PayoutState,
                         hook1: P.Hook, probe1: P.Hook, hook2: P.Hook, probe2: P.Hook)
    requires Q.Quiet(hook1) && Q.Quiet(probe1) && Q.Quiet(hook2) && Q.Quiet(probe2)
    requires reading.id(id1) != reading.id(id2)
    requires P.Exec(s, CallOf(r1, id1, reading, hook1, probe1)).1.Pass?
    requires probe2.reported
      == Balance(P.Exec(s, CallOf(r1, id1, reading, hook1, probe1)).0.ledger, P.PAYOUT)
    ensures var paid := P.Exec(s, CallOf(r1, id1, reading, hook1, probe1)).0;
      P.Exec(paid, CallOf(r2, id2, reading, hook2, probe2)).1.Pass? <==>
        && reading.amount(r2.amountStroops) > 0 && reading.id(id2) !in s.paid
        && reading.amount(r2.amountStroops) <= Balance(paid.ledger, P.PAYOUT)
  {
    var c1, c2 := CallOf(r1, id1, reading, hook1, probe1), CallOf(r2, id2, reading, hook2, probe2);
    QuietPays(s, c1);
    Q.QuietWinnings(P.Exec(s, c1).0, c2.id, c2.leg, probe2);
  }

  lemma QuietPays(s: P.PayoutState, c: P.Call)
    requires c.Winnings? && Q.Quiet(c.leg.hook) && Q.Quiet(c.probe) && P.Exec(s, c).1.Pass?
    ensures P.Exec(s, c).0.paid == s.paid + {c.id} && P.Exec(s, c).0.admin == s.admin && s.admin.Some?
  {
    var m := P.Mark(s, c.id, [c.leg.line]);
    assert P.Probe(m, c.probe) == m;
    assert P.ExecAll(m, c.leg.hook.before) == m;
    var moved := Moved(m.ledger, P.PAYOUT, c.leg.line.recipient, c.leg.line.amount);
    if moved.Some? {
      var l := m.(ledger := moved.value);
      assert P.ExecAll(l, c.leg.hook.after) == l;
    }
  }
}
