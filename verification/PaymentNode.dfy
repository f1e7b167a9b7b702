/**
  Calls to the node through the circuit breaker: what comes back, and what the breaker learns. Only a call that throws
  counts as a failure; a refusal or a bad answer does not.
 */
module PaymentNode {
  import opened Wrappers
  import opened Stroops
  import opened PaymentModel
  import CB = CircuitBreakers

  /** The breaker lets the next call through: it is not open, or its last failure is long enough ago. */
  predicate LetsThrough(b: CB.Breaker, o: CB.Options, now: int) {
    b.state == CB.Open ==>
      b.lastFailureTime.Some? && b.lastFailureTime.value != 0 && b.lastFailureTime.value + o.resetTimeout <= now
  }

  /** A call counts as a failure exactly if it is let through and throws; turned away, it changes nothing. */
  lemma OnlyThrowsCount(b: CB.Breaker, o: CB.Options, now: int, succeeds: bool)
    ensures var (c, f) := CB.Fired(b, o, CB.Call(now, now, succeeds));
      && f == (if !LetsThrough(b, o, now) then CB.Rejected else if succeeds then CB.Resolved else CB.Failed)
      && c.failures == (if f == CB.Failed then b.failures + 1 else if f == CB.Resolved && b.state != CB.Closed then 0
                        else b.failures)
      && (f == CB.Rejected ==> c == b)
      && (f == CB.Resolved ==> c.state == CB.Closed)
  {
    CB.RejectedIff(b, o, CB.Call(now, now, succeeds));
  }

  /** A submission asks the node exactly if it reads and the breaker lets it through; then the node's answer decides. */
  lemma SendingAsks(b: CB.Breaker, o: CB.Options, parses: bool, reply: NodeReply, now: int)
    ensures var (c, s) := AskToSend(b, o, parses, reply, now);
      && s == (if !parses then Unparsable else if LetsThrough(b, o, now) then Answered(reply) else CircuitOpen)
      && (!s.Answered? ==> c == b)
      && (c.failures > b.failures <==> s == Answered(Throws))
      && (s.Answered? && reply != Throws ==> c.state == CB.Closed)
  {
    OnlyThrowsCount(b, o, now, reply != Throws);
    hide CB.Fired;
  }

  /** A status query is answered exactly if the breaker lets it through. */
  lemma QueryAsks(b: CB.Breaker, o: CB.Options, reply: ChainReply, now: int)
    ensures var (c, answer) := AskStatus(b, o, reply, now);
      && answer == (if LetsThrough(b, o, now) then Some(reply) else None)
      && (answer == None ==> c == b)
      && (c.failures > b.failures <==> answer == Some(QueryThrows))
      && (answer.Some? && reply != QueryThrows ==> c.state == CB.Closed)
  {
    OnlyThrowsCount(b, o, now, reply != QueryThrows);
    hide CB.Fired;
  }

  /**
    When building a payout succeeds: the breaker lets the first of the two calls through, both come back, the amount is
    positive and can be encoded, and the fee is positive and within the limit. A first call that comes back closes the
    breaker, so the second is never turned away. A bad amount or fee is not held against the node.
   */
  lemma PreparedIff(b: CB.Breaker, o: CB.Options, cfg: Config, amount: string, build: Build, now: int)
    requires AcceptedAmount(amount)
    ensures var (c, prepared) := Prepare(b, o, cfg, amount, build, now);
      var asksTwice := build.account && build.encodes && DecimalValue(amount) > 0.0;
      && (prepared.Some? <==>
            LetsThrough(b, o, now) && asksTwice && build.prepares && 0 < build.fee <= cfg.maxGasStroops)
      && (prepared.Some? ==>
            && AllDigits(prepared.value) && prepared.value != ""
            && NatOf(prepared.value) as real == DecimalValue(amount) * 10_000_000.0
            && c.state == CB.Closed)
      && (b.state == CB.Closed ==>
            c.failures == b.failures + (if !build.account || (asksTwice && !build.prepares) then 1 else 0))
  {
    ToStroopsExact(amount);
    hide ToStroops, DecimalValue, NatOf, AcceptedAmount;
    OnlyThrowsCount(b, o, now, build.account);
    var (c, _) := CB.Fired(b, o, CB.Call(now, now, build.account));
    OnlyThrowsCount(c, o, now, build.prepares);
    hide CB.Fired;
  }
}
