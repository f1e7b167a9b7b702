/**
  The payout contract against a token that may call back. Every call carries a script of what the token does
  when the contract calls it: which payout calls it makes, whether it traps, what balance it reports. Scripts
  nest to any depth; a failed call, at whatever depth, undoes everything that happened inside it.
 */
module PayoutModel {
  import opened Wrappers
  import opened MachineInts
  import opened Token

  const MAX_BATCH_SIZE: int := 50

  /** The payout contract's own token account. */
  const PAYOUT: Address := 0

  datatype PayoutError =
    | NotInitialised
    | AlreadyInitialised
    | AlreadyPaid
    | InvalidAmount
    | EmptyBatch
    | InsufficientBalance
    | DuplicateRecipient
    | BatchTooLarge
    | HostTrap

  datatype Line = Line(recipient: Address, amount: int)

  /** An emitted payout event. */
  datatype Payment = Payment(id: nat, line: Line)

  /** History: a payout id marked paid, and the lines it stands for. */
  datatype Commit = Commit(id: nat, lines: seq<Line>)

  datatype PayoutState = PayoutState(
    admin: Option<Address>,
    paid: set<nat>,
    events: seq<Payment>,
    ledger: Ledger,
    commits: seq<Commit>)

  /** One call into the token: payout calls it makes before and after moving the funds, and how it ends. */
  datatype Hook = Hook(before: seq<Call>, after: seq<Call>, traps: bool, reported: int)

  datatype Leg = Leg(line: Line, hook: Hook)

  datatype Call =
    | Winnings(id: nat, leg: Leg, probe: Hook)
    | Batch(id: nat, legs: seq<Leg>, probe: Hook)

  function LinesOfLegs(legs: seq<Leg>): (lines: seq<Line>)
    ensures |lines| == |legs|
  {
    seq(|legs|, i requires 0 <= i < |legs| => legs[i].line)
  }

  predicate Occurs(lines: seq<Line>, x: Address) {
    exists i :: 0 <= i < |lines| && lines[i].recipient == x
  }

  /** Why the recipients are refused: the first line that is not positive or repeats an earlier recipient. */
  function Objection(lines: seq<Line>): Option<PayoutError> {
    if lines == [] then None
    else
      var front, last := lines[..|lines| - 1], lines[|lines| - 1];
      match Objection(front)
      case Some(e) => Some(e)
      case None =>
        if last.amount <= 0 then Some(InvalidAmount)
        else if Occurs(front, last.recipient) then Some(DuplicateRecipient)
        else None
  }

  /** The batch total as the contract adds it up, saturating. */
  function SaturatedTotal(lines: seq<Line>): int {
    if lines == [] then 0
    else SatAdd128(SaturatedTotal(lines[..|lines| - 1]), lines[|lines| - 1].amount)
  }

  function Mark(s: PayoutState, id: nat, lines: seq<Line>): PayoutState {
    s.(paid := s.paid + {id}, commits := s.commits + [Commit(id, lines)])
  }

  /** A call either takes effect as a whole or leaves the state as it found it. */
  function Exec(s: PayoutState, c: Call): (PayoutState, Outcome<PayoutError>)
    decreases c, 1
  {
    match c
    case Winnings(id, leg, probe) =>
      if s.admin.None? then (s, Fail(NotInitialised))
      else if leg.line.amount <= 0 then (s, Fail(InvalidAmount))
      else if id in s.paid then (s, Fail(AlreadyPaid))
      else
        var probed := Probe(Mark(s, id, [leg.line]), probe);
        if probe.traps then (s, Fail(HostTrap))
        else if leg.line.amount > probe.reported then (s, Fail(InsufficientBalance))
        else
          var sent := Send(probed, id, leg.line, leg.hook);
          if sent.None? then (s, Fail(HostTrap)) else (sent.value, Pass)
    case Batch(id, legs, probe) =>
      var lines := LinesOfLegs(legs);
      if s.admin.None? then (s, Fail(NotInitialised))
      else if legs == [] then (s, Fail(EmptyBatch))
      else if |legs| > MAX_BATCH_SIZE then (s, Fail(BatchTooLarge))
      else if Objection(lines).Some? then (s, Fail(Objection(lines).value))
      else
        var probed := Probe(s, probe);
        if probe.traps then (s, Fail(HostTrap))
        else if SaturatedTotal(lines) > probe.reported then (s, Fail(InsufficientBalance))
        else if id in probed.paid then (s, Fail(AlreadyPaid))
        else
          var sent := SendAll(Mark(probed, id, lines), id, legs);
          if sent.None? then (s, Fail(HostTrap)) else (sent.value, Pass)
  }

  /** The token asked for a balance. */
  function Probe(s: PayoutState, hook: Hook): PayoutState
    decreases hook, 0
  {
    ExecAll(ExecAll(s, hook.before), hook.after)
  }

  /** One transfer out of the contract, with the token's own calls around it; None where it traps. */
  function Send(s: PayoutState, id: nat, line: Line, hook: Hook): Option<PayoutState>
    decreases hook, 0
  {
    var entered := ExecAll(s, hook.before);
    match Moved(entered.ledger, PAYOUT, line.recipient, line.amount)
    case None => None
    case Some(l) =>
      var left := ExecAll(entered.(ledger := l), hook.after);
      if hook.traps then None
      else Some(left.(events := left.events + [Payment(id, line)]))
  }

  function SendAll(s: PayoutState, id: nat, legs: seq<Leg>): Option<PayoutState>
    decreases legs, 0
  {
    if legs == [] then Some(s)
    else
      var leg := legs[0];
      assert leg.hook < leg;
      match Send(s, id, leg.line, leg.hook)
      case None => None
      case Some(t) => SendAll(t, id, legs[1..])
  }

  /** Calls one after another; the token swallows the error of each one that fails. */
  function ExecAll(s: PayoutState, calls: seq<Call>): PayoutState
    decreases calls, 0
  {
    if calls == [] then s else ExecAll(Exec(s, calls[0]).0, calls[1..])
  }
}
