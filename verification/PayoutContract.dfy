/** The payout contract in place, calling the token and being called back while its own call is still open. */
module PayoutContracts {
  import opened Wrappers
  import opened MachineInts
  import opened Token
  import M = PayoutModel

  class PayoutContract {
    var admin: Option<Address>
    var paid: set<nat>
    var events: seq<M.Payment>
    ghost var commits: seq<M.Commit>
    const token: TokenContract

    constructor (token: TokenContract)
      ensures View() == M.PayoutState(None, {}, [], token.balances, [])
      ensures this.token == token
    {
      this.token := token;
      admin, paid, events, commits := None, {}, [], [];
    }

    ghost function View(): M.PayoutState
      reads this, token
    {
      M.PayoutState(admin, paid, events, token.balances, commits)
    }

    method Initialize(newAdmin: Address) returns (r: Outcome<M.PayoutError>)
      modifies this`admin
      ensures old(admin).Some? ==> r == Fail(M.AlreadyInitialised) && View() == old(View())
      ensures old(admin).None? ==> r == Pass && View() == old(View()).(admin := Some(newAdmin))
    {
      if admin.Some? { return Fail(M.AlreadyInitialised); }
      admin := Some(newAdmin);
      r := Pass;
    }

    method MarkPaid(id: nat, ghost lines: seq<M.Line>)
      modifies this`paid, this`commits
      ensures View() == M.Mark(old(View()), id, lines)
    {
      paid := paid + {id};
      commits := commits + [M.Commit(id, lines)];
    }

    /** What the host does when a call fails: everything is as it was before. */
    method Rollback(paid0: set<nat>, events0: seq<M.Payment>, ledger0: Ledger, ghost commits0: seq<M.Commit>)
      modifies this`paid, this`events, this`commits, token
      ensures View() == M.PayoutState(old(admin), paid0, events0, ledger0, commits0)
    {
      paid, events, commits := paid0, events0, commits0;
      token.balances := ledger0;
    }

    method DistributeWinnings(id: nat, leg: M.Leg, probe: M.Hook) returns (r: Outcome<M.PayoutError>)
      modifies this, token
      ensures (View(), r) == M.Exec(old(View()), M.Winnings(id, leg, probe))
      ensures admin == old(admin)
      decreases M.Winnings(id, leg, probe), 1
    {
      var paid0, events0, ledger0 := paid, events, token.balances;
      ghost var commits0 := commits;
      if admin.None? { return Fail(M.NotInitialised); }
      if leg.line.amount <= 0 { return Fail(M.InvalidAmount); }
      if id in paid { return Fail(M.AlreadyPaid); }

      MarkPaid(id, [leg.line]);
      var balance := AskBalance(probe);
      if balance.None? || leg.line.amount > balance.value {
        Rollback(paid0, events0, ledger0, commits0);
        return Fail(if balance.None? then M.HostTrap else M.InsufficientBalance);
      }
      var sent := Send(id, leg.line, leg.hook);
      if !sent {
        Rollback(paid0, events0, ledger0, commits0);
        return Fail(M.HostTrap);
      }
      r := Pass;
    }

    /** Checks every line and adds up the total, as the batch loop does. */
    method CheckLines(lines: seq<M.Line>) returns (r: Result<int, M.PayoutError>)
      ensures r.Err? <==> M.Objection(lines).Some?
      ensures r.Err? ==> M.Objection(lines) == Some(r.error)
      ensures r.Ok? ==> r.value == M.SaturatedTotal(lines)
    {
      var seen: seq<Address> := [];
      var total := 0;
      for i := 0 to |lines|
        invariant |seen| == i && forall k :: 0 <= k < i ==> seen[k] == lines[k].recipient
        invariant M.Objection(lines[..i]).None? && total == M.SaturatedTotal(lines[..i])
      {
        assert lines[..i + 1][..i] == lines[..i];
        if lines[i].amount <= 0 {
          ObjectionSticks(lines, i + 1);
          return Err(M.InvalidAmount);
        }
        if lines[i].recipient in seen {
          assert M.Occurs(lines[..i], lines[i].recipient);
          ObjectionSticks(lines, i + 1);
          return Err(M.DuplicateRecipient);
        }
        assert !M.Occurs(lines[..i], lines[i].recipient);
        seen := seen + [lines[i].recipient];
        total := SatAdd128(total, lines[i].amount);
      }
      assert lines[..|lines|] == lines;
      r := Ok(total);
    }

    static lemma {:induction false} ObjectionSticks(lines: seq<M.Line>, n: nat)
      requires n <= |lines| && M.Objection(lines[..n]).Some?
      ensures M.Objection(lines) == M.Objection(lines[..n])
      decreases |lines| - n
    {
      if n == |lines| {
        assert lines[..n] == lines;
      } else {
        assert lines[..n + 1][..n] == lines[..n];
        ObjectionSticks(lines, n + 1);
      }
    }

    method DistributeBatch(id: nat, legs: seq<M.Leg>, probe: M.Hook) returns (r: Outcome<M.PayoutError>)
      modifies this, token
      ensures (View(), r) == M.Exec(old(View()), M.Batch(id, legs, probe))
      ensures admin == old(admin)
      decreases M.Batch(id, legs, probe), 1
    {
      var paid0, events0, ledger0 := paid, events, token.balances;
      ghost var commits0 := commits;
      if admin.None? { return Fail(M.NotInitialised); }
      if legs == [] { return Fail(M.EmptyBatch); }
      if |legs| > M.MAX_BATCH_SIZE { return Fail(M.BatchTooLarge); }
      var lines := M.LinesOfLegs(legs);
      var total := CheckLines(lines);
      if total.Err? { return Fail(total.error); }

      var balance := AskBalance(probe);
      if balance.None? || total.value > balance.value {
        Rollback(paid0, events0, ledger0, commits0);
        return Fail(if balance.None? then M.HostTrap else M.InsufficientBalance);
      }
      if id in paid {
        Rollback(paid0, events0, ledger0, commits0);
        return Fail(M.AlreadyPaid);
      }

      MarkPaid(id, lines);
      ghost var marked := View();
      for i := 0 to |legs|
        invariant admin == old(admin)
        invariant M.SendAll(marked, id, legs) == M.SendAll(View(), id, legs[i..])
      {
        var sent := Send(id, legs[i].line, legs[i].hook);
        assert legs[i..][1..] == legs[i + 1..];
        if !sent {
          Rollback(paid0, events0, ledger0, commits0);
          return Fail(M.HostTrap);
        }
      }
      r := Pass;
    }

    /** Asks the token for the contract's balance; None where the token traps. */
    method AskBalance(hook: M.Hook) returns (r: Option<int>)
      modifies this, token
      ensures View() == M.Probe(old(View()), hook)
      ensures r == if hook.traps then None else Some(hook.reported)
      ensures admin == old(admin)
      decreases hook, 0
    {
      CallBack(hook.before);
      CallBack(hook.after);
      r := if hook.traps then None else Some(hook.reported);
    }

    /** Transfers one line out and publishes its event; false where the token traps. */
    method Send(id: nat, line: M.Line, hook: M.Hook) returns (ok: bool)
      modifies this, token
      ensures admin == old(admin)
      ensures ok ==> M.Send(old(View()), id, line, hook) == Some(View())
      ensures !ok ==> M.Send(old(View()), id, line, hook) == None
      decreases hook, 0
    {
      CallBack(hook.before);
      var moved := token.Transfer(M.PAYOUT, line.recipient, line.amount);
      if !moved { return false; }
      CallBack(hook.after);
      if hook.traps { return false; }
      events := events + [M.Payment(id, line)];
      ok := true;
    }

    /** The token calling the contract back, whatever each call's outcome. */
    method CallBack(calls: seq<M.Call>)
      modifies this, token
      ensures View() == M.ExecAll(old(View()), calls)
      ensures admin == old(admin)
      decreases calls, 0
    {
      if calls != [] {
        match calls[0] {
          case Winnings(id, leg, probe) => var _ := DistributeWinnings(id, leg, probe);
          case Batch(id, legs, probe) => var _ := DistributeBatch(id, legs, probe);
        }
        CallBack(calls[1..]);
      }
    }
  }
}
