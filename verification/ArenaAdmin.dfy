/** Who administers the arena: only the last administrator proposed can take over, and only once. */
module ArenaAdmins {
  import opened Wrappers
  import opened Token
  import opened ArenaTypes
  import opened RwaVault
  import opened ArenaModel
  import opened ArenaInvariants
  import opened ArenaRuns
  import opened ArenaReveals

  /** The administrator in office and the one proposed. */
  ghost predicate SameOffice(a: ArenaState, s: ArenaState) {
    s.config.admin == a.config.admin && s.pendingAdmin == a.pendingAdmin
  }

  lemma RoundsKeepOffice(w: World, op: Op, now: nat)
    requires PlaysRound(op)
    ensures SameOffice(w.arena, Apply(w, op, now).0.arena)
  {
    hide ActiveOf, ResolvePlayers, ResolutionOf, TopPlayers, Moved, Deposit, ComputeCommitment, BalanceOf;
  }

  lemma OtherCallsKeepOffice(w: World, op: Op, now: nat)
    requires !PlaysRound(op) && !op.OpProposeAdmin? && !op.OpAcceptAdmin?
    ensures SameOffice(w.arena, Apply(w, op, now).0.arena)
  {
    hide WithdrawAll, Moved, Deposit, RefundActive;
  }

  /** No call but accepting changes the administrator, and that only to the one proposed. */
  lemma AdminChangesOnlyByAccepting(w: World, op: Op, now: nat)
    ensures var a, s := w.arena, Apply(w, op, now).0.arena;
      && (s.config.admin != a.config.admin ==> op.OpAcceptAdmin? && a.pendingAdmin == Some(s.config.admin))
      && (s.pendingAdmin == a.pendingAdmin
          || (op.OpProposeAdmin? && Apply(w, op, now).1.Pass? && s.pendingAdmin == Some(op.admin))
          || (op.OpAcceptAdmin? && Apply(w, op, now).1.Pass? && s.pendingAdmin == None))
  {
    if PlaysRound(op) { RoundsKeepOffice(w, op, now); hide Apply; }
    else if !op.OpProposeAdmin? && !op.OpAcceptAdmin? { OtherCallsKeepOffice(w, op, now); hide Apply; }
  }

  /** The k-th call of a run proposes an administrator. */
  predicate ProposedAt(w: World, events: seq<Event>, k: nat, p: Address) {
    k < |events| && events[k].op == OpProposeAdmin(p) && Apply(Run(w, events[..k]), events[k].op, events[k].now).1.Pass?
  }

  /** The k-th call of a run proposes somebody or hands the arena over. */
  predicate OfficeMovesAt(w: World, events: seq<Event>, k: nat) {
    && k < |events| && (events[k].op.OpProposeAdmin? || events[k].op.OpAcceptAdmin?)
    && Apply(Run(w, events[..k]), events[k].op, events[k].now).1.Pass?
  }

  /** After the i-th call nobody is proposed, and nobody takes over. */
  ghost predicate QuietSince(w: World, events: seq<Event>, i: nat) {
    forall k :: i < k < |events| ==> !OfficeMovesAt(w, events, k)
  }

  lemma QuietOneMore(w: World, front: seq<Event>, e: Event, i: nat)
    requires QuietSince(w, front, i)
    requires Apply(Run(w, front), e.op, e.now).1.Pass? ==> !e.op.OpAcceptAdmin? && !e.op.OpProposeAdmin?
    ensures QuietSince(w, front + [e], i)
  {
    hide Apply, Run;
    forall k | i < k < |front| + 1 ensures !OfficeMovesAt(w, front + [e], k) {
      if k < |front| {
        SameEarlier(w, front, e, k);
        assert !OfficeMovesAt(w, front, k);
      } else {
        assert (front + [e])[..k] == front;
      }
    }
  }

  lemma ProposalsAndHandoversShow(w: World, op: Op, now: nat)
    ensures var s := Apply(w, op, now).0.arena;
      && (op.OpProposeAdmin? && Apply(w, op, now).1.Pass? ==> s.pendingAdmin == Some(op.admin))
      && (op.OpAcceptAdmin? && Apply(w, op, now).1.Pass? ==> s.pendingAdmin == None)
  {
  }

  /** The administrator waiting to take over is the last one proposed, and nobody has taken over since. */
  lemma {:induction false} PendingIsLastProposed(w: World, events: seq<Event>) returns (i: nat)
    requires w.arena.pendingAdmin.None? && Run(w, events).arena.pendingAdmin.Some?
    ensures ProposedAt(w, events, i, Run(w, events).arena.pendingAdmin.value) && QuietSince(w, events, i)
    decreases |events|
  {
    var front, e := events[..|events| - 1], events[|events| - 1];
    assert events == front + [e];
    RunSnoc(w, 0, front, e);
    var v := Run(w, front);
    AdminChangesOnlyByAccepting(v, e.op, e.now);
    ProposalsAndHandoversShow(v, e.op, e.now);
    hide Apply, Run, QuietSince;
    if e.op.OpProposeAdmin? && Apply(v, e.op, e.now).1.Pass? {
      i := |front|;
      assert events[..i] == front;
      assert QuietSince(w, events, i) by { NothingAfterLast(w, events); }
    } else {
      i := PendingIsLastProposed(w, front);
      SameEarlier(w, front, e, i);
      QuietOneMore(w, front, e, i);
    }
  }

  lemma NothingAfterLast(w: World, events: seq<Event>)
    requires events != []
    ensures QuietSince(w, events, |events| - 1)
  {
  }

  /**
    After any run, accepting passes exactly for an unpaused arena with an administrator proposed and not yet in
    office; it hands the arena to the one proposed last, and a second acceptance fails.
   */
  lemma AcceptTakesTheLastProposal(w: World, events: seq<Event>) returns (i: nat)
    requires w.arena.pendingAdmin.None?
    ensures var v := Run(w, events);
      && (AcceptAdmin(v).1.Pass? ==>
            && ProposedAt(w, events, i, AcceptAdmin(v).0.arena.config.admin) && QuietSince(w, events, i)
            && AcceptAdmin(AcceptAdmin(v).0).1 == Fail(NoPendingAdmin))
      && (AcceptAdmin(v).1.Pass? <==> v.arena.pendingAdmin.Some? && !v.arena.config.paused)
  {
    hide Run, ProposedAt, QuietSince;
    i := 0;
    if Run(w, events).arena.pendingAdmin.Some? { i := PendingIsLastProposed(w, events); }
  }

  // ---- Settings -------------------------------------------------------------------------------------------

  /** An arena is set up exactly with a positive fee and limits from 2 to 100 in order: open, empty and unpaused. */
  lemma InitializePassesIff(admin: Address, fee: int, lo: nat, hi: nat)
    ensures var r := Initialize(admin, fee, lo, hi);
      && (r.Ok? <==> fee > 0 && 2 <= lo <= hi <= 100)
      && (r.Ok? ==>
            && r.value.config == ArenaConfig(admin, fee, Open, false, 0, 0, 0, 0)
            && r.value.minPlayers == lo && r.value.maxPlayers == hi
            && r.value.board == Board([], map[], map[]) && r.value.banned == {} && r.value.winner == None
            && r.value.leaderboardLimit == 100)
  {
  }

  /** Limits can be changed at any time within 2 to 100 in order, and then govern who joins and when play starts. */
  lemma LimitsGovern(w: World, lo: nat, hi: nat, p: Address, duration: nat, now: nat)
    ensures var (v, outcome) := ConfigurePlayerLimits(w, lo, hi);
      && (outcome.Pass? <==> 2 <= lo <= hi <= 100)
      && (outcome.Pass? ==>
            && v == w.(arena := w.arena.(minPlayers := lo, maxPlayers := hi))
            && (hi <= w.arena.config.playerCount ==> JoinArena(v, p).1.Fail?)
            && (|ActivePlayers(w.arena)| < lo ==> StartRound(v, duration, now).1.Fail?))
  {
    hide ActiveOf, OpenRound, Deposit, Moved;
  }

  /** A ban keeps exactly the banned player out, and is lifted by lifting it. */
  lemma BansGovern(w: World, p: Address, q: Address)
    ensures var banned, lifted := SetBanned(w, p, true).0, SetBanned(SetBanned(w, p, true).0, p, false).0;
      && JoinArena(banned, p).1.Fail?
      && (q != p ==> (JoinArena(banned, q).1.Pass? <==> JoinArena(w, q).1.Pass?))
      && (p !in w.arena.banned ==> lifted == w)
  {
    hide Deposit, Moved;
    var a := w.arena;
    assert p !in a.banned ==> a.banned + {p} - {p} == a.banned;
  }
}
