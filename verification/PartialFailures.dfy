/** What a failing ledger operation leaves behind: the steps before the one that failed, in the order
    the operation takes them. */
module PartialFailures {
  import opened Common
  import opened Positions
  import opened Ledger

  predicate Overflows(held: Holdings, key: Key, amount: nat) { BalanceOf(held, key) + amount > U128_MAX }

  predicate Lacks(held: Holdings, key: Key, amount: nat) { key !in held || held[key] < amount }

  /** Two credits in turn. */
  lemma SecondCreditFails(held: Holdings, a: Key, b: Key, amount: u128)
    requires a != b && !Overflows(held, a, amount) && Overflows(held, b, amount)
    ensures RunMoves(held, [Move.Credit(a.id, a.owner, amount), Move.Credit(b.id, b.owner, amount)]) ==
            Outcome(held[a := BalanceOf(held, a) + amount], false)
  {
    var x, y := Move.Credit(a.id, a.owner, amount), Move.Credit(b.id, b.owner, amount);
    RunThree(held, x, y, y);
  }

  /** Two debits in turn. */
  lemma SecondDebitFails(held: Holdings, a: Key, b: Key, amount: u128)
    requires a != b && !Lacks(held, a, amount) && Lacks(held, b, amount)
    ensures RunMoves(held, [Move.Debit(a.id, a.owner, amount), Move.Debit(b.id, b.owner, amount)]) ==
            Outcome(held[a := held[a] - amount], false)
  {
    var x, y := Move.Debit(a.id, a.owner, amount), Move.Debit(b.id, b.owner, amount);
    RunThree(held, x, y, y);
  }

  /** A debit, then two credits. */
  lemma ConversionFails(held: Holdings, u: Key, a: Key, b: Key, amount: u128)
    requires u != a && u != b && a != b && !Lacks(held, u, amount)
    ensures
      var end := RunMoves(held, [Move.Debit(u.id, u.owner, amount), Move.Credit(a.id, a.owner, amount),
                                 Move.Credit(b.id, b.owner, amount)]);
      var paid := held[u := held[u] - amount];
      && (Overflows(held, a, amount) ==> end == Outcome(paid, false))
      && (!Overflows(held, a, amount) && Overflows(held, b, amount) ==>
            end == Outcome(paid[a := BalanceOf(held, a) + amount], false))
  {
    RunThree(held, Move.Debit(u.id, u.owner, amount), Move.Credit(a.id, a.owner, amount),
             Move.Credit(b.id, b.owner, amount));
  }

  /** Two debits, then a credit. */
  lemma RedemptionFails(held: Holdings, u: Key, a: Key, b: Key, amount: u128)
    requires u != a && u != b && a != b && !Lacks(held, a, amount)
    ensures
      var end := RunMoves(held, [Move.Debit(a.id, a.owner, amount), Move.Debit(b.id, b.owner, amount),
                                 Move.Credit(u.id, u.owner, amount)]);
      var taken := held[a := held[a] - amount];
      && (Lacks(held, b, amount) ==> end == Outcome(taken, false))
      && (!Lacks(held, b, amount) && Overflows(held, u, amount) ==>
            end == Outcome(taken[b := held[b] - amount], false))
  {
    RunThree(held, Move.Debit(a.id, a.owner, amount), Move.Debit(b.id, b.owner, amount),
             Move.Credit(u.id, u.owner, amount));
  }

  /** Accept before Reject. */
  lemma SplitStopsAfterAccept(held: Holdings, p: nat, who: u8, amount: u128)
    ensures
      var accept, reject := Key(Proposal(p, Accept, BranchUsdc), who), Key(Proposal(p, Reject, BranchUsdc), who);
      && (!Overflows(held, accept, amount) && Overflows(held, reject, amount) ==>
            Perform(held, Split(p, who, amount)) == Outcome(held[accept := BalanceOf(held, accept) + amount], false))
      && (!Lacks(held, accept, amount) && Lacks(held, reject, amount) ==>
            Perform(held, Merge(p, who, amount)) == Outcome(held[accept := held[accept] - amount], false))
  {
    var accept, reject := Key(Proposal(p, Accept, BranchUsdc), who), Key(Proposal(p, Reject, BranchUsdc), who);
    if !Overflows(held, accept, amount) && Overflows(held, reject, amount) {
      SecondCreditFails(held, accept, reject, amount);
    }
    if !Lacks(held, accept, amount) && Lacks(held, reject, amount) {
      SecondDebitFails(held, accept, reject, amount);
    }
  }

  /** Long before Short on a baseline. */
  lemma BaselineStopsAfterLong(held: Holdings, e: nat, who: u8, amount: u128)
    ensures
      var long, short := Key(Baseline(e, ScalarSide.Long), who), Key(Baseline(e, ScalarSide.Short), who);
      && (!Overflows(held, long, amount) && Overflows(held, short, amount) ==>
            Perform(held, SplitBaseline(e, who, amount)) ==
            Outcome(held[long := BalanceOf(held, long) + amount], false))
      && (!Lacks(held, long, amount) && Lacks(held, short, amount) ==>
            Perform(held, MergeBaseline(e, who, amount)) == Outcome(held[long := held[long] - amount], false))
  {
    var long, short := Key(Baseline(e, ScalarSide.Long), who), Key(Baseline(e, ScalarSide.Short), who);
    if !Overflows(held, long, amount) && Overflows(held, short, amount) {
      SecondCreditFails(held, long, short, amount);
    }
    if !Lacks(held, long, amount) && Lacks(held, short, amount) {
      SecondDebitFails(held, long, short, amount);
    }
  }

  /** The sender has already paid when the receiver overflows. */
  lemma TransferStopsAfterDebit(held: Holdings, id: PositionId, sender: u8, receiver: u8, amount: u128)
    requires sender != receiver && !Lacks(held, Key(id, sender), amount) && Overflows(held, Key(id, receiver), amount)
    ensures Perform(held, Transfer(id, sender, receiver, amount)) ==
            Outcome(held[Key(id, sender) := held[Key(id, sender)] - amount], false)
  {
    var x, y := Move.Debit(id, sender, amount), Move.Credit(id, receiver, amount);
    RunThree(held, x, y, y);
  }

  /** Splitting a branch: USDC, then Long or YES, then Short or NO. */
  lemma SplitLegsStops(held: Holdings, p: nat, b: Branch, g: Option<GateType>, who: u8, amount: u128)
    requires !Lacks(held, Key(Proposal(p, b, BranchUsdc), who), amount)
    ensures
      var usdc := Key(Proposal(p, b, BranchUsdc), who);
      var first := Key(Proposal(p, b, if g.None? then PositionKind.Long else GateYes(g.value)), who);
      var second := Key(Proposal(p, b, if g.None? then PositionKind.Short else GateNo(g.value)), who);
      var op := if g.None? then SplitScalar(p, b, who, amount) else SplitGate(p, b, g.value, who, amount);
      var paid := held[usdc := held[usdc] - amount];
      && (Overflows(held, first, amount) ==> Perform(held, op) == Outcome(paid, false))
      && (!Overflows(held, first, amount) && Overflows(held, second, amount) ==>
            Perform(held, op) == Outcome(paid[first := BalanceOf(held, first) + amount], false))
  {
    var usdc := Key(Proposal(p, b, BranchUsdc), who);
    var first := Key(Proposal(p, b, if g.None? then PositionKind.Long else GateYes(g.value)), who);
    var second := Key(Proposal(p, b, if g.None? then PositionKind.Short else GateNo(g.value)), who);
    ConversionFails(held, usdc, first, second, amount);
  }

  /** Merging a branch: Long or YES, then Short or NO, then USDC. */
  lemma MergeLegsStops(held: Holdings, p: nat, b: Branch, g: Option<GateType>, who: u8, amount: u128)
    requires !Lacks(held, Key(Proposal(p, b, if g.None? then PositionKind.Long else GateYes(g.value)), who), amount)
    ensures
      var usdc := Key(Proposal(p, b, BranchUsdc), who);
      var first := Key(Proposal(p, b, if g.None? then PositionKind.Long else GateYes(g.value)), who);
      var second := Key(Proposal(p, b, if g.None? then PositionKind.Short else GateNo(g.value)), who);
      var op := if g.None? then MergeScalar(p, b, who, amount) else MergeGate(p, b, g.value, who, amount);
      var taken := held[first := held[first] - amount];
      && (Lacks(held, second, amount) ==> Perform(held, op) == Outcome(taken, false))
      && (!Lacks(held, second, amount) && Overflows(held, usdc, amount) ==>
            Perform(held, op) == Outcome(taken[second := held[second] - amount], false))
  {
    var usdc := Key(Proposal(p, b, BranchUsdc), who);
    var first := Key(Proposal(p, b, if g.None? then PositionKind.Long else GateYes(g.value)), who);
    var second := Key(Proposal(p, b, if g.None? then PositionKind.Short else GateNo(g.value)), who);
    RedemptionFails(held, usdc, first, second, amount);
  }
}
