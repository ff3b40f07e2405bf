/** What every run of the ledger conserves, when failed composites are rolled back. */
module Conservation {
  import opened Common
  import opened Positions
  import opened Ledger

  /** A family of positions whose balances are added up over all owners. */
  datatype Selector =
    | Longs(proposal: nat, branch: Branch)
    | Shorts(proposal: nat, branch: Branch)
    | GateYesOf(proposal: nat, branch: Branch, gate: GateType)
    | GateNoOf(proposal: nat, branch: Branch, gate: GateType)
    | Backing(proposal: nat, branch: Branch)
    | BaselineLongs(epoch: nat)
    | BaselineShorts(epoch: nat)
  {
    /** `Backing` is branch USDC together with every claim it was converted into:
        one leg of each scalar pair and one leg of each gate pair. */
    predicate Selects(id: PositionId) {
      match this
      case Longs(p, b) => id == Proposal(p, b, PositionKind.Long)
      case Shorts(p, b) => id == Proposal(p, b, PositionKind.Short)
      case GateYesOf(p, b, g) => id == Proposal(p, b, GateYes(g))
      case GateNoOf(p, b, g) => id == Proposal(p, b, GateNo(g))
      case Backing(p, b) =>
        id.Proposal? && id.proposal == p && id.branch == b &&
        (id.kind.BranchUsdc? || id.kind.Long? || id.kind.GateYes?)
      case BaselineLongs(e) => id == Baseline(e, ScalarSide.Long)
      case BaselineShorts(e) => id == Baseline(e, ScalarSide.Short)
    }
  }

  function Share(which: Selector, key: Key, amount: nat): nat {
    if which.Selects(key.id) then amount else 0
  }

  /** The sum over all entries, in no particular order. */
  ghost function Total(held: Holdings, which: Selector): nat
    decreases |held|
  {
    if held == map[] then 0
    else
      var key :| key in held;
      Share(which, key, held[key]) + Total(held - {key}, which)
  }

  lemma {:induction false} TotalWithout(held: Holdings, which: Selector, key: Key)
    requires key in held
    ensures Total(held, which) == Share(which, key, held[key]) + Total(held - {key}, which)
    decreases |held|
  {
    var first :| first in held &&
                 Total(held, which) == Share(which, first, held[first]) + Total(held - {first}, which);
    if first != key {
      TotalWithout(held - {first}, which, key);
      TotalWithout(held - {key}, which, first);
      assert held - {first} - {key} == held - {key} - {first};
    }
  }

  lemma TotalPut(held: Holdings, which: Selector, key: Key, amount: u128)
    ensures Total(held[key := amount], which) ==
            Total(held, which) + Share(which, key, amount) - Share(which, key, BalanceOf(held, key))
  {
    var next := held[key := amount];
    TotalWithout(next, which, key);
    assert next - {key} == held - {key};
    if key in held {
      TotalWithout(held, which, key);
    } else {
      assert held - {key} == held;
    }
  }

  function Signed(move: Move, which: Selector): int {
    var amount: int := move.amount;
    if !which.Selects(move.id) then 0 else if move.Credit? then amount else -amount
  }

  function Net(moves: seq<Move>, which: Selector): int {
    if moves == [] then 0 else Net(moves[..|moves| - 1], which) + Signed(moves[|moves| - 1], which)
  }

  lemma MoveChangesTotal(held: Holdings, move: Move, which: Selector)
    requires ApplyMove(held, move).Some?
    ensures Total(ApplyMove(held, move).value, which) == Total(held, which) + Signed(move, which)
  {
    var key, next := move.Target(), ApplyMove(held, move).value;
    if next != held {
      TotalPut(held, which, key, next[key]);
    }
  }

  /** A script that runs to its end changes every total by the script's own net. */
  lemma {:induction false} RunChangesTotal(held: Holdings, moves: seq<Move>, which: Selector)
    requires RunMoves(held, moves).ok
    ensures Total(RunMoves(held, moves).held, which) == Total(held, which) + Net(moves, which)
  {
    if moves != [] {
      var front := moves[..|moves| - 1];
      RunChangesTotal(held, front, which);
      MoveChangesTotal(RunMoves(held, front).held, moves[|moves| - 1], which);
    }
  }

  lemma NetThree(a: Move, b: Move, c: Move, which: Selector)
    ensures Net([a, b], which) == Signed(a, which) + Signed(b, which)
    ensures Net([a, b, c], which) == Signed(a, which) + Signed(b, which) + Signed(c, which)
  {
    assert [a, b, c][..2] == [a, b];
    assert [a, b][..1] == [a];
    assert [a][..0] == [];
    assert Net([a], which) == Net([], which) + Signed(a, which);
    assert Net([a, b], which) == Net([a], which) + Signed(b, which);
  }

  /** What an operation adds to a family of positions. */
  function OpNet(op: LedgerOp, which: Selector): int { Net(MovesOf(op), which) }

  lemma OpNetUnfolds(op: LedgerOp, which: Selector)
    ensures var m := MovesOf(op);
            OpNet(op, which) ==
            Signed(m[0], which) + Signed(m[1], which) + if |m| == 3 then Signed(m[2], which) else 0
  {
    var m := MovesOf(op);
    NetThree(m[0], m[1], if |m| == 3 then m[2] else m[1], which);
    assert m == if |m| == 3 then [m[0], m[1], m[2]] else [m[0], m[1]];
  }

  /** USDC taken in by a split of this proposal, given back by a merge of it. */
  function Minted(op: LedgerOp, proposal: nat): int {
    match op
    case Split(p, _, a) => if p == proposal then a else 0
    case Merge(p, _, a) => if p == proposal then -(a as int) else 0
    case _ => 0
  }

  /** The laws every balanced state obeys at one proposal, branch, gate and epoch. */
  ghost predicate Balanced(held: Holdings, p: nat, b: Branch, g: GateType, e: nat, minted: int) {
    && Total(held, Longs(p, b)) == Total(held, Shorts(p, b))
    && Total(held, GateYesOf(p, b, g)) == Total(held, GateNoOf(p, b, g))
    && Total(held, Backing(p, b)) == minted
    && Total(held, BaselineLongs(e)) == Total(held, BaselineShorts(e))
  }

  lemma OpIsBalanced(op: LedgerOp, p: nat, b: Branch, g: GateType, e: nat)
    ensures OpNet(op, Longs(p, b)) == OpNet(op, Shorts(p, b))
    ensures OpNet(op, GateYesOf(p, b, g)) == OpNet(op, GateNoOf(p, b, g))
    ensures OpNet(op, Backing(p, b)) == Minted(op, p)
    ensures OpNet(op, BaselineLongs(e)) == OpNet(op, BaselineShorts(e))
  {
    OpNetUnfolds(op, Longs(p, b));
    OpNetUnfolds(op, Shorts(p, b));
    OpNetUnfolds(op, GateYesOf(p, b, g));
    OpNetUnfolds(op, GateNoOf(p, b, g));
    OpNetUnfolds(op, Backing(p, b));
    OpNetUnfolds(op, BaselineLongs(e));
    OpNetUnfolds(op, BaselineShorts(e));
  }

  lemma PerformKeepsBalance(held: Holdings, op: LedgerOp, p: nat, b: Branch, g: GateType, e: nat, minted: int)
    requires Perform(held, op).ok && Balanced(held, p, b, g, e, minted)
    ensures Balanced(Perform(held, op).held, p, b, g, e, minted + Minted(op, p))
  {
    OpIsBalanced(op, p, b, g, e);
    RunChangesTotal(held, MovesOf(op), Longs(p, b));
    RunChangesTotal(held, MovesOf(op), Shorts(p, b));
    RunChangesTotal(held, MovesOf(op), GateYesOf(p, b, g));
    RunChangesTotal(held, MovesOf(op), GateNoOf(p, b, g));
    RunChangesTotal(held, MovesOf(op), Backing(p, b));
    RunChangesTotal(held, MovesOf(op), BaselineLongs(e));
    RunChangesTotal(held, MovesOf(op), BaselineShorts(e));
  }

  function MintedBy(ops: seq<LedgerOp>, proposal: nat): int {
    if ops == [] then 0 else Minted(ops[0], proposal) + MintedBy(ops[1..], proposal)
  }

  lemma {:induction false} PlayKeepsBalance(
    held: Holdings, ops: seq<LedgerOp>, p: nat, b: Branch, g: GateType, e: nat, minted: int)
    requires Play(held, ops).ok && Balanced(held, p, b, g, e, minted)
    ensures Balanced(Play(held, ops).held, p, b, g, e, minted + MintedBy(ops, p))
    decreases |ops|
  {
    if ops != [] {
      PerformKeepsBalance(held, ops[0], p, b, g, e, minted);
      PlayKeepsBalance(Perform(held, ops[0]).held, ops[1..], p, b, g, e, minted + Minted(ops[0], p));
    }
  }

  /** A run of composites, each of which happens whole or not at all. */
  function History(held: Holdings, composites: seq<seq<LedgerOp>>): Holdings
    decreases |composites|
  {
    if composites == [] then held else History(Atomic(held, composites[0]), composites[1..])
  }

  /** Net split minus merged over the composites of the run that were accepted. */
  function NetSplit(held: Holdings, composites: seq<seq<LedgerOp>>, proposal: nat): int
    decreases |composites|
  {
    if composites == [] then 0
    else
      (if Play(held, composites[0]).ok then MintedBy(composites[0], proposal) else 0) +
      NetSplit(Atomic(held, composites[0]), composites[1..], proposal)
  }

  lemma {:induction false} HistoryKeepsBalance(
    held: Holdings, composites: seq<seq<LedgerOp>>, p: nat, b: Branch, g: GateType, e: nat, minted: int)
    requires Balanced(held, p, b, g, e, minted)
    ensures Balanced(History(held, composites), p, b, g, e, minted + NetSplit(held, composites, p))
    decreases |composites|
  {
    if composites != [] {
      if Play(held, composites[0]).ok {
        PlayKeepsBalance(held, composites[0], p, b, g, e, minted);
        HistoryKeepsBalance(Atomic(held, composites[0]), composites[1..], p, b, g, e,
                            minted + MintedBy(composites[0], p));
      } else {
        HistoryKeepsBalance(held, composites[1..], p, b, g, e, minted);
      }
    }
  }

  /** In every state a run reaches from the empty ledger, both legs of every pair are
      equally outstanding, and each branch is backed by the same net split. */
  lemma LedgerLaws(composites: seq<seq<LedgerOp>>, p: nat, b: Branch, g: GateType, e: nat)
    ensures
      var held := History(map[], composites);
      && Total(held, Longs(p, b)) == Total(held, Shorts(p, b))
      && Total(held, GateYesOf(p, b, g)) == Total(held, GateNoOf(p, b, g))
      && Total(held, Backing(p, Accept)) == Total(held, Backing(p, Reject)) == NetSplit(map[], composites, p)
      && Total(held, BaselineLongs(e)) == Total(held, BaselineShorts(e))
  {
    HistoryKeepsBalance(map[], composites, p, b, g, e, 0);
    HistoryKeepsBalance(map[], composites, p, Accept, g, e, 0);
    HistoryKeepsBalance(map[], composites, p, Reject, g, e, 0);
  }

  /** The ledger after a split whose Reject half was given away. */
  function HalfGiven(p: nat, who: u8, other: u8, amount: u128): seq<seq<LedgerOp>> {
    [[Split(p, who, amount)], [Transfer(Proposal(p, Reject, BranchUsdc), who, other, amount)]]
  }

  lemma HalfGivenHolds(p: nat, who: u8, other: u8, amount: u128)
    requires amount > 0 && who != other
    ensures
      var held := History(map[], HalfGiven(p, who, other, amount));
      && held == map[Key(Proposal(p, Accept, BranchUsdc), who) := amount,
                     Key(Proposal(p, Reject, BranchUsdc), who) := 0,
                     Key(Proposal(p, Reject, BranchUsdc), other) := amount]
      && NetSplit(map[], HalfGiven(p, who, other, amount), p) == amount
  {
    var steps, empty: Holdings := HalfGiven(p, who, other, amount), map[];
    var split, give := steps[0][0], steps[1][0];
    var first, second := Perform(empty, split), Perform(Perform(empty, split).held, give);
    HalfGivenSteps(p, who, other, amount);
    OneComposite(empty, split, p);
    OneComposite(first.held, give, p);
    assert steps == [[split]] + [[give]] && steps[1..] == [[give]] && [[give]][1..] == [];
    assert History(first.held, [[give]]) == History(second.held, []);
    assert NetSplit(first.held, [[give]], p) == MintedBy([give], p) + NetSplit(second.held, [], p);
  }

  /** A composite of one operation that goes through. */
  lemma OneComposite(held: Holdings, op: LedgerOp, p: nat)
    requires Perform(held, op).ok
    ensures Play(held, [op]) == Perform(held, op) && Atomic(held, [op]) == Perform(held, op).held
    ensures MintedBy([op], p) == Minted(op, p)
  {
    assert [op][1..] == [];
    assert MintedBy([op], p) == Minted(op, p) + MintedBy([], p);
  }

  lemma HalfGivenSteps(p: nat, who: u8, other: u8, amount: u128)
    requires amount > 0 && who != other
    ensures
      var accept, reject := Proposal(p, Accept, BranchUsdc), Proposal(p, Reject, BranchUsdc);
      var first := Perform(map[], Split(p, who, amount));
      && first == Outcome(map[Key(accept, who) := amount, Key(reject, who) := amount], true)
      && Perform(first.held, Transfer(reject, who, other, amount)) ==
         Outcome(map[Key(accept, who) := amount, Key(reject, who) := 0, Key(reject, other) := amount], true)
  {
    var m, n := MovesOf(Split(p, who, amount)), MovesOf(Transfer(Proposal(p, Reject, BranchUsdc), who, other, amount));
    RunThree(map[], m[0], m[1], m[1]);
    RunThree(Perform(map[], Split(p, who, amount)).held, n[0], n[1], n[1]);
  }

  /** A merge of what is there on Accept and missing on Reject. */
  lemma MergeStopsHalfWay(held: Holdings, p: nat, who: u8, amount: u128)
    requires var accept := Key(Proposal(p, Accept, BranchUsdc), who); accept in held && held[accept] >= amount
    requires BalanceOf(held, Key(Proposal(p, Reject, BranchUsdc), who)) < amount
    ensures
      var left := Perform(held, Merge(p, who, amount));
      && !left.ok && Atomic(held, [Merge(p, who, amount)]) == held
      && Total(left.held, Backing(p, Accept)) == Total(held, Backing(p, Accept)) - amount
      && Total(left.held, Backing(p, Reject)) == Total(held, Backing(p, Reject))
  {
    var m := MovesOf(Merge(p, who, amount));
    RunThree(held, m[0], m[1], m[1]);
    MoveChangesTotal(held, m[0], Backing(p, Accept));
    MoveChangesTotal(held, m[0], Backing(p, Reject));
    assert [Merge(p, who, amount)][0] == Merge(p, who, amount);
  }

  /** A failed merge on its own is not harmless. In a reachable ledger whose branches are equally
      backed, it debits Accept before it finds Reject missing, and leaves Accept short. */
  lemma FailedMergeUnbalances(p: nat, who: u8, other: u8, amount: u128)
    requires amount > 0 && who != other
    ensures
      var held := History(map[], HalfGiven(p, who, other, amount));
      var left := Perform(held, Merge(p, who, amount));
      && !left.ok && Atomic(held, [Merge(p, who, amount)]) == held
      && Total(held, Backing(p, Accept)) == Total(held, Backing(p, Reject)) == amount
      && Total(left.held, Backing(p, Accept)) == 0 && Total(left.held, Backing(p, Reject)) == amount
  {
    HalfGivenHolds(p, who, other, amount);
    LedgerLaws(HalfGiven(p, who, other, amount), p, Accept, Survival, 0);
    MergeStopsHalfWay(History(map[], HalfGiven(p, who, other, amount)), p, who, amount);
  }

  // ---- inverses -------------------------------------------------------------------

  predicate IsSplit(op: LedgerOp) { op.Split? || op.SplitScalar? || op.SplitGate? || op.SplitBaseline? }

  function Inverse(op: LedgerOp): LedgerOp
    requires IsSplit(op)
  {
    match op
    case Split(p, who, a) => Merge(p, who, a)
    case SplitScalar(p, b, who, a) => MergeScalar(p, b, who, a)
    case SplitGate(p, b, g, who, a) => MergeGate(p, b, g, who, a)
    case SplitBaseline(e, who, a) => MergeBaseline(e, who, a)
  }

  /** The two legs a split hands out. */
  function Legs(op: LedgerOp): (Key, Key)
    requires IsSplit(op)
  {
    var m := MovesOf(op);
    (m[|m| - 2].Target(), m[|m| - 1].Target())
  }

  /** What a move that went through did, seen at one key. */
  predicate Moved(before: Holdings, move: Move, after: Holdings, key: Key) {
    && (key in after <==> key in before || (key == move.Target() && move.Credit? && move.amount > 0))
    && BalanceOf(after, key) == BalanceOf(before, key) + Delta(move, key)
  }

  lemma Watch(sofar: Outcome, move: Move, a: Key, b: Key, c: Key, d: Key)
    requires sofar.ok
    ensures var end := Then(sofar, move);
            && (end.ok <==> Passes(sofar.held, move))
            && (end.ok ==> && Moved(sofar.held, move, end.held, a) && Moved(sofar.held, move, end.held, b)
                           && Moved(sofar.held, move, end.held, c) && Moved(sofar.held, move, end.held, d))
  {
  }

  /** Credit two legs and debit them again, seen at one key. */
  lemma PairUndone(held: Holdings, left: Key, right: Key, amount: u128, key: Key)
    requires left != right
    ensures
      var after := RunMoves(held, [Move.Credit(left.id, left.owner, amount),
                                   Move.Credit(right.id, right.owner, amount)]);
      var back := RunMoves(after.held, [Move.Debit(left.id, left.owner, amount),
                                        Move.Debit(right.id, right.owner, amount)]);
      after.ok ==>
        && (back.ok <==> amount > 0 || (left in held && right in held))
        && (back.ok ==> BalanceOf(back.held, key) == BalanceOf(held, key))
  {
    var c, d := Move.Credit(left.id, left.owner, amount), Move.Credit(right.id, right.owner, amount);
    var x, y := Move.Debit(left.id, left.owner, amount), Move.Debit(right.id, right.owner, amount);
    RunThree(held, c, d, d);
    var h0 := Outcome(held, true);
    var h1 := Then(h0, c);
    var h2 := Then(h1, d);
    if h2.ok {
      Watch(h0, c, left, right, key, key);
      Watch(h1, d, left, right, key, key);
      RunThree(h2.held, x, y, y);
      Watch(h2, x, left, right, key, key);
      var h3 := Then(h2, x);
      if h3.ok {
        Watch(h3, y, left, right, key, key);
      }
    }
  }

  /** Convert one position into two legs and back, seen at one key. */
  lemma ConversionUndone(held: Holdings, usdc: Key, left: Key, right: Key, amount: u128, key: Key)
    requires left != right && usdc != left && usdc != right
    ensures
      var after := RunMoves(held, [Move.Debit(usdc.id, usdc.owner, amount), Move.Credit(left.id, left.owner, amount),
                                   Move.Credit(right.id, right.owner, amount)]);
      var back := RunMoves(after.held, [Move.Debit(left.id, left.owner, amount),
                                        Move.Debit(right.id, right.owner, amount),
                                        Move.Credit(usdc.id, usdc.owner, amount)]);
      after.ok ==>
        && (back.ok <==> amount > 0 || (left in held && right in held))
        && (back.ok ==> BalanceOf(back.held, key) == BalanceOf(held, key))
  {
    var a, c, d := Move.Debit(usdc.id, usdc.owner, amount), Move.Credit(left.id, left.owner, amount),
                   Move.Credit(right.id, right.owner, amount);
    var x, y, z := Move.Debit(left.id, left.owner, amount), Move.Debit(right.id, right.owner, amount),
                   Move.Credit(usdc.id, usdc.owner, amount);
    RunThree(held, a, c, d);
    var h0 := Outcome(held, true);
    var h1 := Then(h0, a);
    var h2 := Then(h1, c);
    var h3 := Then(h2, d);
    if h3.ok {
      Watch(h0, a, usdc, left, right, key);
      Watch(h1, c, usdc, left, right, key);
      Watch(h2, d, usdc, left, right, key);
      RunThree(h3.held, x, y, z);
      Watch(h3, x, usdc, left, right, key);
      var h4 := Then(h3, x);
      if h4.ok {
        Watch(h4, y, usdc, left, right, key);
        var h5 := Then(h4, y);
        if h5.ok {
          Watch(h5, z, usdc, left, right, key);
        }
      }
    }
  }

  /** Merging what was just split restores every balance. It is refused only for a zero
      split of a leg that has no entry, because a debit needs an entry. */
  lemma MergeUndoesSplit(held: Holdings, op: LedgerOp, key: Key)
    requires IsSplit(op) && Perform(held, op).ok
    ensures
      var back := Perform(Perform(held, op).held, Inverse(op));
      && (back.ok <==> op.amount > 0 || (Legs(op).0 in held && Legs(op).1 in held))
      && (back.ok ==> BalanceOf(back.held, key) == BalanceOf(held, key))
  {
    var (left, right) := Legs(op);
    if op.Split? || op.SplitBaseline? {
      PairUndone(held, left, right, op.amount, key);
    } else {
      ConversionUndone(held, MovesOf(op)[0].Target(), left, right, op.amount, key);
    }
  }

  /** A transfer to oneself needs the balance and changes nothing. */
  lemma TransferToSelf(held: Holdings, id: PositionId, who: u8, amount: u128)
    ensures
      var end := Perform(held, Transfer(id, who, who, amount));
      && (end.ok <==> Key(id, who) in held && amount <= held[Key(id, who)])
      && end.held == held
  {
    var m := MovesOf(Transfer(id, who, who, amount));
    RunThree(held, m[0], m[1], m[1]);
  }
}
