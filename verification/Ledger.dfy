/** Positions of the conditional ledger, and the accounts that hold them. */
module Positions {
  import opened Common

  datatype Branch = Accept | Reject

  datatype GateType = Survival | Security

  datatype ScalarSide = Long | Short

  datatype PositionKind = BranchUsdc | Long | Short | GateYes(gate: GateType) | GateNo(gate: GateType)

  datatype PositionId =
    | Proposal(proposal: nat, branch: Branch, kind: PositionKind)
    | Baseline(epoch: nat, side: ScalarSide)

  datatype BookKind =
    | Decision(proposal: nat, branch: Branch)
    | Gate(proposal: nat, branch: Branch, gate: GateType)
    | BaselineBook(epoch: nat)
    | External(question: nat, client: nat, branch: Branch)

  function OtherBranch(b: Branch): Branch { if b.Accept? then Reject else Accept }

  function ScalarKind(side: ScalarSide): PositionKind {
    if side.Long? then PositionKind.Long else PositionKind.Short
  }

  function GateSideKind(gate: GateType, side: ScalarSide): PositionKind {
    if side.Long? then GateYes(gate) else GateNo(gate)
  }

  /** Where a `side` leg of a book lives. */
  function SidePosition(kind: BookKind, side: ScalarSide): PositionId {
    match kind
    case Decision(p, b) => Proposal(p, b, ScalarKind(side))
    case Gate(p, b, g) => Proposal(p, b, GateSideKind(g, side))
    case BaselineBook(e) => Baseline(e, side)
    case External(q, _, b) => Proposal(q, b, ScalarKind(side))
  }

  /** The book's liquid branch-USDC position; a baseline book has none. */
  function LiquidPosition(kind: BookKind): Option<PositionId> {
    match kind
    case Decision(p, b) => Some(Proposal(p, b, BranchUsdc))
    case Gate(p, b, _) => Some(Proposal(p, b, BranchUsdc))
    case BaselineBook(_) => None
    case External(q, _, b) => Some(Proposal(q, b, BranchUsdc))
  }
}

/** The in-memory ledger, and the finite map it refines. */
module Ledger {
  import opened Common
  import opened Positions

  datatype Key = Key(id: PositionId, owner: u8)

  type Holdings = map<Key, u128>

  function BalanceOf(held: Holdings, key: Key): u128 {
    if key in held then held[key] else 0
  }

  // ---- the ledger as a map: primitive moves and scripts of them ---------------

  datatype Move = Credit(id: PositionId, who: u8, amount: u128) | Debit(id: PositionId, who: u8, amount: u128) {
    function Target(): Key { Key(id, who) }
  }

  /** A credit fails on overflow and never opens an empty entry; a debit fails
      unless an entry exists and covers the amount. */
  function ApplyMove(held: Holdings, move: Move): Option<Holdings> {
    var key := move.Target();
    match move
    case Credit(_, _, amount) =>
      if key !in held then Some(if amount > 0 then held[key := amount] else held)
      else if held[key] + amount > U128_MAX then None
      else Some(held[key := held[key] + amount])
    case Debit(_, _, amount) =>
      if key !in held || held[key] < amount then None
      else Some(held[key := held[key] - amount])
  }

  /** When a move goes through. */
  predicate Passes(held: Holdings, move: Move) {
    var target := move.Target();
    if move.Debit? then target in held && move.amount <= held[target]
    else BalanceOf(held, target) + move.amount <= U128_MAX
  }

  function Delta(move: Move, key: Key): int {
    var amount: int := move.amount;
    if key != move.Target() then 0 else if move.Debit? then -amount else amount
  }

  /** Where a script of moves stops, and whether it got to the end. */
  datatype Outcome = Outcome(held: Holdings, ok: bool)

  function Then(sofar: Outcome, move: Move): Outcome {
    if !sofar.ok then sofar
    else match ApplyMove(sofar.held, move)
      case None => Outcome(sofar.held, false)
      case Some(next) => Outcome(next, true)
  }

  function RunMoves(held: Holdings, moves: seq<Move>): Outcome {
    if moves == [] then Outcome(held, true)
    else Then(RunMoves(held, moves[..|moves| - 1]), moves[|moves| - 1])
  }

  lemma {:induction false} RunThree(held: Holdings, a: Move, b: Move, c: Move)
    ensures RunMoves(held, [a, b]) == Then(Then(Outcome(held, true), a), b)
    ensures RunMoves(held, [a, b, c]) == Then(Then(Then(Outcome(held, true), a), b), c)
  {
    assert [a, b, c][..2] == [a, b];
    assert [a, b][..1] == [a];
    assert [a][..0] == [];
    assert RunMoves(held, [a]) == Then(RunMoves(held, []), a);
    assert RunMoves(held, [a, b]) == Then(RunMoves(held, [a]), b);
  }

  datatype LedgerOp =
    | Split(pid: nat, who: u8, amount: u128)
    | Merge(pid: nat, who: u8, amount: u128)
    | Transfer(id: PositionId, sender: u8, receiver: u8, amount: u128)
    | SplitScalar(pid: nat, branch: Branch, who: u8, amount: u128)
    | MergeScalar(pid: nat, branch: Branch, who: u8, amount: u128)
    | SplitGate(pid: nat, branch: Branch, gate: GateType, who: u8, amount: u128)
    | MergeGate(pid: nat, branch: Branch, gate: GateType, who: u8, amount: u128)
    | SplitBaseline(epoch: nat, who: u8, amount: u128)
    | MergeBaseline(epoch: nat, who: u8, amount: u128)

  /** Each operation as the moves it makes, in order. None is atomic by itself. */
  function MovesOf(op: LedgerOp): seq<Move> {
    match op
    case Split(p, who, a) =>
      [Credit(Proposal(p, Accept, BranchUsdc), who, a), Credit(Proposal(p, Reject, BranchUsdc), who, a)]
    case Merge(p, who, a) =>
      [Debit(Proposal(p, Accept, BranchUsdc), who, a), Debit(Proposal(p, Reject, BranchUsdc), who, a)]
    case Transfer(id, sender, receiver, a) =>
      [Debit(id, sender, a), Credit(id, receiver, a)]
    case SplitScalar(p, b, who, a) =>
      [Debit(Proposal(p, b, BranchUsdc), who, a),
       Credit(Proposal(p, b, PositionKind.Long), who, a),
       Credit(Proposal(p, b, PositionKind.Short), who, a)]
    case MergeScalar(p, b, who, a) =>
      [Debit(Proposal(p, b, PositionKind.Long), who, a),
       Debit(Proposal(p, b, PositionKind.Short), who, a),
       Credit(Proposal(p, b, BranchUsdc), who, a)]
    case SplitGate(p, b, g, who, a) =>
      [Debit(Proposal(p, b, BranchUsdc), who, a),
       Credit(Proposal(p, b, GateYes(g)), who, a),
       Credit(Proposal(p, b, GateNo(g)), who, a)]
    case MergeGate(p, b, g, who, a) =>
      [Debit(Proposal(p, b, GateYes(g)), who, a),
       Debit(Proposal(p, b, GateNo(g)), who, a),
       Credit(Proposal(p, b, BranchUsdc), who, a)]
    case SplitBaseline(e, who, a) =>
      [Credit(Baseline(e, ScalarSide.Long), who, a), Credit(Baseline(e, ScalarSide.Short), who, a)]
    case MergeBaseline(e, who, a) =>
      [Debit(Baseline(e, ScalarSide.Long), who, a), Debit(Baseline(e, ScalarSide.Short), who, a)]
  }

  function Perform(held: Holdings, op: LedgerOp): Outcome { RunMoves(held, MovesOf(op)) }

  // ---- the ledger as the list the harness keeps --------------------------------

  datatype Entry = Entry(id: PositionId, owner: u8, amount: u128) {
    function At(): Key { Key(id, owner) }
  }

  /** The first entry held by `key`, or the length of the list. */
  function Find(entries: seq<Entry>, key: Key, from: nat := 0): (i: nat)
    requires from <= |entries|
    ensures from <= i <= |entries|
    ensures i < |entries| ==> entries[i].At() == key
    ensures forall j | from <= j < i :: entries[j].At() != key
    decreases |entries| - from
  {
    if from == |entries| || entries[from].At() == key then from else Find(entries, key, from + 1)
  }

  predicate Distinct(entries: seq<Entry>) {
    forall i, j | 0 <= i < j < |entries| :: entries[i].At() != entries[j].At()
  }

  function AsMap(entries: seq<Entry>): Holdings {
    if entries == [] then map[]
    else
      var last := |entries| - 1;
      AsMap(entries[..last])[entries[last].At() := entries[last].amount]
  }

  ghost predicate Listed(entries: seq<Entry>, key: Key) {
    exists i | 0 <= i < |entries| :: entries[i].At() == key
  }

  /** The list and the map say the same thing. */
  ghost predicate Refines(entries: seq<Entry>, held: Holdings) {
    && (forall i | 0 <= i < |entries| :: entries[i].At() in held && held[entries[i].At()] == entries[i].amount)
    && (forall key | key in held :: Listed(entries, key))
  }

  lemma {:induction false} AsMapRefines(entries: seq<Entry>)
    requires Distinct(entries)
    ensures Refines(entries, AsMap(entries))
  {
    if entries != [] {
      var last := |entries| - 1;
      var front := entries[..last];
      AsMapRefines(front);
      var held := AsMap(front);
      forall key | key in held ensures Listed(entries, key) {
        var i :| 0 <= i < |front| && front[i].At() == key;
        assert entries[i].At() == key;
      }
    }
  }

  lemma RefinesOnce(entries: seq<Entry>, a: Holdings, b: Holdings)
    requires Refines(entries, a) && Refines(entries, b)
    ensures a == b
  {
  }

  function Put(entries: seq<Entry>, i: nat, key: Key, amount: u128): seq<Entry>
    requires i <= |entries|
  {
    var entry := Entry(key.id, key.owner, amount);
    if i < |entries| then entries[i := entry] else entries + [entry]
  }

  lemma PutDistinct(entries: seq<Entry>, i: nat, key: Key, amount: u128)
    requires Distinct(entries) && i == Find(entries, key)
    ensures Distinct(Put(entries, i, key, amount))
  {
    var after := Put(entries, i, key, amount);
    assert forall j | 0 <= j < |entries| :: after[j].At() == entries[j].At();
  }

  lemma PutKeepsKeys(entries: seq<Entry>, i: nat, key: Key, amount: u128, k: Key)
    requires i == Find(entries, key) && (k == key || Listed(entries, k))
    ensures Listed(Put(entries, i, key, amount), k)
  {
    var after := Put(entries, i, key, amount);
    if k == key {
      assert after[i].At() == k;
    } else {
      var j :| 0 <= j < |entries| && entries[j].At() == k;
      assert after[j].At() == k;
    }
  }

  lemma PutUpdates(entries: seq<Entry>, i: nat, key: Key, amount: u128, held: Holdings)
    requires Distinct(entries) && i == Find(entries, key) && Refines(entries, held)
    ensures Refines(Put(entries, i, key, amount), held[key := amount])
  {
    var after, next := Put(entries, i, key, amount), held[key := amount];
    forall k | k in next ensures Listed(after, k) {
      PutKeepsKeys(entries, i, key, amount, k);
    }
    forall j | 0 <= j < |after| ensures after[j].At() in next && next[after[j].At()] == after[j].amount {
      if j != i {
        assert after[j] == entries[j];
      }
    }
  }

  /** Overwriting the entry of a key, or appending its first one, updates the map at that key. */
  lemma PutRefines(entries: seq<Entry>, i: nat, key: Key, amount: u128)
    requires Distinct(entries) && i == Find(entries, key)
    ensures Distinct(Put(entries, i, key, amount))
    ensures AsMap(Put(entries, i, key, amount)) == AsMap(entries)[key := amount]
  {
    var after, next := Put(entries, i, key, amount), AsMap(entries)[key := amount];
    AsMapRefines(entries);
    PutUpdates(entries, i, key, amount, AsMap(entries));
    PutDistinct(entries, i, key, amount);
    AsMapRefines(after);
    RefinesOnce(after, AsMap(after), next);
  }

  lemma FindHeld(entries: seq<Entry>, key: Key)
    requires Distinct(entries)
    ensures var i := Find(entries, key);
            if i < |entries| then key in AsMap(entries) && AsMap(entries)[key] == entries[i].amount
            else key !in AsMap(entries)
  {
    AsMapRefines(entries);
  }

  class MockLedger {
    var balances: seq<Entry>

    /** One entry for each position and owner. */
    ghost predicate Valid()
      reads this
    {
      Distinct(balances)
    }

    ghost function Held(): Holdings
      reads this
    {
      AsMap(balances)
    }

    constructor ()
      ensures Valid() && Held() == map[]
    {
      balances := [];
    }

    method Balance(id: PositionId, who: u8) returns (amount: u128)
      requires Valid()
      ensures amount == BalanceOf(Held(), Key(id, who))
    {
      FindHeld(balances, Key(id, who));
      var i := Find(balances, Key(id, who));
      if i < |balances| {
        amount := balances[i].amount;
      } else {
        amount := 0;
      }
    }

    method Credit(id: PositionId, who: u8, amount: u128) returns (ok: bool)
      requires Valid()
      modifies this
      ensures Valid() && Outcome(Held(), ok) == Then(Outcome(old(Held()), true), Move.Credit(id, who, amount))
    {
      var key := Key(id, who);
      var i := Find(balances, key);
      FindHeld(balances, key);
      if i < |balances| {
        if balances[i].amount + amount > U128_MAX {
          return false;
        }
        PutRefines(balances, i, key, balances[i].amount + amount);
        balances := Put(balances, i, key, balances[i].amount + amount);
      } else if amount > 0 {
        PutRefines(balances, i, key, amount);
        balances := Put(balances, i, key, amount);
      }
      ok := true;
    }

    method Debit(id: PositionId, who: u8, amount: u128) returns (ok: bool)
      requires Valid()
      modifies this
      ensures Valid() && Outcome(Held(), ok) == Then(Outcome(old(Held()), true), Move.Debit(id, who, amount))
    {
      var key := Key(id, who);
      var i := Find(balances, key);
      FindHeld(balances, key);
      if i == |balances| || balances[i].amount < amount {
        return false;
      }
      PutRefines(balances, i, key, balances[i].amount - amount);
      balances := Put(balances, i, key, balances[i].amount - amount);
      ok := true;
    }

    method DoTransfer(id: PositionId, sender: u8, receiver: u8, amount: u128) returns (ok: bool)
      requires Valid()
      modifies this
      ensures Valid() && Outcome(Held(), ok) == Perform(old(Held()), Transfer(id, sender, receiver, amount))
    {
      RunThree(Held(), Move.Debit(id, sender, amount), Move.Credit(id, receiver, amount), Move.Credit(id, receiver, 0));
      ok := Debit(id, sender, amount);
      if ok {
        ok := Credit(id, receiver, amount);
      }
    }

    method DoSplit(pid: nat, who: u8, amount: u128) returns (ok: bool)
      requires Valid()
      modifies this
      ensures Valid() && Outcome(Held(), ok) == Perform(old(Held()), Split(pid, who, amount))
    {
      var accept, reject := Proposal(pid, Accept, BranchUsdc), Proposal(pid, Reject, BranchUsdc);
      RunThree(Held(), Move.Credit(accept, who, amount), Move.Credit(reject, who, amount), Move.Credit(reject, who, 0));
      ok := Credit(accept, who, amount);
      if ok {
        ok := Credit(reject, who, amount);
      }
    }

    method DoMerge(pid: nat, who: u8, amount: u128) returns (ok: bool)
      requires Valid()
      modifies this
      ensures Valid() && Outcome(Held(), ok) == Perform(old(Held()), Merge(pid, who, amount))
    {
      var accept, reject := Proposal(pid, Accept, BranchUsdc), Proposal(pid, Reject, BranchUsdc);
      RunThree(Held(), Move.Debit(accept, who, amount), Move.Debit(reject, who, amount), Move.Debit(reject, who, 0));
      ok := Debit(accept, who, amount);
      if ok {
        ok := Debit(reject, who, amount);
      }
    }

    method DoSplitBaseline(epoch: nat, who: u8, amount: u128) returns (ok: bool)
      requires Valid()
      modifies this
      ensures Valid() && Outcome(Held(), ok) == Perform(old(Held()), SplitBaseline(epoch, who, amount))
    {
      var long, short := Baseline(epoch, ScalarSide.Long), Baseline(epoch, ScalarSide.Short);
      RunThree(Held(), Move.Credit(long, who, amount), Move.Credit(short, who, amount), Move.Credit(short, who, 0));
      ok := Credit(long, who, amount);
      if ok {
        ok := Credit(short, who, amount);
      }
    }

    method DoMergeBaseline(epoch: nat, who: u8, amount: u128) returns (ok: bool)
      requires Valid()
      modifies this
      ensures Valid() && Outcome(Held(), ok) == Perform(old(Held()), MergeBaseline(epoch, who, amount))
    {
      var long, short := Baseline(epoch, ScalarSide.Long), Baseline(epoch, ScalarSide.Short);
      RunThree(Held(), Move.Debit(long, who, amount), Move.Debit(short, who, amount), Move.Debit(short, who, 0));
      ok := Debit(long, who, amount);
      if ok {
        ok := Debit(short, who, amount);
      }
    }

    /** Debit the branch-USDC leg, then credit the two legs of a pair. */
    method SplitPair(usdc: PositionId, left: PositionId, right: PositionId, who: u8, amount: u128) returns (ok: bool)
      requires Valid()
      modifies this
      ensures Valid()
      ensures Outcome(Held(), ok) ==
              RunMoves(old(Held()), [Move.Debit(usdc, who, amount), Move.Credit(left, who, amount),
                                     Move.Credit(right, who, amount)])
    {
      RunThree(Held(), Move.Debit(usdc, who, amount), Move.Credit(left, who, amount), Move.Credit(right, who, amount));
      ok := Debit(usdc, who, amount);
      if ok {
        ok := Credit(left, who, amount);
      }
      if ok {
        ok := Credit(right, who, amount);
      }
    }

    method MergePair(usdc: PositionId, left: PositionId, right: PositionId, who: u8, amount: u128) returns (ok: bool)
      requires Valid()
      modifies this
      ensures Valid()
      ensures Outcome(Held(), ok) ==
              RunMoves(old(Held()), [Move.Debit(left, who, amount), Move.Debit(right, who, amount),
                                     Move.Credit(usdc, who, amount)])
    {
      RunThree(Held(), Move.Debit(left, who, amount), Move.Debit(right, who, amount), Move.Credit(usdc, who, amount));
      ok := Debit(left, who, amount);
      if ok {
        ok := Debit(right, who, amount);
      }
      if ok {
        ok := Credit(usdc, who, amount);
      }
    }

    method DoSplitScalar(pid: nat, branch: Branch, who: u8, amount: u128) returns (ok: bool)
      requires Valid()
      modifies this
      ensures Valid() && Outcome(Held(), ok) == Perform(old(Held()), SplitScalar(pid, branch, who, amount))
    {
      ok := SplitPair(Proposal(pid, branch, BranchUsdc), Proposal(pid, branch, PositionKind.Long),
                      Proposal(pid, branch, PositionKind.Short), who, amount);
    }

    method DoMergeScalar(pid: nat, branch: Branch, who: u8, amount: u128) returns (ok: bool)
      requires Valid()
      modifies this
      ensures Valid() && Outcome(Held(), ok) == Perform(old(Held()), MergeScalar(pid, branch, who, amount))
    {
      ok := MergePair(Proposal(pid, branch, BranchUsdc), Proposal(pid, branch, PositionKind.Long),
                      Proposal(pid, branch, PositionKind.Short), who, amount);
    }

    method DoSplitGate(pid: nat, branch: Branch, gate: GateType, who: u8, amount: u128) returns (ok: bool)
      requires Valid()
      modifies this
      ensures Valid() && Outcome(Held(), ok) == Perform(old(Held()), SplitGate(pid, branch, gate, who, amount))
    {
      ok := SplitPair(Proposal(pid, branch, BranchUsdc), Proposal(pid, branch, GateYes(gate)),
                      Proposal(pid, branch, GateNo(gate)), who, amount);
    }

    method DoMergeGate(pid: nat, branch: Branch, gate: GateType, who: u8, amount: u128) returns (ok: bool)
      requires Valid()
      modifies this
      ensures Valid() && Outcome(Held(), ok) == Perform(old(Held()), MergeGate(pid, branch, gate, who, amount))
    {
      ok := MergePair(Proposal(pid, branch, BranchUsdc), Proposal(pid, branch, GateYes(gate)),
                      Proposal(pid, branch, GateNo(gate)), who, amount);
    }

    /** Dispatch one operation to the method that carries it out. */
    method Do(op: LedgerOp) returns (ok: bool)
      requires Valid()
      modifies this
      ensures Valid() && Outcome(Held(), ok) == Perform(old(Held()), op)
    {
      match op
      case Split(p, who, a) => ok := DoSplit(p, who, a);
      case Merge(p, who, a) => ok := DoMerge(p, who, a);
      case Transfer(id, sender, receiver, a) => ok := DoTransfer(id, sender, receiver, a);
      case SplitScalar(p, b, who, a) => ok := DoSplitScalar(p, b, who, a);
      case MergeScalar(p, b, who, a) => ok := DoMergeScalar(p, b, who, a);
      case SplitGate(p, b, g, who, a) => ok := DoSplitGate(p, b, g, who, a);
      case MergeGate(p, b, g, who, a) => ok := DoMergeGate(p, b, g, who, a);
      case SplitBaseline(e, who, a) => ok := DoSplitBaseline(e, who, a);
      case MergeBaseline(e, who, a) => ok := DoMergeBaseline(e, who, a);
    }

    /** Operations one after another, stopping at the first failure with nothing undone. */
    method DoAll(ops: seq<LedgerOp>) returns (ok: bool)
      requires Valid()
      modifies this
      ensures Valid() && Outcome(Held(), ok) == Play(old(Held()), ops)
    {
      ok := true;
      var i := 0;
      while i < |ops| && ok
        invariant 0 <= i <= |ops| && Valid()
        invariant Play(old(Held()), ops) == if ok then Play(Held(), ops[i..]) else Outcome(Held(), false)
      {
        assert ops[i..][1..] == ops[i + 1..];
        ok := Do(ops[i]);
        i := i + 1;
      }
    }
  }

  // ---- composites ---------------------------------------------------------------

  function Play(held: Holdings, ops: seq<LedgerOp>): Outcome
    decreases |ops|
  {
    if ops == [] then Outcome(held, true)
    else
      var first := Perform(held, ops[0]);
      if first.ok then Play(first.held, ops[1..]) else first
  }

  lemma {:induction false} PlayAppend(held: Holdings, a: seq<LedgerOp>, b: seq<LedgerOp>)
    ensures Play(held, a + b) == if Play(held, a).ok then Play(Play(held, a).held, b) else Play(held, a)
    decreases |a|
  {
    if a == [] {
      assert a + b == b;
    } else {
      assert (a + b)[1..] == a[1..] + b;
      PlayAppend(Perform(held, a[0]).held, a[1..], b);
    }
  }

  function Atomic(held: Holdings, ops: seq<LedgerOp>): Holdings {
    var end := Play(held, ops);
    if end.ok then end.held else held
  }
}
