/** Exactly when the ledger lets a trade through. */
module Acceptance {
  import opened Common
  import opened Positions
  import opened Ledger
  import opened Book

  predicate Fits(held: Holdings, key: Key, amount: nat) { BalanceOf(held, key) + amount <= U128_MAX }

  /** No credit of a buy overflows. */
  predicate BuyFits(s: Setup, held: Holdings, side: ScalarSide, amount: u128, quote: Quote) {
    && Fits(held, s.Leg(ScalarSide.Long, s.account), quote.cash)
    && Fits(held, s.Leg(ScalarSide.Short, s.account), quote.cash)
    && Fits(held, s.Leg(side, s.trader), amount)
    && Fits(held, Key(FeeSet(s).0, s.trader), quote.cash + quote.fee)
    && Fits(held, Key(FeeSet(s).1, s.trader), quote.cash + quote.fee)
    && Fits(held, Key(FeeSet(s).0, s.fees), quote.fee)
    && Fits(held, Key(FeeSet(s).1, s.fees), quote.fee)
    && (!s.kind.BaselineBook? ==> Fits(held, s.Usdc(s.account), quote.cash))
  }

  /** A debit needs an entry even for nothing, so a buy at no cost needs the entries it debits. */
  predicate BuyOpen(s: Setup, held: Holdings, side: ScalarSide, quote: Quote) {
    quote.cash > 0 ||
    (&& s.Leg(side, s.account) in held
     && (quote.fee > 0 || Key(FeeSet(s).0, s.trader) in held)
     && if s.kind.BaselineBook? then quote.fee > 0 || Key(FeeSet(s).1, s.trader) in held
        else s.Usdc(s.account) in held)
  }

  /** Every entry outside `touched` is as it was. */
  ghost predicate Only(before: Holdings, after: Holdings, touched: set<Key>) {
    forall key | key !in touched ::
      (key in after <==> key in before) && BalanceOf(after, key) == BalanceOf(before, key)
  }

  /** An entry grew by `amount`, and exists if it did before or the amount is positive. */
  predicate Grew(before: Holdings, after: Holdings, key: Key, amount: nat) {
    && BalanceOf(after, key) == BalanceOf(before, key) + amount
    && (key in after <==> key in before || amount > 0)
  }

  predicate Shrank(before: Holdings, after: Holdings, key: Key, amount: nat) {
    (key in after <==> key in before) && BalanceOf(after, key) == BalanceOf(before, key) - amount
  }

  predicate Covers(held: Holdings, key: Key, amount: nat) { key in held && held[key] >= amount }

  lemma TransferStep(held: Holdings, id: PositionId, x: u8, y: u8, amount: u128)
    requires x != y
    ensures
      var end := Perform(held, Transfer(id, x, y, amount));
      && (end.ok <==> Covers(held, Key(id, x), amount) && Fits(held, Key(id, y), amount))
      && (end.ok ==> && Shrank(held, end.held, Key(id, x), amount) && Grew(held, end.held, Key(id, y), amount)
                     && Only(held, end.held, {Key(id, x), Key(id, y)}))
  {
    RunThree(held, Move.Debit(id, x, amount), Move.Credit(id, y, amount), Move.Credit(id, y, amount));
  }

  /** Credit two different entries. */
  lemma CreditsStep(held: Holdings, left: PositionId, right: PositionId, who: u8, amount: u128)
    requires left != right
    ensures
      var end := RunMoves(held, [Move.Credit(left, who, amount), Move.Credit(right, who, amount)]);
      && (end.ok <==> Fits(held, Key(left, who), amount) && Fits(held, Key(right, who), amount))
      && (end.ok ==> && Grew(held, end.held, Key(left, who), amount) && Grew(held, end.held, Key(right, who), amount)
                     && Only(held, end.held, {Key(left, who), Key(right, who)}))
  {
    RunThree(held, Move.Credit(left, who, amount), Move.Credit(right, who, amount), Move.Credit(right, who, amount));
  }

  lemma DebitsStep(held: Holdings, left: PositionId, right: PositionId, who: u8, amount: u128)
    requires left != right
    ensures
      var end := RunMoves(held, [Move.Debit(left, who, amount), Move.Debit(right, who, amount)]);
      && (end.ok <==> Covers(held, Key(left, who), amount) && Covers(held, Key(right, who), amount))
      && (end.ok ==> && Shrank(held, end.held, Key(left, who), amount)
                     && Shrank(held, end.held, Key(right, who), amount)
                     && Only(held, end.held, {Key(left, who), Key(right, who)}))
  {
    RunThree(held, Move.Debit(left, who, amount), Move.Debit(right, who, amount), Move.Debit(right, who, amount));
  }

  /** One position becomes a pair of others. */
  lemma ConvertStep(held: Holdings, usdc: PositionId, left: PositionId, right: PositionId, who: u8, amount: u128)
    requires usdc != left && usdc != right && left != right
    ensures
      var u, l, r := Key(usdc, who), Key(left, who), Key(right, who);
      var end := RunMoves(held, [Move.Debit(usdc, who, amount), Move.Credit(left, who, amount),
                                 Move.Credit(right, who, amount)]);
      && (end.ok <==> Covers(held, u, amount) && Fits(held, l, amount) && Fits(held, r, amount))
      && (end.ok ==> && Shrank(held, end.held, u, amount)
                     && Grew(held, end.held, l, amount) && Grew(held, end.held, r, amount)
                     && Only(held, end.held, {u, l, r}))
  {
    RunThree(held, Move.Debit(usdc, who, amount), Move.Credit(left, who, amount), Move.Credit(right, who, amount));
  }

  /** A pair of positions becomes another one. */
  lemma UnconvertStep(held: Holdings, usdc: PositionId, left: PositionId, right: PositionId, who: u8, amount: u128)
    requires usdc != left && usdc != right && left != right
    ensures
      var u, l, r := Key(usdc, who), Key(left, who), Key(right, who);
      var end := RunMoves(held, [Move.Debit(left, who, amount), Move.Debit(right, who, amount),
                                 Move.Credit(usdc, who, amount)]);
      && (end.ok <==> Covers(held, l, amount) && Covers(held, r, amount) && Fits(held, u, amount))
      && (end.ok ==> && Grew(held, end.held, u, amount)
                     && Shrank(held, end.held, l, amount) && Shrank(held, end.held, r, amount)
                     && Only(held, end.held, {u, l, r}))
  {
    RunThree(held, Move.Debit(left, who, amount), Move.Debit(right, who, amount), Move.Credit(usdc, who, amount));
  }

  lemma SplitLegsStep(s: Setup, held: Holdings, who: u8, amount: u128)
    requires !s.kind.BaselineBook?
    ensures
      var usdc, l, r := s.Usdc(who), s.Leg(ScalarSide.Long, who), s.Leg(ScalarSide.Short, who);
      var end := Perform(held, SplitLegs(s.kind, who, amount));
      && (end.ok <==> Covers(held, usdc, amount) && Fits(held, l, amount) && Fits(held, r, amount))
      && (end.ok ==> && Shrank(held, end.held, usdc, amount)
                     && Grew(held, end.held, l, amount) && Grew(held, end.held, r, amount)
                     && Only(held, end.held, {usdc, l, r}))
  {
    var usdc, l, r := s.Usdc(who), s.Leg(ScalarSide.Long, who), s.Leg(ScalarSide.Short, who);
    ConvertStep(held, usdc.id, l.id, r.id, who, amount);
    assert MovesOf(SplitLegs(s.kind, who, amount)) ==
           [Move.Debit(usdc.id, who, amount), Move.Credit(l.id, who, amount), Move.Credit(r.id, who, amount)];
  }

  lemma MergeLegsStep(s: Setup, held: Holdings, who: u8, amount: u128)
    requires !s.kind.BaselineBook?
    ensures
      var usdc, l, r := s.Usdc(who), s.Leg(ScalarSide.Long, who), s.Leg(ScalarSide.Short, who);
      var end := Perform(held, MergeLegs(s.kind, who, amount));
      && (end.ok <==> Covers(held, l, amount) && Covers(held, r, amount) && Fits(held, usdc, amount))
      && (end.ok ==> && Grew(held, end.held, usdc, amount)
                     && Shrank(held, end.held, l, amount) && Shrank(held, end.held, r, amount)
                     && Only(held, end.held, {usdc, l, r}))
  {
    var usdc, l, r := s.Usdc(who), s.Leg(ScalarSide.Long, who), s.Leg(ScalarSide.Short, who);
    UnconvertStep(held, usdc.id, l.id, r.id, who, amount);
    assert MovesOf(MergeLegs(s.kind, who, amount)) ==
           [Move.Debit(l.id, who, amount), Move.Debit(r.id, who, amount), Move.Credit(usdc.id, who, amount)];
  }

  lemma PlayOne(held: Holdings, op: LedgerOp)
    ensures Play(held, [op]) == Perform(held, op)
  {
    assert [op][1..] == [];
  }

  /** A transfer that is skipped when there is nothing to move. */
  lemma TransferIfAny(held: Holdings, id: PositionId, x: u8, y: u8, amount: u128)
    requires x != y
    ensures
      var end := Play(held, IfAny(Transfer(id, x, y, amount)));
      && (end.ok <==> BalanceOf(held, Key(id, x)) >= amount && Fits(held, Key(id, y), amount))
      && (end.ok ==> && Shrank(held, end.held, Key(id, x), amount) && Grew(held, end.held, Key(id, y), amount)
                     && Only(held, end.held, {Key(id, x), Key(id, y)}))
  {
    PlayOne(held, Transfer(id, x, y, amount));
    TransferStep(held, id, x, y, amount);
  }

  /** Two transfers out of one account, each skipped when there is nothing to move. */
  lemma TransfersIfAny(held: Holdings, a: PositionId, b: PositionId, x: u8, y: u8, amount: u128)
    requires x != y && a != b
    requires BalanceOf(held, Key(a, x)) >= amount && BalanceOf(held, Key(b, x)) >= amount
    ensures
      var end := Play(held, IfAny(Transfer(a, x, y, amount)) + IfAny(Transfer(b, x, y, amount)));
      && (end.ok <==> Fits(held, Key(a, y), amount) && Fits(held, Key(b, y), amount))
      && (end.ok ==> && Shrank(held, end.held, Key(a, x), amount) && Shrank(held, end.held, Key(b, x), amount)
                     && Only(held, end.held, {Key(a, x), Key(b, x), Key(a, y), Key(b, y)}))
  {
    PlayAppend(held, IfAny(Transfer(a, x, y, amount)), IfAny(Transfer(b, x, y, amount)));
    TransferIfAny(held, a, x, y, amount);
    var h1 := Play(held, IfAny(Transfer(a, x, y, amount)));
    if h1.ok {
      TransferIfAny(h1.held, b, x, y, amount);
    }
  }

  /** A split, seen from one of its branches. */
  lemma SplitStep(held: Holdings, p: nat, b: Branch, who: u8, amount: u128)
    ensures
      var here, there := Key(Proposal(p, b, BranchUsdc), who), Key(Proposal(p, OtherBranch(b), BranchUsdc), who);
      var end := Perform(held, Split(p, who, amount));
      && (end.ok <==> Fits(held, here, amount) && Fits(held, there, amount))
      && (end.ok ==> && Grew(held, end.held, here, amount) && Grew(held, end.held, there, amount)
                     && Only(held, end.held, {here, there}))
  {
    CreditsStep(held, Proposal(p, Accept, BranchUsdc), Proposal(p, Reject, BranchUsdc), who, amount);
  }

  /** The fee set is paid unless a credit of the fees account overflows. */
  lemma FeePaid(s: Setup, held: Holdings, fee: u128)
    requires s.Valid()
    requires BalanceOf(held, Key(FeeSet(s).0, s.trader)) >= fee && BalanceOf(held, Key(FeeSet(s).1, s.trader)) >= fee
    ensures
      var (here, there) := FeeSet(s);
      var end := Play(held, FeeLegs(s, fee));
      && (end.ok <==> Fits(held, Key(here, s.fees), fee) && Fits(held, Key(there, s.fees), fee))
      && (end.ok ==> && Shrank(held, end.held, Key(here, s.trader), fee)
                     && Shrank(held, end.held, Key(there, s.trader), fee)
                     && Only(held, end.held, {Key(here, s.trader), Key(there, s.trader),
                                              Key(here, s.fees), Key(there, s.fees)}))
  {
    TransfersIfAny(held, FeeSet(s).0, FeeSet(s).1, s.trader, s.fees, fee);
  }

  /** Cash enters a branch as a complete set, and the cost goes to the book. */
  lemma BranchPaid(s: Setup, held: Holdings, quote: Quote)
    requires s.Valid() && !s.kind.BaselineBook? && quote.cash + quote.fee <= U128_MAX
    ensures
      var total := quote.cash + quote.fee;
      var end := Play(held, Payment(s, quote));
      && (end.ok <==> && Fits(held, s.Usdc(s.trader), total) && Fits(held, s.Mirror(s.trader), total)
                      && Fits(held, s.Usdc(s.account), quote.cash)
                      && (total > 0 || s.Usdc(s.trader) in held))
      && (end.ok ==> && BalanceOf(end.held, s.Usdc(s.trader)) >= quote.fee
                     && BalanceOf(end.held, s.Mirror(s.trader)) >= quote.fee
                     && Grew(held, end.held, s.Usdc(s.account), quote.cash)
                     && Only(held, end.held, {s.Usdc(s.trader), s.Mirror(s.trader), s.Usdc(s.account)}))
  {
    var id, total := LiquidPosition(s.kind).value, quote.cash + quote.fee;
    var split, pay := Split(id.proposal, s.trader, total), Transfer(id, s.trader, s.account, quote.cash);
    assert Payment(s, quote) == [split] + [pay];
    PlayAppend(held, [split], [pay]);
    PlayOne(held, split);
    SplitStep(held, id.proposal, id.branch, s.trader, total);
    var h1 := Perform(held, split);
    if h1.ok {
      PlayOne(h1.held, pay);
      TransferStep(h1.held, id, s.trader, s.account, quote.cash);
    }
  }

  /** The book's legs take the pair for the cost, and the side can then be paid out of them. */
  predicate Deliverable(s: Setup, held: Holdings, side: ScalarSide, amount: u128, cash: u128) {
    && Fits(held, s.Leg(ScalarSide.Long, s.account), cash)
    && Fits(held, s.Leg(ScalarSide.Short, s.account), cash)
    && (cash > 0 || s.Leg(side, s.account) in held)
    && BalanceOf(held, s.Leg(side, s.account)) + cash >= amount
  }

  /** With the cost in the book, the pair is split and the side delivered exactly when the
      leg then covers it and no credit overflows. */
  lemma BranchDelivered(s: Setup, held: Holdings, side: ScalarSide, amount: u128, cash: u128)
    requires s.Valid() && !s.kind.BaselineBook? && BalanceOf(held, s.Usdc(s.account)) >= cash
    ensures
      Play(held, Delivery(s, side, amount, cash)).ok <==>
        && s.Usdc(s.account) in held && Deliverable(s, held, side, amount, cash)
        && Fits(held, s.Leg(side, s.trader), amount)
  {
    var split := SplitLegs(s.kind, s.account, cash);
    var pay := Transfer(SidePosition(s.kind, side), s.account, s.trader, amount);
    PlayAppend(held, [split], [pay]);
    PlayOne(held, split);
    SplitLegsStep(s, held, s.account, cash);
    var h1 := Perform(held, split);
    if h1.ok {
      PlayOne(h1.held, pay);
      TransferStep(h1.held, SidePosition(s.kind, side), s.account, s.trader, amount);
      assert s.Leg(side, s.trader) !in
             {s.Usdc(s.account), s.Leg(ScalarSide.Long, s.account), s.Leg(ScalarSide.Short, s.account)};
    }
  }

  /** Cost and fee of a buy leave every leg of the book and the trader alone. */
  lemma BranchLegsUnmoved(s: Setup, before: Holdings, after: Holdings, side: ScalarSide, amount: u128, cash: u128)
    requires s.Valid() && !s.kind.BaselineBook?
    requires Only(before, after, {s.Usdc(s.trader), s.Mirror(s.trader), s.Usdc(s.account),
                                  s.Usdc(s.fees), s.Mirror(s.fees)})
    ensures Deliverable(s, after, side, amount, cash) <==> Deliverable(s, before, side, amount, cash)
    ensures Fits(after, s.Leg(side, s.trader), amount) <==> Fits(before, s.Leg(side, s.trader), amount)
  {
    var touched := {s.Usdc(s.trader), s.Mirror(s.trader), s.Usdc(s.account), s.Usdc(s.fees), s.Mirror(s.fees)};
    assert s.Leg(ScalarSide.Long, s.account) !in touched && s.Leg(ScalarSide.Short, s.account) !in touched;
    assert s.Leg(side, s.trader) !in touched;
  }

  /** Payment and fee of a branch buy, up to the delivery. */
  lemma BranchCashArrives(s: Setup, held: Holdings, quote: Quote)
    requires s.Valid() && !s.kind.BaselineBook? && quote.cash + quote.fee <= U128_MAX
    ensures
      var total := quote.cash + quote.fee;
      var end := Play(held, Payment(s, quote) + FeeLegs(s, quote.fee));
      && (end.ok <==> && Fits(held, s.Usdc(s.trader), total) && Fits(held, s.Mirror(s.trader), total)
                      && Fits(held, s.Usdc(s.account), quote.cash)
                      && Fits(held, s.Usdc(s.fees), quote.fee) && Fits(held, s.Mirror(s.fees), quote.fee)
                      && (total > 0 || s.Usdc(s.trader) in held))
      && (end.ok ==> && Grew(held, end.held, s.Usdc(s.account), quote.cash)
                     && Only(held, end.held, {s.Usdc(s.trader), s.Mirror(s.trader), s.Usdc(s.account),
                                              s.Usdc(s.fees), s.Mirror(s.fees)}))
  {
    PlayAppend(held, Payment(s, quote), FeeLegs(s, quote.fee));
    BranchPaid(s, held, quote);
    var h1 := Play(held, Payment(s, quote));
    if h1.ok {
      FeePaid(s, h1.held, quote.fee);
    }
  }

  /** A branch buy goes through exactly when no credit overflows, the entries it debits exist, and
      the leg, with the cost split into it, covers the amount. */
  lemma BranchBuyAccepted(s: Setup, held: Holdings, side: ScalarSide, amount: u128, quote: Quote)
    requires s.Valid() && !s.kind.BaselineBook? && quote.cash + quote.fee <= U128_MAX
    ensures Play(held, BuyOps(s, side, amount, quote)).ok <==>
            && BuyFits(s, held, side, amount, quote) && BuyOpen(s, held, side, quote)
            && BalanceOf(held, s.Leg(side, s.account)) + quote.cash >= amount
  {
    var cash := Payment(s, quote) + FeeLegs(s, quote.fee);
    PlayAppend(held, cash, Delivery(s, side, amount, quote.cash));
    BranchCashArrives(s, held, quote);
    var h1 := Play(held, cash);
    if h1.ok {
      BranchDelivered(s, h1.held, side, amount, quote.cash);
      BranchLegsUnmoved(s, held, h1.held, side, amount, quote.cash);
    }
  }

  /** The buyer's pairs are minted and the fee pair is set aside, before anything is delivered. */
  lemma BaselineCashArrives(s: Setup, held: Holdings, quote: Quote)
    requires s.Valid() && s.kind.BaselineBook? && quote.cash + quote.fee <= U128_MAX
    ensures
      var total, l, r := quote.cash + quote.fee, s.Leg(ScalarSide.Long, s.trader), s.Leg(ScalarSide.Short, s.trader);
      var end := Play(held, Payment(s, quote) + FeeLegs(s, quote.fee));
      && (end.ok <==> && Fits(held, l, total) && Fits(held, r, total)
                      && Fits(held, s.Leg(ScalarSide.Long, s.fees), quote.fee)
                      && Fits(held, s.Leg(ScalarSide.Short, s.fees), quote.fee))
      && (end.ok ==> && BalanceOf(end.held, l) == BalanceOf(held, l) + quote.cash
                     && BalanceOf(end.held, r) == BalanceOf(held, r) + quote.cash
                     && (l in end.held <==> l in held || total > 0) && (r in end.held <==> r in held || total > 0)
                     && Only(held, end.held, {l, r, s.Leg(ScalarSide.Long, s.fees), s.Leg(ScalarSide.Short, s.fees)}))
  {
    var mint := SplitBaseline(s.kind.epoch, s.trader, quote.cash + quote.fee);
    PlayAppend(held, Payment(s, quote), FeeLegs(s, quote.fee));
    PlayOne(held, mint);
    CreditsStep(held, FeeSet(s).0, FeeSet(s).1, s.trader, quote.cash + quote.fee);
    var h1 := Perform(held, mint);
    if h1.ok {
      FeePaid(s, h1.held, quote.fee);
    }
  }

  /** The buyer's pairs become the book's, and the side is paid out of them. */
  lemma BaselineDelivered(s: Setup, held: Holdings, side: ScalarSide, amount: u128, cash: u128)
    requires s.Valid() && s.kind.BaselineBook?
    requires BalanceOf(held, s.Leg(ScalarSide.Long, s.trader)) >= cash
    requires BalanceOf(held, s.Leg(ScalarSide.Short, s.trader)) >= cash
    ensures
      Play(held, Delivery(s, side, amount, cash)).ok <==>
        && s.Leg(ScalarSide.Long, s.trader) in held && s.Leg(ScalarSide.Short, s.trader) in held
        && Deliverable(s, held, side, amount, cash)
        && BalanceOf(held, s.Leg(side, s.trader)) - cash + amount <= U128_MAX
  {
    var (long, short) := FeeSet(s);
    var first, second := Transfer(long, s.trader, s.account, cash), Transfer(short, s.trader, s.account, cash);
    var pay := Transfer(SidePosition(s.kind, side), s.account, s.trader, amount);
    assert [first, second] == [first] + [second];
    PlayAppend(held, [first, second], [pay]);
    PlayAppend(held, [first], [second]);
    PlayOne(held, first);
    TransferStep(held, long, s.trader, s.account, cash);
    var h1 := Perform(held, first);
    if h1.ok {
      PlayOne(h1.held, second);
      TransferStep(h1.held, short, s.trader, s.account, cash);
      var h2 := Perform(h1.held, second);
      if h2.ok {
        PlayOne(h2.held, pay);
        TransferStep(h2.held, SidePosition(s.kind, side), s.account, s.trader, amount);
      }
    }
  }

  /** Minting the buyer's pairs and setting the fee aside leaves the legs of the book alone. */
  lemma BaselineLegsUnmoved(s: Setup, before: Holdings, after: Holdings, side: ScalarSide, amount: u128, cash: u128)
    requires s.Valid() && s.kind.BaselineBook?
    requires Only(before, after, {s.Leg(ScalarSide.Long, s.trader), s.Leg(ScalarSide.Short, s.trader),
                                  s.Leg(ScalarSide.Long, s.fees), s.Leg(ScalarSide.Short, s.fees)})
    ensures Deliverable(s, after, side, amount, cash) <==> Deliverable(s, before, side, amount, cash)
  {
    var touched := {s.Leg(ScalarSide.Long, s.trader), s.Leg(ScalarSide.Short, s.trader),
                    s.Leg(ScalarSide.Long, s.fees), s.Leg(ScalarSide.Short, s.fees)};
    assert s.Leg(ScalarSide.Long, s.account) !in touched && s.Leg(ScalarSide.Short, s.account) !in touched;
  }

  /** The same for a baseline book. */
  lemma BaselineBuyAccepted(s: Setup, held: Holdings, side: ScalarSide, amount: u128, quote: Quote)
    requires s.Valid() && s.kind.BaselineBook? && quote.cash + quote.fee <= U128_MAX
    ensures Play(held, BuyOps(s, side, amount, quote)).ok <==>
            && BuyFits(s, held, side, amount, quote) && BuyOpen(s, held, side, quote)
            && BalanceOf(held, s.Leg(side, s.account)) + quote.cash >= amount
  {
    var cash := Payment(s, quote) + FeeLegs(s, quote.fee);
    PlayAppend(held, cash, Delivery(s, side, amount, quote.cash));
    BaselineCashArrives(s, held, quote);
    var h1 := Play(held, cash);
    if h1.ok {
      BaselineDelivered(s, h1.held, side, amount, quote.cash);
      BaselineLegsUnmoved(s, held, h1.held, side, amount, quote.cash);
    }
  }

  lemma BuyAccepted(s: Setup, held: Holdings, side: ScalarSide, amount: u128, quote: Quote)
    requires s.Valid() && quote.cash + quote.fee <= U128_MAX
    ensures Play(held, BuyOps(s, side, amount, quote)).ok <==>
            && BuyFits(s, held, side, amount, quote) && BuyOpen(s, held, side, quote)
            && BalanceOf(held, s.Leg(side, s.account)) + quote.cash >= amount
  {
    if s.kind.BaselineBook? {
      BaselineBuyAccepted(s, held, side, amount, quote);
    } else {
      BranchBuyAccepted(s, held, side, amount, quote);
    }
  }

  function OtherSide(side: ScalarSide): ScalarSide { if side.Long? then ScalarSide.Short else ScalarSide.Long }

  /** No credit of a sell overflows. */
  predicate SellFits(s: Setup, held: Holdings, side: ScalarSide, amount: u128, quote: Quote)
    requires quote.fee <= quote.cash
  {
    var net := quote.cash - quote.fee;
    && Fits(held, s.Leg(side, s.account), amount)
    && if s.kind.BaselineBook? then
         && BalanceOf(held, s.Leg(side, s.trader)) - amount + net <= U128_MAX
         && Fits(held, s.Leg(OtherSide(side), s.trader), net)
       else
         && Fits(held, s.Usdc(s.account), quote.cash)
         && Fits(held, s.Usdc(s.trader), net)
         && Fits(held, s.Usdc(s.fees), quote.fee)
  }

  /** The trader holds what is sold, and both legs of the book cover the merged pairs. */
  predicate SellCovered(s: Setup, held: Holdings, side: ScalarSide, amount: u128, cash: nat) {
    && Covers(held, s.Leg(side, s.trader), amount)
    && BalanceOf(held, s.Leg(side, s.account)) + amount >= cash
    && BalanceOf(held, s.Leg(OtherSide(side), s.account)) >= cash
  }

  /** The side comes back and the pairs merge exactly when they are covered. */
  lemma BranchPairsMerge(s: Setup, held: Holdings, side: ScalarSide, amount: u128, cash: u128)
    requires s.Valid() && !s.kind.BaselineBook?
    ensures
      var end := Play(held, [Transfer(SidePosition(s.kind, side), s.trader, s.account, amount)] +
                            IfAny(MergeLegs(s.kind, s.account, cash)));
      && (end.ok <==> && SellCovered(s, held, side, amount, cash)
                      && Fits(held, s.Leg(side, s.account), amount) && Fits(held, s.Usdc(s.account), cash))
      && (end.ok ==> && BalanceOf(end.held, s.Usdc(s.account)) == BalanceOf(held, s.Usdc(s.account)) + cash
                     && BalanceOf(end.held, s.Usdc(s.trader)) == BalanceOf(held, s.Usdc(s.trader))
                     && BalanceOf(end.held, s.Usdc(s.fees)) == BalanceOf(held, s.Usdc(s.fees))
                     && BalanceOf(end.held, s.Mirror(s.trader)) == BalanceOf(held, s.Mirror(s.trader)))
  {
    var id, merge := SidePosition(s.kind, side), MergeLegs(s.kind, s.account, cash);
    var back := Transfer(id, s.trader, s.account, amount);
    assert id.Proposal? && !id.kind.BranchUsdc?;
    PlayAppend(held, [back], IfAny(merge));
    PlayOne(held, back);
    TransferStep(held, id, s.trader, s.account, amount);
    var h1 := Perform(held, back);
    if h1.ok {
      var other := s.Leg(OtherSide(side), s.account);
      assert BalanceOf(h1.held, other) == BalanceOf(held, other);
      PlayOne(h1.held, merge);
      MergeLegsStep(s, h1.held, s.account, cash);
    }
  }

  /** Fee and net are paid out of the merged USDC unless a credit overflows. */
  lemma BranchProceedsPaid(s: Setup, held: Holdings, net: u128, fee: u128)
    requires s.Valid() && !s.kind.BaselineBook? && BalanceOf(held, s.Usdc(s.account)) >= net + fee
    ensures
      var id := LiquidPosition(s.kind).value;
      var forFees, forTrader := Transfer(id, s.account, s.fees, fee), Transfer(id, s.account, s.trader, net);
      var end := Play(held, IfAny(forFees) + IfAny(forTrader));
      && (end.ok <==> Fits(held, s.Usdc(s.fees), fee) && Fits(held, s.Usdc(s.trader), net))
      && (end.ok ==> && BalanceOf(end.held, s.Usdc(s.trader)) >= net
                     && BalanceOf(end.held, s.Mirror(s.trader)) == BalanceOf(held, s.Mirror(s.trader)))
  {
    var id := LiquidPosition(s.kind).value;
    PlayAppend(held, IfAny(Transfer(id, s.account, s.fees, fee)), IfAny(Transfer(id, s.account, s.trader, net)));
    TransferIfAny(held, id, s.account, s.fees, fee);
    var h1 := Play(held, IfAny(Transfer(id, s.account, s.fees, fee)));
    if h1.ok {
      TransferIfAny(h1.held, id, s.account, s.trader, net);
    }
  }

  /** A branch payout, up to the merge of the net: when it goes through, and that the trader's mirror
      balance is still the one at the start and the net has arrived. */
  lemma BranchPayoutAccepted(s: Setup, held: Holdings, side: ScalarSide, amount: u128, quote: Quote)
    requires s.Valid() && !s.kind.BaselineBook? && quote.fee <= quote.cash
    ensures
      var end := Play(held, Payout(s, side, amount, quote));
      && (end.ok <==> SellFits(s, held, side, amount, quote) && SellCovered(s, held, side, amount, quote.cash))
      && (end.ok ==> && BalanceOf(end.held, s.Usdc(s.trader)) >= quote.cash - quote.fee
                     && BalanceOf(end.held, s.Mirror(s.trader)) == BalanceOf(held, s.Mirror(s.trader)))
  {
    var id, net := LiquidPosition(s.kind).value, quote.cash - quote.fee;
    var back := Transfer(SidePosition(s.kind, side), s.trader, s.account, amount);
    var merge := MergeLegs(s.kind, s.account, quote.cash);
    var fee, pay := Transfer(id, s.account, s.fees, quote.fee), Transfer(id, s.account, s.trader, net);
    assert Payout(s, side, amount, quote) == [back] + IfAny(merge) + (IfAny(fee) + IfAny(pay));
    PlayAppend(held, [back] + IfAny(merge), IfAny(fee) + IfAny(pay));
    BranchPairsMerge(s, held, side, amount, quote.cash);
    var h1 := Play(held, [back] + IfAny(merge));
    if h1.ok {
      BranchProceedsPaid(s, h1.held, net, quote.fee);
    }
  }

  /** The merge of the net is never refused: what it takes is there on both branches. */
  lemma MergeNetGoesThrough(s: Setup, held: Holdings, net: u128)
    requires !s.kind.BaselineBook? && BalanceOf(held, s.Usdc(s.trader)) >= net
    ensures Play(held, MergeNet(s, net, Mirrored(s, held))).ok
  {
    var p, matched := ProposalOf(s.kind), Matched(net, Mirrored(s, held));
    PlayOne(held, Merge(p, s.trader, matched));
    DebitsStep(held, Proposal(p, Accept, BranchUsdc), Proposal(p, Reject, BranchUsdc), s.trader, matched);
  }

  /** A branch sell goes through exactly when no credit overflows, the trader holds the
      amount, and both legs cover the proceeds: a depleted opposite leg refuses it. */
  lemma BranchSellAccepted(s: Setup, held: Holdings, side: ScalarSide, amount: u128, quote: Quote)
    requires s.Valid() && !s.kind.BaselineBook? && quote.fee <= quote.cash
    ensures Play(held, SellOps(s, side, amount, quote, Mirrored(s, held))).ok <==>
            SellFits(s, held, side, amount, quote) && SellCovered(s, held, side, amount, quote.cash)
  {
    var net := quote.cash - quote.fee;
    PlayAppend(held, Payout(s, side, amount, quote), MergeNet(s, net, Mirrored(s, held)));
    BranchPayoutAccepted(s, held, side, amount, quote);
    var h1 := Play(held, Payout(s, side, amount, quote));
    if h1.ok {
      MergeNetGoesThrough(s, h1.held, net);
    }
  }

  /** On a baseline book the side comes back and pairs merge exactly when they are covered. */
  lemma BaselinePairsMerge(s: Setup, held: Holdings, side: ScalarSide, amount: u128, cash: u128)
    requires s.Valid() && s.kind.BaselineBook?
    ensures
      var end := Play(held, [Transfer(SidePosition(s.kind, side), s.trader, s.account, amount)] +
                            IfAny(MergeBaseline(s.kind.epoch, s.account, cash)));
      && (end.ok <==> SellCovered(s, held, side, amount, cash) && Fits(held, s.Leg(side, s.account), amount))
      && (end.ok ==>
            && BalanceOf(end.held, s.Leg(side, s.trader)) == BalanceOf(held, s.Leg(side, s.trader)) - amount
            && BalanceOf(end.held, s.Leg(OtherSide(side), s.trader)) ==
               BalanceOf(held, s.Leg(OtherSide(side), s.trader))
            && Fits(end.held, s.Leg(ScalarSide.Long, s.account), cash)
            && Fits(end.held, s.Leg(ScalarSide.Short, s.account), cash))
  {
    var id, other := SidePosition(s.kind, side), SidePosition(s.kind, OtherSide(side));
    var back, merge := Transfer(id, s.trader, s.account, amount), MergeBaseline(s.kind.epoch, s.account, cash);
    PlayAppend(held, [back], IfAny(merge));
    PlayOne(held, back);
    TransferStep(held, id, s.trader, s.account, amount);
    var h1 := Perform(held, back);
    if h1.ok {
      assert BalanceOf(h1.held, Key(other, s.account)) == BalanceOf(held, Key(other, s.account));
      assert BalanceOf(h1.held, Key(other, s.trader)) == BalanceOf(held, Key(other, s.trader));
      PlayOne(h1.held, merge);
      DebitsStep(h1.held, FeeSet(s).0, FeeSet(s).1, s.account, cash);
    }
  }

  /** The book mints pairs for the net and hands them over unless a credit overflows. */
  lemma BaselineProceedsPaid(s: Setup, held: Holdings, net: u128)
    requires s.Valid() && s.kind.BaselineBook?
    requires Fits(held, s.Leg(ScalarSide.Long, s.account), net) && Fits(held, s.Leg(ScalarSide.Short, s.account), net)
    ensures
      var (long, short) := FeeSet(s);
      var pay := IfAny(Transfer(long, s.account, s.trader, net)) + IfAny(Transfer(short, s.account, s.trader, net));
      Play(held, IfAny(SplitBaseline(s.kind.epoch, s.account, net)) + pay).ok <==>
        Fits(held, Key(long, s.trader), net) && Fits(held, Key(short, s.trader), net)
  {
    var (long, short) := FeeSet(s);
    var split := SplitBaseline(s.kind.epoch, s.account, net);
    var pay := IfAny(Transfer(long, s.account, s.trader, net)) + IfAny(Transfer(short, s.account, s.trader, net));
    PlayAppend(held, IfAny(split), pay);
    PlayOne(held, split);
    CreditsStep(held, long, short, s.account, net);
    TransfersIfAny(Play(held, IfAny(split)).held, long, short, s.account, s.trader, net);
  }

  /** The same for a baseline book. */
  lemma BaselineSellAccepted(s: Setup, held: Holdings, side: ScalarSide, amount: u128, quote: Quote)
    requires s.Valid() && s.kind.BaselineBook? && quote.fee <= quote.cash
    ensures Play(held, SellOps(s, side, amount, quote, 0)).ok <==>
            SellFits(s, held, side, amount, quote) && SellCovered(s, held, side, amount, quote.cash)
  {
    var (long, short) := FeeSet(s);
    var e, net := s.kind.epoch, quote.cash - quote.fee;
    var back := Transfer(SidePosition(s.kind, side), s.trader, s.account, amount);
    var merge := MergeBaseline(e, s.account, quote.cash);
    var pay := IfAny(SplitBaseline(e, s.account, net)) +
               (IfAny(Transfer(long, s.account, s.trader, net)) + IfAny(Transfer(short, s.account, s.trader, net)));
    assert SellOps(s, side, amount, quote, 0) == [back] + IfAny(merge) + pay;
    PlayAppend(held, [back] + IfAny(merge), pay);
    BaselinePairsMerge(s, held, side, amount, quote.cash);
    var h1 := Play(held, [back] + IfAny(merge));
    if h1.ok {
      BaselineProceedsPaid(s, h1.held, net);
    }
  }

  lemma SellAccepted(s: Setup, held: Holdings, side: ScalarSide, amount: u128, quote: Quote)
    requires s.Valid() && quote.fee <= quote.cash
    ensures Play(held, SellOps(s, side, amount, quote, Mirrored(s, held))).ok <==>
            SellFits(s, held, side, amount, quote) && SellCovered(s, held, side, amount, quote.cash)
  {
    if s.kind.BaselineBook? {
      BaselineSellAccepted(s, held, side, amount, quote);
    } else {
      BranchSellAccepted(s, held, side, amount, quote);
    }
  }
}
