/** Trades against an automated book: the ledger scripts of every kind of book, and one trade as a
    step that happens whole or not at all. The pricing kernel is a parameter: a quoter and the cost
    function its quotes are rounded against. */
module Book {
  import opened Common
  import opened Positions
  import opened Ledger

  /** A book and the accounts around it. */
  datatype Setup = Setup(kind: BookKind, trader: u8, account: u8, fees: u8) {
    predicate Valid() { trader != account && account != fees && trader != fees }

    function Leg(side: ScalarSide, who: u8): Key { Key(SidePosition(kind, side), who) }

    function Usdc(who: u8): Key
      requires !kind.BaselineBook?
    {
      Key(LiquidPosition(kind).value, who)
    }

    /** Branch USDC on the branch the book does not trade. */
    function Mirror(who: u8): Key
      requires !kind.BaselineBook?
    {
      var id := LiquidPosition(kind).value;
      Key(Proposal(id.proposal, OtherBranch(id.branch), BranchUsdc), who)
    }
  }

  datatype Quote = Quote(cash: u128, fee: u128)

  /** What the kernel quotes at a book state, or `None` outside its domain. */
  datatype Quoter = Quoter(
    buy: (nat, nat, ScalarSide, nat) -> Option<Quote>,
    sell: (nat, nat, ScalarSide, nat) -> Option<Quote>)

  function ProposalOf(kind: BookKind): nat
    requires !kind.BaselineBook?
  {
    LiquidPosition(kind).value.proposal
  }

  /** Split branch USDC into the two legs this kind of book trades. */
  function SplitLegs(kind: BookKind, who: u8, amount: u128): LedgerOp
    requires !kind.BaselineBook?
  {
    match kind
    case Gate(p, b, g) => SplitGate(p, b, g, who, amount)
    case Decision(p, b) => SplitScalar(p, b, who, amount)
    case External(q, _, b) => SplitScalar(q, b, who, amount)
  }

  function MergeLegs(kind: BookKind, who: u8, amount: u128): LedgerOp
    requires !kind.BaselineBook?
  {
    match kind
    case Gate(p, b, g) => MergeGate(p, b, g, who, amount)
    case Decision(p, b) => MergeScalar(p, b, who, amount)
    case External(q, _, b) => MergeScalar(q, b, who, amount)
  }

  /** An operation that is skipped when there is nothing to move. */
  function IfAny(op: LedgerOp): seq<LedgerOp> { if op.amount > 0 then [op] else [] }

  /** The buyer mints complete sets for cost and fee; on a branch the cost then goes to the book. */
  function Payment(s: Setup, quote: Quote): seq<LedgerOp>
    requires quote.cash + quote.fee <= U128_MAX
  {
    if s.kind.BaselineBook? then [SplitBaseline(s.kind.epoch, s.trader, quote.cash + quote.fee)]
    else
      [Split(ProposalOf(s.kind), s.trader, quote.cash + quote.fee),
       Transfer(s.Usdc(s.trader).id, s.trader, s.account, quote.cash)]
  }

  /** The fee leaves the buyer as a complete set: both branches, or both baseline legs. */
  function FeeSet(s: Setup): (PositionId, PositionId) {
    if s.kind.BaselineBook? then (SidePosition(s.kind, ScalarSide.Long), SidePosition(s.kind, ScalarSide.Short))
    else (s.Usdc(s.trader).id, s.Mirror(s.trader).id)
  }

  function FeeLegs(s: Setup, fee: u128): seq<LedgerOp> {
    var (here, there) := FeeSet(s);
    IfAny(Transfer(here, s.trader, s.fees, fee)) + IfAny(Transfer(there, s.trader, s.fees, fee))
  }

  /** The cost becomes a pair of the book's legs, and the side is paid out. */
  function Delivery(s: Setup, side: ScalarSide, amount: u128, cash: u128): seq<LedgerOp> {
    (if s.kind.BaselineBook? then
       [Transfer(SidePosition(s.kind, ScalarSide.Long), s.trader, s.account, cash),
        Transfer(SidePosition(s.kind, ScalarSide.Short), s.trader, s.account, cash)]
     else [SplitLegs(s.kind, s.account, cash)]) +
    [Transfer(SidePosition(s.kind, side), s.account, s.trader, amount)]
  }

  function BuyOps(s: Setup, side: ScalarSide, amount: u128, quote: Quote): seq<LedgerOp>
    requires quote.cash + quote.fee <= U128_MAX
  {
    Payment(s, quote) + FeeLegs(s, quote.fee) + Delivery(s, side, amount, quote.cash)
  }

  /** Pairs worth the proceeds become branch USDC, which pays the fee and then the net. */
  function BranchProceeds(s: Setup, cash: u128, fee: u128): seq<LedgerOp>
    requires !s.kind.BaselineBook? && fee <= cash
  {
    IfAny(MergeLegs(s.kind, s.account, cash)) +
    IfAny(Transfer(s.Usdc(s.account).id, s.account, s.fees, fee)) +
    IfAny(Transfer(s.Usdc(s.account).id, s.account, s.trader, cash - fee))
  }

  /** Pairs worth the proceeds are burned and new ones minted for the net; the fee stays as custody. */
  function BaselineProceeds(s: Setup, cash: u128, net: u128): seq<LedgerOp>
    requires s.kind.BaselineBook?
  {
    IfAny(MergeBaseline(s.kind.epoch, s.account, cash)) +
    IfAny(SplitBaseline(s.kind.epoch, s.account, net)) +
    IfAny(Transfer(SidePosition(s.kind, ScalarSide.Long), s.account, s.trader, net)) +
    IfAny(Transfer(SidePosition(s.kind, ScalarSide.Short), s.account, s.trader, net))
  }

  /** The side comes back, and the proceeds are paid out. */
  function Payout(s: Setup, side: ScalarSide, amount: u128, quote: Quote): seq<LedgerOp>
    requires quote.fee <= quote.cash
  {
    [Transfer(SidePosition(s.kind, side), s.trader, s.account, amount)] +
    if s.kind.BaselineBook? then BaselineProceeds(s, quote.cash, quote.cash - quote.fee)
    else BranchProceeds(s, quote.cash, quote.fee)
  }

  /** What the trader holds on the other branch, if the book has one. */
  function Mirrored(s: Setup, held: Holdings): u128 {
    if s.kind.BaselineBook? then 0 else BalanceOf(held, s.Mirror(s.trader))
  }

  /** How much of the net proceeds finds a partner on the other branch. */
  function Matched(net: u128, mirrored: u128): u128 { if net < mirrored then net else mirrored }

  /** The last step of a branch sell: matched proceeds are merged back into USDC. */
  function MergeNet(s: Setup, net: u128, mirrored: u128): seq<LedgerOp> {
    if s.kind.BaselineBook? then [] else IfAny(Merge(ProposalOf(s.kind), s.trader, Matched(net, mirrored)))
  }

  function SellOps(s: Setup, side: ScalarSide, amount: u128, quote: Quote, mirrored: u128): seq<LedgerOp>
    requires quote.fee <= quote.cash
  {
    Payout(s, side, amount, quote) + MergeNet(s, quote.cash - quote.fee, mirrored)
  }

  // ---- one trade as a state step ---------------------------------------------------

  datatype Order = Order(buy: bool, side: ScalarSide, amount: u128)

  /** The book, the ledger, and the accumulators the harness keeps beside them. `paid` and
      `received` are the trader's cash, fees included. */
  datatype Market = Market(held: Holdings, qLong: u128, qShort: u128, feesAccrued: u128,
                           netRevenue: int, inventory: int, paid: nat, received: nat)
  {
    function Quantity(side: ScalarSide): u128 { if side.Long? then qLong else qShort }

    function WithQuantity(side: ScalarSide, q: u128): Market {
      if side.Long? then this.(qLong := q) else this.(qShort := q)
    }
  }

  /** USDC the book's inventory absorbs on a buy: the cost, on every kind of book. */
  function InventoryInflowOnBuy(cost: u128): u128 { cost }

  /** The quote and the operations of an order the book would try to execute: none if there is no
      quote, the cost with its fee does not fit, or a counter of the book would leave its range. */
  function Plan(s: Setup, quoter: Quoter, market: Market, order: Order): (plan: Option<(Quote, seq<LedgerOp>)>)
    ensures plan.Some? ==> market.feesAccrued + plan.value.0.fee <= U128_MAX
  {
    var q := market.Quantity(order.side);
    var offer := if order.buy then quoter.buy(market.qLong, market.qShort, order.side, order.amount)
                 else quoter.sell(market.qLong, market.qShort, order.side, order.amount);
    if offer.None? || market.feesAccrued + offer.value.fee > U128_MAX then None
    else if order.buy then
      if offer.value.cash + offer.value.fee > U128_MAX || q + order.amount > U128_MAX then None
      else Some((offer.value, BuyOps(s, order.side, order.amount, offer.value)))
    else if order.amount > q || offer.value.fee > offer.value.cash then None
    else Some((offer.value, SellOps(s, order.side, order.amount, offer.value, Mirrored(s, market.held))))
  }

  /** An order is planned exactly when it is quoted and no counter of the book leaves its range: the
      cost with its fee, the fee accrued so far, and the quantity of the side it trades. */
  lemma PlannedExactly(s: Setup, quoter: Quoter, market: Market, side: ScalarSide, amount: u128)
    ensures
      var quoted, q := quoter.buy(market.qLong, market.qShort, side, amount),
                       if side == ScalarSide.Long then market.qLong else market.qShort;
      var plan := Plan(s, quoter, market, Order(true, side, amount));
      && (plan.Some? <==> && quoted.Some? && quoted.value.cash + quoted.value.fee <= U128_MAX
                          && market.feesAccrued + quoted.value.fee <= U128_MAX && q + amount <= U128_MAX)
      && (plan.Some? ==> plan.value.0 == quoted.value)
    ensures
      var quoted, q := quoter.sell(market.qLong, market.qShort, side, amount),
                       if side == ScalarSide.Long then market.qLong else market.qShort;
      var plan := Plan(s, quoter, market, Order(false, side, amount));
      && (plan.Some? <==> && quoted.Some? && quoted.value.fee <= quoted.value.cash
                          && market.feesAccrued + quoted.value.fee <= U128_MAX && amount <= q)
      && (plan.Some? ==> plan.value.0 == quoted.value)
  {
  }

  predicate Accepted(s: Setup, quoter: Quoter, market: Market, order: Order) {
    var plan := Plan(s, quoter, market, order);
    plan.Some? && Play(market.held, plan.value.1).ok
  }

  /** An order is executed whole or leaves everything as it was. */
  function Attempt(s: Setup, quoter: Quoter, market: Market, order: Order): Market {
    if !Accepted(s, quoter, market, order) then market
    else
      var (quote, ops) := Plan(s, quoter, market, order).value;
      var cash: int, fee: int := quote.cash, quote.fee;
      var q := market.Quantity(order.side);
      var settled := market.(held := Play(market.held, ops).held, feesAccrued := market.feesAccrued + quote.fee);
      if order.buy then
        settled.WithQuantity(order.side, q + order.amount).(
          netRevenue := market.netRevenue + cash,
          inventory := market.inventory + InventoryInflowOnBuy(quote.cash),
          paid := market.paid + cash + fee)
      else
        settled.WithQuantity(order.side, q - order.amount).(
          netRevenue := market.netRevenue - cash,
          inventory := market.inventory - cash,
          received := market.received + (cash - fee))
  }

  function Run(s: Setup, quoter: Quoter, market: Market, orders: seq<Order>): Market
    decreases |orders|
  {
    if orders == [] then market else Run(s, quoter, Attempt(s, quoter, market, orders[0]), orders[1..])
  }

  // ---- operations seen at one key ---------------------------------------------------

  /** What an operation adds to the balance at one key. */
  function OpAt(op: LedgerOp, key: Key): int {
    var m := MovesOf(op);
    Delta(m[0], key) + Delta(m[1], key) + if |m| == 3 then Delta(m[2], key) else 0
  }

  function OpsAt(ops: seq<LedgerOp>, key: Key): int {
    if ops == [] then 0 else OpAt(ops[0], key) + OpsAt(ops[1..], key)
  }

  lemma ThenAt(sofar: Outcome, move: Move, key: Key)
    requires sofar.ok
    ensures Then(sofar, move).ok <==> Passes(sofar.held, move)
    ensures Then(sofar, move).ok ==>
              BalanceOf(Then(sofar, move).held, key) == BalanceOf(sofar.held, key) + Delta(move, key)
  {
  }

  lemma PerformAt(held: Holdings, op: LedgerOp, key: Key)
    requires Perform(held, op).ok
    ensures BalanceOf(Perform(held, op).held, key) == BalanceOf(held, key) + OpAt(op, key)
  {
    var m := MovesOf(op);
    var h0 := Outcome(held, true);
    var h1 := Then(h0, m[0]);
    var h2 := Then(h1, m[1]);
    if |m| == 3 {
      RunThree(held, m[0], m[1], m[2]);
      assert m == [m[0], m[1], m[2]];
      ThenAt(h2, m[2], key);
    } else {
      RunThree(held, m[0], m[1], m[1]);
      assert m == [m[0], m[1]];
    }
    ThenAt(h0, m[0], key);
    ThenAt(h1, m[1], key);
  }

  lemma {:induction false} PlayAt(held: Holdings, ops: seq<LedgerOp>, key: Key)
    requires Play(held, ops).ok
    ensures BalanceOf(Play(held, ops).held, key) == BalanceOf(held, key) + OpsAt(ops, key)
    decreases |ops|
  {
    if ops != [] {
      PerformAt(held, ops[0], key);
      PlayAt(Perform(held, ops[0]).held, ops[1..], key);
    }
  }

  lemma {:induction false} OpsAtAppend(a: seq<LedgerOp>, b: seq<LedgerOp>, key: Key)
    ensures OpsAt(a + b, key) == OpsAt(a, key) + OpsAt(b, key)
    decreases |a|
  {
    if a == [] {
      assert a + b == b;
    } else {
      assert (a + b)[1..] == a[1..] + b;
      OpsAtAppend(a[1..], b, key);
    }
  }

  /** Skipping an operation that moves nothing makes no difference to any balance. */
  lemma IfAnyAt(op: LedgerOp, key: Key)
    ensures OpsAt(IfAny(op), key) == OpAt(op, key)
  {
    if op.amount > 0 {
      assert [op][1..] == [];
    }
  }

  lemma OneAt(op: LedgerOp, key: Key)
    ensures OpsAt([op], key) == OpAt(op, key)
  {
    assert [op][1..] == [];
    assert OpsAt([op], key) == OpAt(op, key) + OpsAt([], key);
  }

  lemma PairAt(a: LedgerOp, b: LedgerOp, key: Key)
    ensures OpsAt([a, b], key) == OpAt(a, key) + OpAt(b, key)
  {
    assert [a, b][1..] == [b] && [b][1..] == [];
    assert OpsAt([b], key) == OpAt(b, key) + OpsAt([], key);
  }

  /** What a transfer adds to the balance at one key. */
  function Carried(id: PositionId, sender: u8, receiver: u8, amount: nat, key: Key): int {
    (if key == Key(id, receiver) then amount else 0) - (if key == Key(id, sender) then amount else 0)
  }

  lemma CarriedAt(id: PositionId, sender: u8, receiver: u8, amount: u128, key: Key)
    ensures OpAt(Transfer(id, sender, receiver, amount), key) == Carried(id, sender, receiver, amount, key)
  {
  }

  lemma IfAnyPairAt(a: LedgerOp, b: LedgerOp, key: Key)
    ensures OpsAt(IfAny(a) + IfAny(b), key) == OpAt(a, key) + OpAt(b, key)
  {
    OpsAtAppend(IfAny(a), IfAny(b), key);
    IfAnyAt(a, key);
    IfAnyAt(b, key);
  }

  /** What crediting a pair of positions adds at one key. */
  function Paired(pair: (PositionId, PositionId), who: u8, amount: nat, key: Key): int {
    if key == Key(pair.0, who) || key == Key(pair.1, who) then amount else 0
  }

  function Legs(s: Setup): (PositionId, PositionId) {
    (SidePosition(s.kind, ScalarSide.Long), SidePosition(s.kind, ScalarSide.Short))
  }

  /** What turning branch USDC into a pair of legs adds at one key. */
  function Converted(s: Setup, who: u8, amount: nat, key: Key): int
    requires !s.kind.BaselineBook?
  {
    Paired(Legs(s), who, amount, key) - if key == s.Usdc(who) then amount else 0
  }

  lemma ConvertedAt(s: Setup, who: u8, amount: u128, key: Key)
    requires !s.kind.BaselineBook?
    ensures OpAt(SplitLegs(s.kind, who, amount), key) == Converted(s, who, amount, key)
    ensures OpAt(MergeLegs(s.kind, who, amount), key) == -Converted(s, who, amount, key)
  {
  }

  lemma SetMintedAt(s: Setup, who: u8, amount: u128, key: Key)
    ensures s.kind.BaselineBook? ==>
              && OpAt(SplitBaseline(s.kind.epoch, who, amount), key) == Paired(FeeSet(s), who, amount, key)
              && OpAt(MergeBaseline(s.kind.epoch, who, amount), key) == -Paired(FeeSet(s), who, amount, key)
    ensures !s.kind.BaselineBook? ==>
              && OpAt(Split(ProposalOf(s.kind), who, amount), key) == Paired(FeeSet(s), who, amount, key)
              && OpAt(Merge(ProposalOf(s.kind), who, amount), key) == -Paired(FeeSet(s), who, amount, key)
  {
  }

  lemma BuyInParts(s: Setup, side: ScalarSide, amount: u128, quote: Quote, key: Key)
    requires quote.cash + quote.fee <= U128_MAX
    ensures
      var (here, there) := FeeSet(s);
      OpsAt(BuyOps(s, side, amount, quote), key) ==
        OpsAt(Payment(s, quote), key) + OpsAt(Delivery(s, side, amount, quote.cash), key) +
        Carried(here, s.trader, s.fees, quote.fee, key) + Carried(there, s.trader, s.fees, quote.fee, key)
  {
    var (here, there) := FeeSet(s);
    OpsAtAppend(Payment(s, quote) + FeeLegs(s, quote.fee), Delivery(s, side, amount, quote.cash), key);
    OpsAtAppend(Payment(s, quote), FeeLegs(s, quote.fee), key);
    IfAnyPairAt(Transfer(here, s.trader, s.fees, quote.fee), Transfer(there, s.trader, s.fees, quote.fee), key);
    CarriedAt(here, s.trader, s.fees, quote.fee, key);
    CarriedAt(there, s.trader, s.fees, quote.fee, key);
  }

  /** A branch buy as the sum of its operations at one key. */
  lemma BranchBuySum(s: Setup, side: ScalarSide, amount: u128, quote: Quote, key: Key)
    requires !s.kind.BaselineBook? && quote.cash + quote.fee <= U128_MAX
    ensures
      var (here, there) := FeeSet(s);
      OpsAt(BuyOps(s, side, amount, quote), key) ==
        Paired(FeeSet(s), s.trader, quote.cash + quote.fee, key) +
        Carried(here, s.trader, s.account, quote.cash, key) +
        Carried(here, s.trader, s.fees, quote.fee, key) + Carried(there, s.trader, s.fees, quote.fee, key) +
        Converted(s, s.account, quote.cash, key) +
        Carried(SidePosition(s.kind, side), s.account, s.trader, amount, key)
  {
    var pay := Transfer(FeeSet(s).0, s.trader, s.account, quote.cash);
    var deliver := Transfer(SidePosition(s.kind, side), s.account, s.trader, amount);
    BuyInParts(s, side, amount, quote, key);
    PairAt(Split(ProposalOf(s.kind), s.trader, quote.cash + quote.fee), pay, key);
    SetMintedAt(s, s.trader, quote.cash + quote.fee, key);
    CarriedAt(pay.id, s.trader, s.account, quote.cash, key);
    PairAt(SplitLegs(s.kind, s.account, quote.cash), deliver, key);
    ConvertedAt(s, s.account, quote.cash, key);
    CarriedAt(deliver.id, s.account, s.trader, amount, key);
  }

  /** A baseline buy as the sum of its operations at one key. */
  lemma BaselineBuySum(s: Setup, side: ScalarSide, amount: u128, quote: Quote, key: Key)
    requires s.kind.BaselineBook? && quote.cash + quote.fee <= U128_MAX
    ensures
      var (long, short) := FeeSet(s);
      OpsAt(BuyOps(s, side, amount, quote), key) ==
        Paired(FeeSet(s), s.trader, quote.cash + quote.fee, key) +
        Carried(long, s.trader, s.fees, quote.fee, key) + Carried(short, s.trader, s.fees, quote.fee, key) +
        Carried(long, s.trader, s.account, quote.cash, key) + Carried(short, s.trader, s.account, quote.cash, key) +
        Carried(SidePosition(s.kind, side), s.account, s.trader, amount, key)
  {
    var (long, short) := FeeSet(s);
    var first := Transfer(long, s.trader, s.account, quote.cash);
    var second := Transfer(short, s.trader, s.account, quote.cash);
    var deliver := Transfer(SidePosition(s.kind, side), s.account, s.trader, amount);
    BuyInParts(s, side, amount, quote, key);
    OneAt(SplitBaseline(s.kind.epoch, s.trader, quote.cash + quote.fee), key);
    SetMintedAt(s, s.trader, quote.cash + quote.fee, key);
    OpsAtAppend([first, second], [deliver], key);
    PairAt(first, second, key);
    OneAt(deliver, key);
    CarriedAt(long, s.trader, s.account, quote.cash, key);
    CarriedAt(short, s.trader, s.account, quote.cash, key);
    CarriedAt(deliver.id, s.account, s.trader, amount, key);
  }

  lemma PayoutSum(s: Setup, side: ScalarSide, amount: u128, quote: Quote, key: Key)
    requires quote.fee <= quote.cash
    ensures
      OpsAt(Payout(s, side, amount, quote), key) ==
        Carried(SidePosition(s.kind, side), s.trader, s.account, amount, key) +
        if s.kind.BaselineBook? then OpsAt(BaselineProceeds(s, quote.cash, quote.cash - quote.fee), key)
        else OpsAt(BranchProceeds(s, quote.cash, quote.fee), key)
  {
    var back := Transfer(SidePosition(s.kind, side), s.trader, s.account, amount);
    var rest := if s.kind.BaselineBook? then BaselineProceeds(s, quote.cash, quote.cash - quote.fee)
                else BranchProceeds(s, quote.cash, quote.fee);
    CarriedAt(back.id, s.trader, s.account, amount, key);
    OpsAtAppend([back], rest, key);
    OneAt(back, key);
  }

  lemma BaselineProceedsSum(s: Setup, cash: u128, net: u128, key: Key)
    requires s.kind.BaselineBook?
    ensures OpsAt(BaselineProceeds(s, cash, net), key) ==
            Paired(Legs(s), s.account, net, key) - Paired(Legs(s), s.account, cash, key) +
            Carried(Legs(s).0, s.account, s.trader, net, key) + Carried(Legs(s).1, s.account, s.trader, net, key)
  {
    var merge, split := MergeBaseline(s.kind.epoch, s.account, cash), SplitBaseline(s.kind.epoch, s.account, net);
    var long, short := Transfer(Legs(s).0, s.account, s.trader, net), Transfer(Legs(s).1, s.account, s.trader, net);
    OpsAtAppend(IfAny(merge) + IfAny(split) + IfAny(long), IfAny(short), key);
    OpsAtAppend(IfAny(merge) + IfAny(split), IfAny(long), key);
    IfAnyPairAt(merge, split, key);
    IfAnyAt(long, key);
    IfAnyAt(short, key);
    SetMintedAt(s, s.account, cash, key);
    SetMintedAt(s, s.account, net, key);
    CarriedAt(long.id, s.account, s.trader, net, key);
    CarriedAt(short.id, s.account, s.trader, net, key);
  }

  lemma BranchProceedsSum(s: Setup, cash: u128, fee: u128, key: Key)
    requires !s.kind.BaselineBook? && fee <= cash
    ensures OpsAt(BranchProceeds(s, cash, fee), key) ==
            Carried(s.Usdc(s.account).id, s.account, s.fees, fee, key) +
            Carried(s.Usdc(s.account).id, s.account, s.trader, cash - fee, key) -
            Converted(s, s.account, cash, key)
  {
    var id, net := s.Usdc(s.account).id, cash - fee;
    var merge := MergeLegs(s.kind, s.account, cash);
    var forFees, forTrader := Transfer(id, s.account, s.fees, fee), Transfer(id, s.account, s.trader, net);
    OpsAtAppend(IfAny(merge) + IfAny(forFees), IfAny(forTrader), key);
    IfAnyPairAt(merge, forFees, key);
    IfAnyAt(forTrader, key);
    ConvertedAt(s, s.account, cash, key);
    CarriedAt(id, s.account, s.fees, fee, key);
    CarriedAt(id, s.account, s.trader, net, key);
  }

  lemma MergeNetAt(s: Setup, net: u128, mirrored: u128, key: Key)
    requires !s.kind.BaselineBook?
    ensures OpsAt(MergeNet(s, net, mirrored), key) == -Paired(FeeSet(s), s.trader, Matched(net, mirrored), key)
  {
    IfAnyAt(Merge(ProposalOf(s.kind), s.trader, Matched(net, mirrored)), key);
    SetMintedAt(s, s.trader, Matched(net, mirrored), key);
  }

  /** A branch sell as the sum of its operations at one key. */
  lemma BranchSellSum(s: Setup, side: ScalarSide, amount: u128, quote: Quote, mirrored: u128, key: Key)
    requires !s.kind.BaselineBook? && quote.fee <= quote.cash
    ensures
      var net := quote.cash - quote.fee;
      OpsAt(SellOps(s, side, amount, quote, mirrored), key) ==
        Carried(SidePosition(s.kind, side), s.trader, s.account, amount, key) -
        Converted(s, s.account, quote.cash, key) +
        Carried(s.Usdc(s.account).id, s.account, s.fees, quote.fee, key) +
        Carried(s.Usdc(s.account).id, s.account, s.trader, net, key) -
        Paired(FeeSet(s), s.trader, Matched(net, mirrored), key)
  {
    var net := quote.cash - quote.fee;
    PayoutSum(s, side, amount, quote, key);
    OpsAtAppend(Payout(s, side, amount, quote), MergeNet(s, net, mirrored), key);
    BranchProceedsSum(s, quote.cash, quote.fee, key);
    MergeNetAt(s, net, mirrored, key);
  }

  /** A baseline sell as the sum of its operations at one key. */
  lemma BaselineSellSum(s: Setup, side: ScalarSide, amount: u128, quote: Quote, mirrored: u128, key: Key)
    requires s.kind.BaselineBook? && quote.fee <= quote.cash
    ensures
      var net := quote.cash - quote.fee;
      OpsAt(SellOps(s, side, amount, quote, mirrored), key) ==
        Carried(SidePosition(s.kind, side), s.trader, s.account, amount, key) -
        Paired(Legs(s), s.account, quote.cash, key) + Paired(Legs(s), s.account, net, key) +
        Carried(Legs(s).0, s.account, s.trader, net, key) + Carried(Legs(s).1, s.account, s.trader, net, key)
  {
    PayoutSum(s, side, amount, quote, key);
    BaselineProceedsSum(s, quote.cash, quote.cash - quote.fee, key);
    assert SellOps(s, side, amount, quote, mirrored) == Payout(s, side, amount, quote);
  }

  // ---- the exact inventory identity --------------------------------------------------

  /** What the book can still deliver on a side: its leg plus its liquid branch USDC. */
  function Available(s: Setup, held: Holdings, side: ScalarSide): nat {
    BalanceOf(held, s.Leg(side, s.account)) + Liquid(s, held)
  }

  function Liquid(s: Setup, held: Holdings): nat {
    if s.kind.BaselineBook? then 0 else BalanceOf(held, s.Usdc(s.account))
  }

  lemma BuyKeepsLiquid(s: Setup, side: ScalarSide, amount: u128, quote: Quote)
    requires s.Valid() && !s.kind.BaselineBook? && quote.cash + quote.fee <= U128_MAX
    ensures OpsAt(BuyOps(s, side, amount, quote), s.Usdc(s.account)) == 0
  {
    BranchBuySum(s, side, amount, quote, s.Usdc(s.account));
  }

  /** A buy adds its cost to both of the book's legs and takes the amount out of one. */
  lemma BuyOpsAt(s: Setup, side: ScalarSide, amount: u128, quote: Quote, other: ScalarSide)
    requires s.Valid() && quote.cash + quote.fee <= U128_MAX
    ensures
      var ops, cash: int, out: int := BuyOps(s, side, amount, quote), quote.cash, amount;
      && OpsAt(ops, s.Leg(other, s.account)) == cash - (if other == side then out else 0)
      && (!s.kind.BaselineBook? ==> OpsAt(ops, s.Usdc(s.account)) == 0)
  {
    if s.kind.BaselineBook? {
      BaselineBuySum(s, side, amount, quote, s.Leg(other, s.account));
    } else {
      BranchBuySum(s, side, amount, quote, s.Leg(other, s.account));
      BuyKeepsLiquid(s, side, amount, quote);
    }
  }

  lemma SellKeepsLiquid(s: Setup, side: ScalarSide, amount: u128, quote: Quote, mirrored: u128)
    requires s.Valid() && !s.kind.BaselineBook? && quote.fee <= quote.cash
    ensures OpsAt(SellOps(s, side, amount, quote, mirrored), s.Usdc(s.account)) == 0
  {
    BranchSellSum(s, side, amount, quote, mirrored, s.Usdc(s.account));
  }

  /** A sell takes its proceeds out of both legs and returns the amount to one. */
  lemma SellOpsAt(s: Setup, side: ScalarSide, amount: u128, quote: Quote, mirrored: u128, other: ScalarSide)
    requires s.Valid() && quote.fee <= quote.cash
    ensures
      var ops, cash: int, back: int := SellOps(s, side, amount, quote, mirrored), quote.cash, amount;
      && OpsAt(ops, s.Leg(other, s.account)) == (if other == side then back else 0) - cash
      && (!s.kind.BaselineBook? ==> OpsAt(ops, s.Usdc(s.account)) == 0)
  {
    if s.kind.BaselineBook? {
      BaselineSellSum(s, side, amount, quote, mirrored, s.Leg(other, s.account));
    } else {
      BranchSellSum(s, side, amount, quote, mirrored, s.Leg(other, s.account));
      SellKeepsLiquid(s, side, amount, quote, mirrored);
    }
  }

  /** Where the cash of a branch buy ends up: the fee with the fees account as a complete set, the
      mirror of the cost with the trader and nothing on the traded branch; and the side delivered. */
  lemma BranchBuySettles(s: Setup, side: ScalarSide, amount: u128, quote: Quote)
    requires s.Valid() && !s.kind.BaselineBook? && quote.cash + quote.fee <= U128_MAX
    ensures
      var ops := BuyOps(s, side, amount, quote);
      && OpsAt(ops, s.Usdc(s.fees)) == OpsAt(ops, s.Mirror(s.fees)) == quote.fee
      && OpsAt(ops, s.Usdc(s.trader)) == 0
      && OpsAt(ops, s.Mirror(s.trader)) == quote.cash
      && OpsAt(ops, s.Mirror(s.account)) == 0
      && OpsAt(ops, s.Leg(side, s.trader)) == amount
  {
    BranchBuySum(s, side, amount, quote, s.Usdc(s.fees));
    BranchBuySum(s, side, amount, quote, s.Mirror(s.fees));
    BranchBuySum(s, side, amount, quote, s.Usdc(s.trader));
    BranchBuySum(s, side, amount, quote, s.Mirror(s.trader));
    BranchBuySum(s, side, amount, quote, s.Mirror(s.account));
    BranchBuySum(s, side, amount, quote, s.Leg(side, s.trader));
  }

  /** Where the proceeds of a branch sell end up: the fee with the fees account, and with the
      trader the part of the net that found no mirror; the matched part left both branches. */
  lemma BranchSellSettles(s: Setup, side: ScalarSide, amount: u128, quote: Quote, mirrored: u128)
    requires s.Valid() && !s.kind.BaselineBook? && quote.fee <= quote.cash
    ensures
      var ops, back: int := SellOps(s, side, amount, quote, mirrored), amount;
      var net: int, matched: int := quote.cash - quote.fee, Matched(quote.cash - quote.fee, mirrored);
      && OpsAt(ops, s.Usdc(s.fees)) == quote.fee && OpsAt(ops, s.Mirror(s.fees)) == 0
      && OpsAt(ops, s.Usdc(s.trader)) == net - matched
      && OpsAt(ops, s.Mirror(s.trader)) == -matched
      && OpsAt(ops, s.Leg(side, s.trader)) == -back
  {
    BranchSellSum(s, side, amount, quote, mirrored, s.Usdc(s.fees));
    BranchSellSum(s, side, amount, quote, mirrored, s.Mirror(s.fees));
    BranchSellSum(s, side, amount, quote, mirrored, s.Usdc(s.trader));
    BranchSellSum(s, side, amount, quote, mirrored, s.Mirror(s.trader));
    BranchSellSum(s, side, amount, quote, mirrored, s.Leg(side, s.trader));
  }

  /** On a baseline book the fee of a buy becomes pairs of the fees account; on a sell the
      trader gets pairs for the net and the fee stays outside every position. */
  lemma BaselineSettles(s: Setup, side: ScalarSide, amount: u128, quote: Quote, mirrored: u128, leg: ScalarSide)
    requires s.Valid() && s.kind.BaselineBook? && quote.cash + quote.fee <= U128_MAX && quote.fee <= quote.cash
    ensures
      var buy, sell := BuyOps(s, side, amount, quote), SellOps(s, side, amount, quote, mirrored);
      var moved: int := if leg == side then amount else 0;
      && OpsAt(buy, s.Leg(leg, s.fees)) == quote.fee && OpsAt(buy, s.Leg(leg, s.trader)) == moved
      && OpsAt(sell, s.Leg(leg, s.fees)) == 0 && OpsAt(sell, s.Leg(leg, s.trader)) == quote.cash - quote.fee - moved
  {
    BaselineBuySum(s, side, amount, quote, s.Leg(leg, s.fees));
    BaselineBuySum(s, side, amount, quote, s.Leg(leg, s.trader));
    BaselineSellSum(s, side, amount, quote, mirrored, s.Leg(leg, s.fees));
    BaselineSellSum(s, side, amount, quote, mirrored, s.Leg(leg, s.trader));
  }

  /** Which position a side is: Long and Short of a branch, YES and NO of a gate, or a baseline leg.
      A buy delivers it to the trader and a sell takes it back. */
  lemma SidesByKind(s: Setup, side: ScalarSide, amount: u128, quote: Quote, mirrored: u128)
    requires s.Valid() && quote.cash + quote.fee <= U128_MAX && quote.fee <= quote.cash
    ensures
      var long := side == ScalarSide.Long;
      var id := match s.kind
        case Decision(p, b) => Proposal(p, b, if long then PositionKind.Long else PositionKind.Short)
        case External(q, _, b) => Proposal(q, b, if long then PositionKind.Long else PositionKind.Short)
        case Gate(p, b, g) => Proposal(p, b, if long then GateYes(g) else GateNo(g))
        case BaselineBook(e) => Baseline(e, if long then ScalarSide.Long else ScalarSide.Short);
      var moved: int, net: int := amount, if s.kind.BaselineBook? then quote.cash - quote.fee else 0;
      && OpsAt(BuyOps(s, side, amount, quote), Key(id, s.trader)) == moved
      && OpsAt(SellOps(s, side, amount, quote, mirrored), Key(id, s.trader)) == net - moved
  {
    if s.kind.BaselineBook? {
      BaselineSettles(s, side, amount, quote, mirrored, side);
    } else {
      BranchBuySettles(s, side, amount, quote);
      BranchSellSettles(s, side, amount, quote, mirrored);
    }
  }
}
