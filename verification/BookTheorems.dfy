/** Solvency and no-profit over every run of trades. */
module BookTheorems {
  import opened Common
  import opened Positions
  import opened Ledger
  import opened Book

  // ---- the identity, for any quotes at all -------------------------------------------

  /** Held leg plus liquid branch USDC is the seeded amount plus inventory minus the quoted q. */
  ghost predicate ExactInventory(s: Setup, funded: nat, market: Market) {
    forall side: ScalarSide ::
      Available(s, market.held, side) == funded + market.inventory - market.Quantity(side)
  }

  lemma TradeMovesAvailable(s: Setup, quoter: Quoter, market: Market, order: Order, side: ScalarSide)
    requires s.Valid() && Accepted(s, quoter, market, order)
    ensures
      var next := Attempt(s, quoter, market, order);
      && Liquid(s, next.held) == Liquid(s, market.held)
      && Available(s, next.held, side) - Available(s, market.held, side) ==
         (next.inventory - market.inventory) - (next.Quantity(side) - market.Quantity(side))
  {
    var (quote, ops) := Plan(s, quoter, market, order).value;
    if order.buy {
      BuyOpsAt(s, order.side, order.amount, quote, side);
    } else {
      SellOpsAt(s, order.side, order.amount, quote, Mirrored(s, market.held), side);
    }
    PlayAt(market.held, ops, s.Leg(side, s.account));
    if !s.kind.BaselineBook? {
      PlayAt(market.held, ops, s.Usdc(s.account));
    }
  }

  lemma AttemptKeepsInventory(s: Setup, quoter: Quoter, funded: nat, market: Market, order: Order)
    requires s.Valid() && ExactInventory(s, funded, market)
    ensures ExactInventory(s, funded, Attempt(s, quoter, market, order))
    ensures Liquid(s, Attempt(s, quoter, market, order).held) == Liquid(s, market.held)
  {
    if Accepted(s, quoter, market, order) {
      TradeMovesAvailable(s, quoter, market, order, order.side);
      forall side: ScalarSide
        ensures Available(s, Attempt(s, quoter, market, order).held, side) ==
                funded + Attempt(s, quoter, market, order).inventory -
                Attempt(s, quoter, market, order).Quantity(side)
      {
        assert Available(s, market.held, side) == funded + market.inventory - market.Quantity(side);
        TradeMovesAvailable(s, quoter, market, order, side);
      }
    }
  }

  lemma {:induction false} RunKeepsInventory(
    s: Setup, quoter: Quoter, funded: nat, market: Market, orders: seq<Order>)
    requires s.Valid() && ExactInventory(s, funded, market)
    ensures ExactInventory(s, funded, Run(s, quoter, market, orders))
    ensures Liquid(s, Run(s, quoter, market, orders).held) == Liquid(s, market.held)
    decreases |orders|
  {
    if orders != [] {
      AttemptKeepsInventory(s, quoter, funded, market, orders[0]);
      RunKeepsInventory(s, quoter, funded, Attempt(s, quoter, market, orders[0]), orders[1..]);
    }
  }

  // ---- what the pricing kernel is assumed to satisfy ----------------------------------

  /** A maker cost function whose symmetric value is covered by the seeded headroom. */
  ghost predicate CostFunction(cost: (nat, nat) -> real, headroom: nat) {
    && (forall x: nat, y: nat :: cost(x, y) >= x as real && cost(x, y) >= y as real)
    && (forall x: nat, y: nat, x': nat, y': nat :: x <= x' && y <= y' ==> cost(x, y) <= cost(x', y'))
    && cost(0, 0) <= headroom as real
  }

  function CostAfterBuy(cost: (nat, nat) -> real, x: nat, y: nat, side: ScalarSide, amount: nat): real {
    if side.Long? then cost(x + amount, y) else cost(x, y + amount)
  }

  function CostAfterSell(cost: (nat, nat) -> real, x: nat, y: nat, side: ScalarSide, amount: nat): real
    requires amount <= if side.Long? then x else y
  {
    if side.Long? then cost(x - amount, y) else cost(x, y - amount)
  }

  /** Every buy is charged at least, and every sell is paid at most, the change in cost. */
  ghost predicate MakerAdverse(cost: (nat, nat) -> real, quoter: Quoter) {
    && (forall x: nat, y: nat, side: ScalarSide, amount: nat | quoter.buy(x, y, side, amount).Some? ::
          quoter.buy(x, y, side, amount).value.cash as real >= CostAfterBuy(cost, x, y, side, amount) - cost(x, y))
    && (forall x: nat, y: nat, side: ScalarSide, amount: nat
          | amount <= (if side.Long? then x else y) && quoter.sell(x, y, side, amount).Some? ::
          quoter.sell(x, y, side, amount).value.cash as real <= cost(x, y) - CostAfterSell(cost, x, y, side, amount))
  }

  // ---- telescoping ----------------------------------------------------------------------

  function CostAt(cost: (nat, nat) -> real, market: Market): real { cost(market.qLong, market.qShort) }

  /** The book's revenue and inventory, and the trader's cash, move with the cost function. */
  ghost predicate Telescopes(cost: (nat, nat) -> real, from: Market, to: Market) {
    var rise := CostAt(cost, to) - CostAt(cost, from);
    && (to.netRevenue - from.netRevenue) as real >= rise
    && (to.inventory - from.inventory) as real >= rise
    && ((to.paid - from.paid) - (to.received - from.received)) as real >= rise
  }

  /** What an accepted order does to the quantities and the accumulators. */
  lemma AcceptedEffect(s: Setup, quoter: Quoter, market: Market, order: Order) returns (quote: Quote)
    requires Accepted(s, quoter, market, order)
    ensures
      var next, cash: int, fee: int := Attempt(s, quoter, market, order), quote.cash, quote.fee;
      next.feesAccrued == market.feesAccrued + fee &&
      if order.buy then
        && quoter.buy(market.qLong, market.qShort, order.side, order.amount) == Some(quote)
        && next.qLong == market.qLong + (if order.side.Long? then order.amount else 0)
        && next.qShort == market.qShort + (if order.side.Long? then 0 else order.amount)
        && next.netRevenue - market.netRevenue == next.inventory - market.inventory == cash
        && next.paid == market.paid + cash + fee && next.received == market.received
      else
        && quoter.sell(market.qLong, market.qShort, order.side, order.amount) == Some(quote)
        && order.amount <= market.Quantity(order.side) && fee <= cash
        && next.qLong == market.qLong - (if order.side.Long? then order.amount else 0)
        && next.qShort == market.qShort - (if order.side.Long? then 0 else order.amount)
        && next.netRevenue - market.netRevenue == next.inventory - market.inventory == -cash
        && next.paid == market.paid && next.received == market.received + (cash - fee)
  {
    quote := Plan(s, quoter, market, order).value.0;
  }

  /** A maker-adverse quote, seen between two states that differ by the order. */
  lemma QuoteAgainstCost(
    quoter: Quoter, cost: (nat, nat) -> real, before: Market, after: Market, order: Order, quote: Quote)
    requires MakerAdverse(cost, quoter)
    requires if order.buy then quoter.buy(before.qLong, before.qShort, order.side, order.amount) == Some(quote)
             else quoter.sell(before.qLong, before.qShort, order.side, order.amount) == Some(quote)
    requires var moved: int := if order.buy then order.amount else -(order.amount as int);
             && after.qLong == before.qLong + (if order.side.Long? then moved else 0)
             && after.qShort == before.qShort + (if order.side.Long? then 0 else moved)
    ensures var cash: int := if order.buy then quote.cash else -(quote.cash as int);
            cash as real >= CostAt(cost, after) - CostAt(cost, before)
  {
    if order.buy {
      assert quote.cash as real >= CostAt(cost, after) - CostAt(cost, before);
    } else {
      assert quote.cash as real <= CostAt(cost, before) - CostAt(cost, after);
    }
  }

  lemma AttemptTelescopes(s: Setup, quoter: Quoter, cost: (nat, nat) -> real, market: Market, order: Order)
    requires MakerAdverse(cost, quoter)
    ensures Telescopes(cost, market, Attempt(s, quoter, market, order))
  {
    if Accepted(s, quoter, market, order) {
      var quote := AcceptedEffect(s, quoter, market, order);
      QuoteAgainstCost(quoter, cost, market, Attempt(s, quoter, market, order), order, quote);
    }
  }

  lemma {:induction false} RunTelescopes(
    s: Setup, quoter: Quoter, cost: (nat, nat) -> real, market: Market, orders: seq<Order>)
    requires MakerAdverse(cost, quoter)
    ensures Telescopes(cost, market, Run(s, quoter, market, orders))
    decreases |orders|
  {
    if orders != [] {
      AttemptTelescopes(s, quoter, cost, market, orders[0]);
      RunTelescopes(s, quoter, cost, Attempt(s, quoter, market, orders[0]), orders[1..]);
    }
  }

  // ---- main results ------------------------------------------------------------------------

  /** A book that was seeded with `legs` on both sides and `liquid` branch USDC, and has not traded. */
  ghost predicate Seeded(s: Setup, legs: nat, liquid: nat, market: Market) {
    && market.qLong == market.qShort == market.feesAccrued == 0
    && market.netRevenue == market.inventory == market.paid == market.received == 0
    && BalanceOf(market.held, s.Leg(ScalarSide.Long, s.account)) == legs
    && BalanceOf(market.held, s.Leg(ScalarSide.Short, s.account)) == legs
    && Liquid(s, market.held) == liquid
  }

  /** What the harness asserts of every realized state. */
  ghost predicate Solvent(s: Setup, headroom: nat, funded: nat, market: Market) {
    && market.netRevenue >= 0
    && (forall side: ScalarSide ::
          && Available(s, market.held, side) == funded + market.inventory - market.Quantity(side) >= 0
          && market.Quantity(side) - market.inventory <= headroom)
  }

  /** Revenue cannot go negative, and neither quantity runs ahead of inventory by more than the
      headroom, because the cost function is least at the origin and at least either quantity. */
  lemma TelescopingBounds(cost: (nat, nat) -> real, headroom: nat, start: Market, end: Market)
    requires CostFunction(cost, headroom) && Telescopes(cost, start, end)
    requires start.qLong == start.qShort == 0 && start.netRevenue == start.inventory == 0
    ensures end.netRevenue >= 0
    ensures forall side: ScalarSide :: end.Quantity(side) - end.inventory <= headroom
  {
    assert cost(0, 0) <= CostAt(cost, end);
    assert CostAt(cost, end) >= end.qLong as real && CostAt(cost, end) >= end.qShort as real;
  }

  lemma RunIsSolvent(s: Setup, quoter: Quoter, cost: (nat, nat) -> real, headroom: nat, legs: nat, liquid: nat,
                     start: Market, orders: seq<Order>)
    requires s.Valid() && Seeded(s, legs, liquid, start)
    requires CostFunction(cost, headroom) && MakerAdverse(cost, quoter)
    ensures Solvent(s, headroom, legs + liquid, Run(s, quoter, start, orders))
    ensures Liquid(s, Run(s, quoter, start, orders).held) == liquid
  {
    RunKeepsInventory(s, quoter, legs + liquid, start, orders);
    RunTelescopes(s, quoter, cost, start, orders);
    TelescopingBounds(cost, headroom, start, Run(s, quoter, start, orders));
  }

  /** No run that brings the book back to its starting quantities pays the trader a profit,
      whatever state it started from. */
  lemma NoProfit(s: Setup, quoter: Quoter, cost: (nat, nat) -> real, start: Market, orders: seq<Order>)
    requires MakerAdverse(cost, quoter)
    requires var end := Run(s, quoter, start, orders); end.qLong == start.qLong && end.qShort == start.qShort
    ensures var end := Run(s, quoter, start, orders); end.received - start.received <= end.paid - start.paid
  {
    RunTelescopes(s, quoter, cost, start, orders);
  }

  // ---- where fees and cash end up ------------------------------------------------------------

  /** What an accepted order does to the branch USDC of the fees account and of the trader. */
  lemma BranchTradeSettles(s: Setup, quoter: Quoter, market: Market, order: Order)
    requires s.Valid() && !s.kind.BaselineBook? && Accepted(s, quoter, market, order)
    ensures
      var next := Attempt(s, quoter, market, order);
      var (quote, ops) := Plan(s, quoter, market, order).value;
      && BalanceOf(next.held, s.Usdc(s.fees)) - BalanceOf(market.held, s.Usdc(s.fees)) == quote.fee
      && BalanceOf(next.held, s.Usdc(s.trader)) - BalanceOf(market.held, s.Usdc(s.trader)) ==
         (if order.buy then 0 else
          quote.cash - quote.fee - Matched(quote.cash - quote.fee, Mirrored(s, market.held)))
  {
    var (quote, ops) := Plan(s, quoter, market, order).value;
    if order.buy {
      BranchBuySettles(s, order.side, order.amount, quote);
    } else {
      BranchSellSettles(s, order.side, order.amount, quote, Mirrored(s, market.held));
    }
    PlayAt(market.held, ops, s.Usdc(s.fees));
    PlayAt(market.held, ops, s.Usdc(s.trader));
  }

  /** What a branch sell pays out: the net is split between a rise on the traded branch and a fall on
      the other, where it was merged back into USDC, and something stays on the traded branch only
      when the other one is used up. */
  lemma SellMergesAllItCan(s: Setup, quoter: Quoter, market: Market, order: Order)
    requires s.Valid() && !s.kind.BaselineBook? && !order.buy && Accepted(s, quoter, market, order)
    ensures
      var next, quote := Attempt(s, quoter, market, order), Plan(s, quoter, market, order).value.0;
      var rise := BalanceOf(next.held, s.Usdc(s.trader)) - BalanceOf(market.held, s.Usdc(s.trader));
      var fall := BalanceOf(market.held, s.Mirror(s.trader)) - BalanceOf(next.held, s.Mirror(s.trader));
      && rise >= 0 && fall >= 0 && rise + fall == quote.cash - quote.fee
      && (rise == 0 || BalanceOf(next.held, s.Mirror(s.trader)) == 0)
  {
    var (quote, ops) := Plan(s, quoter, market, order).value;
    BranchSellSettles(s, order.side, order.amount, quote, Mirrored(s, market.held));
    PlayAt(market.held, ops, s.Usdc(s.trader));
    PlayAt(market.held, ops, s.Mirror(s.trader));
  }

  /** What a branch book says it accrued in fees is what its fees account received. */
  lemma {:induction false} FeesAreHeld(s: Setup, quoter: Quoter, market: Market, orders: seq<Order>)
    requires s.Valid() && !s.kind.BaselineBook?
    ensures
      var end := Run(s, quoter, market, orders);
      BalanceOf(end.held, s.Usdc(s.fees)) - BalanceOf(market.held, s.Usdc(s.fees)) ==
      end.feesAccrued - market.feesAccrued
    decreases |orders|
  {
    if orders != [] {
      if Accepted(s, quoter, market, orders[0]) {
        BranchTradeSettles(s, quoter, market, orders[0]);
      }
      FeesAreHeld(s, quoter, Attempt(s, quoter, market, orders[0]), orders[1..]);
    }
  }
}
