/** The trade harness: seeding, atomic trades over a mutable book and ledger, and the
    checks it makes after every trade. */
module Harness {
  import opened Common
  import opened Positions
  import opened Ledger
  import opened Quantiser
  import opened SeedCodec
  import opened Book
  import opened BookTheorems
  import opened Acceptance
  import opened Conservation

  // ---- seeding --------------------------------------------------------------------------

  /** Who seeds, with how much headroom, and the account of the sibling book of an external pair. */
  datatype Seeding = Seeding(seeder: u8, counterpart: u8, headroom: u128) {
    predicate Valid(s: Setup) { seeder != s.account && counterpart != s.account && counterpart != seeder }
  }

  /** Branch USDC moves from the seeder to the book, and `headroom` of it is split into both legs. */
  function Fund(s: Setup, seeder: u8, moved: u128, headroom: u128): seq<LedgerOp>
    requires !s.kind.BaselineBook?
  {
    [Transfer(s.Usdc(seeder).id, seeder, s.account, moved), SplitLegs(s.kind, s.account, headroom)]
  }

  /** The book of an external pair that trades a branch. */
  function BookOn(s: Setup, seed: Seeding, b: Branch): Setup
    requires s.kind.External?
  {
    if s.kind.branch == b then s
    else s.(kind := External(s.kind.question, s.kind.client, b), account := seed.counterpart)
  }

  /** Seeding refuses an external pair whose doubled headroom does not fit. */
  predicate Doubles(s: Setup, seed: Seeding) { s.kind.External? ==> seed.headroom + seed.headroom <= U128_MAX }

  /** A book is funded from one split; an external pair from two, one for each book, so that every
      minted leg ends up in one of the two books. */
  function SeedOps(s: Setup, seed: Seeding): seq<LedgerOp>
    requires Doubles(s, seed)
  {
    match s.kind
    case BaselineBook(e) =>
      [SplitBaseline(e, seed.seeder, seed.headroom),
       Transfer(SidePosition(s.kind, ScalarSide.Long), seed.seeder, s.account, seed.headroom),
       Transfer(SidePosition(s.kind, ScalarSide.Short), seed.seeder, s.account, seed.headroom)]
    case External(q, _, _) =>
      [Split(q, seed.seeder, seed.headroom)] + [Split(q, seed.seeder, seed.headroom)] +
      Fund(BookOn(s, seed, Accept), seed.seeder, seed.headroom + seed.headroom, seed.headroom) +
      Fund(BookOn(s, seed, Reject), seed.seeder, seed.headroom + seed.headroom, seed.headroom)
    case _ =>
      [Split(ProposalOf(s.kind), seed.seeder, seed.headroom)] +
      Fund(s, seed.seeder, seed.headroom, seed.headroom)
  }

  /** What seeding leaves in the book besides the headroom on both legs. */
  function Locked(s: Setup, seed: Seeding): nat { if s.kind.External? then seed.headroom else 0 }

  function Opening(held: Holdings): Market { Market(held, 0, 0, 0, 0, 0, 0, 0) }

  /** A book has nothing yet. */
  predicate Unfunded(s: Setup, held: Holdings)
    requires !s.kind.BaselineBook?
  {
    && BalanceOf(held, s.Usdc(s.account)) == 0
    && BalanceOf(held, s.Leg(ScalarSide.Long, s.account)) == 0
    && BalanceOf(held, s.Leg(ScalarSide.Short, s.account)) == 0
  }

  predicate Funded(s: Setup, held: Holdings, headroom: nat, liquid: nat)
    requires !s.kind.BaselineBook?
  {
    && BalanceOf(held, s.Usdc(s.account)) == liquid
    && BalanceOf(held, s.Leg(ScalarSide.Long, s.account)) == headroom
    && BalanceOf(held, s.Leg(ScalarSide.Short, s.account)) == headroom
  }

  /** Funding a book is refused without an entry to move from, and otherwise does what it should. */
  lemma FundStep(s: Setup, held: Holdings, seeder: u8, moved: u128, headroom: u128)
    requires !s.kind.BaselineBook? && seeder != s.account && headroom <= moved && (moved > 0 ==> headroom > 0)
    requires Unfunded(s, held) && BalanceOf(held, s.Usdc(seeder)) >= moved
    requires moved == 0 ==> s.Usdc(seeder) !in held
    ensures
      var end := Play(held, Fund(s, seeder, moved, headroom));
      && (end.ok <==> moved > 0)
      && (end.ok ==> && Funded(s, end.held, headroom, moved - headroom)
                     && BalanceOf(end.held, s.Usdc(seeder)) == BalanceOf(held, s.Usdc(seeder)) - moved
                     && Only(held, end.held, {s.Usdc(seeder), s.Usdc(s.account), s.Leg(ScalarSide.Long, s.account),
                                              s.Leg(ScalarSide.Short, s.account)}))
  {
    var move, split := Transfer(s.Usdc(seeder).id, seeder, s.account, moved), SplitLegs(s.kind, s.account, headroom);
    assert Fund(s, seeder, moved, headroom) == [move] + [split];
    PlayAppend(held, [move], [split]);
    PlayOne(held, move);
    TransferStep(held, s.Usdc(seeder).id, seeder, s.account, moved);
    var h1 := Perform(held, move);
    if h1.ok {
      PlayOne(h1.held, split);
      SplitLegsStep(s, h1.held, s.account, headroom);
    }
  }

  /** One split funds a decision or gate book. */
  lemma BranchSeeded(s: Setup, seed: Seeding)
    requires seed.Valid(s) && (s.kind.Decision? || s.kind.Gate?)
    ensures
      var end := Play(map[], SeedOps(s, seed));
      && (end.ok <==> seed.headroom > 0)
      && (end.ok ==> Funded(s, end.held, seed.headroom, 0) && BalanceOf(end.held, s.Usdc(seed.seeder)) == 0)
  {
    var id, empty: Holdings := LiquidPosition(s.kind).value, map[];
    var split := Split(id.proposal, seed.seeder, seed.headroom);
    PlayAppend(empty, [split], Fund(s, seed.seeder, seed.headroom, seed.headroom));
    PlayOne(empty, split);
    SplitStep(empty, id.proposal, id.branch, seed.seeder, seed.headroom);
    FundStep(s, Perform(empty, split).held, seed.seeder, seed.headroom, seed.headroom);
  }

  /** The funder of an external pair starts with both splits on both branches. */
  lemma PairMinted(q: nat, seeder: u8, headroom: u128)
    requires headroom + headroom <= U128_MAX
    ensures
      var accept, reject := Key(Proposal(q, Accept, BranchUsdc), seeder), Key(Proposal(q, Reject, BranchUsdc), seeder);
      var end := Play(map[], [Split(q, seeder, headroom)] + [Split(q, seeder, headroom)]);
      && end.ok && BalanceOf(end.held, accept) == BalanceOf(end.held, reject) == headroom + headroom
      && (accept in end.held <==> headroom > 0) && (reject in end.held <==> headroom > 0)
      && Only(map[], end.held, {accept, reject})
  {
    var split, empty: Holdings := Split(q, seeder, headroom), map[];
    PlayAppend(empty, [split], [split]);
    PlayOne(empty, split);
    SplitStep(empty, q, Accept, seeder, headroom);
    PlayOne(Perform(empty, split).held, split);
    SplitStep(Perform(empty, split).held, q, Accept, seeder, headroom);
  }

  /** What the book and its funder hold in a branch is the same in two states. */
  predicate SameFunds(y: Setup, seeder: u8, before: Holdings, after: Holdings)
    requires !y.kind.BaselineBook?
  {
    && BalanceOf(after, y.Usdc(seeder)) == BalanceOf(before, y.Usdc(seeder))
    && BalanceOf(after, y.Usdc(y.account)) == BalanceOf(before, y.Usdc(y.account))
    && BalanceOf(after, y.Leg(ScalarSide.Long, y.account)) == BalanceOf(before, y.Leg(ScalarSide.Long, y.account))
    && BalanceOf(after, y.Leg(ScalarSide.Short, y.account)) == BalanceOf(before, y.Leg(ScalarSide.Short, y.account))
  }

  /** Funding one book of a pair leaves everything its sibling on the other branch is funded with. */
  lemma FundBeside(x: Setup, y: Setup, held: Holdings, seeder: u8, moved: u128, headroom: u128)
    requires x.kind.External? && y.kind.External? && x.kind.branch != y.kind.branch
    requires seeder != x.account && headroom <= moved && (moved > 0 ==> headroom > 0)
    requires Unfunded(x, held) && BalanceOf(held, x.Usdc(seeder)) >= moved
    requires moved == 0 ==> x.Usdc(seeder) !in held
    ensures
      var end := Play(held, Fund(x, seeder, moved, headroom));
      && (end.ok <==> moved > 0)
      && (end.ok ==> && Funded(x, end.held, headroom, moved - headroom) && SameFunds(y, seeder, held, end.held)
                     && BalanceOf(end.held, x.Usdc(seeder)) == BalanceOf(held, x.Usdc(seeder)) - moved)
  {
    FundStep(x, held, seeder, moved, headroom);
  }

  /** Both books of an external pair are funded, Accept first; the funder keeps nothing. */
  lemma PairFunded(a: Setup, r: Setup, held: Holdings, seeder: u8, headroom: u128)
    requires a.kind.External? && a.kind.branch == Accept && r.kind.External? && r.kind.branch == Reject
    requires seeder != a.account && seeder != r.account && a.account != r.account
    requires headroom + headroom <= U128_MAX && Unfunded(a, held) && Unfunded(r, held)
    requires BalanceOf(held, a.Usdc(seeder)) == BalanceOf(held, r.Usdc(seeder)) == headroom + headroom
    requires headroom == 0 ==> a.Usdc(seeder) !in held
    ensures
      var twice := headroom + headroom;
      var end := Play(held, Fund(a, seeder, twice, headroom) + Fund(r, seeder, twice, headroom));
      && (end.ok <==> headroom > 0)
      && (end.ok ==> && Funded(a, end.held, headroom, headroom) && Funded(r, end.held, headroom, headroom)
                     && BalanceOf(end.held, a.Usdc(seeder)) == BalanceOf(end.held, r.Usdc(seeder)) == 0)
  {
    var twice := headroom + headroom;
    var first, second := Fund(a, seeder, twice, headroom), Fund(r, seeder, twice, headroom);
    PlayAppend(held, first, second);
    FundBeside(a, r, held, seeder, twice, headroom);
    var h1 := Play(held, first);
    if h1.ok {
      FundBeside(r, a, h1.held, seeder, twice, headroom);
    }
  }

  /** Either book of an external pair ends with the headroom on both legs and once more as branch USDC,
      and the funder with no USDC on either branch that it could merge. */
  lemma ExternalSeeded(s: Setup, seed: Seeding)
    requires seed.Valid(s) && s.kind.External? && Doubles(s, seed)
    ensures
      var end := Play(map[], SeedOps(s, seed));
      && (end.ok <==> seed.headroom > 0)
      && (end.ok ==> forall b: Branch ::
            && Funded(BookOn(s, seed, b), end.held, seed.headroom, seed.headroom)
            && BalanceOf(end.held, BookOn(s, seed, b).Usdc(seed.seeder)) == 0)
  {
    var a, r := BookOn(s, seed, Accept), BookOn(s, seed, Reject);
    var split, twice := Split(s.kind.question, seed.seeder, seed.headroom), seed.headroom + seed.headroom;
    var first, second := Fund(a, seed.seeder, twice, seed.headroom), Fund(r, seed.seeder, twice, seed.headroom);
    assert SeedOps(s, seed) == ([split] + [split]) + (first + second);
    PlayAppend(map[], [split] + [split], first + second);
    PairMinted(s.kind.question, seed.seeder, seed.headroom);
    PairFunded(a, r, Play(map[], [split] + [split]).held, seed.seeder, seed.headroom);
    assert forall b: Branch :: BookOn(s, seed, b) == a || BookOn(s, seed, b) == r;
  }

  lemma BaselineSeeded(s: Setup, seed: Seeding)
    requires seed.Valid(s) && s.kind.BaselineBook?
    ensures
      var end := Play(map[], SeedOps(s, seed));
      && (end.ok <==> seed.headroom > 0)
      && (end.ok ==> && BalanceOf(end.held, s.Leg(ScalarSide.Long, s.account)) == seed.headroom
                     && BalanceOf(end.held, s.Leg(ScalarSide.Short, s.account)) == seed.headroom)
  {
    var (l, r) := FeeSet(s);
    var empty: Holdings, split := map[], SplitBaseline(s.kind.epoch, seed.seeder, seed.headroom);
    var first := Transfer(l, seed.seeder, s.account, seed.headroom);
    var second := Transfer(r, seed.seeder, s.account, seed.headroom);
    assert SeedOps(s, seed) == [split] + ([first] + [second]);
    PlayAppend(empty, [split], [first] + [second]);
    PlayOne(empty, split);
    CreditsStep(empty, l, r, seed.seeder, seed.headroom);
    var h1 := Perform(empty, split);
    PlayAppend(h1.held, [first], [second]);
    PlayOne(h1.held, first);
    TransferStep(h1.held, l, seed.seeder, s.account, seed.headroom);
    var h2 := Perform(h1.held, first);
    if h2.ok {
      PlayOne(h2.held, second);
      TransferStep(h2.held, r, seed.seeder, s.account, seed.headroom);
    }
  }

  /** Seeding goes through exactly when there is headroom; the book then starts with it on both legs,
      and an external book with as much again in locked branch USDC. */
  lemma SeedFunds(s: Setup, seed: Seeding)
    requires s.Valid() && seed.Valid(s) && Doubles(s, seed)
    ensures
      var end := Play(map[], SeedOps(s, seed));
      && (end.ok <==> seed.headroom > 0)
      && (end.ok ==> Seeded(s, seed.headroom, Locked(s, seed), Opening(end.held)))
  {
    match s.kind
    case BaselineBook(_) => BaselineSeeded(s, seed);
    case External(_, _, _) =>
      ExternalSeeded(s, seed);
      assert BookOn(s, seed, s.kind.branch) == s;
    case _ => BranchSeeded(s, seed);
  }

  // ---- reachable states always fund what they promise --------------------------------------

  /** What every solvency result assumes: a seeded book whose legs hold the headroom, and quotes
      rounded against the trader. */
  ghost predicate Assumed(s: Setup, quoter: Quoter, cost: (nat, nat) -> real, headroom: nat, legs: nat, liquid: nat,
                          start: Market) {
    s.Valid() && Seeded(s, legs, liquid, start) && headroom <= legs &&
    CostFunction(cost, headroom) && MakerAdverse(cost, quoter)
  }

  /** In a reachable state a soundly quoted buy is never short of inventory: only an overflowing
      credit can refuse it or, if it costs nothing, a missing entry. */
  lemma BuyNeverShort(s: Setup, quoter: Quoter, cost: (nat, nat) -> real, headroom: nat, legs: nat, liquid: nat,
                      start: Market, orders: seq<Order>, order: Order)
    requires Assumed(s, quoter, cost, headroom, legs, liquid, start) && order.buy
    requires Plan(s, quoter, Run(s, quoter, start, orders), order).Some?
    ensures var market := Run(s, quoter, start, orders);
            var quote := Plan(s, quoter, market, order).value.0;
            Accepted(s, quoter, market, order) <==>
              BuyFits(s, market.held, order.side, order.amount, quote) && BuyOpen(s, market.held, order.side, quote)
  {
    var market := Run(s, quoter, start, orders);
    var quote := Plan(s, quoter, market, order).value.0;
    LegAfterRun(s, quoter, cost, legs, liquid, start, orders, order.side);
    LegCoversBuy(quoter, cost, headroom, market, order, quote);
    BuyAccepted(s, market.held, order.side, order.amount, quote);
  }

  /** The leg a run leaves in the book, and that inventory rose with the cost function. */
  lemma LegAfterRun(s: Setup, quoter: Quoter, cost: (nat, nat) -> real, legs: nat, liquid: nat, start: Market,
                    orders: seq<Order>, side: ScalarSide)
    requires s.Valid() && Seeded(s, legs, liquid, start) && MakerAdverse(cost, quoter)
    ensures
      var market := Run(s, quoter, start, orders);
      && BalanceOf(market.held, s.Leg(side, s.account)) == legs + market.inventory - market.Quantity(side)
      && market.inventory as real >= CostAt(cost, market) - cost(0, 0)
  {
    var market := Run(s, quoter, start, orders);
    RunKeepsInventory(s, quoter, legs + liquid, start, orders);
    RunTelescopes(s, quoter, cost, start, orders);
    assert Available(s, market.held, side) == legs + liquid + market.inventory - market.Quantity(side);
  }

  lemma LegCoversBuy(
    quoter: Quoter, cost: (nat, nat) -> real, headroom: nat, market: Market, order: Order, quote: Quote)
    requires CostFunction(cost, headroom) && MakerAdverse(cost, quoter)
    requires order.buy && quoter.buy(market.qLong, market.qShort, order.side, order.amount) == Some(quote)
    requires market.inventory as real >= CostAt(cost, market) - cost(0, 0)
    ensures headroom + market.inventory - market.Quantity(order.side) + quote.cash >= order.amount
  {
    var after := CostAfterBuy(cost, market.qLong, market.qShort, order.side, order.amount);
    assert quote.cash as real >= after - CostAt(cost, market);
    assert after >= (market.Quantity(order.side) + order.amount) as real;
  }

  /** A buy delivers to the trader what it takes from the book. */
  lemma BuyDelivers(s: Setup, side: ScalarSide, amount: u128, quote: Quote)
    requires s.Valid() && quote.cash + quote.fee <= U128_MAX
    ensures OpsAt(BuyOps(s, side, amount, quote), s.Leg(side, s.trader)) == amount
  {
    if s.kind.BaselineBook? {
      BaselineBuySum(s, side, amount, quote, s.Leg(side, s.trader));
    } else {
      BranchBuySettles(s, side, amount, quote);
    }
  }

  /** After a first buy the trader holds the side, and both legs cover anything up to its cost. */
  lemma FirstBuyCovers(s: Setup, quoter: Quoter, legs: nat, liquid: nat, start: Market, side: ScalarSide,
                       amount: u128, cash: nat)
    requires s.Valid() && Seeded(s, legs, liquid, start) && amount > 0
    requires Accepted(s, quoter, start, Order(true, side, amount))
    requires cash <= Plan(s, quoter, start, Order(true, side, amount)).value.0.cash
    ensures SellCovered(s, Attempt(s, quoter, start, Order(true, side, amount)).held, side, amount, cash)
  {
    var (quote, ops) := Plan(s, quoter, start, Order(true, side, amount)).value;
    BuyDelivers(s, side, amount, quote);
    PlayAt(start.held, ops, s.Leg(side, s.trader));
    BuyOpsAt(s, side, amount, quote, side);
    PlayAt(start.held, ops, s.Leg(side, s.account));
    BuyOpsAt(s, side, amount, quote, OtherSide(side));
    PlayAt(start.held, ops, s.Leg(OtherSide(side), s.account));
  }

  /** Buying from a fresh book and selling the same amount back: the sell is refused by
      nothing but an overflow, the book returns to its start, and the trader gains nothing. */
  lemma RoundTripGoesThrough(s: Setup, quoter: Quoter, cost: (nat, nat) -> real, headroom: nat, legs: nat, liquid: nat,
                             start: Market, side: ScalarSide, amount: u128)
    requires Assumed(s, quoter, cost, headroom, legs, liquid, start) && amount > 0
    requires Accepted(s, quoter, start, Order(true, side, amount))
    requires Plan(s, quoter, Attempt(s, quoter, start, Order(true, side, amount)), Order(false, side, amount)).Some?
    ensures
      var bought := Attempt(s, quoter, start, Order(true, side, amount));
      var quote := Plan(s, quoter, bought, Order(false, side, amount)).value.0;
      var end := Attempt(s, quoter, bought, Order(false, side, amount));
      && (Accepted(s, quoter, bought, Order(false, side, amount)) <==> SellFits(s, bought.held, side, amount, quote))
      && (Accepted(s, quoter, bought, Order(false, side, amount)) ==>
            end.qLong == end.qShort == 0 && end.received <= end.paid)
  {
    var buy, sell := Order(true, side, amount), Order(false, side, amount);
    var bought := Attempt(s, quoter, start, buy);
    var quote := Plan(s, quoter, bought, sell).value.0;
    ProceedsWithinCost(quoter, cost, side, amount, Plan(s, quoter, start, buy).value.0, quote);
    FirstBuyCovers(s, quoter, legs, liquid, start, side, amount, quote.cash);
    SellAccepted(s, bought.held, side, amount, quote);
    ReturnWithoutProfit(s, quoter, cost, start, buy, sell);
  }

  lemma ReturnWithoutProfit(
    s: Setup, quoter: Quoter, cost: (nat, nat) -> real, start: Market, first: Order, second: Order)
    requires MakerAdverse(cost, quoter)
    ensures
      var end := Attempt(s, quoter, Attempt(s, quoter, start, first), second);
      end.qLong == start.qLong && end.qShort == start.qShort ==>
        end.received - start.received <= end.paid - start.paid
  {
    AttemptTelescopes(s, quoter, cost, start, first);
    AttemptTelescopes(s, quoter, cost, Attempt(s, quoter, start, first), second);
  }

  lemma ProceedsWithinCost(
    quoter: Quoter, cost: (nat, nat) -> real, side: ScalarSide, amount: nat, bought: Quote, sold: Quote)
    requires MakerAdverse(cost, quoter)
    requires quoter.buy(0, 0, side, amount) == Some(bought)
    requires Some(sold) ==
             if side.Long? then quoter.sell(amount, 0, side, amount) else quoter.sell(0, amount, side, amount)
    ensures sold.cash <= bought.cash
  {
    var rise := CostAfterBuy(cost, 0, 0, side, amount) - cost(0, 0);
    assert bought.cash as real >= rise >= sold.cash as real;
  }

  // ---- trades obey the ledger laws ---------------------------------------------------------------

  /** USDC that the accepted orders of a run paid into a proposal by splits, less what they merged. */
  function RunMinted(s: Setup, quoter: Quoter, market: Market, orders: seq<Order>, p: nat): int
    decreases |orders|
  {
    if orders == [] then 0
    else
      (if Accepted(s, quoter, market, orders[0])
       then MintedBy(Plan(s, quoter, market, orders[0]).value.1, p) else 0) +
      RunMinted(s, quoter, Attempt(s, quoter, market, orders[0]), orders[1..], p)
  }

  /** Trades are composites, so a run of them keeps the ledger laws at every proposal and epoch. */
  lemma {:induction false} RunKeepsLedgerLaws(
    s: Setup, quoter: Quoter, market: Market, orders: seq<Order>, p: nat, b: Branch, g: GateType, e: nat, minted: int)
    requires Balanced(market.held, p, b, g, e, minted)
    ensures Balanced(Run(s, quoter, market, orders).held, p, b, g, e, minted + RunMinted(s, quoter, market, orders, p))
    decreases |orders|
  {
    if orders != [] {
      var next := Attempt(s, quoter, market, orders[0]);
      if Accepted(s, quoter, market, orders[0]) {
        var ops := Plan(s, quoter, market, orders[0]).value.1;
        PlayKeepsBalance(market.held, ops, p, b, g, e, minted);
        RunKeepsLedgerLaws(s, quoter, next, orders[1..], p, b, g, e, minted + MintedBy(ops, p));
      } else {
        RunKeepsLedgerLaws(s, quoter, next, orders[1..], p, b, g, e, minted);
      }
    }
  }

  /** What a buy pays into a proposal: cost and fee, and only into the proposal the book trades. */
  lemma BuyMinted(s: Setup, side: ScalarSide, amount: u128, quote: Quote, p: nat)
    requires quote.cash + quote.fee <= U128_MAX
    ensures MintedBy(BuyOps(s, side, amount, quote), p) ==
            if s.kind.BaselineBook? || ProposalOf(s.kind) != p then 0 else quote.cash + quote.fee
  {
    var pay, fee, deliver := Payment(s, quote), FeeLegs(s, quote.fee), Delivery(s, side, amount, quote.cash);
    MintedByAppend(pay + fee, deliver, p);
    MintedByAppend(pay, fee, p);
    NothingMinted(fee, p);
    NothingMinted(deliver, p);
    NothingMinted(pay[1..], p);
  }

  /** What a sell takes back out: the matched part of its net. */
  lemma SellMinted(s: Setup, side: ScalarSide, amount: u128, quote: Quote, mirrored: u128, p: nat)
    requires quote.fee <= quote.cash
    ensures MintedBy(SellOps(s, side, amount, quote, mirrored), p) ==
            if s.kind.BaselineBook? || ProposalOf(s.kind) != p then 0
            else -(Matched(quote.cash - quote.fee, mirrored) as int)
  {
    var pay, last := Payout(s, side, amount, quote), MergeNet(s, quote.cash - quote.fee, mirrored);
    MintedByAppend(pay, last, p);
    NothingMinted(pay, p);
    if last != [] {
      NothingMinted(last[1..], p);
    }
  }

  lemma {:induction false} MintedByAppend(a: seq<LedgerOp>, b: seq<LedgerOp>, p: nat)
    ensures MintedBy(a + b, p) == MintedBy(a, p) + MintedBy(b, p)
    decreases |a|
  {
    if a == [] {
      assert a + b == b;
    } else {
      assert (a + b)[1..] == a[1..] + b;
      MintedByAppend(a[1..], b, p);
    }
  }

  lemma {:induction false} NothingMinted(ops: seq<LedgerOp>, p: nat)
    requires forall op | op in ops :: !op.Split? && !op.Merge?
    ensures MintedBy(ops, p) == 0
    decreases |ops|
  {
    if ops != [] {
      NothingMinted(ops[1..], p);
    }
  }

  lemma TradeIsBacked(s: Setup, quoter: Quoter, market: Market, order: Order, p: nat)
    requires s.Valid() && Accepted(s, quoter, market, order)
    ensures
      var next := Attempt(s, quoter, market, order);
      MintedBy(Plan(s, quoter, market, order).value.1, p) ==
        if s.kind.BaselineBook? || ProposalOf(s.kind) != p then 0
        else (next.paid - market.paid) - (next.received - market.received) +
             (BalanceOf(next.held, s.Usdc(s.trader)) - BalanceOf(market.held, s.Usdc(s.trader)))
  {
    var quote := AcceptedEffect(s, quoter, market, order);
    if order.buy {
      BuyMinted(s, order.side, order.amount, quote, p);
    } else {
      SellMinted(s, order.side, order.amount, quote, Mirrored(s, market.held), p);
    }
    if !s.kind.BaselineBook? {
      BranchTradeSettles(s, quoter, market, order);
    }
  }

  /** Over any run, what the ledger took in for the book's proposal is what the trader paid, less
      what it received, plus the branch USDC it still holds unmatched. */
  lemma {:induction false} CashIsBacked(s: Setup, quoter: Quoter, market: Market, orders: seq<Order>, p: nat)
    requires s.Valid()
    ensures
      var end := Run(s, quoter, market, orders);
      RunMinted(s, quoter, market, orders, p) ==
        if s.kind.BaselineBook? || ProposalOf(s.kind) != p then 0
        else (end.paid - market.paid) - (end.received - market.received) +
             (BalanceOf(end.held, s.Usdc(s.trader)) - BalanceOf(market.held, s.Usdc(s.trader)))
    decreases |orders|
  {
    if orders != [] {
      if Accepted(s, quoter, market, orders[0]) {
        TradeIsBacked(s, quoter, market, orders[0], p);
      }
      CashIsBacked(s, quoter, Attempt(s, quoter, market, orders[0]), orders[1..], p);
    }
  }

  /** What seeding paid into a proposal: the headroom, or both headrooms of an external pair. */
  lemma SeedMinted(s: Setup, seed: Seeding, p: nat)
    requires Doubles(s, seed)
    ensures MintedBy(SeedOps(s, seed), p) ==
            if s.kind.BaselineBook? || ProposalOf(s.kind) != p then 0 else seed.headroom + Locked(s, seed)
  {
    var ops := SeedOps(s, seed);
    if s.kind.External? {
      NothingMinted(ops[2..], p);
      assert ops[1..][1..] == ops[2..];
      assert MintedBy(ops[1..], p) == Minted(ops[1], p) + MintedBy(ops[2..], p);
    } else if s.kind.BaselineBook? {
      NothingMinted(ops, p);
    } else {
      NothingMinted(ops[1..], p);
    }
  }

  /** Seeding leaves nobody but the book with USDC on the traded branch. */
  lemma TraderStartsEmpty(s: Setup, seed: Seeding)
    requires s.Valid() && seed.Valid(s) && Doubles(s, seed) && !s.kind.BaselineBook?
    requires Play(map[], SeedOps(s, seed)).ok
    ensures BalanceOf(Play(map[], SeedOps(s, seed)).held, s.Usdc(s.trader)) == 0
  {
    var key, mint := s.Usdc(s.trader), Split(ProposalOf(s.kind), seed.seeder, seed.headroom);
    assert [mint][1..] == [];
    if s.kind.External? {
      var a, r, twice := BookOn(s, seed, Accept), BookOn(s, seed, Reject), seed.headroom + seed.headroom;
      var first, second := Fund(a, seed.seeder, twice, seed.headroom), Fund(r, seed.seeder, twice, seed.headroom);
      OpsAtAppend([mint] + [mint] + first, second, key);
      OpsAtAppend([mint] + [mint], first, key);
      OpsAtAppend([mint], [mint], key);
      FundAt(a, seed.seeder, twice, seed.headroom, key);
      FundAt(r, seed.seeder, twice, seed.headroom, key);
    } else {
      OpsAtAppend([mint], Fund(s, seed.seeder, seed.headroom, seed.headroom), key);
      FundAt(s, seed.seeder, seed.headroom, seed.headroom, key);
    }
    PlayAt(map[], SeedOps(s, seed), key);
  }

  lemma FundAt(s: Setup, seeder: u8, moved: u128, headroom: u128, key: Key)
    requires !s.kind.BaselineBook? && key.id.Proposal? && key.id.kind.BranchUsdc? && key != s.Usdc(s.account)
    ensures OpsAt(Fund(s, seeder, moved, headroom), key) == -(if key == s.Usdc(seeder) then moved as int else 0)
  {
    PairAt(Transfer(s.Usdc(seeder).id, seeder, s.account, moved), SplitLegs(s.kind, s.account, headroom), key);
  }

  /** From seeding onwards, every state of the harness obeys the ledger laws; and both branches of
      the traded proposal are backed by the seeded amount, what the trader paid net of what it
      received, and the branch USDC it holds unmatched. */
  lemma HarnessObeysLedgerLaws(
    s: Setup, seed: Seeding, quoter: Quoter, orders: seq<Order>, p: nat, b: Branch, g: GateType, e: nat)
    requires s.Valid() && seed.Valid(s) && Doubles(s, seed) && seed.headroom > 0
    ensures
      var end := Run(s, quoter, Opening(Play(map[], SeedOps(s, seed)).held), orders);
      Balanced(end.held, p, b, g, e,
               if s.kind.BaselineBook? || ProposalOf(s.kind) != p then 0
               else seed.headroom + Locked(s, seed) + end.paid - end.received + BalanceOf(end.held, s.Usdc(s.trader)))
  {
    var ops := SeedOps(s, seed);
    var start := Opening(Play(map[], ops).held);
    SeedFunds(s, seed);
    PlayKeepsBalance(map[], ops, p, b, g, e, 0);
    SeedMinted(s, seed, p);
    RunKeepsLedgerLaws(s, quoter, start, orders, p, b, g, e, MintedBy(ops, p));
    CashIsBacked(s, quoter, start, orders, p);
    if !s.kind.BaselineBook? {
      TraderStartsEmpty(s, seed);
    }
  }

  // ---- the assumptions can be met ------------------------------------------------------------

  function Peak(x: nat, y: nat): nat { if x < y then y else x }

  /** Quotes that charge and pay exactly the change of the larger quantity. */
  function PeakBuy(x: nat, y: nat, side: ScalarSide, amount: nat): Option<Quote> {
    var after := if side.Long? then Peak(x + amount, y) else Peak(x, y + amount);
    if after - Peak(x, y) > U128_MAX then None else Some(Quote(after - Peak(x, y), 0))
  }

  function PeakSell(x: nat, y: nat, side: ScalarSide, amount: nat): Option<Quote> {
    if amount > (if side.Long? then x else y) then None
    else
      var after := if side.Long? then Peak(x - amount, y) else Peak(x, y - amount);
      if Peak(x, y) - after > U128_MAX then None else Some(Quote(Peak(x, y) - after, 0))
  }

  function PeakCost(headroom: nat): (nat, nat) -> real {
    (x: nat, y: nat) => (Peak(x, y) + headroom) as real
  }

  lemma PeakIsCostFunction(headroom: nat)
    ensures CostFunction(PeakCost(headroom), headroom)
  {
    var cost := PeakCost(headroom);
    assert forall x: nat, y: nat :: cost(x, y) == (Peak(x, y) + headroom) as real;
  }

  lemma PeakIsMakerAdverse(headroom: nat)
    ensures MakerAdverse(PeakCost(headroom), Quoter(PeakBuy, PeakSell))
  {
    var cost := PeakCost(headroom);
    assert forall x: nat, y: nat :: cost(x, y) == (Peak(x, y) + headroom) as real;
    forall x: nat, y: nat, side: ScalarSide, amount: nat | PeakBuy(x, y, side, amount).Some?
      ensures PeakBuy(x, y, side, amount).value.cash as real >= CostAfterBuy(cost, x, y, side, amount) - cost(x, y)
    {
    }
    forall x: nat, y: nat, side: ScalarSide, amount: nat
      | amount <= (if side.Long? then x else y) && PeakSell(x, y, side, amount).Some?
      ensures PeakSell(x, y, side, amount).value.cash as real <= cost(x, y) - CostAfterSell(cost, x, y, side, amount)
    {
    }
  }

  /** A kernel that meets every assumption, quotes every buy the width allows, and has its
      symmetric cost exactly at the headroom. */
  lemma AssumptionsSatisfiable(headroom: nat) returns (quoter: Quoter, cost: (nat, nat) -> real)
    ensures CostFunction(cost, headroom) && MakerAdverse(cost, quoter) && cost(0, 0) == headroom as real
    ensures forall amount: u128 :: quoter.buy(0, 0, ScalarSide.Long, amount) == Some(Quote(amount, 0))
  {
    PeakIsCostFunction(headroom);
    PeakIsMakerAdverse(headroom);
    cost, quoter := PeakCost(headroom), Quoter(PeakBuy, PeakSell);
  }

  // ---- the harness on mutable state -------------------------------------------------------------

  class MarketBook {
    const setup: Setup
    var qLong: u128
    var qShort: u128
    var feesAccrued: u128

    constructor (setup: Setup)
      ensures this.setup == setup && qLong == qShort == feesAccrued == 0
    {
      this.setup, qLong, qShort, feesAccrued := setup, 0, 0, 0;
    }
  }

  ghost predicate Matches(book: MarketBook, ledger: MockLedger, market: Market)
    reads book, ledger
  {
    && ledger.Held() == market.held
    && book.qLong == market.qLong && book.qShort == market.qShort && book.feesAccrued == market.feesAccrued
  }

  /** A payout never touches the trader's mirror balance, so reading it afterwards reads the same. */
  lemma PayoutKeepsMirrored(s: Setup, held: Holdings, side: ScalarSide, amount: u128, quote: Quote)
    requires quote.fee <= quote.cash && Play(held, Payout(s, side, amount, quote)).ok
    ensures Mirrored(s, Play(held, Payout(s, side, amount, quote)).held) == Mirrored(s, held)
  {
    if !s.kind.BaselineBook? {
      var key := s.Mirror(s.trader);
      assert SellOps(s, side, amount, quote, 0) == Payout(s, side, amount, quote);
      BranchSellSum(s, side, amount, quote, 0, key);
      PlayAt(held, Payout(s, side, amount, quote), key);
    }
  }

  /** A buy straight against the book and the ledger. A failure leaves both half done. */
  method BuyBook(book: MarketBook, ledger: MockLedger, quoter: Quoter, side: ScalarSide, amount: u128,
                 ghost before: Market)
    returns (traded: Option<Quote>)
    requires ledger.Valid() && Matches(book, ledger, before)
    modifies book, ledger
    ensures ledger.Valid()
    ensures traded.Some? <==> Accepted(book.setup, quoter, before, Order(true, side, amount))
    ensures traded.Some? ==>
              && traded.value == Plan(book.setup, quoter, before, Order(true, side, amount)).value.0
              && Matches(book, ledger, Attempt(book.setup, quoter, before, Order(true, side, amount)))
  {
    traded := quoter.buy(book.qLong, book.qShort, side, amount);
    if traded.None? || traded.value.cash + traded.value.fee > U128_MAX {
      return None;
    }
    var ok := ledger.DoAll(BuyOps(book.setup, side, amount, traded.value));
    var q := if side.Long? then book.qLong else book.qShort;
    if !ok || q + amount > U128_MAX {
      return None;
    }
    if side.Long? {
      book.qLong := q + amount;
    } else {
      book.qShort := q + amount;
    }
    if book.feesAccrued + traded.value.fee > U128_MAX {
      return None;
    }
    book.feesAccrued := book.feesAccrued + traded.value.fee;
  }

  /** The ledger half of a sell. The trader's mirror balance is read only after the payout. */
  method SellOnLedger(ledger: MockLedger, s: Setup, side: ScalarSide, amount: u128, quote: Quote) returns (ok: bool)
    requires ledger.Valid() && quote.fee <= quote.cash
    modifies ledger
    ensures ledger.Valid()
    ensures Outcome(ledger.Held(), ok) ==
            Play(old(ledger.Held()), SellOps(s, side, amount, quote, Mirrored(s, old(ledger.Held()))))
  {
    ghost var held := ledger.Held();
    PlayAppend(held, Payout(s, side, amount, quote), MergeNet(s, quote.cash - quote.fee, Mirrored(s, held)));
    ok := ledger.DoAll(Payout(s, side, amount, quote));
    if ok && !s.kind.BaselineBook? {
      PayoutKeepsMirrored(s, held, side, amount, quote);
      var mirrored := ledger.Balance(s.Mirror(s.trader).id, s.trader);
      ok := ledger.DoAll(MergeNet(s, quote.cash - quote.fee, mirrored));
    }
  }

  /** A sell straight against the book and the ledger. A failure leaves both half done. */
  method SellBook(book: MarketBook, ledger: MockLedger, quoter: Quoter, side: ScalarSide, amount: u128,
                  ghost before: Market)
    returns (traded: Option<Quote>)
    requires ledger.Valid() && Matches(book, ledger, before)
    modifies book, ledger
    ensures ledger.Valid()
    ensures traded.Some? <==> Accepted(book.setup, quoter, before, Order(false, side, amount))
    ensures traded.Some? ==>
              && traded.value == Plan(book.setup, quoter, before, Order(false, side, amount)).value.0
              && Matches(book, ledger, Attempt(book.setup, quoter, before, Order(false, side, amount)))
  {
    traded := quoter.sell(book.qLong, book.qShort, side, amount);
    if traded.None? || traded.value.fee > traded.value.cash {
      return None;
    }
    var ok := SellOnLedger(ledger, book.setup, side, amount, traded.value);
    var q := if side.Long? then book.qLong else book.qShort;
    if !ok || amount > q {
      return None;
    }
    if side.Long? {
      book.qLong := q - amount;
    } else {
      book.qShort := q - amount;
    }
    if book.feesAccrued + traded.value.fee > U128_MAX {
      return None;
    }
    book.feesAccrued := book.feesAccrued + traded.value.fee;
  }

  /** The snapshot wrapper: the trade happens whole, or book and ledger are as before. */
  method AtomicTrade(book: MarketBook, ledger: MockLedger, quoter: Quoter, order: Order, ghost before: Market)
    returns (traded: Option<Quote>)
    requires ledger.Valid() && Matches(book, ledger, before)
    modifies book, ledger
    ensures ledger.Valid() && Matches(book, ledger, Attempt(book.setup, quoter, before, order))
    ensures traded.Some? <==> Accepted(book.setup, quoter, before, order)
    ensures traded.Some? ==> traded.value == Plan(book.setup, quoter, before, order).value.0
  {
    var qLong, qShort, feesAccrued, balances := book.qLong, book.qShort, book.feesAccrued, ledger.balances;
    if order.buy {
      traded := BuyBook(book, ledger, quoter, order.side, order.amount, before);
    } else {
      traded := SellBook(book, ledger, quoter, order.side, order.amount, before);
    }
    if traded.None? {
      book.qLong, book.qShort, book.feesAccrued := qLong, qShort, feesAccrued;
      ledger.balances := balances;
    }
  }

  lemma {:induction false} RunSnoc(s: Setup, quoter: Quoter, market: Market, orders: seq<Order>, last: Order)
    ensures Run(s, quoter, market, orders + [last]) == Attempt(s, quoter, Run(s, quoter, market, orders), last)
    decreases |orders|
  {
    if orders == [] {
      assert orders + [last] == [last] && [last][1..] == [];
      assert Run(s, quoter, market, [last]) == Run(s, quoter, Attempt(s, quoter, market, last), []);
    } else {
      assert (orders + [last])[1..] == orders[1..] + [last];
      RunSnoc(s, quoter, Attempt(s, quoter, market, orders[0]), orders[1..], last);
    }
  }

  /** A fresh book in its seeded state. The harness stops where seeding would be refused. */
  method SeededBook(s: Setup, seed: Seeding) returns (book: MarketBook, ledger: MockLedger)
    requires s.Valid() && seed.Valid(s) && Doubles(s, seed) && seed.headroom > 0
    ensures fresh(book) && fresh(ledger) && book.setup == s && ledger.Valid()
    ensures ledger.Held() == Play(map[], SeedOps(s, seed)).held
    ensures Matches(book, ledger, Opening(ledger.Held()))
    ensures Seeded(s, seed.headroom, Locked(s, seed), Opening(ledger.Held()))
  {
    SeedFunds(s, seed);
    book := new MarketBook(s);
    ledger := new MockLedger();
    var ok := ledger.DoAll(SeedOps(s, seed));
  }

  /** The amount a selector names, which fits because a quarter of `b` does. */
  function TradeAmount(minTrade: nat, b: nat, selector: u16): u128
    requires minTrade <= b / 4 && b <= U128_MAX
  {
    AmountInRange(minTrade, b, selector);
    AmountFromSelector(minTrade, b, selector)
  }

  /** The order a parsed operation becomes in a state; a sell needs something to sell. */
  function OrderFor(s: Setup, minTrade: nat, b: nat, market: Market, op: TradeOp): Option<Order>
    requires minTrade <= b / 4 && b <= U128_MAX
  {
    if op.buy then
      Some(Order(true, op.side, TradeAmount(minTrade, b, op.selector)))
    else
      var held := BalanceOf(market.held, s.Leg(op.side, s.trader));
      SellWithinHolding(minTrade, held, b, op.selector);
      match SellAmount(minTrade, held, b, op.selector)
      case None => None
      case Some(amount) => Some(Order(false, op.side, amount))
  }

  /** One parsed operation: nothing if there is nothing to sell, otherwise one attempt. */
  function Step(s: Setup, quoter: Quoter, minTrade: nat, b: nat, market: Market, op: TradeOp): Market
    requires minTrade <= b / 4 && b <= U128_MAX
  {
    var order := OrderFor(s, minTrade, b, market, op);
    if order.None? then market else Attempt(s, quoter, market, order.value)
  }

  /** The parsed operations in order, each attempted in the state the last one left. */
  function Drive(s: Setup, quoter: Quoter, minTrade: nat, b: nat, market: Market, trades: seq<TradeOp>): Market
    requires minTrade <= b / 4 && b <= U128_MAX
    decreases |trades|
  {
    if trades == [] then market
    else Drive(s, quoter, minTrade, b, Step(s, quoter, minTrade, b, market, trades[0]), trades[1..])
  }

  /** One turn in terms of its operation. The size is the floor of the selector's share between the
      minimum trade and a quarter of `b`, or what the trader holds of the side if a sell is capped by
      that. If less than a minimum trade may be sold, or the book refuses, nothing happens at all;
      otherwise the quantity of that side moves by the size, up on a buy and down on a sell. */
  lemma StepMoves(s: Setup, quoter: Quoter, minTrade: nat, b: nat, market: Market, op: TradeOp)
    returns (cap: nat, size: u128)
    requires minTrade <= b / 4 && b <= U128_MAX
    ensures var held := BalanceOf(market.held, s.Leg(op.side, s.trader));
            cap == if !op.buy && held < b / 4 then held else b / 4
    ensures cap >= minTrade ==> size == minTrade + (cap - minTrade) * op.selector / 65535
    ensures
      var next, moved: int := Step(s, quoter, minTrade, b, market, op), size;
      if cap >= minTrade && Accepted(s, quoter, market, Order(op.buy, op.side, size)) then
        && next == Attempt(s, quoter, market, Order(op.buy, op.side, size))
        && next.qLong - market.qLong ==
           (if op.side == ScalarSide.Short then 0 else if op.buy then moved else -moved)
        && next.qShort - market.qShort ==
           (if op.side == ScalarSide.Long then 0 else if op.buy then moved else -moved)
      else next == market
  {
    var held := BalanceOf(market.held, s.Leg(op.side, s.trader));
    cap, size := if !op.buy && held < b / 4 then held else b / 4, 0;
    var order := OrderFor(s, minTrade, b, market, op);
    if order.Some? {
      size := order.value.amount;
    }
  }

  /** Operations are taken in the order given. */
  lemma {:induction false} DriveAppend(s: Setup, quoter: Quoter, minTrade: nat, b: nat, market: Market,
                                       first: seq<TradeOp>, second: seq<TradeOp>)
    requires minTrade <= b / 4 && b <= U128_MAX
    ensures Drive(s, quoter, minTrade, b, market, first + second) ==
            Drive(s, quoter, minTrade, b, Drive(s, quoter, minTrade, b, market, first), second)
    decreases |first|
  {
    if first == [] {
      assert first + second == second;
    } else {
      assert (first + second)[1..] == first[1..] + second;
      DriveAppend(s, quoter, minTrade, b, Step(s, quoter, minTrade, b, market, first[0]), first[1..], second);
    }
  }

  lemma DriveUnfolds(s: Setup, quoter: Quoter, minTrade: nat, b: nat, market: Market, trades: seq<TradeOp>, i: nat)
    requires minTrade <= b / 4 && b <= U128_MAX && i < |trades|
    ensures Drive(s, quoter, minTrade, b, market, trades[i..]) ==
            Drive(s, quoter, minTrade, b, Step(s, quoter, minTrade, b, market, trades[i]), trades[i + 1..])
  {
    assert trades[i..][0] == trades[i] && trades[i..][1..] == trades[i + 1..];
  }

  /** Read the trader's holding for a sell, and turn the operation into an order. */
  method NextOrder(s: Setup, ledger: MockLedger, minTrade: nat, b: nat, op: TradeOp, ghost market: Market)
    returns (order: Option<Order>)
    requires minTrade <= b / 4 && b <= U128_MAX && ledger.Valid() && ledger.Held() == market.held
    ensures order == OrderFor(s, minTrade, b, market, op)
  {
    if op.buy {
      order := Some(Order(true, op.side, TradeAmount(minTrade, b, op.selector)));
    } else {
      var held := ledger.Balance(SidePosition(s.kind, op.side), s.trader);
      SellWithinHolding(minTrade, held, b, op.selector);
      var amount := SellAmount(minTrade, held, b, op.selector);
      order := if amount.None? then None else Some(Order(false, op.side, amount.value));
    }
  }

  /** Buy and sell back the same amount from a fresh book. `passed` says that neither was refused,
      which is where the harness would stop. */
  method AssertRoundTrip(s: Setup, seed: Seeding, quoter: Quoter, minTrade: nat, b: nat, selector: u16,
                         ghost cost: (nat, nat) -> real)
    returns (passed: bool)
    requires s.Valid() && seed.Valid(s) && Doubles(s, seed) && seed.headroom > 0
    requires minTrade <= b / 4 && b <= U128_MAX
    requires CostFunction(cost, seed.headroom) && MakerAdverse(cost, quoter)
    ensures passed <==> RoundTrips(s, quoter, Opening(Play(map[], SeedOps(s, seed)).held),
                                   TradeAmount(minTrade, b, selector))
  {
    var amount := TradeAmount(minTrade, b, selector);
    var buy, sell := Order(true, ScalarSide.Long, amount), Order(false, ScalarSide.Long, amount);
    var book, ledger := SeededBook(s, seed);
    ghost var start := Opening(ledger.Held());
    var bought := AtomicTrade(book, ledger, quoter, buy, start);
    if bought.None? {
      return false;
    }
    ghost var mid := Attempt(s, quoter, start, buy);
    var sold := AtomicTrade(book, ledger, quoter, sell, mid);
    if sold.None? {
      return false;
    }
    ghost var end := Attempt(s, quoter, mid, sell);
    RoundTripSettles(s, quoter, cost, seed, start, amount, bought.value, sold.value);
    assert sold.value.cash - sold.value.fee <= bought.value.cash + bought.value.fee;
    assert book.qLong == book.qShort == 0;
    assert Solvent(s, seed.headroom, seed.headroom + Locked(s, seed), end);
    passed := true;
  }

  /** Neither half of the round trip is refused. */
  predicate RoundTrips(s: Setup, quoter: Quoter, start: Market, amount: u128) {
    var buy := Order(true, ScalarSide.Long, amount);
    && Accepted(s, quoter, start, buy)
    && Accepted(s, quoter, Attempt(s, quoter, start, buy), Order(false, ScalarSide.Long, amount))
  }

  /** What the harness asserts after a round trip. */
  lemma RoundTripSettles(s: Setup, quoter: Quoter, cost: (nat, nat) -> real, seed: Seeding, start: Market,
                         amount: u128, bought: Quote, sold: Quote)
    requires s.Valid() && Seeded(s, seed.headroom, Locked(s, seed), start)
    requires CostFunction(cost, seed.headroom) && MakerAdverse(cost, quoter)
    requires RoundTrips(s, quoter, start, amount)
    requires bought == Plan(s, quoter, start, Order(true, ScalarSide.Long, amount)).value.0
    requires sold == Plan(s, quoter, Attempt(s, quoter, start, Order(true, ScalarSide.Long, amount)),
                          Order(false, ScalarSide.Long, amount)).value.0
    ensures
      var end := Attempt(s, quoter, Attempt(s, quoter, start, Order(true, ScalarSide.Long, amount)),
                         Order(false, ScalarSide.Long, amount));
      && end.qLong == end.qShort == 0
      && sold.cash - sold.fee <= bought.cash + bought.fee
      && Solvent(s, seed.headroom, seed.headroom + Locked(s, seed), end)
  {
    var buy, sell := Order(true, ScalarSide.Long, amount), Order(false, ScalarSide.Long, amount);
    var mid := Attempt(s, quoter, start, buy);
    var first := AcceptedEffect(s, quoter, start, buy);
    var second := AcceptedEffect(s, quoter, mid, sell);
    ReturnWithoutProfit(s, quoter, cost, start, buy, sell);
    RunIsSolvent(s, quoter, cost, seed.headroom, seed.headroom, Locked(s, seed), start, [buy] + [sell]);
    RunSnoc(s, quoter, start, [buy], sell);
    RunSnoc(s, quoter, start, [], buy);
    assert [] + [buy] == [buy];
  }

  ghost predicate Realized(book: MarketBook, ledger: MockLedger, netRevenue: int, inventory: int, market: Market)
    reads book, ledger
  {
    Matches(book, ledger, market) && netRevenue == market.netRevenue && inventory == market.inventory
  }

  /** One turn of the harness loop: the operation is attempted, and an executed one is booked. */
  method TakeStep(book: MarketBook, ledger: MockLedger, quoter: Quoter, minTrade: nat, b: nat, op: TradeOp,
                  revenueBefore: int, inventoryBefore: int, ghost before: Market)
    returns (netRevenue: int, inventory: int)
    requires minTrade <= b / 4 && b <= U128_MAX && ledger.Valid()
    requires Realized(book, ledger, revenueBefore, inventoryBefore, before)
    modifies book, ledger
    ensures ledger.Valid()
    ensures Realized(book, ledger, netRevenue, inventory, Step(book.setup, quoter, minTrade, b, before, op))
  {
    netRevenue, inventory := revenueBefore, inventoryBefore;
    var order := NextOrder(book.setup, ledger, minTrade, b, op, before);
    if order.Some? {
      var traded := AtomicTrade(book, ledger, quoter, order.value, before);
      if traded.Some? {
        var cash: int := traded.value.cash;
        netRevenue := if op.buy then netRevenue + cash else netRevenue - cash;
        inventory := if op.buy then inventory + InventoryInflowOnBuy(traded.value.cash) else inventory - cash;
      }
    }
  }

  /** A step extends a run by at most one order. */
  lemma StepExtendsRun(s: Setup, quoter: Quoter, minTrade: nat, b: nat, start: Market, orders: seq<Order>, op: TradeOp)
    returns (extended: seq<Order>)
    requires minTrade <= b / 4 && b <= U128_MAX
    ensures Run(s, quoter, start, extended) == Step(s, quoter, minTrade, b, Run(s, quoter, start, orders), op)
  {
    extended := orders;
    var order := OrderFor(s, minTrade, b, Run(s, quoter, start, orders), op);
    if order.Some? {
      RunSnoc(s, quoter, start, orders, order.value);
      extended := orders + [order.value];
    }
  }

  /** A parsed trade sequence against a seeded book. Every realized state, not only the last, is
      solvent: the loop's last invariant but one is what the harness asserts in each turn. */
  method DriveTrades(book: MarketBook, ledger: MockLedger, seed: Seeding, quoter: Quoter, minTrade: nat, b: nat,
                     trades: seq<TradeOp>, ghost cost: (nat, nat) -> real, ghost start: Market)
    returns (netRevenue: int, inventory: int)
    requires book.setup.Valid() && ledger.Valid() && Matches(book, ledger, start)
    requires Seeded(book.setup, seed.headroom, Locked(book.setup, seed), start)
    requires minTrade <= b / 4 && b <= U128_MAX
    requires CostFunction(cost, seed.headroom) && MakerAdverse(cost, quoter)
    modifies book, ledger
    ensures ledger.Valid()
    ensures var end := Drive(book.setup, quoter, minTrade, b, start, trades);
            && Realized(book, ledger, netRevenue, inventory, end)
            && Solvent(book.setup, seed.headroom, seed.headroom + Locked(book.setup, seed), end)
  {
    ghost var s, orders: seq<Order>, locked := book.setup, [], Locked(book.setup, seed);
    netRevenue, inventory := 0, 0;
    RunIsSolvent(s, quoter, cost, seed.headroom, seed.headroom, locked, start, orders);
    var i := 0;
    while i < |trades|
      invariant 0 <= i <= |trades| && ledger.Valid()
      invariant Realized(book, ledger, netRevenue, inventory, Run(s, quoter, start, orders))
      invariant Solvent(s, seed.headroom, seed.headroom + locked, Run(s, quoter, start, orders))
      invariant Drive(s, quoter, minTrade, b, start, trades) ==
                Drive(s, quoter, minTrade, b, Run(s, quoter, start, orders), trades[i..])
    {
      ghost var before := Run(s, quoter, start, orders);
      DriveUnfolds(s, quoter, minTrade, b, before, trades, i);
      netRevenue, inventory := TakeStep(book, ledger, quoter, minTrade, b, trades[i], netRevenue, inventory, before);
      orders := StepExtendsRun(s, quoter, minTrade, b, start, orders, trades[i]);
      RunIsSolvent(s, quoter, cost, seed.headroom, seed.headroom, locked, start, orders);
      i := i + 1;
    }
  }

  /** The round trip, and then the parsed trades against a second seeded book. */
  method AssertLmsrCase(s: Setup, seed: Seeding, quoter: Quoter, minTrade: nat, case_: TradeCase,
                        ghost cost: (nat, nat) -> real)
    returns (passed: bool, book: MarketBook, ledger: MockLedger, netRevenue: int, inventory: int)
    requires s.Valid() && seed.Valid(s) && Doubles(s, seed) && seed.headroom > 0 && case_.kind == s.kind
    requires minTrade <= case_.b / 4 && case_.b <= U128_MAX
    requires CostFunction(cost, seed.headroom) && MakerAdverse(cost, quoter)
    ensures passed <==> RoundTrips(s, quoter, Opening(Play(map[], SeedOps(s, seed)).held),
                                   TradeAmount(minTrade, case_.b, case_.roundTripSelector))
    ensures fresh(book) && fresh(ledger) && book.setup == s && ledger.Valid()
    ensures var start := Opening(Play(map[], SeedOps(s, seed)).held);
            var end := Drive(s, quoter, minTrade, case_.b, start, case_.trades);
            passed ==> && Realized(book, ledger, netRevenue, inventory, end)
                       && Solvent(s, seed.headroom, seed.headroom + Locked(s, seed), end)
  {
    passed := AssertRoundTrip(s, seed, quoter, minTrade, case_.b, case_.roundTripSelector, cost);
    book, ledger := SeededBook(s, seed);
    netRevenue, inventory := 0, 0;
    if passed {
      netRevenue, inventory := DriveTrades(book, ledger, seed, quoter, minTrade, case_.b, case_.trades, cost,
                                           Opening(ledger.Held()));
    }
  }
}
