/** The two floor-division maps between trade amounts and 16-bit selectors, and the
    conversion of a balance to 64.64 fixed point. */
module Quantiser {
  import opened Common

  /** Base units in one USDC. */
  const USDC: nat := 1_000_000

  /** The share of `span` a selector stands for. */
  function Scaled(span: nat, selector: u16): nat { span * selector / 65535 }

  function AmountFromSelector(minTrade: nat, b: nat, selector: u16): nat
    requires minTrade <= b / 4
  {
    minTrade + Scaled(b / 4 - minTrade, selector)
  }

  function Min(a: nat, b: nat): nat { if a < b then a else b }

  function SellAmount(minTrade: nat, held: nat, b: nat, selector: u16): Option<nat> {
    var max := Min(held, b / 4);
    if max < minTrade then None else Some(minTrade + Scaled(max - minTrade, selector))
  }

  /** The inverse quantiser of the corpus generator, in base units. */
  function SelectorFor(minTrade: nat, b: nat, amount: nat): nat
    requires minTrade <= amount && minTrade < b / 4
  {
    (amount - minTrade) * 65535 / (b / 4 - minTrade)
  }

  lemma Floor(x: nat, d: nat)
    requires d > 0
    ensures x / d * d <= x < x / d * d + d
  {
  }

  lemma TimesOrder(a: nat, b: nat, c: nat)
    requires a <= b
    ensures a * c <= b * c && c * a <= c * b
  {
  }

  /** Multiples of `d` that are less than one step apart are in order. */
  lemma StepOrder(p: nat, q: nat, d: nat)
    requires p * d < q * d + d
    ensures p <= q
  {
    if p > q {
      TimesOrder(q + 1, p, d);
    }
  }

  lemma FloorOrder(x: nat, y: nat, d: nat)
    requires d > 0 && x <= y
    ensures x / d <= y / d
  {
    Floor(x, d);
    Floor(y, d);
    StepOrder(x / d, y / d, d);
  }

  lemma FloorAtMost(x: nat, d: nat, bound: nat)
    requires d > 0 && x <= bound * d
    ensures x / d <= bound
  {
    FloorOrder(x, bound * d, d);
    Floor(bound * d, d);
    StepOrder(bound * d / d, bound, d);
  }

  lemma AmountInRange(minTrade: nat, b: nat, selector: u16)
    requires minTrade <= b / 4
    ensures minTrade <= AmountFromSelector(minTrade, b, selector) <= b / 4
    ensures AmountFromSelector(minTrade, b, 0) == minTrade
    ensures AmountFromSelector(minTrade, b, U16_MAX) == b / 4
  {
    var span := b / 4 - minTrade;
    TimesOrder(selector, 65535, span);
    FloorAtMost(span * selector, 65535, span);
  }

  /** The amount is the exact floor of its share of the span. */
  lemma AmountIsFloor(minTrade: nat, b: nat, selector: u16)
    requires minTrade <= b / 4
    ensures var above := AmountFromSelector(minTrade, b, selector) - minTrade;
            0 <= above && above * 65535 <= (b / 4 - minTrade) * selector < above * 65535 + 65535
  {
    Floor((b / 4 - minTrade) * selector, 65535);
  }

  lemma AmountMonotone(minTrade: nat, b: nat, s: u16, t: u16)
    requires minTrade <= b / 4 && s <= t
    ensures AmountFromSelector(minTrade, b, s) <= AmountFromSelector(minTrade, b, t)
  {
    var span := b / 4 - minTrade;
    TimesOrder(s, t, span);
    FloorOrder(span * s, span * t, 65535);
  }

  /** A sell is offered exactly when a minimum trade is held and allowed, and never
      exceeds either bound. */
  lemma SellWithinHolding(minTrade: nat, held: nat, b: nat, selector: u16)
    ensures SellAmount(minTrade, held, b, selector).Some? <==> minTrade <= held && minTrade <= b / 4
    ensures SellAmount(minTrade, held, b, selector).Some? ==>
              minTrade <= SellAmount(minTrade, held, b, selector).value <= Min(held, b / 4)
  {
    var max := Min(held, b / 4);
    if max >= minTrade {
      TimesOrder(selector, 65535, max - minTrade);
      FloorAtMost((max - minTrade) * selector, 65535, max - minTrade);
    }
  }

  /** A sell runs from the minimum trade to all that may be sold, as the exact floor of its share. */
  lemma SellAmountIsFloor(minTrade: nat, held: nat, b: nat, selector: u16)
    requires minTrade <= held && minTrade <= b / 4
    ensures var cap := if held < b / 4 then held else b / 4;
            && SellAmount(minTrade, held, b, 0) == Some(minTrade)
            && SellAmount(minTrade, held, b, 65535) == Some(cap)
            && SellAmount(minTrade, held, b, selector).Some?
            && var above := SellAmount(minTrade, held, b, selector).value - minTrade;
               above * 65535 <= (cap - minTrade) * selector < above * 65535 + 65535
  {
    var span := Min(held, b / 4) - minTrade;
    Floor(span * selector, 65535);
    Floor(span * 65535, 65535);
    StepOrder(span * 65535 / 65535, span, 65535);
    StepOrder(span, span * 65535 / 65535, 65535);
  }

  /** More held or a larger selector never sells less. */
  lemma SellAmountMonotone(minTrade: nat, held: nat, more: nat, b: nat, s: u16, t: u16)
    requires minTrade <= held <= more && minTrade <= b / 4 && s <= t
    ensures SellAmount(minTrade, held, b, s).Some? && SellAmount(minTrade, more, b, t).Some?
    ensures SellAmount(minTrade, held, b, s).value <= SellAmount(minTrade, more, b, t).value
  {
    var span, wider := Min(held, b / 4) - minTrade, Min(more, b / 4) - minTrade;
    TimesOrder(span, wider, s);
    TimesOrder(s, t, wider);
    FloorOrder(span * s, wider * t, 65535);
  }

  /** The inverse quantiser is an exact floor as well. */
  lemma SelectorIsFloor(minTrade: nat, b: nat, amount: nat)
    requires minTrade <= amount && minTrade < b / 4
    ensures var s, span := SelectorFor(minTrade, b, amount), b / 4 - minTrade;
            s * span <= (amount - minTrade) * 65535 < s * span + span
  {
    Floor((amount - minTrade) * 65535, b / 4 - minTrade);
  }

  lemma SelectorMonotone(minTrade: nat, b: nat, a: nat, c: nat)
    requires minTrade <= a <= c && minTrade < b / 4
    ensures SelectorFor(minTrade, b, a) <= SelectorFor(minTrade, b, c)
  {
    TimesOrder(a - minTrade, c - minTrade, 65535);
    FloorOrder((a - minTrade) * 65535, (c - minTrade) * 65535, b / 4 - minTrade);
  }

  /** A selector fits 16 bits exactly when the amount is below one step past the cap. */
  lemma SelectorFits(minTrade: nat, b: nat, amount: nat)
    requires minTrade <= amount && minTrade < b / 4
    ensures SelectorFor(minTrade, b, amount) <= U16_MAX <==>
            (amount - minTrade) * 65535 < 65536 * (b / 4 - minTrade)
    ensures amount <= b / 4 ==> SelectorFor(minTrade, b, amount) <= U16_MAX
  {
    var span, scaled := b / 4 - minTrade, (amount - minTrade) * 65535;
    Floor(scaled, span);
    var s := scaled / span;
    if s <= 65535 {
      TimesOrder(s + 1, 65536, span);
      assert (s + 1) * span == s * span + span;
    } else {
      TimesOrder(65536, s, span);
    }
    if amount <= b / 4 {
      TimesOrder(amount - minTrade, span, 65535);
    }
  }

  /** Amount to selector and back loses less than one quantisation step and one unit. */
  lemma SelectorThenAmount(minTrade: nat, b: nat, amount: nat)
    requires minTrade <= amount <= b / 4 && minTrade < b / 4
    ensures
      var s := SelectorFor(minTrade, b, amount);
      && s <= U16_MAX
      && var back := AmountFromSelector(minTrade, b, s);
         back <= amount && (amount - back) * 65535 < (b / 4 - minTrade) + 65535
  {
    SelectorFits(minTrade, b, amount);
    var span, above := b / 4 - minTrade, amount - minTrade;
    var s := SelectorFor(minTrade, b, amount);
    Floor(above * 65535, span);
    assert span * s == s * span;
    Floor(span * s, 65535);
    FloorAtMost(span * s, 65535, above);
  }

  /** Selector to amount and back never overshoots, and loses under one step. */
  lemma AmountThenSelector(minTrade: nat, b: nat, selector: u16)
    requires minTrade < b / 4
    ensures
      var back := SelectorFor(minTrade, b, AmountFromSelector(minTrade, b, selector));
      back <= selector && (selector - back) * (b / 4 - minTrade) < (b / 4 - minTrade) + 65535
  {
    var span := b / 4 - minTrade;
    var above := span * selector / 65535;
    Floor(span * selector, 65535);
    FloorAtMost(above * 65535, span, selector);
    var back := above * 65535 / span;
    Floor(above * 65535, span);
    assert (selector - back) * span == span * selector - back * span;
  }

  // ---- 64.64 fixed point -----------------------------------------------------------

  const ONE_FIXED: nat := 0x1_0000_0000_0000_0000

  /** Whole units and fraction converted apart; absent when the whole units pass `u64`. */
  function BalanceToFixed(value: nat): Option<nat> {
    var units, fraction := value / USDC, value % USDC;
    if units > U64_MAX then None
    else
      var raw := units * ONE_FIXED + fraction * ONE_FIXED / USDC;
      if raw > U128_MAX then None else Some(raw)
  }

  /** The split loses nothing against one exact floor, and only the `u64` bound can refuse. */
  lemma FixedIsExactFloor(value: nat)
    ensures BalanceToFixed(value).Some? <==> value / 1_000_000 <= 0xFFFF_FFFF_FFFF_FFFF
    ensures BalanceToFixed(value).Some? ==>
              BalanceToFixed(value).value == value * 0x1_0000_0000_0000_0000 / 1_000_000
  {
    var units, fraction := value / USDC, value % USDC;
    assert value * ONE_FIXED == fraction * ONE_FIXED + units * ONE_FIXED * USDC;
  }

  lemma FixedStrictlyIncreasing(v: nat, w: nat)
    requires v < w && BalanceToFixed(w).Some?
    ensures BalanceToFixed(v).Some? && BalanceToFixed(v).value < BalanceToFixed(w).value
  {
    FixedIsExactFloor(v);
    FixedIsExactFloor(w);
  }
}
