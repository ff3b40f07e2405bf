/** The trade-seed format: the corpus generator prints it, the harness parses it. */
module SeedCodec {
  import opened Bytes
  import opened Common
  import opened Positions
  import opened Quantiser

  datatype TradeOp = TradeOp(buy: bool, side: ScalarSide, selector: u16)

  datatype TradeCase = TradeCase(b: nat, kind: BookKind, roundTripSelector: u16, trades: seq<TradeOp>)

  const MAX_TRADES: nat := 24

  /** Number of admissible whole-USDC subsidies: `b` lies in [100, 10_000_000]. */
  const SUBSIDIES: nat := 10_000_000 - 100 + 1

  // ---- bytes ------------------------------------------------------------------------

  function U16At(bytes: seq<u8>, i: nat): u16
    requires i + 2 <= |bytes|
  {
    var low: int, high: int := bytes[i], bytes[i + 1];
    low + 256 * high
  }

  /** `|` on two bytes, bit by bit. */
  function BitOr(a: nat, b: nat): nat
    decreases a + b
  {
    if a == 0 && b == 0 then 0
    else (if a % 2 == 1 || b % 2 == 1 then 1 else 0) + 2 * BitOr(a / 2, b / 2)
  }

  lemma {:induction false} BitOrZero(b: nat)
    ensures BitOr(0, b) == b
  {
    if b > 0 {
      BitOrZero(b / 2);
    }
  }

  /** A flag and a shifted selector share no bit, so OR stores both. */
  lemma FlagOrShifted(flag: nat, sel: u8)
    requires flag <= 1
    ensures BitOr(flag, Shifted(sel)) == FlagByte(flag, sel)
  {
    var s := sel % 128;
    assert Shifted(sel) == 2 * s;
    BitOrZero(s);
    if flag != 0 || s != 0 {
      assert flag / 2 == 0 && 2 * s / 2 == s;
    }
  }

  /** A flag in bit 0 and seven bits of a selector above it. */
  function FlagByte(flag: nat, sel: u8): u8
    requires flag <= 1
  {
    flag + 2 * (sel % 128)
  }

  /** `sel << 1` in a byte: the top bit is dropped. */
  function Shifted(sel: u8): u8 { (sel as int) * 2 % 256 }

  // ---- parser -----------------------------------------------------------------------

  function Padded(bytes: seq<u8>, width: nat): seq<u8>
    requires |bytes| <= width
  {
    bytes + seq(width - |bytes|, i => 0)
  }

  /** The book kind a selector names. Bit 2 decides both the branch and the half of the
      table it looks up, so Decision and Gate books are always on Accept. */
  function KindForSelector(sel: nat): BookKind {
    var branch := if sel / 4 % 2 == 0 then Accept else Reject;
    var row := sel % 8;
    if row <= 1 then Decision(1, branch)
    else if row == 2 then Gate(1, branch, if sel / 8 % 2 == 0 then Survival else Security)
    else if row == 3 then BaselineBook(1)
    else External(1, 1, branch)
  }

  function KindFromSeed(data: seq<u8>): BookKind {
    KindForSelector(if |data| > 10 then data[10] / 2 else 0)
  }

  function ParseTrade(record: seq<u8>): TradeOp
    requires |record| == 4
  {
    TradeOp(record[0] % 2 == 0, if record[1] % 2 == 0 then ScalarSide.Long else ScalarSide.Short, U16At(record, 2))
  }

  /** Whole records from the front, at most `limit` of them; a short tail is dropped. */
  function ParseTrades(data: seq<u8>, limit: nat): seq<TradeOp>
    decreases limit
  {
    if limit == 0 || |data| < 4 then []
    else [ParseTrade(data[..4])] + ParseTrades(data[4..], limit - 1)
  }

  function Subsidy(offset: nat): nat { (100 + offset % SUBSIDIES) * USDC }

  function ParseSubsidy(data: seq<u8>): nat {
    Subsidy(FromLittleEndian(Padded(data[..Min(|data|, 8)], 8)))
  }

  function Parsed(data: seq<u8>): TradeCase {
    TradeCase(
      ParseSubsidy(data),
      KindFromSeed(data),
      if |data| >= 10 then U16At(data, 8) else 0,
      if |data| >= 10 then ParseTrades(data[10..], MAX_TRADES) else [])
  }

  // ---- the parse, read off the bytes ------------------------------------------------------

  /** The subsidy is a whole number of USDC from 100 to 10,000,000, and counted from 100 it is the
      little-endian value of the first eight bytes, or of as many as there are, modulo the number of
      such amounts. */
  predicate ReadsSubsidy(data: seq<u8>, b: nat) {
    && b % 1_000_000 == 0
    && 100 <= b / 1_000_000 <= 10_000_000
    && (b / 1_000_000 - 100) % 9_999_901 == FromLittleEndian(data[..if |data| < 8 then |data| else 8]) % 9_999_901
  }

  /** Record `i` in its four bytes: two flags in bit 0, clear for a buy and for Long, then the selector. */
  predicate ReadsRecord(data: seq<u8>, i: nat, op: TradeOp)
    requires 10 + 4 * i + 4 <= |data|
  {
    var low: int, high: int := data[12 + 4 * i], data[13 + 4 * i];
    && (op.buy <==> data[10 + 4 * i] % 2 == 0)
    && (op.side == ScalarSide.Long <==> data[11 + 4 * i] % 2 == 0)
    && op.selector == low + 256 * high
  }

  /** As many whole records as follow the ten bytes of the header, but no more than 24. */
  predicate ReadsRecords(data: seq<u8>, trades: seq<TradeOp>) {
    && |trades| == (if |data| < 10 then 0 else if |data| - 10 < 96 then (|data| - 10) / 4 else 24)
    && forall i | 0 <= i < |trades| :: ReadsRecord(data, i, trades[i])
  }

  /** A case is what some bytes say, field by field. The kind is looked up above the flag of the
      first record, whole or not. */
  predicate Reads(data: seq<u8>, case_: TradeCase) {
    && ReadsSubsidy(data, case_.b)
    && case_.kind == KindForSelector(if |data| > 10 then data[10] / 2 else 0)
    && (if |data| < 10 then case_.roundTripSelector == 0
        else var low: int, high: int := data[8], data[9]; case_.roundTripSelector == low + 256 * high)
    && ReadsRecords(data, case_.trades)
  }

  lemma {:induction false} ZerosReadAsNothing(n: nat)
    ensures FromLittleEndian(seq(n, i => 0)) == 0
  {
    if n > 0 {
      var zeros: seq<u8> := seq(n, i => 0);
      assert zeros[1..] == seq(n - 1, i => 0);
      ZerosReadAsNothing(n - 1);
    }
  }

  /** Padding with zeros does not change a little-endian value. */
  lemma {:induction false} PaddingIsFree(bytes: seq<u8>, width: nat)
    requires |bytes| <= width
    ensures FromLittleEndian(Padded(bytes, width)) == FromLittleEndian(bytes)
  {
    if bytes == [] {
      ZerosReadAsNothing(width);
      assert Padded(bytes, width) == seq(width, i => 0);
    } else {
      PaddingIsFree(bytes[1..], width - 1);
      assert Padded(bytes, width)[1..] == Padded(bytes[1..], width - 1);
    }
  }

  lemma SubsidyReads(data: seq<u8>)
    ensures ReadsSubsidy(data, ParseSubsidy(data))
  {
    var first := data[..if |data| < 8 then |data| else 8];
    assert first == data[..Min(|data|, 8)];
    PaddingIsFree(first, 8);
    var rest := FromLittleEndian(first) % SUBSIDIES;
    assert ParseSubsidy(data) == (100 + rest) * 1_000_000;
    assert (100 + rest) * 1_000_000 / 1_000_000 == 100 + rest && rest % 9_999_901 == rest;
  }

  lemma {:induction false} TradesRead(data: seq<u8>, limit: nat)
    ensures var trades := ParseTrades(data, limit);
            && |trades| == (if |data| / 4 < limit then |data| / 4 else limit)
            && forall i | 0 <= i < |trades| :: trades[i] == ParseTrade(data[4 * i..4 * i + 4])
    decreases limit
  {
    if limit > 0 && |data| >= 4 {
      var rest := data[4..];
      TradesRead(rest, limit - 1);
      assert |rest| / 4 == |data| / 4 - 1;
      forall i | 0 < i < |ParseTrades(data, limit)|
        ensures ParseTrades(data, limit)[i] == ParseTrade(data[4 * i..4 * i + 4])
      {
        assert rest[4 * (i - 1)..4 * (i - 1) + 4] == data[4 * i..4 * i + 4];
      }
    }
  }

  /** The parse is what the bytes say, whatever the bytes. */
  lemma ParsedReads(data: seq<u8>)
    ensures Reads(data, Parsed(data))
  {
    SubsidyReads(data);
    if |data| >= 10 {
      var tail, trades := data[10..], Parsed(data).trades;
      TradesRead(tail, MAX_TRADES);
      forall i | 0 <= i < |trades| ensures ReadsRecord(data, i, trades[i]) {
        assert tail[4 * i..4 * i + 4] == data[10 + 4 * i..14 + 4 * i];
      }
    }
  }

  /** And nothing else is. */
  lemma ReadsOnce(data: seq<u8>, one: TradeCase, two: TradeCase)
    requires Reads(data, one) && Reads(data, two)
    ensures one == two
  {
    SubsidyOnce(data, one.b, two.b);
    forall i | 0 <= i < |one.trades| ensures one.trades[i] == two.trades[i] {
      assert ReadsRecord(data, i, one.trades[i]) && ReadsRecord(data, i, two.trades[i]);
    }
  }

  lemma SubsidyOnce(data: seq<u8>, b: nat, c: nat)
    requires ReadsSubsidy(data, b) && ReadsSubsidy(data, c)
    ensures b == c
  {
  }

  /** The records after the header, one at a time. */
  method ReadRecords(data: seq<u8>) returns (trades: seq<TradeOp>)
    requires |data| >= 10
    ensures trades == ParseTrades(data[10..], MAX_TRADES)
  {
    trades := [];
    var i := 10;
    var count := 0;
    while count < MAX_TRADES && i + 4 <= |data|
      invariant count <= MAX_TRADES && 10 <= i <= |data|
      invariant ParseTrades(data[10..], MAX_TRADES) == trades + ParseTrades(data[i..], MAX_TRADES - count)
      decreases MAX_TRADES - count
    {
      assert data[i..][..4] == data[i..i + 4] && data[i..][4..] == data[i + 4..];
      trades := trades + [ParseTrade(data[i..i + 4])];
      i := i + 4;
      count := count + 1;
    }
  }

  method FromSeedBytes(data: seq<u8>) returns (case_: TradeCase)
    ensures Reads(data, case_) && case_ == Parsed(data)
  {
    ParsedReads(data);
    var trades := [];
    if |data| >= 10 {
      trades := ReadRecords(data);
    }
    case_ := TradeCase(ParseSubsidy(data), KindFromSeed(data),
                       if |data| >= 10 then U16At(data, 8) else 0, trades);
  }

  // ---- printer ----------------------------------------------------------------------

  function PrintTrade(op: TradeOp): seq<u8> {
    [if op.buy then 0 else 1, if op.side.Long? then 0 else 1] + LittleEndian(op.selector, 2)
  }

  function PrintTrades(ops: seq<TradeOp>): seq<u8> {
    if ops == [] then [] else PrintTrade(ops[0]) + PrintTrades(ops[1..])
  }

  /** A printed seed: subsidy offset, round-trip selector, then the records. */
  function SeedBytes(bUsdc: nat, roundTrip: u16, ops: seq<TradeOp>): seq<u8>
    requires bUsdc >= 100
  {
    LittleEndian(bUsdc - 100, 8) + (LittleEndian(roundTrip, 2) + PrintTrades(ops))
  }

  /** The arguments on which the generator does not panic: no subtraction underflows, the
      divisor is positive, the selector fits. */
  predicate Printable(minTrade: nat, bUsdc: nat, roundTripUsdc: nat) {
    && 100 <= bUsdc <= U64_MAX
    && minTrade <= roundTripUsdc * USDC
    && minTrade < bUsdc * USDC / 4
    && SelectorFor(minTrade, bUsdc * USDC, roundTripUsdc * USDC) <= U16_MAX
  }

  /** The same in multiplications only: the selector fits below one step past a quarter of the subsidy. */
  lemma PrintableExactly(minTrade: nat, bUsdc: nat, roundTripUsdc: nat)
    ensures var span, amount := bUsdc * 1_000_000 / 4 - minTrade, roundTripUsdc * 1_000_000;
            Printable(minTrade, bUsdc, roundTripUsdc) <==>
              && 100 <= bUsdc <= 0xFFFF_FFFF_FFFF_FFFF && minTrade <= amount && span > 0
              && (amount - minTrade) * 65535 < 65536 * span
  {
    if minTrade <= roundTripUsdc * USDC && minTrade < bUsdc * USDC / 4 {
      SelectorFits(minTrade, bUsdc * USDC, roundTripUsdc * USDC);
    }
  }

  /** Grow a header by one record an operation. */
  method AppendRecords(header: seq<u8>, ops: seq<TradeOp>) returns (bytes: seq<u8>)
    ensures bytes == header + PrintTrades(ops)
  {
    bytes := header;
    var i := 0;
    while i < |ops|
      invariant 0 <= i <= |ops|
      invariant bytes == header + PrintTrades(ops[..i])
    {
      var op := ops[i];
      PrintedSnoc(ops, i);
      bytes := bytes + [if op.buy then 0 else 1];
      bytes := bytes + [if op.side.Long? then 0 else 1];
      bytes := bytes + LittleEndian(op.selector, 2);
      i := i + 1;
    }
    assert ops[..i] == ops;
  }

  method TradeSeed(minTrade: nat, bUsdc: nat, roundTripUsdc: nat, ops: seq<TradeOp>) returns (bytes: seq<u8>)
    requires Printable(minTrade, bUsdc, roundTripUsdc)
    ensures bytes == SeedBytes(bUsdc, SelectorFor(minTrade, bUsdc * USDC, roundTripUsdc * USDC), ops)
  {
    var roundTrip: u16 := SelectorFor(minTrade, bUsdc * USDC, roundTripUsdc * USDC);
    HeaderJoins(bUsdc, roundTrip, ops);
    bytes := AppendRecords(LittleEndian(bUsdc - 100, 8) + LittleEndian(roundTrip, 2), ops);
  }

  lemma HeaderJoins(bUsdc: nat, roundTrip: u16, ops: seq<TradeOp>)
    requires bUsdc >= 100
    ensures SeedBytes(bUsdc, roundTrip, ops) ==
            LittleEndian(bUsdc - 100, 8) + LittleEndian(roundTrip, 2) + PrintTrades(ops)
  {
    var first, second, third := LittleEndian(bUsdc - 100, 8), LittleEndian(roundTrip, 2), PrintTrades(ops);
    assert first + (second + third) == first + second + third;
  }

  lemma PrintedSnoc(ops: seq<TradeOp>, i: nat)
    requires i < |ops|
    ensures PrintTrades(ops[..i + 1]) == PrintTrades(ops[..i]) + PrintTrade(ops[i])
  {
    assert ops[..i + 1] == ops[..i] + [ops[i]];
    PrintedAppend(ops[..i], ops[i]);
  }

  lemma {:induction false} PrintedAppend(ops: seq<TradeOp>, last: TradeOp)
    ensures PrintTrades(ops + [last]) == PrintTrades(ops) + PrintTrade(last)
  {
    if ops == [] {
      assert ops + [last] == [last] && [last][1..] == [];
    } else {
      assert (ops + [last])[1..] == ops[1..] + [last];
      PrintedAppend(ops[1..], last);
    }
  }

  /** OR the shifted selector into the eleventh byte, when there is one. */
  method SetKind(plain: seq<u8>, sel: u8) returns (bytes: seq<u8>)
    requires |plain| > 10 ==> plain[10] <= 1
    ensures bytes == Marked(plain, sel)
  {
    bytes := plain;
    if |bytes| > 10 {
      FlagOrShifted(bytes[10], sel);
      bytes := bytes[10 := BitOr(bytes[10], Shifted(sel))];
    }
  }

  /** OR a kind selector into the first record's flag byte. The shift drops its top bit. */
  method TradeSeedKind(sel: u8, minTrade: nat, bUsdc: nat, roundTripUsdc: nat, ops: seq<TradeOp>)
    returns (bytes: seq<u8>)
    requires Printable(minTrade, bUsdc, roundTripUsdc)
    ensures var plain := SeedBytes(bUsdc, SelectorFor(minTrade, bUsdc * USDC, roundTripUsdc * USDC), ops);
            (|plain| > 10 ==> plain[10] <= 1) && bytes == Marked(plain, sel)
  {
    bytes := TradeSeed(minTrade, bUsdc, roundTripUsdc, ops);
    FirstFlag(bUsdc, SelectorFor(minTrade, bUsdc * USDC, roundTripUsdc * USDC), ops);
    bytes := SetKind(bytes, sel);
  }

  /** A printed seed with the kind selector stored above the first buy flag. */
  function Marked(plain: seq<u8>, sel: u8): seq<u8>
    requires |plain| > 10 ==> plain[10] <= 1
  {
    if |plain| <= 10 then plain else plain[10 := FlagByte(plain[10], sel)]
  }

  lemma FirstFlag(bUsdc: nat, roundTrip: u16, ops: seq<TradeOp>)
    requires bUsdc >= 100
    ensures var bytes := SeedBytes(bUsdc, roundTrip, ops); |bytes| > 10 ==> bytes[10] <= 1
  {
    PrintedLength(ops);
  }

  lemma {:induction false} PrintedLength(ops: seq<TradeOp>)
    ensures |PrintTrades(ops)| == 4 * |ops|
    ensures ops != [] ==> PrintTrades(ops)[0] == if ops[0].buy then 0 else 1
  {
    if ops != [] {
      PrintedLength(ops[1..]);
    }
  }

  // ---- round trips ------------------------------------------------------------------

  lemma U16RoundTrip(n: u16)
    ensures U16At(LittleEndian(n, 2), 0) == n
  {
    var high := LittleEndian(n / 256, 1);
    assert LittleEndian(n, 2) == [n % 256] + high;
    assert high == [n / 256 % 256] + LittleEndian(n / 256 / 256, 0);
  }

  lemma TradeRoundTrip(op: TradeOp)
    ensures ParseTrade(PrintTrade(op)) == op
  {
    U16RoundTrip(op.selector);
    var printed := PrintTrade(op);
    assert printed[2] == LittleEndian(op.selector, 2)[0] && printed[3] == LittleEndian(op.selector, 2)[1];
  }

  lemma {:induction false} TradesRoundTrip(ops: seq<TradeOp>, limit: nat)
    ensures ParseTrades(PrintTrades(ops), limit) == ops[..Min(|ops|, limit)]
  {
    PrintedLength(ops);
    if ops != [] && limit > 0 {
      var printed, rest := PrintTrades(ops), PrintTrades(ops[1..]);
      assert printed[..4] == PrintTrade(ops[0]) && printed[4..] == rest;
      TradeRoundTrip(ops[0]);
      TradesRoundTrip(ops[1..], limit - 1);
      assert ops[..Min(|ops|, limit)] == [ops[0]] + ops[1..][..Min(|ops| - 1, limit - 1)];
    }
  }

  lemma OffsetRoundTrip(offset: nat)
    requires offset <= U64_MAX
    ensures FromLittleEndian(LittleEndian(offset, 8)) == offset
  {
    assert Pow256(8) == U64_MAX + 1 by {
      assert Pow256(4) == 0x1_0000_0000;
      assert Pow256(6) == 0x1_0000_0000_0000;
    }
    LittleEndianRoundTrip(offset, 8);
  }

  /** Parsing a byte string by its three parts. */
  lemma ParsedParts(first: seq<u8>, second: seq<u8>, tail: seq<u8>)
    requires |first| == 8 && |second| == 2
    ensures Parsed(first + (second + tail)) ==
            TradeCase(Subsidy(FromLittleEndian(first)), KindForSelector(if |tail| > 0 then tail[0] / 2 else 0),
                      U16At(second, 0), ParseTrades(tail, MAX_TRADES))
  {
    var data := first + (second + tail);
    assert data[..Min(|data|, 8)] == first && Padded(first, 8) == first;
    assert data[8] == second[0] && data[9] == second[1];
    assert data[10..] == tail;
  }

  /** What printing and parsing back yields, for every printable seed. */
  lemma SeedRoundTrip(bUsdc: nat, roundTrip: u16, ops: seq<TradeOp>)
    requires 100 <= bUsdc <= U64_MAX
    ensures Parsed(SeedBytes(bUsdc, roundTrip, ops)) ==
            TradeCase((100 + (bUsdc - 100) % 9_999_901) * 1_000_000, Decision(1, Accept), roundTrip,
                      ops[..if |ops| < 24 then |ops| else 24])
  {
    ParsedParts(LittleEndian(bUsdc - 100, 8), LittleEndian(roundTrip, 2), PrintTrades(ops));
    OffsetRoundTrip(bUsdc - 100);
    U16RoundTrip(roundTrip);
    TradesRoundTrip(ops, MAX_TRADES);
    PrintedLength(ops);
  }

  lemma SubsidyRecovered(bUsdc: nat)
    requires bUsdc >= 100
    ensures Subsidy(bUsdc - 100) == bUsdc * USDC <==> bUsdc <= 10_000_000
  {
  }

  /** The seed is recovered exactly when the subsidy is in range and no trade is dropped. */
  lemma SeedRecovered(bUsdc: nat, roundTrip: u16, ops: seq<TradeOp>)
    requires 100 <= bUsdc <= U64_MAX
    ensures Parsed(SeedBytes(bUsdc, roundTrip, ops)) == TradeCase(bUsdc * USDC, Decision(1, Accept), roundTrip, ops)
            <==> bUsdc <= 10_000_000 && |ops| <= 24
  {
    SeedRoundTrip(bUsdc, roundTrip, ops);
    SubsidyRecovered(bUsdc);
    var n := Min(|ops|, MAX_TRADES);
    assert ops[..n] == ops <==> n == |ops|;
  }

  /** The parser reads only bit 0 of the flag byte, so the bits above it are free. */
  lemma FlagBitsAreFree(data: seq<u8>, sel: u8, limit: nat)
    requires |data| >= 4 && data[0] <= 1
    ensures ParseTrades(data[0 := FlagByte(data[0], sel)], limit) == ParseTrades(data, limit)
    ensures FlagByte(data[0], sel) / 2 == sel % 128
  {
    var flag := FlagByte(data[0], sel);
    assert flag % 2 == data[0] % 2;
    var marked := data[0 := flag];
    assert marked[4..] == data[4..];
    assert marked[..4][0] % 2 == data[..4][0] % 2;
    assert ParseTrade(marked[..4]) == ParseTrade(data[..4]);
  }

  /** The flag byte is the eleventh byte of a seed. */
  lemma MarkedIsMarkedTail(first: seq<u8>, second: seq<u8>, printed: seq<u8>, sel: u8)
    requires |first| == 8 && |second| == 2 && |printed| > 0 && printed[0] <= 1
    ensures Marked(first + (second + printed), sel) ==
            first + (second + printed[0 := FlagByte(printed[0], sel)])
  {
    assert (first + (second + printed))[10] == printed[0];
  }

  lemma MarkedParts(first: seq<u8>, second: seq<u8>, printed: seq<u8>, sel: u8)
    requires |first| == 8 && |second| == 2 && |printed| >= 4 && printed[0] <= 1
    ensures
      var plain := first + (second + printed);
      plain[10] <= 1 && Parsed(Marked(plain, sel)) == Parsed(plain).(kind := KindForSelector(sel % 128))
  {
    MarkedIsMarkedTail(first, second, printed, sel);
    ParsedParts(first, second, printed);
    ParsedParts(first, second, printed[0 := FlagByte(printed[0], sel)]);
    FlagBitsAreFree(printed, sel, MAX_TRADES);
  }

  /** Setting a kind selector moves the case to that book and touches nothing else. With no
      record to carry it the selector is lost; its eighth bit is always lost. */
  lemma KindSeedRoundTrip(sel: u8, bUsdc: nat, roundTrip: u16, ops: seq<TradeOp>)
    requires 100 <= bUsdc <= U64_MAX
    ensures
      var plain := SeedBytes(bUsdc, roundTrip, ops);
      && (|plain| > 10 ==> plain[10] <= 1)
      && Parsed(Marked(plain, sel)) ==
         Parsed(plain).(kind := if ops == [] then Decision(1, Accept) else KindForSelector(sel % 128))
  {
    PrintedLength(ops);
    if ops == [] {
      ParsedParts(LittleEndian(bUsdc - 100, 8), LittleEndian(roundTrip, 2), []);
    } else {
      MarkedParts(LittleEndian(bUsdc - 100, 8), LittleEndian(roundTrip, 2), PrintTrades(ops), sel);
    }
  }

  // ---- the kinds a selector reaches -------------------------------------------------

  /** The branch bit is the top bit of the table row. */
  lemma BranchBit(sel: nat)
    ensures sel / 4 % 2 == sel % 8 / 4
  {
    var high, row := sel / 8, sel % 8;
    assert sel == 8 * high + row && sel / 4 == 2 * high + row / 4;
  }

  /** A selector names one of five kinds: Decision, Gate and Baseline books are on Accept or
      unbranched, and every External book is on Reject. */
  lemma KindsReachable(sel: nat)
    ensures
      var kind, row := KindForSelector(sel), sel % 8;
      && (kind == Decision(1, Accept) <==> row <= 1)
      && (kind == Gate(1, Accept, Survival) <==> row == 2 && sel / 8 % 2 == 0)
      && (kind == Gate(1, Accept, Security) <==> row == 2 && sel / 8 % 2 == 1)
      && (kind == BaselineBook(1) <==> row == 3)
      && (kind == External(1, 1, Reject) <==> row >= 4)
  {
    BranchBit(sel);
  }

  /** Selector 14 is documented as Gate/Reject/Security; the code makes it External/Reject. */
  lemma SelectorFourteenIsExternal()
    ensures KindForSelector(14) == External(1, 1, Reject) != Gate(1, Reject, Security)
  {
  }
}
