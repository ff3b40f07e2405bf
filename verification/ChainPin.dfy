/** The development chain pin: decoding a genesis header, and the cross-role refusals. */
module ChainPin {
  import opened Bytes
  import opened Common

  // ---- hex ---------------------------------------------------------------------------------

  function HexDigit(n: nat): char
    requires n < 16
  {
    if n < 10 then ('0' as int + n) as char else ('a' as int + n - 10) as char
  }

  /** The value of a hex digit in either case. */
  function DigitValue(c: char): (v: Option<nat>)
    ensures v.Some? ==> v.value < 16
  {
    if '0' <= c <= '9' then Some(c as int - '0' as int)
    else if 'a' <= c <= 'f' then Some(c as int - 'a' as int + 10)
    else if 'A' <= c <= 'F' then Some(c as int - 'A' as int + 10)
    else None
  }

  function Lower(c: char): char {
    if 'A' <= c <= 'Z' then (c as int - 'A' as int + 'a' as int) as char else c
  }

  function LowerAll(s: string): string { seq(|s|, i requires 0 <= i < |s| => Lower(s[i])) }

  /** Two lowercase digits a byte. */
  function ToHex(bytes: seq<u8>): string {
    if bytes == [] then "" else [HexDigit(bytes[0] / 16), HexDigit(bytes[0] % 16)] + ToHex(bytes[1..])
  }

  predicate IsHex(s: string) { forall i | 0 <= i < |s| :: DigitValue(s[i]).Some? }

  /** Digit pairs to bytes. */
  function FromHex(s: string): seq<u8>
    requires IsHex(s) && |s| % 2 == 0
  {
    if s == [] then []
    else
      var pair: nat := 16 * DigitValue(s[0]).value + DigitValue(s[1]).value;
      [pair] + FromHex(s[2..])
  }

  lemma DigitRoundTrip(n: nat)
    requires n < 16
    ensures DigitValue(HexDigit(n)) == Some(n)
  {
  }

  lemma {:induction false} HexRoundTrip(bytes: seq<u8>)
    ensures |ToHex(bytes)| == 2 * |bytes| && IsHex(ToHex(bytes))
    ensures FromHex(ToHex(bytes)) == bytes
  {
    if bytes != [] {
      var text, rest := ToHex(bytes), ToHex(bytes[1..]);
      HexRoundTrip(bytes[1..]);
      DigitRoundTrip(bytes[0] / 16);
      DigitRoundTrip(bytes[0] % 16);
      assert text[2..] == rest;
      assert forall i | 2 <= i < |text| :: text[i] == rest[i - 2];
    }
  }

  /** Two digits a byte, all of them digits or small letters up to `f`. */
  lemma {:induction false} PrintedLength(bytes: seq<u8>)
    ensures |ToHex(bytes)| == 2 * |bytes|
    ensures forall i | 0 <= i < |ToHex(bytes)| :: '0' <= ToHex(bytes)[i] <= '9' || 'a' <= ToHex(bytes)[i] <= 'f'
  {
    if bytes != [] {
      var text, rest := ToHex(bytes), ToHex(bytes[1..]);
      PrintedLength(bytes[1..]);
      assert forall i | 2 <= i < |text| :: text[i] == rest[i - 2];
    }
  }

  /** The digits in either case, and nothing else. */
  lemma HexByCharacter(s: string)
    ensures IsHex(s) <==> forall c | c in s :: '0' <= c <= '9' || 'a' <= c <= 'f' || 'A' <= c <= 'F'
  {
    assert forall i | 0 <= i < |s| :: s[i] in s;
  }

  lemma LowerPair(high: char, low: char)
    requires DigitValue(high).Some? && DigitValue(low).Some?
    ensures
      var pair: nat := 16 * DigitValue(high).value + DigitValue(low).value;
      HexDigit(pair / 16) == Lower(high) && HexDigit(pair % 16) == Lower(low)
  {
    var h, l := DigitValue(high).value, DigitValue(low).value;
    assert (16 * h + l) / 16 == h && (16 * h + l) % 16 == l;
  }

  /** Printing what was parsed lowers the case and changes nothing else. */
  lemma {:induction false} ParseThenPrint(s: string)
    requires IsHex(s) && |s| % 2 == 0
    ensures ToHex(FromHex(s)) == LowerAll(s)
  {
    if s != [] {
      var rest := s[2..];
      ParseThenPrint(rest);
      LowerPair(s[0], s[1]);
      assert FromHex(s)[1..] == FromHex(rest);
      assert LowerAll(s) == [Lower(s[0]), Lower(s[1])] + LowerAll(rest);
    }
  }

  // ---- the header --------------------------------------------------------------------------

  datatype PinError =
    | NotHex
    | TooShort
    | NonZeroParent
    | BigIntegerCompact
    | NotGenesis(number: nat)
    | EndsBeforeRoot

  predicate HexText(s: string) {
    |s| >= 2 && |s| % 2 == 0 && s[0] == '0' && (s[1] == 'x' || s[1] == 'X') && IsHex(s[2..])
  }

  /** An even number of hex digits behind `0x` or `0X`. */
  lemma HexTextByCharacter(s: string)
    ensures HexText(s) <==>
            && |s| >= 2 && |s| % 2 == 0 && (s[..2] == ['0', 'x'] || s[..2] == ['0', 'X'])
            && forall c | c in s[2..] :: '0' <= c <= '9' || 'a' <= c <= 'f' || 'A' <= c <= 'F'
  {
    if |s| >= 2 {
      HexByCharacter(s[2..]);
      assert s[..2] == [s[0], s[1]];
    }
  }

  /** Bytes in the compact mode the two low bits of a flag byte select; 0 for big integers. */
  function CompactWidth(flag: u8): nat {
    var mode := flag % 4;
    if mode == 0 then 1 else if mode == 1 then 2 else if mode == 2 then 4 else 0
  }

  /** A byte, or zero past the end of the buffer. */
  function ByteAt(bytes: seq<u8>, i: nat): u8 { if i < |bytes| then bytes[i] else 0 }

  /** `width` bytes from `at`, read past the end as zeros. */
  function Window(bytes: seq<u8>, at: nat, width: nat): (window: seq<u8>)
    ensures |window| == width
    ensures forall i | 0 <= i < width :: window[i] == ByteAt(bytes, at + i)
    decreases width
  {
    if width == 0 then [] else [ByteAt(bytes, at)] + Window(bytes, at + 1, width - 1)
  }

  /** What the decoder makes of the bytes of a header. */
  function DecodeHeader(bytes: seq<u8>): Result<seq<u8>, PinError> {
    if |bytes| < 33 then Err(TooShort)
    else if exists i | 0 <= i < 32 :: bytes[i] != 0 then Err(NonZeroParent)
    else
      var width := CompactWidth(bytes[32]);
      if width == 0 then Err(BigIntegerCompact)
      else
        var number := FromLittleEndian(Window(bytes, 32, width)) / 4;
        if number != 0 then Err(NotGenesis(number))
        else if |bytes| < 32 + width + 32 then Err(EndsBeforeRoot)
        else Ok(bytes[32 + width..32 + width + 32])
  }

  /** The genesis state root of a hex header, or the reason it is refused. */
  method GenesisStateRoot(headerHex: string) returns (result: Result<string, PinError>)
    ensures !HexText(headerHex) ==> result == Err(NotHex)
    ensures HexText(headerHex) ==>
              result == match DecodeHeader(FromHex(headerHex[2..]))
                        case Ok(root) => Ok("0x" + ToHex(root))
                        case Err(error) => Err(error)
  {
    if !HexText(headerHex) {
      return Err(NotHex);
    }
    var bytes := FromHex(headerHex[2..]);
    if |bytes| < 33 {
      return Err(TooShort);
    }
    if exists i | 0 <= i < 32 :: bytes[i] != 0 {
      return Err(NonZeroParent);
    }
    var width := CompactWidth(bytes[32]);
    if width == 0 {
      return Err(BigIntegerCompact);
    }
    var number: nat := 0;
    var i := width;
    while i > 0
      invariant 0 <= i <= width
      invariant number == FromLittleEndian(Window(bytes, 32, width)[i..])
    {
      i := i - 1;
      assert Window(bytes, 32, width)[i..][1..] == Window(bytes, 32, width)[i + 1..];
      number := number * 256 + ByteAt(bytes, 32 + i);
    }
    assert Window(bytes, 32, width)[0..] == Window(bytes, 32, width);
    number := number / 4;
    if number != 0 {
      return Err(NotGenesis(number));
    }
    var start := 32 + width;
    if |bytes| < start + 32 {
      return Err(EndsBeforeRoot);
    }
    result := Ok("0x" + ToHex(bytes[start..start + 32]));
  }

  // ---- canonical compact encoding, section A.2.2 of the Polkadot Protocol Specification ------

  /** A number below 2^30 with its mode in the low two bits, and the bytes that takes. */
  function CompactCode(n: nat): (nat, nat)
    requires n < 0x4000_0000
  {
    if n < 64 then (4 * n, 1) else if n < 0x4000 then (4 * n + 1, 2) else (4 * n + 2, 4)
  }

  function Compact(n: nat): seq<u8>
    requires n < 0x4000_0000
  {
    LittleEndian(CompactCode(n).0, CompactCode(n).1)
  }

  function Header(parent: seq<u8>, number: nat, tail: seq<u8>): seq<u8>
    requires number < 0x4000_0000
  {
    parent + Compact(number) + tail
  }

  lemma CodeFits(n: nat)
    requires n < 0x4000_0000
    ensures CompactCode(n).0 < Pow256(CompactCode(n).1) && CompactCode(n).0 / 4 == n
    ensures CompactWidth(CompactCode(n).0 % 256) == CompactCode(n).1
  {
    assert Pow256(1) == 256 && Pow256(2) == 0x1_0000 && Pow256(4) == 0x1_0000_0000;
  }

  /** Reading back what was written at an offset. */
  lemma WrittenRead(bytes: seq<u8>, at: nat, n: nat, width: nat)
    requires 0 < width && at + width <= |bytes| && bytes[at..at + width] == LittleEndian(n, width)
    requires n < Pow256(width)
    ensures FromLittleEndian(Window(bytes, at, width)) == n && bytes[at] == n % 256
  {
    LittleEndianRoundTrip(n, width);
    WindowIsSlice(bytes, at, width);
    assert bytes[at] == bytes[at..at + width][0];
  }

  lemma WindowIsSlice(bytes: seq<u8>, at: nat, width: nat)
    requires at + width <= |bytes|
    ensures Window(bytes, at, width) == bytes[at..at + width]
  {
  }

  /** The mode bits select the width that was written, and the loop recovers the number. */
  lemma CompactRecovered(bytes: seq<u8>, number: nat)
    requires number < 0x4000_0000
    requires var width := CompactCode(number).1; 32 + width <= |bytes| && bytes[32..32 + width] == Compact(number)
    ensures var width := CompactCode(number).1;
            CompactWidth(bytes[32]) == width && FromLittleEndian(Window(bytes, 32, width)) / 4 == number
  {
    CodeFits(number);
    WrittenRead(bytes, 32, CompactCode(number).0, CompactCode(number).1);
  }

  /** A header that is canonically encoded is accepted exactly when its parent is zero, it is
      block 0 and its root is whole; then the root comes back. */
  lemma CanonicalHeader(parent: seq<u8>, number: nat, tail: seq<u8>)
    requires |parent| == 32 && number < 0x4000_0000
    ensures DecodeHeader(Header(parent, number, tail)) ==
            if exists i | 0 <= i < 32 :: parent[i] != 0 then Err(NonZeroParent)
            else if number != 0 then Err(NotGenesis(number))
            else if |tail| < 32 then Err(EndsBeforeRoot)
            else Ok(tail[..32])
  {
    var bytes := Header(parent, number, tail);
    var width := CompactCode(number).1;
    assert bytes[..32] == parent && bytes[32..32 + width] == Compact(number) && bytes[32 + width..] == tail;
    assert forall i | 0 <= i < 32 :: bytes[i] == parent[i];
    CompactRecovered(bytes, number);
    if |tail| >= 32 {
      assert bytes[32 + width..32 + width + 32] == tail[..32];
    }
  }

  /** A number cut off by the end of the header reads as if the missing bytes were zeros. */
  lemma MissingBytesAreZero(bytes: seq<u8>, zeros: nat)
    requires |bytes| >= 33 && |bytes| + zeros < 32 + CompactWidth(bytes[32]) + 32
    ensures DecodeHeader(bytes + seq(zeros, i => 0)) == DecodeHeader(bytes)
  {
    var padded, width := bytes + seq(zeros, i => 0), CompactWidth(bytes[32]);
    assert forall i | 0 <= i < 32 :: padded[i] == bytes[i];
    assert Window(padded, 32, width) == Window(bytes, 32, width);
  }

  /** From text to text: a canonical genesis header yields its root in lowercase hex. */
  lemma GenesisRootPrinted(root: seq<u8>, rest: seq<u8>, header: string)
    requires |root| == 32 && HexText(header)
    requires FromHex(header[2..]) == Header(seq(32, i => 0), 0, root + rest)
    ensures DecodeHeader(FromHex(header[2..])) == Ok(root)
    ensures IsHex(ToHex(root)) && |ToHex(root)| == 64
    ensures FromHex(ToHex(root)) == root && LowerAll(ToHex(root)) == ToHex(root)
  {
    CanonicalHeader(seq(32, i => 0), 0, root + rest);
    assert (root + rest)[..32] == root;
    HexRoundTrip(root);
    ParseThenPrint(ToHex(root));
  }

  /** Every header the decoder accepts, and its root: besides the canonical zero it takes the
      two longer spellings of zero, which no encoder writes. */
  lemma AcceptedHeaders(bytes: seq<u8>, root: seq<u8>)
    requires |root| == 32
    ensures
      var zeros := seq(32, i => 0);
      DecodeHeader(bytes) == Ok(root) <==>
        zeros + [0] + root <= bytes || zeros + [1, 0] + root <= bytes || zeros + [2, 0, 0, 0] + root <= bytes
  {
    AcceptedAtWidth(bytes, root, [0]);
    AcceptedAtWidth(bytes, root, [1, 0]);
    AcceptedAtWidth(bytes, root, [2, 0, 0, 0]);
  }

  /** A spelling of zero: the mode bits for its own width, then zeros. */
  predicate SpellsZero(code: seq<u8>) {
    code != [] && code[0] < 4 && CompactWidth(code[0]) == |code| && forall i | 1 <= i < |code| :: code[i] == 0
  }

  lemma AcceptedAtWidth(bytes: seq<u8>, root: seq<u8>, code: seq<u8>)
    requires |root| == 32 && SpellsZero(code)
    ensures DecodeHeader(bytes) == Ok(root) && CompactWidth(bytes[32]) == |code| <==>
            seq(32, i => 0) + code + root <= bytes
  {
    var zeros: seq<u8> := seq(32, i => 0);
    var w, whole := |code|, zeros + code + root;
    if whole <= bytes {
      assert forall i | 0 <= i < |whole| :: bytes[i] == whole[i];
      assert bytes[32] == code[0];
      forall i | 1 <= i < w ensures Window(bytes, 32, w)[i] == 0 {
        assert bytes[32 + i] == whole[32 + i] == code[i];
      }
      ZeroNumber(bytes);
      assert bytes[32 + w..32 + w + 32] == root;
    }
    if DecodeHeader(bytes) == Ok(root) && CompactWidth(bytes[32]) == w {
      ZeroNumber(bytes);
      assert bytes[32] == code[0];
      forall i | 1 <= i < w ensures bytes[32 + i] == code[i] {
        assert Window(bytes, 32, w)[i] == 0;
      }
      assert bytes[..32] == zeros && bytes[32..32 + w] == code && bytes[32 + w..32 + w + 32] == root;
      assert bytes[..32 + w + 32] == bytes[..32] + bytes[32..32 + w] + bytes[32 + w..32 + w + 32];
    }
  }

  /** The number reads as zero exactly for the flag bytes 0, 1 and 2 followed by zeros. */
  lemma ZeroNumber(bytes: seq<u8>)
    requires |bytes| >= 33 && CompactWidth(bytes[32]) > 0
    ensures
      var width := CompactWidth(bytes[32]);
      FromLittleEndian(Window(bytes, 32, width)) / 4 == 0 <==>
        bytes[32] < 4 && forall i | 1 <= i < width :: Window(bytes, 32, width)[i] == 0
  {
    var width := CompactWidth(bytes[32]);
    var window := Window(bytes, 32, width);
    var tail := window[1..];
    ZeroTail(tail);
    assert forall i | 1 <= i < width :: window[i] == tail[i - 1];
    assert forall i | 0 <= i < |tail| :: tail[i] == window[i + 1];
    assert window[0] == bytes[32];
  }

  lemma {:induction false} ZeroTail(bytes: seq<u8>)
    ensures FromLittleEndian(bytes) == 0 <==> forall i | 0 <= i < |bytes| :: bytes[i] == 0
  {
    if bytes != [] {
      ZeroTail(bytes[1..]);
      assert forall i | 1 <= i < |bytes| :: bytes[i] == bytes[1..][i - 1];
    }
  }

  // ---- the assembled pin ---------------------------------------------------------------------

  /** One role after its own checks: `relayChain` is absent on a relay. */
  datatype Role = Role(id: string, relayChain: Option<string>, genesisHash: string)

  datatype Pin = Pin(relay: Role, para: Role, assetHub: Option<Role>)

  datatype PinRefusal = WrongRelay(id: string) | SameGenesis(hash: string)

  function Parachains(pin: Pin): seq<Role> {
    [pin.para] + if pin.assetHub.Some? then [pin.assetHub.value] else []
  }

  function Roles(pin: Pin): seq<Role> { [pin.relay] + Parachains(pin) }

  predicate Linked(pin: Pin) {
    forall i | 0 <= i < |Parachains(pin)| :: Parachains(pin)[i].relayChain == Some(pin.relay.id)
  }

  /** No two roles carry the same hash text. */
  predicate DistinctText(roles: seq<Role>) {
    forall i, j | 0 <= i < j < |roles| :: roles[i].genesisHash != roles[j].genesisHash
  }

  predicate IsHash(text: string) {
    |text| == 66 && text[0] == '0' && (text[1] == 'x' || text[1] == 'X') && IsHex(text[2..])
  }

  /** Role by role: the parachain, and the Asset Hub if there is one, name the relay; and the two or
      three hash texts differ. */
  lemma PinByRole(pin: Pin)
    ensures Linked(pin) <==>
            && pin.para.relayChain == Some(pin.relay.id)
            && (pin.assetHub.Some? ==> pin.assetHub.value.relayChain == Some(pin.relay.id))
    ensures DistinctText(Roles(pin)) <==>
            && pin.relay.genesisHash != pin.para.genesisHash
            && (pin.assetHub.Some? ==> && pin.relay.genesisHash != pin.assetHub.value.genesisHash
                                       && pin.para.genesisHash != pin.assetHub.value.genesisHash)
  {
    var roles, parachains := Roles(pin), Parachains(pin);
    assert roles[0] == pin.relay && roles[1] == pin.para && parachains[0] == pin.para;
    if pin.assetHub.Some? {
      assert roles[2] == pin.assetHub.value && parachains[1] == pin.assetHub.value;
    }
  }

  /** The cross-role refusals: accepted exactly when every parachain names the relay and no two
      roles carry the same hash text. */
  method BuildDevPin(pin: Pin) returns (result: Result<Pin, PinRefusal>)
    ensures result.Ok? <==> Linked(pin) && DistinctText(Roles(pin))
    ensures result.Ok? ==> result.value == pin
    ensures result.Err? ==> (result.error.WrongRelay? <==> !Linked(pin))
    ensures result.Err? && result.error.WrongRelay? ==>
              exists role | role in Parachains(pin) ::
                role.id == result.error.id && role.relayChain != Some(pin.relay.id)
    ensures result.Err? && result.error.SameGenesis? ==>
              exists i, j | 0 <= i < j < |Roles(pin)| ::
                Roles(pin)[i].genesisHash == Roles(pin)[j].genesisHash == result.error.hash
  {
    var parachains := Parachains(pin);
    var i := 0;
    while i < |parachains|
      invariant 0 <= i <= |parachains|
      invariant forall k | 0 <= k < i :: parachains[k].relayChain == Some(pin.relay.id)
    {
      if parachains[i].relayChain != Some(pin.relay.id) {
        return Err(WrongRelay(parachains[i].id));
      }
      i := i + 1;
    }
    var roles := Roles(pin);
    var seen: map<string, nat> := map[];
    i := 0;
    while i < |roles|
      invariant 0 <= i <= |roles|
      invariant DistinctText(roles[..i])
      invariant forall hash :: hash in seen <==> exists k | 0 <= k < i :: roles[k].genesisHash == hash
    {
      if roles[i].genesisHash in seen {
        return Err(SameGenesis(roles[i].genesisHash));
      }
      seen := seen[roles[i].genesisHash := i];
      i := i + 1;
    }
    assert roles[..i] == roles;
    result := Ok(pin);
  }

  /** The 32 bytes a hash text denotes. */
  function HashBytes(text: string): seq<u8>
    requires IsHash(text)
  {
    FromHex(text[2..])
  }

  predicate DistinctGenesis(roles: seq<Role>)
    requires forall i | 0 <= i < |roles| :: IsHash(roles[i].genesisHash)
  {
    forall i, j | 0 <= i < j < |roles| :: HashBytes(roles[i].genesisHash) != HashBytes(roles[j].genesisHash)
  }

  /** Two texts denote one genesis exactly when their digits agree up to letter case. */
  lemma SameBytesUpToCase(a: string, b: string)
    requires IsHash(a) && IsHash(b)
    ensures HashBytes(a) == HashBytes(b) <==> LowerAll(a[2..]) == LowerAll(b[2..])
  {
    ParseThenPrint(a[2..]);
    ParseThenPrint(b[2..]);
    if LowerAll(a[2..]) == LowerAll(b[2..]) {
      PrintInjective(HashBytes(a), HashBytes(b));
    }
  }

  lemma PrintInjective(a: seq<u8>, b: seq<u8>)
    requires ToHex(a) == ToHex(b)
    ensures a == b
  {
    HexRoundTrip(a);
    HexRoundTrip(b);
  }

  /** An accepted pin has pairwise different genesis hashes exactly when no two of its hash
      texts agree up to letter case; the text comparison alone does not see that. */
  lemma DistinctGenesisExactly(roles: seq<Role>)
    requires forall i | 0 <= i < |roles| :: IsHash(roles[i].genesisHash)
    ensures DistinctGenesis(roles) <==>
            forall i, j | 0 <= i < j < |roles| ::
              LowerAll(roles[i].genesisHash[2..]) != LowerAll(roles[j].genesisHash[2..])
    ensures DistinctGenesis(roles) ==> DistinctText(roles)
  {
    forall i, j | 0 <= i < j < |roles|
      ensures HashBytes(roles[i].genesisHash) == HashBytes(roles[j].genesisHash) <==>
              LowerAll(roles[i].genesisHash[2..]) == LowerAll(roles[j].genesisHash[2..])
    {
      SameBytesUpToCase(roles[i].genesisHash, roles[j].genesisHash);
    }
  }

  /** A concrete miss: one genesis, spelled once in lower and once in upper case. */
  lemma CaseHidesCollision() returns (pin: Pin)
    ensures forall i | 0 <= i < |Roles(pin)| :: IsHash(Roles(pin)[i].genesisHash)
    ensures Linked(pin) && DistinctText(Roles(pin)) && !DistinctGenesis(Roles(pin))
  {
    var digits: string := seq(64, i => 'a');
    var capitals: string := seq(64, i => 'A');
    var a, b := "0x" + digits, "0x" + capitals;
    assert a[2..] == digits && b[2..] == capitals;
    assert LowerAll(digits) == LowerAll(capitals);
    assert a[2] != b[2];
    pin := Pin(Role("r", None, a), Role("p", Some("r"), b), None);
    SameBytesUpToCase(a, b);
    assert Roles(pin)[0].genesisHash == a && Roles(pin)[1].genesisHash == b;
  }
}
