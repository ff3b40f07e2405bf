/** The integer a numeric literal denotes, read from its text. A literal's text holds neither
    whitespace nor a sign, which the big-integer reader would also take. */
module LiteralText {
  import opened Common

  function DigitValue(c: char): Option<nat> {
    if '0' <= c <= '9' then Some(c as int - '0' as int)
    else if 'a' <= c <= 'f' then Some(c as int - 'a' as int + 10)
    else if 'A' <= c <= 'F' then Some(c as int - 'A' as int + 10)
    else None
  }

  predicate IsDigit(c: char, base: nat) { DigitValue(c).Some? && DigitValue(c).value < base }

  /** A run of digits, most significant first; no digits at all are zero. */
  function Digits(text: string, base: nat): Option<nat> {
    if text == "" then Some(0)
    else
      var front, last := Digits(text[..|text| - 1], base), text[|text| - 1];
      if front.None? || !IsDigit(last, base) then None else Some(front.value * base + DigitValue(last).value)
  }

  /** The base named by a prefix of two characters. */
  function Radix(text: string): (radix: Option<nat>)
    ensures radix.Some? ==> 2 <= radix.value <= 16
  {
    if |text| < 2 || text[0] != '0' then None
    else match text[1]
      case 'x' => Some(16)
      case 'X' => Some(16)
      case 'b' => Some(2)
      case 'B' => Some(2)
      case 'o' => Some(8)
      case 'O' => Some(8)
      case _ => None
  }

  function BigIntOf(text: string): Option<nat> {
    match Radix(text)
    case None => Digits(text, 10)
    case Some(base) => if |text| == 2 then None else Digits(text[2..], base)
  }

  function WithoutSuffix(text: string): string {
    if text != "" && text[|text| - 1] == 'n' then text[..|text| - 1] else text
  }

  function WithoutSeparators(text: string): (plain: string)
    ensures '_' !in text ==> plain == text
  {
    if text == "" then ""
    else (if text[0] == '_' then [] else [text[0]]) + WithoutSeparators(text[1..])
  }

  function Cleaned(text: string): string { WithoutSeparators(WithoutSuffix(text)) }

  predicate HasFraction(text: string) { '.' in text || 'e' in text || 'E' in text }

  /** A fraction or an exponent is refused before the text is read, unless the letters are digits. */
  function LiteralValue(text: string): Option<nat> {
    var plain := Cleaned(text);
    if HasFraction(plain) && Radix(plain).None? then None else BigIntOf(plain)
  }

  // ---- what reads as a number, and as which ----------------------------------------------

  /** The digits, in either case, and the prefixes, by character. */
  lemma CharactersOfLiterals(c: char)
    ensures '0' <= c <= '9' ==> DigitValue(c) == Some(c as int - 48)
    ensures 'a' <= c <= 'f' ==> DigitValue(c) == DigitValue((c as int - 32) as char) == Some(c as int - 87)
    ensures DigitValue(c).Some? ==> '0' <= c <= '9' || 'a' <= c <= 'f' || 'A' <= c <= 'F'
    ensures IsDigit(c, 2) <==> c == '0' || c == '1'
    ensures IsDigit(c, 8) <==> '0' <= c <= '7'
    ensures IsDigit(c, 10) <==> '0' <= c <= '9'
    ensures IsDigit(c, 16) <==> '0' <= c <= '9' || 'a' <= c <= 'f' || 'A' <= c <= 'F'
    ensures Radix(['0', c]) == Some(16) <==> c == 'x' || c == 'X'
    ensures Radix(['0', c]) == Some(8) <==> c == 'o' || c == 'O'
    ensures Radix(['0', c]) == Some(2) <==> c == 'b' || c == 'B'
    ensures Radix(['0', c]).Some? ==> c in "xXoObB"
  {
  }

  lemma {:induction false} DigitsExactly(text: string, base: nat)
    ensures Digits(text, base).Some? <==> forall c | c in text :: IsDigit(c, base)
  {
    if text != "" {
      var front := text[..|text| - 1];
      DigitsExactly(front, base);
      assert text == front + [text[|text| - 1]];
    }
  }

  /** A literal denotes a number exactly when, without its suffix and separators, it consists of
      the digits of its base, at least one of them after a prefix. */
  lemma ReadsExactly(text: string)
    ensures var plain := Cleaned(text);
            LiteralValue(text).Some? <==>
              match Radix(plain)
              case None => forall c | c in plain :: IsDigit(c, 10)
              case Some(base) => |plain| > 2 && forall c | c in plain[2..] :: IsDigit(c, base)
  {
    var plain := Cleaned(text);
    match Radix(plain)
    case None =>
      DigitsExactly(plain, 10);
      assert !IsDigit('.', 10) && !IsDigit('e', 10) && !IsDigit('E', 10);
    case Some(base) => DigitsExactly(plain[2..], base);
  }

  /** So the refusal of fractions never decides: the big-integer reader refuses them as well. */
  lemma FractionCheckIsRedundant(text: string)
    ensures LiteralValue(text) == BigIntOf(Cleaned(text))
  {
    var plain := Cleaned(text);
    if HasFraction(plain) && Radix(plain).None? {
      DigitsExactly(plain, 10);
      assert !IsDigit('.', 10) && !IsDigit('e', 10) && !IsDigit('E', 10);
    }
  }

  lemma {:induction false} SeparatorsAppend(a: string, b: string)
    ensures WithoutSeparators(a + b) == WithoutSeparators(a) + WithoutSeparators(b)
  {
    if a == "" {
      assert a + b == b;
    } else {
      var first := if a[0] == '_' then [] else [a[0]];
      SeparatorsAppend(a[1..], b);
      assert (a + b)[0] == a[0] && (a + b)[1..] == a[1..] + b;
      Joined(first, WithoutSeparators(a[1..]), WithoutSeparators(b));
    }
  }

  /** One `n` at the end is the suffix, and separators are dropped; the rest is the literal. */
  lemma CleanedExactly(text: string, c: char)
    ensures Cleaned(text + ['n']) == WithoutSeparators(text)
    ensures c != 'n' ==> Cleaned(text + [c]) == WithoutSeparators(text + [c])
    ensures WithoutSeparators(text + [c]) == WithoutSeparators(text) + if c == '_' then "" else [c]
    ensures Cleaned("") == WithoutSeparators("") == ""
  {
    assert (text + ['n'])[..|text|] == text;
    SeparatorsAppend(text, [c]);
    assert [c][1..] == "";
  }

  lemma SuffixAppend(a: string, b: string)
    requires b != ""
    ensures WithoutSuffix(a + b) == a + WithoutSuffix(b)
  {
    assert (a + b)[|a + b| - 1] == b[|b| - 1];
    assert (a + b)[..|a + b| - 1] == a + b[..|b| - 1];
  }

  lemma CleanedWithSeparator(a: string, b: string)
    requires b != ""
    ensures Cleaned(a + ['_'] + b) == Cleaned(a + b)
  {
    var stem := WithoutSuffix(b);
    SuffixAppend(a + ['_'], b);
    SuffixAppend(a, b);
    SeparatorDropped(a);
    SeparatorsAppend(a + ['_'], stem);
    SeparatorsAppend(a, stem);
  }

  lemma SeparatorDropped(a: string)
    ensures WithoutSeparators(a + ['_']) == WithoutSeparators(a)
  {
    SeparatorsAppend(a, ['_']);
    assert ['_'][1..] == "";
    assert WithoutSeparators(['_']) == [] + WithoutSeparators(['_'][1..]);
  }

  /** A separator anywhere but behind the last character changes nothing. */
  lemma SeparatorIgnored(a: string, b: string)
    requires b != ""
    ensures LiteralValue(a + ['_'] + b) == LiteralValue(a + b)
  {
    CleanedWithSeparator(a, b);
  }

  // ---- one number, every spelling -----------------------------------------------------------

  function DigitChar(d: nat): char
    requires d < 16
  {
    if d < 10 then ('0' as int + d) as char else ('a' as int + d - 10) as char
  }

  lemma DigitsSnoc(front: string, last: char, base: nat)
    requires Digits(front, base).Some? && IsDigit(last, base)
    ensures Digits(front + [last], base) == Some(Digits(front, base).value * base + DigitValue(last).value)
  {
    assert (front + [last])[..|front|] == front;
  }

  /** The number a list of digits stands for, most significant first. */
  function Positional(digits: seq<nat>, base: nat): nat {
    if digits == [] then 0
    else Positional(digits[..|digits| - 1], base) * base + digits[|digits| - 1]
  }

  predicate InBase(digits: seq<nat>, base: nat) { forall i | 0 <= i < |digits| :: digits[i] < base }

  function Spelled(digits: seq<nat>): string
    requires InBase(digits, 16)
  {
    if digits == [] then "" else Spelled(digits[..|digits| - 1]) + [DigitChar(digits[|digits| - 1])]
  }

  lemma DigitRoundTrip(d: nat, base: nat)
    requires d < base <= 16
    ensures IsDigit(DigitChar(d), base) && DigitValue(DigitChar(d)) == Some(d)
    ensures DigitChar(d) != '_' && DigitChar(d) != 'n'
  {
  }

  lemma {:induction false} SpelledReads(digits: seq<nat>, base: nat)
    requires base <= 16 && InBase(digits, base)
    ensures Digits(Spelled(digits), base) == Some(Positional(digits, base))
    ensures |Spelled(digits)| == |digits|
  {
    if digits != [] {
      var front, last := digits[..|digits| - 1], digits[|digits| - 1];
      SpelledReads(front, base);
      DigitRoundTrip(last, base);
      DigitsSnoc(Spelled(front), DigitChar(last), base);
    }
  }

  /** Neither the suffix nor the separator is a digit. */
  lemma DigitsArePlain(text: string, base: nat)
    requires Digits(text, base).Some? && base <= 16
    ensures '_' !in text && 'n' !in text
  {
    DigitsExactly(text, base);
    assert !IsDigit('_', base) && !IsDigit('n', base);
  }

  /** The letter of a prefix is not a decimal digit. */
  lemma DecimalHasNoRadix(text: string)
    requires forall c | c in text :: IsDigit(c, 10)
    ensures Radix(text).None?
  {
    if |text| >= 2 {
      assert text[1] in text;
    }
  }

  /** Without suffix and separators a text is left as it is. */
  lemma CleanedPlain(text: string)
    requires '_' !in text && 'n' !in text
    ensures Cleaned(text) == text && Cleaned(text + ['n']) == text
  {
    assert (text + ['n'])[..|text|] == text;
  }

  /** What follows a prefix is read in the base it names. */
  lemma PrefixRead(c: char, digits: string)
    requires Radix(['0', c]).Some? && digits != ""
    ensures var text := ['0', c] + digits;
            Radix(text) == Radix(['0', c]) && BigIntOf(text) == Digits(digits, Radix(['0', c]).value)
    ensures c != '_' && c != 'n'
  {
    var text := ['0', c] + digits;
    assert text[0] == '0' && text[1] == c && text[2..] == digits;
  }

  /** Digits behind the prefix `0` and `c` read as their number, with or without the suffix. */
  lemma PrefixedReads(digits: seq<nat>, base: nat, c: char)
    requires Radix(['0', c]) == Some(base) && base <= 16 && InBase(digits, base) && digits != []
    ensures LiteralValue(['0', c] + Spelled(digits)) == Some(Positional(digits, base))
    ensures LiteralValue(['0', c] + Spelled(digits) + ['n']) == Some(Positional(digits, base))
  {
    var text := ['0', c] + Spelled(digits);
    SpelledReads(digits, base);
    DigitsArePlain(Spelled(digits), base);
    PrefixRead(c, Spelled(digits));
    CleanedPlain(text);
    FractionCheckIsRedundant(text);
    FractionCheckIsRedundant(text + ['n']);
  }

  lemma DecimalReads(digits: seq<nat>)
    requires InBase(digits, 10)
    ensures LiteralValue(Spelled(digits)) == Some(Positional(digits, 10))
    ensures LiteralValue(Spelled(digits) + ['n']) == Some(Positional(digits, 10))
  {
    var text := Spelled(digits);
    SpelledReads(digits, 10);
    DigitsExactly(text, 10);
    DigitsArePlain(text, 10);
    DecimalHasNoRadix(text);
    CleanedPlain(text);
    FractionCheckIsRedundant(text);
    FractionCheckIsRedundant(text + ['n']);
  }

  /** Decimal or behind any prefix, number or big integer: every spelling of a number reads as it. */
  lemma SpellingsAgree(decimal: seq<nat>, digits: seq<nat>, base: nat, c: char)
    requires InBase(decimal, 10) && Radix(['0', c]) == Some(base) && base <= 16 && InBase(digits, base)
    requires digits != [] && Positional(digits, base) == Positional(decimal, 10)
    ensures LiteralValue(['0', c] + Spelled(digits)) == LiteralValue(['0', c] + Spelled(digits) + ['n'])
            == LiteralValue(Spelled(decimal)) == LiteralValue(Spelled(decimal) + ['n'])
            == Some(Positional(decimal, 10))
  {
    DecimalReads(decimal);
    PrefixedReads(digits, base, c);
  }
}
