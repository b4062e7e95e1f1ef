/** The decimal text handling behind host identifiers and node labels. */
module Text {
  import opened Wrappers

  function Digit(d: nat): char
    requires d < 10
  {
    ('0' as int + d) as char
  }

  predicate IsDigit(c: char) {
    '0' <= c <= '9'
  }

  function Decimal(n: nat): string {
    if n < 10 then [Digit(n)] else Decimal(n / 10) + [Digit(n % 10)]
  }

  function DigitsValue(s: string): nat
    requires forall c <- s :: IsDigit(c)
  {
    if s == [] then 0
    else
      assert IsDigit(s[|s| - 1]);
      10 * DigitsValue(s[..|s| - 1]) + (s[|s| - 1] as int - '0' as int)
  }

  /** `str::parse::<usize>`: an optional plus sign, then at least one digit, and the value must fit. */
  function ParseUsize(s: string): Option<nat> {
    var digits := if s != [] && s[0] == '+' then s[1..] else s;
    if digits == [] || exists c <- digits :: !IsDigit(c) then None
    else if DigitsValue(digits) >= U64_MODULUS then None
    else Some(DigitsValue(digits))
  }

  /** Text after the last dash; all of it when there is none. */
  function LastSegment(s: string): string {
    if s == [] || s[|s| - 1] == '-' then [] else LastSegment(s[..|s| - 1]) + [s[|s| - 1]]
  }

  lemma {:induction false} DecimalDigits(n: nat)
    ensures Decimal(n) != [] && forall c <- Decimal(n) :: IsDigit(c)
    ensures DigitsValue(Decimal(n)) == n
  {
    if n >= 10 {
      DecimalDigits(n / 10);
      assert Decimal(n)[..|Decimal(n)| - 1] == Decimal(n / 10);
    }
  }

  lemma ParseDecimal(n: nat)
    requires n < U64_MODULUS
    ensures ParseUsize(Decimal(n)) == Some(n)
  {
    DecimalDigits(n);
    assert IsDigit(Decimal(n)[0]);
  }

  function Zeros(n: nat): string {
    seq(n, _ => '0')
  }

  lemma OneMoreDigit(init: string, last: char)
    requires IsDigit(last) && forall c <- init :: IsDigit(c)
    ensures forall c <- init + [last] :: IsDigit(c)
    ensures var before := DigitsValue(init);
            Decimal(DigitsValue(init + [last])) == if before == 0 then [last] else Decimal(before) + [last]
  {
    var d := last as int - '0' as int;
    assert (init + [last])[..|init|] == init;
    LastDigit(DigitsValue(init), d);
  }

  lemma LastDigit(before: nat, d: nat)
    requires d < 10
    ensures Decimal(10 * before + d) == if before == 0 then [Digit(d)] else Decimal(before) + [Digit(d)]
  {
    assert (10 * before + d) / 10 == before && (10 * before + d) % 10 == d;
  }

  /** Digits denote a number exactly when they are its decimal form after leading zeros. */
  lemma {:induction false} DigitsOf(digits: string) returns (zeros: nat)
    requires digits != [] && forall c <- digits :: IsDigit(c)
    ensures digits == Zeros(zeros) + Decimal(DigitsValue(digits))
  {
    var init, last := digits[..|digits| - 1], digits[|digits| - 1];
    assert digits == init + [last] && last in digits && forall c <- init :: c in digits;
    OneMoreDigit(init, last);
    if init == [] {
      return 0;
    }
    zeros := DigitsOf(init);
    if DigitsValue(init) == 0 {
      MoreZeros(zeros);
      return zeros + 1;
    }
    AppendDigit(Zeros(zeros), Decimal(DigitsValue(init)), last);
  }

  lemma MoreZeros(zeros: nat)
    ensures Zeros(zeros) + Decimal(0) == Zeros(zeros + 1)
  {
  }

  lemma AppendDigit(zeros: string, digits: string, last: char)
    ensures (zeros + digits) + [last] == zeros + (digits + [last])
  {
  }

  lemma {:induction false} LeadingZeros(zeros: nat, n: nat)
    ensures forall c <- Zeros(zeros) + Decimal(n) :: IsDigit(c)
    ensures DigitsValue(Zeros(zeros) + Decimal(n)) == n
    decreases n
  {
    DecimalDigits(n);
    var all := Zeros(zeros) + Decimal(n);
    if n >= 10 {
      LeadingZeros(zeros, n / 10);
      assert all[..|all| - 1] == Zeros(zeros) + Decimal(n / 10);
    } else {
      ZerosValue(zeros);
      assert all[..|all| - 1] == Zeros(zeros);
    }
  }

  lemma {:induction false} ZerosValue(zeros: nat)
    ensures DigitsValue(Zeros(zeros)) == 0
  {
    if zeros > 0 {
      ZerosValue(zeros - 1);
      assert Zeros(zeros)[..zeros - 1] == Zeros(zeros - 1);
    }
  }

  ghost predicate Spells(s: string, plus: bool, zeros: nat, n: nat) {
    s == (if plus then "+" else "") + Zeros(zeros) + Decimal(n)
  }

  /** What parses as `n` is the decimal form of `n` after leading zeros and possibly a plus sign, and nothing else. */
  lemma ParsesIff(s: string, n: nat)
    ensures ParseUsize(s) == Some(n) <==> n < U64_MODULUS && exists plus, zeros :: Spells(s, plus, zeros, n)
  {
    if ParseUsize(s) == Some(n) {
      var plus, zeros := ParsedSpells(s, n);
    }
    if plus, zeros :| n < U64_MODULUS && Spells(s, plus, zeros, n) {
      SpelledParses(s, plus, zeros, n);
    }
  }

  lemma ParsedSpells(s: string, n: nat) returns (plus: bool, zeros: nat)
    requires ParseUsize(s) == Some(n)
    ensures n < U64_MODULUS && Spells(s, plus, zeros, n)
  {
    plus := s != [] && s[0] == '+';
    var digits := if plus then s[1..] else s;
    zeros := DigitsOf(digits);
    assert s == (if plus then "+" else "") + digits;
    AppendSign(if plus then "+" else "", Zeros(zeros), Decimal(n));
  }

  lemma AppendSign(sign: string, zeros: string, digits: string)
    ensures sign + (zeros + digits) == sign + zeros + digits
  {
  }

  lemma SpelledParses(s: string, plus: bool, zeros: nat, n: nat)
    requires n < U64_MODULUS && Spells(s, plus, zeros, n)
    ensures ParseUsize(s) == Some(n)
  {
    LeadingZeros(zeros, n);
    DecimalDigits(n);
    AppendSign(if plus then "+" else "", Zeros(zeros), Decimal(n));
    SignedParses(plus, Zeros(zeros) + Decimal(n));
  }

  lemma SignedParses(plus: bool, digits: string)
    requires digits != [] && (forall c <- digits :: IsDigit(c)) && DigitsValue(digits) < U64_MODULUS
    ensures ParseUsize((if plus then "+" else "") + digits) == Some(DigitsValue(digits))
  {
    var s := (if plus then "+" else "") + digits;
    if plus {
      assert s[0] == '+' && s[1..] == digits;
    } else {
      assert s == digits && IsDigit(s[0]);
    }
  }

  lemma {:induction false} NoDashOneSegment(s: string)
    requires '-' !in s
    ensures LastSegment(s) == s
  {
    if s != [] {
      var init := s[..|s| - 1];
      assert s == init + [s[|s| - 1]];
      NoDashOneSegment(init);
    }
  }

  lemma {:induction false} LastSegmentOf(prefix: string, s: string)
    requires '-' !in s
    ensures LastSegment(prefix + "-" + s) == s
  {
    var whole := prefix + "-" + s;
    if s == [] {
      assert whole[|whole| - 1] == '-';
    } else {
      var init := s[..|s| - 1];
      assert whole[..|whole| - 1] == prefix + "-" + init;
      assert forall c <- init :: c in s;
      LastSegmentOf(prefix, init);
      assert init + [s[|s| - 1]] == s;
    }
  }

  /** Label of the node with the given index. */
  function NodeLabel(index: nat): string {
    "node-" + Decimal(index)
  }

  lemma NodeLabelInjective(a: nat, b: nat)
    requires NodeLabel(a) == NodeLabel(b)
    ensures a == b
  {
    assert NodeLabel(a)[5..] == Decimal(a) && NodeLabel(b)[5..] == Decimal(b);
    DecimalDigits(a);
    DecimalDigits(b);
  }

  lemma NodeLabelIndex(index: nat)
    requires index < U64_MODULUS
    ensures ParseUsize(LastSegment(NodeLabel(index))) == Some(index)
  {
    DecimalDigits(index);
    assert '-' !in Decimal(index) by {
      assert !IsDigit('-');
    }
    assert NodeLabel(index) == "node" + "-" + Decimal(index);
    LastSegmentOf("node", Decimal(index));
    ParseDecimal(index);
  }
}
