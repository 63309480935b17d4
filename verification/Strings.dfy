/** Byte strings, and the few operations of the standard string library that the components use. */
module Strings {

  /** Strings are sequences of bytes; a byte is written as the character with its code. */
  type Byte = c: char | c as int < 256 witness 'a'

  type Text = seq<Byte>

  /** White space, in the ASCII range. */
  predicate IsSpace(c: Byte) {
    c == ' ' || c == '\t' || c == '\n' || c == '\r' || c == '\U{0B}' || c == '\U{0C}'
  }

  function TrimLeft(s: Text): Text {
    if s != [] && IsSpace(s[0]) then TrimLeft(s[1..]) else s
  }

  function TrimRight(s: Text): Text {
    if s != [] && IsSpace(s[|s| - 1]) then TrimRight(s[..|s| - 1]) else s
  }

  function Trim(s: Text): Text {
    TrimRight(TrimLeft(s))
  }

  /** No white space at either end. */
  predicate Trimmed(s: Text) {
    s == [] || (!IsSpace(s[0]) && !IsSpace(s[|s| - 1]))
  }

  lemma {:induction false} TrimRightKeepsFirst(s: Text)
    requires s != [] && !IsSpace(s[0])
    ensures TrimRight(s) != [] && TrimRight(s)[0] == s[0] && Trimmed(TrimRight(s))
    decreases |s|
  {
    if IsSpace(s[|s| - 1]) {
      TrimRightKeepsFirst(s[..|s| - 1]);
    }
  }

  lemma {:induction false} TrimLeftStops(s: Text)
    ensures TrimLeft(s) != [] ==> !IsSpace(TrimLeft(s)[0])
    decreases |s|
  {
    if s != [] && IsSpace(s[0]) {
      TrimLeftStops(s[1..]);
    }
  }

  lemma TrimIsTrimmed(s: Text)
    ensures Trimmed(Trim(s))
    ensures Trim(Trim(s)) == Trim(s)
  {
    TrimLeftStops(s);
    if TrimLeft(s) != [] {
      TrimRightKeepsFirst(TrimLeft(s));
    }
  }

  predicate AllSpace(s: Text) {
    forall c :: c in s ==> IsSpace(c)
  }

  lemma {:induction false} TrimLeftCuts(s: Text) returns (n: nat)
    ensures n <= |s| && TrimLeft(s) == s[n..] && AllSpace(s[..n])
    decreases |s|
  {
    n := 0;
    if s != [] && IsSpace(s[0]) {
      n := TrimLeftCuts(s[1..]);
      assert s[..n + 1] == [s[0]] + s[1..][..n];
      n := n + 1;
    }
  }

  lemma {:induction false} TrimRightCuts(s: Text) returns (n: nat)
    ensures n <= |s| && TrimRight(s) == s[..n] && AllSpace(s[n..])
    decreases |s|
  {
    n := |s|;
    if s != [] && IsSpace(s[|s| - 1]) {
      n := TrimRightCuts(s[..|s| - 1]);
      assert s[n..] == s[..|s| - 1][n..] + [s[|s| - 1]];
    }
  }

  lemma {:induction false} TrimLeftOf(before: Text, s: Text)
    requires AllSpace(before) && (s != [] ==> !IsSpace(s[0]))
    ensures TrimLeft(before + s) == s
  {
    if before == [] {
      assert before + s == s;
    } else {
      assert before[0] in before && (before + s)[1..] == before[1..] + s;
      TrimLeftOf(before[1..], s);
    }
  }

  lemma {:induction false} TrimRightOf(s: Text, after: Text)
    requires AllSpace(after) && (s != [] ==> !IsSpace(s[|s| - 1]))
    ensures TrimRight(s + after) == s
    decreases |after|
  {
    if after == [] {
      assert s + after == s;
    } else {
      var init := after[..|after| - 1];
      assert after[|after| - 1] in after && (s + after)[..|s + after| - 1] == s + init;
      TrimRightOf(s, init);
    }
  }

  /** White space around a trimmed text is trimmed away. */
  lemma TrimOf(before: Text, s: Text, after: Text)
    requires AllSpace(before) && AllSpace(after) && Trimmed(s)
    ensures Trim(before + s + after) == s
  {
    if s == [] {
      assert before + s + after == before + after + [];
      TrimLeftOf(before + after, []);
    } else {
      assert before + s + after == before + (s + after);
      TrimLeftOf(before, s + after);
      TrimRightOf(s, after);
    }
  }

  lemma JoinInTurn(a: Text, b: Text, c: Text)
    ensures a + (b + c) == a + b + c
  {
  }

  /** Trimming takes away white space at both ends and nothing else. */
  lemma TrimCutsSpace(s: Text) returns (before: Text, after: Text)
    ensures s == before + Trim(s) + after && AllSpace(before) && AllSpace(after) && Trimmed(Trim(s))
  {
    var i := TrimLeftCuts(s);
    var n := TrimRightCuts(s[i..]);
    TrimIsTrimmed(s);
    before, after := s[..i], s[i..][n..];
  }

  lemma TrimmedIsFixed(s: Text)
    requires Trimmed(s)
    ensures Trim(s) == s
  {
  }

  /** The first of the arguments that is not blank, trimmed. */
  function FirstNonEmpty(a: Text, b: Text): Text {
    if Trim(a) != [] then Trim(a) else Trim(b)
  }

  /** What is given, trimmed, or else the default. */
  function OrElse(text: Text, default_: Text): Text {
    if Trim(text) == [] then default_ else Trim(text)
  }

  lemma DefaultIsTaken(text: Text, default_: Text)
    requires Trimmed(default_)
    ensures FirstNonEmpty(text, default_) == OrElse(text, default_)
  {
    TrimmedIsFixed(default_);
  }

  function JoinWith(parts: seq<Text>, separator: Byte): Text {
    if parts == [] then []
    else if |parts| == 1 then parts[0]
    else parts[0] + [separator] + JoinWith(parts[1..], separator)
  }

  const DIGITS: Text := "0123456789abcdef"

  function Digit(n: nat): Byte
    requires n < 16
  {
    DIGITS[n]
  }

  lemma DigitInjective(m: nat, n: nat)
    requires m < 16 && n < 16 && Digit(m) == Digit(n)
    ensures m == n
  {
  }

  function Decimal(n: nat): Text {
    if n < 10 then [Digit(n)] else Decimal(n / 10) + [Digit(n % 10)]
  }

  lemma {:induction false} DecimalInjective(m: nat, n: nat)
    requires Decimal(m) == Decimal(n)
    ensures m == n
    decreases m + n
  {
    DecimalNonEmpty(m / 10);
    DecimalNonEmpty(n / 10);
    if m >= 10 && n >= 10 {
      assert Decimal(m)[..|Decimal(m)| - 1] == Decimal(m / 10);
      assert Decimal(n)[..|Decimal(n)| - 1] == Decimal(n / 10);
      DecimalInjective(m / 10, n / 10);
      DigitInjective(m % 10, n % 10);
    } else if m < 10 && n < 10 {
      DigitInjective(m, n);
    }
  }

  /** The number that decimal digits stand for. */
  function ValueOf(s: Text): int {
    if s == [] then 0 else ValueOf(s[..|s| - 1]) * 10 + (s[|s| - 1] as int - '0' as int)
  }

  /** A number is written with decimal digits, the most significant first and without leading zeros. */
  lemma {:induction false} DecimalIsValue(n: nat)
    ensures ValueOf(Decimal(n)) == n
    ensures forall c :: c in Decimal(n) ==> '0' <= c <= '9'
    ensures Decimal(n)[0] == '0' ==> n == 0
  {
    if n >= 10 {
      DecimalIsValue(n / 10);
      assert Decimal(n)[..|Decimal(n)| - 1] == Decimal(n / 10);
    }
  }

  lemma DecimalNonEmpty(n: nat)
    ensures |Decimal(n)| > 0
  {
  }

  /** Two hexadecimal digits for each byte. */
  function Hex(s: Text): Text {
    if s == [] then [] else [Digit(s[0] as int / 16), Digit(s[0] as int % 16)] + Hex(s[1..])
  }

  lemma {:induction false} HexInjective(s: Text, t: Text)
    requires Hex(s) == Hex(t)
    ensures s == t
    decreases |s|
  {
    HexLength(s);
    HexLength(t);
    if s != [] {
      assert Hex(s)[0] == Hex(t)[0] && Hex(s)[1] == Hex(t)[1];
      DigitInjective(s[0] as int / 16, t[0] as int / 16);
      DigitInjective(s[0] as int % 16, t[0] as int % 16);
      assert Hex(s)[2..] == Hex(s[1..]) && Hex(t)[2..] == Hex(t[1..]);
      HexInjective(s[1..], t[1..]);
      assert s == [s[0]] + s[1..] && t == [t[0]] + t[1..];
    }
  }

  lemma {:induction false} HexLength(s: Text)
    ensures |Hex(s)| == 2 * |s|
  {
    if s != [] {
      HexLength(s[1..]);
    }
  }

  /** The two digits of each byte, the higher one first. */
  lemma {:induction false} HexAt(s: Text, i: nat)
    requires i < |s|
    ensures |Hex(s)| == 2 * |s|
    ensures Hex(s)[2 * i] == "0123456789abcdef"[s[i] as int / 16]
    ensures Hex(s)[2 * i + 1] == "0123456789abcdef"[s[i] as int % 16]
    decreases |s|
  {
    HexLength(s);
    if i > 0 {
      HexAt(s[1..], i - 1);
      assert Hex(s)[2 * i] == Hex(s[1..])[2 * (i - 1)] && Hex(s)[2 * i + 1] == Hex(s[1..])[2 * (i - 1) + 1];
    }
  }

  lemma {:induction false} HexIsDigits(s: Text)
    ensures forall c :: c in Hex(s) ==> c in DIGITS
  {
    if s != [] {
      HexIsDigits(s[1..]);
    }
  }
}
