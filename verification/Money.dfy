/** Paise as decimal text, and back. */
module Money {
  import opened Options

  function Digit(d: int): char
    requires 0 <= d < 10
  {
    "0123456789"[d]
  }

  predicate IsDigit(c: char) { '0' <= c <= '9' }

  function Value(c: char): (d: int)
    requires IsDigit(c)
    ensures 0 <= d < 10
  {
    c as int - '0' as int
  }

  function Digits(n: nat): (s: string)
    ensures |s| >= 1 && forall i | 0 <= i < |s| :: IsDigit(s[i])
  {
    if n < 10 then [Digit(n)] else Digits(n / 10) + [Digit(n % 10)]
  }

  /** (minor / 100).toFixed(2), exactly. */
  function MinorToCsv(minor: int): string {
    Signed(minor < 0, Fixed(if minor < 0 then -minor else minor))
  }

  function Signed(negative: bool, s: string): string { if negative then "-" + s else s }

  function Fixed(n: nat): string { Digits(n / 100) + "." + Two(n % 100) }

  function Two(c: nat): (s: string)
    requires c < 100
    ensures AllDigits(s) && |s| == 2
  {
    [Digit(c / 10), Digit(c % 10)]
  }

  predicate AllDigits(s: string) { forall i | 0 <= i < |s| :: IsDigit(s[i]) }

  /** Number(s) of a digit string. */
  function ToNat(s: string): nat
    requires AllDigits(s)
  {
    if s == "" then 0 else ToNat(s[..|s| - 1]) * 10 + Value(s[|s| - 1])
  }

  predicate IsSpace(c: char) {
    '\t' <= c <= '\r' || c == ' ' || c == '\U{00a0}' || c == '\U{1680}' || '\U{2000}' <= c <= '\U{200a}'
    || c == '\U{2028}' || c == '\U{2029}' || c == '\U{202f}' || c == '\U{205f}' || c == '\U{3000}' || c == '\U{feff}'
  }

  function TrimStart(s: string): string { if s != "" && IsSpace(s[0]) then TrimStart(s[1..]) else s }

  function TrimEnd(s: string): string { if s != "" && IsSpace(s[|s| - 1]) then TrimEnd(s[..|s| - 1]) else s }

  /** The index of the first dot, or the length. */
  function DotAt(s: string): (i: nat)
    ensures i <= |s|
  {
    if s == "" || s[0] == '.' then 0 else 1 + DotAt(s[1..])
  }

  /** parseRupeesToMinor: one to seven digits, optionally a dot and one or two more. */
  function ParseRupeesToMinor(input: string): Option<int> { ParseTrimmed(TrimEnd(TrimStart(input))) }

  function ParseTrimmed(t: string): Option<int> {
    var i := DotAt(t);
    Assemble(t[..i], if i < |t| then Some(t[i + 1..]) else None)
  }

  function Assemble(rupees: string, paise: Option<string>): Option<int> {
    if !AllDigits(rupees) || !(1 <= |rupees| <= 7) then None
    else if paise.None? then Some(ToNat(rupees) * 100)
    else if !AllDigits(paise.value) || !(1 <= |paise.value| <= 2) then None
    else Some(ToNat(rupees) * 100 + ToNat(PadEnd(paise.value)))
  }

  /** padEnd(2, '0') */
  function PadEnd(s: string): (r: string)
    requires AllDigits(s)
    ensures AllDigits(r)
  {
    if |s| == 0 then "00" else if |s| == 1 then s + "0" else s
  }

  function Pow10(k: nat): nat { if k == 0 then 1 else 10 * Pow10(k - 1) }

  // ------------------------------------------------------ what is accepted

  /** One to seven digits, optionally a dot and one or two more. */
  predicate SplitsAt(t: string, k: nat) {
    1 <= k <= 7 && k <= |t| && AllDigits(t[..k])
    && (|t| == k || (t[k] == '.' && AllDigits(t[k + 1..]) && 1 <= |t| - k - 1 <= 2))
  }

  ghost predicate IsAmount(t: string) { exists k: nat :: SplitsAt(t, k) }

  lemma {:induction false} FirstDot(t: string, k: nat)
    requires k <= |t| && AllDigits(t[..k]) && (k < |t| ==> t[k] == '.')
    ensures DotAt(t) == k
  {
    if k > 0 {
      assert IsDigit(t[..k][0]);
      assert t[1..][..k - 1] == t[..k][1..];
      FirstDot(t[1..], k - 1);
    }
  }

  lemma {:induction false} DotBounds(t: string)
    ensures DotAt(t) < |t| ==> t[DotAt(t)] == '.'
  {
    if t != "" && t[0] != '.' { DotBounds(t[1..]); }
  }

  lemma SplitIsAccepted(t: string, k: nat)
    requires SplitsAt(t, k)
    ensures ParseTrimmed(t).Some?
  {
    FirstDot(t, k);
  }

  lemma AcceptedSplits(t: string)
    requires ParseTrimmed(t).Some?
    ensures SplitsAt(t, DotAt(t))
  {
    DotBounds(t);
  }

  /** The parser accepts exactly such a text, spaces around it aside. */
  lemma AcceptedIff(input: string)
    ensures ParseRupeesToMinor(input).Some? <==> IsAmount(TrimEnd(TrimStart(input)))
  {
    var t := TrimEnd(TrimStart(input));
    if k :| SplitsAt(t, k) { SplitIsAccepted(t, k); }
    if ParseTrimmed(t).Some? { AcceptedSplits(t); }
  }

  lemma LoneDigitIsTens(paise: string)
    requires AllDigits(paise) && |paise| == 1
    ensures ToNat(PadEnd(paise)) == 10 * ToNat(paise)
  {
    assert (paise + "0")[..1] == paise;
  }

  lemma RupeesAlone(rupees: string)
    requires AllDigits(rupees) && 1 <= |rupees| <= 7
    ensures ParseTrimmed(rupees) == Some(100 * ToNat(rupees))
  {
    assert rupees[..|rupees|] == rupees;
    FirstDot(rupees, |rupees|);
  }

  lemma Assembled(rupees: string, paise: string, r: nat, q: nat, m: nat)
    requires AllDigits(rupees) && 1 <= |rupees| <= 7 && AllDigits(paise) && 1 <= |paise| <= 2
    requires r == ToNat(rupees) && q == ToNat(PadEnd(paise)) && m == 100 * r + q
    ensures Assemble(rupees, Some(paise)) == Some(m)
  {
  }

  lemma TextReads(text: string, rupees: string, paise: string, o: Option<int>)
    requires AllDigits(rupees) && text == rupees + "." + paise && o == Assemble(rupees, Some(paise))
    ensures ParseTrimmed(text) == o
  {
    NoDot(rupees);
    SplitsAtDot(rupees, paise);
  }

  lemma TextIs(text: string, rupees: string, paise: string, r: nat, q: nat, m: nat)
    requires text == rupees + "." + paise && m == 100 * r + q
    requires AllDigits(rupees) && 1 <= |rupees| <= 7 && AllDigits(paise) && 1 <= |paise| <= 2
    requires r == ToNat(rupees) && q == ToNat(PadEnd(paise))
    ensures ParseTrimmed(text) == Some(m)
  {
    Assembled(rupees, paise, r, q, m);
    TextReads(text, rupees, paise, Some(m));
  }

  lemma Padded(paise: string, p: nat) returns (q: nat)
    requires AllDigits(paise) && 1 <= |paise| <= 2 && p == ToNat(paise)
    ensures q == ToNat(PadEnd(paise))
    ensures q == if |paise| == 1 then 10 * p else p
  {
    q := ToNat(PadEnd(paise));
    if |paise| == 1 { LoneDigitIsTens(paise); }
  }

  /** What an accepted text is worth: a hundred paise a rupee, ten for a lone decimal digit. */
  lemma AmountIs(text: string, rupees: string, paise: string, r: nat, p: nat, m: nat)
    requires text == rupees + "." + paise && AllDigits(rupees) && 1 <= |rupees| <= 7
    requires AllDigits(paise) && 1 <= |paise| <= 2 && r == ToNat(rupees) && p == ToNat(paise)
    requires m == 100 * r + if |paise| == 1 then 10 * p else p
    ensures ParseTrimmed(text) == Some(m)
  {
    var q := Padded(paise, p);
    TextIs(text, rupees, paise, r, q, m);
  }

  lemma {:induction false} TrailingSpace(s: string, c: char)
    requires IsSpace(c)
    ensures TrimEnd(TrimStart(s + [c])) == TrimEnd(TrimStart(s))
  {
    var t := s + [c];
    if s == "" {
      assert t[1..] == "";
    } else if IsSpace(s[0]) {
      assert t[1..] == s[1..] + [c];
      TrailingSpace(s[1..], c);
    } else {
      assert t[..|t| - 1] == s;
    }
  }

  /** A space, tab or line break, or any other space, changes nothing before or after. */
  lemma SpacesAreIgnored(s: string, c: char)
    requires c == ' ' || c == '\t' || c == '\n' || c == '\r' || IsSpace(c)
    ensures ParseRupeesToMinor([c] + s) == ParseRupeesToMinor(s) == ParseRupeesToMinor(s + [c])
  {
    assert ([c] + s)[1..] == s;
    TrailingSpace(s, c);
  }

  lemma NoDot(s: string)
    requires AllDigits(s)
    ensures '.' !in s
  {
  }

  lemma {:induction false} DigitsReadBack(n: nat)
    ensures ToNat(Digits(n)) == n
  {
    var s := Digits(n);
    if n < 10 {
      assert s[..0] == "";
    } else {
      DigitsReadBack(n / 10);
      assert s[..|s| - 1] == Digits(n / 10);
    }
  }

  lemma {:induction false} DigitCount(n: nat, k: nat)
    requires k >= 1
    ensures |Digits(n)| <= k <==> n < Pow10(k)
  {
    if n < 10 {
      if k > 1 { DigitCount(n, k - 1); }
    } else if k > 1 {
      DigitCount(n / 10, k - 1);
    }
  }

  lemma {:induction false} ToNatBelow(s: string)
    requires AllDigits(s)
    ensures ToNat(s) < Pow10(|s|)
  {
    if s != "" { ToNatBelow(s[..|s| - 1]); }
  }

  lemma FixedIsTrimmed(n: nat)
    ensures TrimEnd(TrimStart(Fixed(n))) == Fixed(n)
  {
    assert Fixed(n)[0] == Digits(n / 100)[0] && IsDigit(Fixed(n)[0]);
    assert IsDigit(Digit(n % 10));
  }

  lemma {:induction false} DotIsAt(before: string, after: string)
    requires '.' !in before
    ensures var s := before + "." + after;
            DotAt(s) == |before| && s[..|before|] == before && s[|before| + 1..] == after
  {
    var s := before + "." + after;
    if before != "" {
      assert s[1..] == before[1..] + "." + after;
      DotIsAt(before[1..], after);
    }
  }

  lemma SplitsAtDot(rupees: string, paise: string)
    requires '.' !in rupees
    ensures ParseTrimmed(rupees + "." + paise) == Assemble(rupees, Some(paise))
  {
    DotIsAt(rupees, paise);
  }

  /** How the parser reads digits, a dot and two digits. */
  lemma ParsesTwoParts(rupees: string, paise: string)
    requires AllDigits(rupees) && 1 <= |rupees| <= 7 && AllDigits(paise) && |paise| == 2
    ensures Assemble(rupees, Some(paise)) == Some(ToNat(rupees) * 100 + ToNat(paise))
  {
  }

  lemma NoDotInDigits(n: nat)
    ensures '.' !in Digits(n) && AllDigits(Digits(n))
  {
  }

  lemma SevenDigits(n: nat)
    ensures |Digits(n)| <= 7 <==> n <= 9_999_999
  {
    DigitCount(n, 7);
    assert Pow10(7) == 10_000_000;
  }

  lemma FixedSplits(q: nat, c: nat)
    requires c < 100
    ensures ParseTrimmed(Digits(q) + "." + Two(c)) == Assemble(Digits(q), Some(Two(c)))
  {
    NoDotInDigits(q);
    SplitsAtDot(Digits(q), Two(c));
  }

  lemma FixedParses(q: nat, c: nat)
    requires c < 100
    ensures q <= 9_999_999 ==> ParseTrimmed(Digits(q) + "." + Two(c)) == Some(100 * q + c)
    ensures q > 9_999_999 ==> ParseTrimmed(Digits(q) + "." + Two(c)).None?
  {
    FixedSplits(q, c);
    SevenDigits(q);
    DigitsReadBack(q);
    TwoReadsBack(c);
    if q <= 9_999_999 { ParsesTwoParts(Digits(q), Two(c)); }
  }

  lemma PrintsTwoParts(n: nat)
    ensures MinorToCsv(n) == Digits(n / 100) + "." + Two(n % 100)
  {
  }

  lemma ReadsTwoParts(text: string, q: nat, c: nat)
    requires c < 100 && q <= 9_999_999 && text == Digits(q) + "." + Two(c) && TrimEnd(TrimStart(text)) == text
    ensures ParseRupeesToMinor(text) == Some(100 * q + c)
  {
    FixedParses(q, c);
  }

  /**
   * Printing and parsing are inverse exactly on the amounts the parser can
   * represent; everything else that is printed is refused.
   */
  lemma PrintedAmountsParse(n: int)
    requires 0 <= n <= 999_999_999
    ensures ParseRupeesToMinor(MinorToCsv(n)) == Some(n)
  {
    var text := MinorToCsv(n);
    assert text == Digits(n / 100) + "." + Two(n % 100) by { PrintsTwoParts(n); }
    assert TrimEnd(TrimStart(text)) == text by { FixedIsTrimmed(n); }
    Hundreds(n);
    ReadsTwoParts(text, n / 100, n % 100);
  }

  lemma Hundreds(n: nat)
    ensures n == 100 * (n / 100) + n % 100 && (n / 100 <= 9_999_999 <==> n <= 999_999_999)
  {
  }

  lemma LargeAmountsAreRefused(n: int)
    requires n > 999_999_999
    ensures ParseRupeesToMinor(MinorToCsv(n)).None?
  {
    FixedIsTrimmed(n);
    FixedParses(n / 100, n % 100);
  }

  lemma DigitValue(d: int)
    requires 0 <= d < 10
    ensures IsDigit(Digit(d)) && Value(Digit(d)) == d
  {
    assert Digit(d) == ['0', '1', '2', '3', '4', '5', '6', '7', '8', '9'][d];
  }

  lemma TwoReadsBack(c: nat)
    requires c < 100
    ensures ToNat(Two(c)) == c
  {
    var s := Two(c);
    assert s[..1] == [Digit(c / 10)] && [Digit(c / 10)][..0] == "";
    DigitValue(c / 10);
    DigitValue(c % 10);
    assert ToNat([Digit(c / 10)]) == c / 10;
  }

  lemma NegativeIsTrimmed(n: nat)
    ensures TrimEnd(TrimStart("-" + Fixed(n))) == "-" + Fixed(n)
  {
    assert IsDigit(Digit(n % 10));
  }

  lemma NegativeAmountsAreRefused(n: int)
    requires n < 0
    ensures ParseRupeesToMinor(MinorToCsv(n)).None?
  {
    NegativeIsTrimmed(-n);
    MinusIsRefused(Fixed(-n));
  }

  lemma MinusIsRefused(t: string)
    ensures ParseTrimmed("-" + t).None?
  {
    var s := "-" + t;
    assert s[0] == '-' && DotAt(s) >= 1;
    assert s[..DotAt(s)][0] == '-';
  }

  /** Whatever parses prints to a canonical text that parses to the same amount. */
  lemma ParsedAmountsPrint(input: string)
    requires ParseRupeesToMinor(input).Some?
    ensures 0 <= ParseRupeesToMinor(input).value <= 999_999_999
    ensures ParseRupeesToMinor(MinorToCsv(ParseRupeesToMinor(input).value)) == ParseRupeesToMinor(input)
  {
    var t := TrimEnd(TrimStart(input));
    var rupees := t[..DotAt(t)];
    var paise := if DotAt(t) < |t| then t[DotAt(t) + 1..] else "";
    ToNatBelow(rupees);
    PowGrows(|rupees|, 7);
    assert Pow10(7) == 10_000_000;
    PaddedBelow(paise);
    PrintedAmountsParse(ParseRupeesToMinor(input).value);
  }

  lemma PaddedBelow(s: string)
    requires AllDigits(s) && |s| <= 2
    ensures ToNat(PadEnd(s)) < 100
  {
    ToNatBelow(PadEnd(s));
    assert Pow10(2) == 100;
  }

  lemma {:induction false} PowGrows(a: nat, b: nat)
    requires a <= b
    ensures Pow10(a) <= Pow10(b)
  {
    if a < b { PowGrows(a, b - 1); }
  }
}
