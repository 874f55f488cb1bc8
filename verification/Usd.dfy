/** US dollar amounts as text: printing cents and reading them back. */
module Usd {
  import opened Common

  const MAX_DIGITS := 13

  predicate IsDigit(c: char) { '0' <= c <= '9' }

  predicate AllDigits(s: string) { forall c <- s :: IsDigit(c) }

  function DigitOf(n: nat): char
    requires n < 10
  {
    '0' + n as char
  }

  function ValueOf(c: char): nat
    requires IsDigit(c)
  {
    (c - '0') as nat
  }

  /** A number in decimal, without leading zeros. */
  function Decimal(n: nat): string { if n < 10 then [DigitOf(n)] else Decimal(n / 10) + [DigitOf(n % 10)] }

  function Number(s: string): nat
    requires AllDigits(s)
  {
    if s == "" then 0 else Number(s[..|s| - 1]) * 10 + ValueOf(s[|s| - 1])
  }

  function TwoDigits(n: nat): string
    requires n < 100
  {
    [DigitOf(n / 10), DigitOf(n % 10)]
  }

  /** "$25.00", and "-$0.05" below zero. */
  function FormatUsd(cents: int): string
  {
    var size := if cents < 0 then -cents else cents;
    (if cents < 0 then "-" else "") + "$" + Decimal(size / 100) + "." + TwoDigits(size % 100)
  }

  /** White space and line ends, as `trim` strips them. */
  predicate IsSpace(c: char)
  {
    '\t' <= c <= '\r' || c == ' ' || c == '\U{a0}' || c == '\U{1680}' || '\U{2000}' <= c <= '\U{200a}' ||
    c == '\U{2028}' || c == '\U{2029}' || c == '\U{202f}' || c == '\U{205f}' || c == '\U{3000}' || c == '\U{feff}'
  }

  function TrimStart(s: string): string { if s != "" && IsSpace(s[0]) then TrimStart(s[1..]) else s }

  function TrimEnd(s: string): string { if s != "" && IsSpace(s[|s| - 1]) then TrimEnd(s[..|s| - 1]) else s }

  function Trim(s: string): string { TrimEnd(TrimStart(s)) }

  /** Where the dot is, or the end of the text. */
  function DotAt(s: string): nat { if s == "" then 0 else if s[0] == '.' then 0 else 1 + DotAt(s[1..]) }

  /** One to thirteen digits, then possibly a dot and one or two more. */
  ghost predicate Accepted(s: string)
  {
    exists whole, fraction :: Splits(s, whole, fraction)
  }

  ghost predicate Splits(s: string, whole: string, fraction: string)
  {
    AllDigits(whole) && AllDigits(fraction) && 1 <= |whole| <= MAX_DIGITS && |fraction| <= 2 &&
    s == if fraction == "" then whole else whole + "." + fraction
  }

  function PadEnd(fraction: string): string
  {
    if |fraction| >= 2 then fraction else fraction + seq(2 - |fraction|, _ => '0')
  }

  /** The text before and after the dot, and whether there is one. */
  function Parts(s: string): (string, string, bool)
  {
    var n := Min(DotAt(s), |s|);
    (s[..n], if n < |s| then s[n + 1..] else "", n < |s|)
  }

  function FromParts(whole: string, fraction: string, dot: bool): Option<int>
  {
    if !AllDigits(whole) || !AllDigits(fraction) || !(1 <= |whole| <= MAX_DIGITS) || |fraction| > 2 ||
       (dot && fraction == "") then None
    else
      var padded := PadEnd(fraction);
      assert AllDigits(padded);
      Some(Number(whole) * 100 + Number(padded))
  }

  function ParseUsdToCents(input: string): Option<int>
  {
    var (whole, fraction, dot) := Parts(Trim(input));
    FromParts(whole, fraction, dot)
  }

  lemma {:induction false} DecimalRoundTrip(n: nat)
    ensures AllDigits(Decimal(n)) && Decimal(n) != "" && Number(Decimal(n)) == n
  {
    if n >= 10 {
      DecimalRoundTrip(n / 10);
      var front := Decimal(n / 10);
      assert (front + [DigitOf(n % 10)])[..|front|] == front;
    }
  }

  /** Ten to the power of k. */
  function Power(k: nat): nat { if k == 0 then 1 else 10 * Power(k - 1) }

  lemma {:induction false} DecimalLength(n: nat, k: nat)
    requires k > 0
    ensures |Decimal(n)| <= k <==> n < Power(k)
  {
    if k > 1 && n >= 10 { DecimalLength(n / 10, k - 1); }
    if k > 1 && n < 10 { PowerGrows(k); }
  }

  lemma {:induction false} PowerGrows(k: nat)
    requires k > 0
    ensures Power(k) >= 10
  {
    if k > 1 { PowerGrows(k - 1); }
  }

  lemma {:induction false} DotAfterDigits(whole: string, rest: string)
    requires AllDigits(whole)
    ensures DotAt(whole + rest) == |whole| + DotAt(rest)
  {
    if whole == "" {
      assert whole + rest == rest;
    } else {
      assert whole[0] in whole && (whole + rest)[1..] == whole[1..] + rest;
      assert forall c <- whole[1..] :: c in whole;
      DotAfterDigits(whole[1..], rest);
    }
  }

  lemma NothingToTrim(s: string)
    requires s != "" && !IsSpace(s[0]) && !IsSpace(s[|s| - 1])
    ensures Trim(s) == s
  {
  }

  lemma SplitIsTrimmed(s: string, whole: string, fraction: string)
    requires AllDigits(whole) && AllDigits(fraction) && whole != ""
    requires s == if fraction == "" then whole else whole + "." + fraction
    ensures Trim(s) == s
  {
    assert s[0] == whole[0] && whole[0] in whole;
    assert if fraction == "" then s[|s| - 1] in whole else s[|s| - 1] == fraction[|fraction| - 1];
    assert fraction != "" ==> fraction[|fraction| - 1] in fraction;
    NothingToTrim(s);
  }

  lemma PartsOfSplit(s: string, whole: string, fraction: string)
    requires AllDigits(whole) && s == if fraction == "" then whole else whole + "." + fraction
    ensures Parts(s) == (whole, fraction, fraction != "")
  {
    if fraction == "" {
      assert whole + "" == whole;
      DotAfterDigits(whole, "");
    } else {
      assert s == whole + ("." + fraction);
      DotAfterDigits(whole, "." + fraction);
      assert s[..|whole|] == whole && s[|whole| + 1..] == fraction;
    }
  }

  /** A single digit behind the dot counts tens of cents. */
  lemma PadValue(fraction: string)
    requires AllDigits(fraction) && |fraction| <= 2
    ensures AllDigits(PadEnd(fraction)) && |PadEnd(fraction)| == 2
    ensures Number(PadEnd(fraction)) == Number(fraction) * if |fraction| == 1 then 10 else 1
  {
    var padded := PadEnd(fraction);
    if fraction == "" {
      assert padded == "00" && padded[..1] == "0" && padded[..1][..0] == "";
      assert Number(padded[..1]) == 0;
    } else if |fraction| == 1 {
      assert padded == fraction + "0" && padded[..1] == fraction;
    }
  }

  /** Text of the accepted form is so many dollars and so many cents. */
  lemma ParseSplit(s: string, whole: string, fraction: string)
    requires Splits(s, whole, fraction)
    ensures ParseUsdToCents(s) ==
            Some(Number(whole) * 100 + Number(fraction) * if |fraction| == 1 then 10 else 1)
  {
    hide Parts, Trim, PadEnd, Number;
    SplitIsTrimmed(s, whole, fraction);
    PartsOfSplit(s, whole, fraction);
    PadValue(fraction);
  }

  /** Parsing accepts exactly the grammar, after trimming. */
  lemma ParseAcceptsIff(input: string)
    ensures ParseUsdToCents(input).Some? <==> Accepted(Trim(input))
  {
    hide Trim;
    var s := Trim(input);
    TrimTwice(input);
    if ParseUsdToCents(input).Some? {
      DotIsThere(s);
      assert Splits(s, Parts(s).0, Parts(s).1);
    }
    if Accepted(s) {
      var whole, fraction :| Splits(s, whole, fraction);
      ParseSplit(s, whole, fraction);
    }
  }

  lemma {:induction false} DotIsThere(s: string)
    ensures DotAt(s) <= |s| && (DotAt(s) < |s| ==> s[DotAt(s)] == '.')
    ensures DotAt(s) < |s| ==> s == s[..DotAt(s)] + "." + s[DotAt(s) + 1..]
  {
    if s != "" && s[0] != '.' { DotIsThere(s[1..]); }
  }

  lemma {:induction false} TrimmedStart(s: string)
    ensures TrimStart(s) == "" || !IsSpace(TrimStart(s)[0])
  {
    if s != "" && IsSpace(s[0]) { TrimmedStart(s[1..]); }
  }

  lemma {:induction false} TrimmedEnd(s: string)
    ensures TrimEnd(s) == "" || (!IsSpace(TrimEnd(s)[|TrimEnd(s)| - 1]) && TrimEnd(s)[0] == s[0])
  {
    if s != "" && IsSpace(s[|s| - 1]) { TrimmedEnd(s[..|s| - 1]); }
  }

  /** The spaces one by one. */
  lemma SpacesAre(c: char)
    ensures IsSpace(c) <==>
            c in "\t\n\U{0b}\U{0c}\r \U{a0}\U{1680}\U{2000}\U{2001}\U{2002}\U{2003}\U{2004}\U{2005}\U{2006}" ||
            c in "\U{2007}\U{2008}\U{2009}\U{200a}\U{2028}\U{2029}\U{202f}\U{205f}\U{3000}\U{feff}"
  {
  }

  ghost predicate AllSpaces(s: string) { forall c <- s :: IsSpace(c) }

  lemma {:induction false} StartTrimmed(s: string) returns (left: string)
    ensures AllSpaces(left) && s == left + TrimStart(s)
  {
    left := "";
    if s != "" && IsSpace(s[0]) {
      left := StartTrimmed(s[1..]);
      left := [s[0]] + left;
    }
  }

  lemma {:induction false} EndTrimmed(s: string) returns (right: string)
    ensures AllSpaces(right) && s == TrimEnd(s) + right
  {
    right := "";
    if s != "" && IsSpace(s[|s| - 1]) {
      right := EndTrimmed(s[..|s| - 1]);
      right := right + [s[|s| - 1]];
    }
  }

  /** Trimming takes the white space off both ends, all of it, and nothing else. */
  lemma TrimTakesSpaces(s: string) returns (left: string, right: string)
    ensures AllSpaces(left) && AllSpaces(right) && s == left + Trim(s) + right
    ensures Trim(s) != "" ==> !IsSpace(Trim(s)[0]) && !IsSpace(Trim(s)[|Trim(s)| - 1])
  {
    left := StartTrimmed(s);
    right := EndTrimmed(TrimStart(s));
    TrimmedStart(s);
    TrimmedEnd(TrimStart(s));
  }

  lemma TrimTwice(s: string)
    ensures Trim(Trim(s)) == Trim(s)
  {
    TrimmedStart(s);
    TrimmedEnd(TrimStart(s));
    if Trim(s) != "" { NothingToTrim(Trim(s)); }
  }

  lemma Printed(cents: nat)
    ensures |FormatUsd(cents)| > 0 && FormatUsd(cents)[0] == '$'
    ensures FormatUsd(cents)[1..] == Decimal(cents / 100) + "." + TwoDigits(cents % 100)
  {
  }

  /** What is printed reads back, up to the largest amount that fits thirteen digits of dollars -- and not beyond. */
  lemma FormatRoundTrip(cents: nat)
    ensures FormatUsd(cents)[0] == '$'
    ensures ParseUsdToCents(FormatUsd(cents)[1..]) == if cents / 100 < Power(MAX_DIGITS) then Some(cents) else None
  {
    hide FormatUsd, Trim, Parts, Decimal, TwoDigits, Power;
    var whole, fraction := Decimal(cents / 100), TwoDigits(cents % 100);
    Printed(cents);
    var s := FormatUsd(cents)[1..];
    DecimalRoundTrip(cents / 100);
    DecimalLength(cents / 100, MAX_DIGITS);
    TwoDigitsValue(cents % 100);
    if cents / 100 < Power(MAX_DIGITS) {
      assert Splits(s, whole, fraction);
      ParseSplit(s, whole, fraction);
      assert PadEnd(fraction) == fraction;
    } else {
      SplitIsTrimmed(s, whole, fraction);
      PartsOfSplit(s, whole, fraction);
    }
  }

  /** Below zero the same text comes with a minus in front. */
  lemma NegativeFormat(cents: int)
    requires cents > 0
    ensures FormatUsd(-cents) == "-" + FormatUsd(cents)
  {
  }

  lemma DigitValue(n: nat)
    requires n < 10
    ensures IsDigit(DigitOf(n)) && ValueOf(DigitOf(n)) == n
  {
  }

  lemma TwoDigitsValue(n: nat)
    requires n < 100
    ensures |TwoDigits(n)| == 2 && AllDigits(TwoDigits(n)) && Number(TwoDigits(n)) == n
  {
    DigitValue(n / 10);
    DigitValue(n % 10);
    var s := TwoDigits(n);
    assert s[..1] == [DigitOf(n / 10)] && s[..1][..0] == "";
    assert Number(s[..1]) == n / 10;
  }

  /** Every accepted text prints to the canonical form of the same value. */
  lemma CanonicalForm(input: string)
    requires ParseUsdToCents(input).Some?
    ensures var v := ParseUsdToCents(input).value;
            v >= 0 && ParseUsdToCents(FormatUsd(v)[1..]) == Some(v)
  {
    hide Trim, Parts, FormatUsd;
    var (whole, fraction, _) := Parts(Trim(input));
    NumberBound(whole);
    NumberBound(PadEnd(fraction));
    PowerMonotone(|whole|, MAX_DIGITS);
    assert Power(2) == 10 * Power(1) && Power(1) == 10;
    FormatRoundTrip(ParseUsdToCents(input).value);
  }

  lemma {:induction false} NumberBound(s: string)
    requires AllDigits(s)
    ensures Number(s) < Power(|s|)
  {
    if s != "" {
      var front := s[..|s| - 1];
      NumberBound(front);
      assert s[|s| - 1] in s && ValueOf(s[|s| - 1]) <= 9;
      assert Power(|s|) == 10 * Power(|front|);
    }
  }

  lemma {:induction false} PowerMonotone(a: nat, b: nat)
    requires a <= b
    ensures Power(a) <= Power(b)
  {
    if a < b {
      PowerMonotone(a, b - 1);
    }
  }
}
