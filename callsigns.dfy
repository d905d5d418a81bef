/**
 * Callsign formatting, parsing and allocation (lib/callsign.ts).
 * A callsign is the decimal rendering of a number, left-padded with '0' to
 * three characters; allocation picks the lowest number of a rank's band that
 * no member of that rank uses.
 */
module Callsigns {
  import opened Wrappers
  import opened Ranks

  predicate IsDigit(c: char) {
    '0' <= c <= '9'
  }

  predicate AllDigits(s: string) {
    forall k :: 0 <= k < |s| ==> IsDigit(s[k])
  }

  function DigitChar(d: nat): (c: char)
    requires d < 10
    ensures IsDigit(c)
  {
    ('0' as int + d) as char
  }

  function DigitValue(c: char): nat
    requires IsDigit(c)
  {
    c as int - '0' as int
  }

  /** The number a string of decimal digits denotes (most significant digit first). */
  function DigitsValue(s: string): nat
    requires AllDigits(s)
  {
    if s == [] then 0 else DigitsValue(s[..|s| - 1]) * 10 + DigitValue(s[|s| - 1])
  }

  /** `num.toString()` for a non-negative integer. */
  function DecimalString(n: nat): (s: string)
    ensures |s| >= 1 && AllDigits(s)
    ensures DigitsValue(s) == n
  {
    if n < 10 then [DigitChar(n)]
    else
      var s := DecimalString(n / 10) + [DigitChar(n % 10)];
      assert s[..|s| - 1] == DecimalString(n / 10);
      s
  }

  /** `s.padStart(width, fill)` with a one-character fill. */
  function PadStart(s: string, width: nat, fill: char): (r: string)
    ensures |r| == if |s| >= width then |s| else width
    ensures r[|r| - |s|..] == s
    ensures forall k :: 0 <= k < |r| - |s| ==> r[k] == fill
  {
    if |s| >= width then s else seq(width - |s|, _ => fill) + s
  }

  /** formatCallsign: `num.toString().padStart(3, "0")`. */
  function FormatCallsign(n: nat): (s: string)
    ensures |s| >= 3 && AllDigits(s) && DigitsValue(s) == n
  {
    var d := DecimalString(n);
    if |d| >= 3 then
      PadStart(d, 3, '0')
    else
      LeadingZerosValue(3 - |d|, d);
      assert PadStart(d, 3, '0') == seq(3 - |d|, _ => '0') + d;
      PadStart(d, 3, '0')
  }

  /** The longest prefix of s made of decimal digits. */
  function DigitPrefix(s: string): (p: string)
    ensures AllDigits(p) && |p| <= |s| && p == s[..|p|]
    ensures |p| < |s| ==> !IsDigit(s[|p|])
  {
    if s != [] && IsDigit(s[0]) then [s[0]] + DigitPrefix(s[1..]) else []
  }

  /**
   * parseCallsign: `parseInt(callsign, 10)`. The value of the leading run of
   * digits; None stands for NaN (no leading digit).
   */
  function ParseCallsign(s: string): (r: Option<nat>)
    ensures r.None? <==> (s == [] || !IsDigit(s[0]))
  {
    if s == [] || !IsDigit(s[0]) then None else Some(DigitsValue(DigitPrefix(s)))
  }

  lemma {:induction false} DigitPrefixOfDigits(s: string)
    requires AllDigits(s)
    ensures DigitPrefix(s) == s
  {
    if s != [] {
      DigitPrefixOfDigits(s[1..]);
    }
  }

  /** Leading zeros do not change the value of a digit string. */
  lemma {:induction false} LeadingZerosValue(z: nat, t: string)
    requires AllDigits(t)
    ensures AllDigits(seq(z, _ => '0') + t)
    ensures DigitsValue(seq(z, _ => '0') + t) == DigitsValue(t)
  {
    var s := seq(z, _ => '0') + t;
    if t == [] {
      assert s == seq(z, _ => '0');
      if z > 0 {
        assert s[..|s| - 1] == seq(z - 1, _ => '0') + [];
        LeadingZerosValue(z - 1, []);
      }
    } else {
      assert s[..|s| - 1] == seq(z, _ => '0') + t[..|t| - 1];
      LeadingZerosValue(z, t[..|t| - 1]);
    }
  }

  /** Round trip: parsing a formatted callsign gives back the number, padding included. */
  lemma ParseFormatRoundTrip(n: nat)
    ensures ParseCallsign(FormatCallsign(n)) == Some(n)
  {
    DigitPrefixOfDigits(FormatCallsign(n));
  }

  /** Distinct numbers give distinct callsigns. */
  lemma FormatInjective(a: nat, b: nat)
    requires FormatCallsign(a) == FormatCallsign(b)
    ensures a == b
  {
    ParseFormatRoundTrip(a);
    ParseFormatRoundTrip(b);
  }

  /** For 0..999 the callsign is exactly three digits: hundreds, tens, units. */
  lemma FormatThreeDigits(n: nat)
    requires n <= 999
    ensures FormatCallsign(n) == [DigitChar(n / 100), DigitChar(n / 10 % 10), DigitChar(n % 10)]
  {
    if n >= 10 {
      assert DecimalString(n) == DecimalString(n / 10) + [DigitChar(n % 10)];
      if n >= 100 {
        assert DecimalString(n / 10) == DecimalString(n / 100) + [DigitChar(n / 10 % 10)];
      }
    }
  }

  /** Worked values: small numbers are padded with zeros to three characters. */
  lemma FormatExamples()
    ensures FormatCallsign(6) == "006" && FormatCallsign(500) == "500"
  {
    assert DecimalString(6) == "6";
    assert DecimalString(500) == "500";
  }

  /**
   * The lowest number in [lo, hi] that is not in used, scanning upward from lo;
   * None when every number of the interval is used.
   */
  function LowestFree(lo: int, hi: int, used: set<int>): (r: Option<int>)
    decreases hi - lo
    ensures r.Some? ==> lo <= r.value <= hi && r.value !in used
    ensures r.Some? ==> forall j :: lo <= j < r.value ==> j in used
    ensures r.None? <==> forall j :: lo <= j <= hi ==> j in used
  {
    if lo > hi then None
    else if lo !in used then Some(lo)
    else LowestFree(lo + 1, hi, used)
  }

  /** Every number of the rank's band is taken, so allocation fails. */
  function BandFull(rank: Rank, used: set<int>): (b: bool)
    ensures !b <==> exists j :: InBand(j, rank) && j !in used
  {
    forall j :: Band(rank).min <= j <= Band(rank).max ==> j in used
  }

  /**
   * The result of getNextAvailableCallsign as a function: the callsign of the
   * lowest number of the band not in used, or None (the thrown error) when the
   * band is full.
   */
  function Allocate(rank: Rank, used: set<int>): (r: Option<string>)
    ensures r.None? <==> BandFull(rank, used)
    ensures r.Some? ==> exists n :: InBand(n, rank) && n !in used && r.value == FormatCallsign(n)
                                   && (forall j :: Band(rank).min <= j < n ==> j in used)
  {
    match LowestFree(Band(rank).min, Band(rank).max, used)
    case Some(n) => Some(FormatCallsign(n))
    case None => None
  }

  /**
   * getNextAvailableCallsign, with the query for the rank's members replaced by
   * the set of their parsed callsigns. None stands for the thrown error.
   */
  method NextAvailableCallsign(rank: Rank, used: set<int>) returns (r: Option<string>)
    ensures r == Allocate(rank, used)
  {
    var range := Band(rank);
    ghost var lowest := LowestFree(range.min, range.max, used);
    var i := range.min;
    while i <= range.max
      invariant range.min <= i <= range.max + 1
      invariant LowestFree(i, range.max, used) == lowest
    {
      if i !in used {
        assert lowest == Some(i);
        return Some(FormatCallsign(i));
      }
      i := i + 1;
    }
    assert lowest == None;
    return None;
  }

  /** Any number meeting the allocation's description is the one allocated. */
  lemma AllocateIsLowestFree(rank: Rank, used: set<int>, n: int)
    requires InBand(n, rank) && n !in used
    requires forall j :: Band(rank).min <= j < n ==> j in used
    ensures Allocate(rank, used) == Some(FormatCallsign(n))
  {
    var r := LowestFree(Band(rank).min, Band(rank).max, used);
    assert r.Some? && r.value !in used;
    assert r.value >= n;
    assert r.value <= n;
  }

  /** In an empty band the first allocation is the band's lowest number, and the next one follows it. */
  lemma AllocateFromEmptyBand(rank: Rank)
    ensures Allocate(rank, {}) == Some(FormatCallsign(Band(rank).min))
    ensures Allocate(rank, {Band(rank).min}) == Some(FormatCallsign(Band(rank).min + 1))
  {
    BandHoldsTwo(rank);
    LowestFreeFromBottom(Band(rank).min, Band(rank).max);
  }

  /** Scanning an interval of at least two numbers: nothing used gives its bottom, only the bottom used gives the next. */
  lemma LowestFreeFromBottom(lo: int, hi: int)
    requires lo < hi
    ensures LowestFree(lo, hi, {}) == Some(lo)
    ensures LowestFree(lo, hi, {lo}) == Some(lo + 1)
  {
    assert LowestFree(lo + 1, hi, {lo}) == Some(lo + 1);
  }
}
