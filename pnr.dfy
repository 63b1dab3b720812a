/**
 * The reservation code (PNR) the server generates at registration: the
 * first three characters of the name, upper-cased, a dash, and the creation
 * time in milliseconds written in decimal.
 */
module Pnr {
  import opened Optional

  /** name.slice(0, 3): the first three characters, or the whole name when it is shorter. */
  function Prefix(name: string): (p: string)
    ensures p <= name
    ensures |p| == if |name| < 3 then |name| else 3
    ensures |name| <= 3 ==> p == name
  {
    name[..if |name| < 3 then |name| else 3]
  }

  predicate IsDigit(c: char) {
    '0' <= c <= '9'
  }

  predicate AllDigits(s: string) {
    forall i :: 0 <= i < |s| ==> IsDigit(s[i])
  }

  function DigitChar(d: nat): (c: char)
    requires d < 10
    ensures IsDigit(c) && c as int - '0' as int == d
  {
    ('0' as int + d) as char
  }

  function DigitValue(c: char): nat
    requires IsDigit(c)
  {
    c as int - '0' as int
  }

  /**
   * The decimal text of a non-negative integer, as a template string prints
   * the integer Date.now() returns: at least one digit, only digits, and no
   * leading zero except for 0 itself.
   */
  function Decimal(n: nat): (s: string)
    ensures |s| >= 1
    ensures AllDigits(s)
    ensures s[0] == '0' ==> n == 0 && s == "0"
  {
    if n < 10 then [DigitChar(n)] else Decimal(n / 10) + [DigitChar(n % 10)]
  }

  /** The value of a string of digits, most significant first. */
  function DecimalValue(s: string): nat
    requires AllDigits(s)
  {
    if s == [] then 0 else DecimalValue(s[..|s| - 1]) * 10 + DigitValue(s[|s| - 1])
  }

  /** Reading back the decimal text gives the number. */
  lemma {:induction false} DecimalRoundTrip(n: nat)
    ensures DecimalValue(Decimal(n)) == n
  {
    if n >= 10 {
      var s := Decimal(n);
      assert s[..|s| - 1] == Decimal(n / 10);
      DecimalRoundTrip(n / 10);
    }
  }

  /** The generated code: upper(name.slice(0, 3)) + "-" + decimal(now). */
  function Derive(name: string, now: nat, upper: string -> string): (pnr: string)
    ensures |name| <= 3 ==> pnr == upper(name) + "-" + Decimal(now)
    ensures |name| >= 3 ==> pnr == upper(name[..3]) + "-" + Decimal(now)
  {
    upper(Prefix(name)) + "-" + Decimal(now)
  }

  predicate NoDash(s: string) {
    forall i :: 0 <= i < |s| ==> s[i] != '-'
  }

  /** The index of the last '-' of s, if any. */
  function LastDash(s: string): (k: Option<nat>)
    ensures k.Some? ==> k.value < |s| && s[k.value] == '-' && NoDash(s[k.value + 1..])
    ensures k.None? ==> NoDash(s)
  {
    if s == [] then None
    else if s[|s| - 1] == '-' then Some(|s| - 1)
    else LastDash(s[..|s| - 1])
  }

  /** The timestamp a code carries: the digits after its last dash. */
  function TimestampOf(pnr: string): Option<nat>
  {
    match LastDash(pnr)
    case None => None
    case Some(k) =>
      var digits := pnr[k + 1..];
      if digits != [] && AllDigits(digits) then Some(DecimalValue(digits)) else None
  }

  /** Whatever the name and the case mapping, the creation time can be read back from the code. */
  lemma PnrTimestamp(name: string, now: nat, upper: string -> string)
    ensures TimestampOf(Derive(name, now, upper)) == Some(now)
  {
    var p := upper(Prefix(name));
    var d := Decimal(now);
    var s := Derive(name, now, upper);
    assert s == p + "-" + d;
    assert s[|p|] == '-';
    assert s[|p| + 1..] == d;
    assert LastDash(s) == Some(|p|);
    DecimalRoundTrip(now);
  }

  /** Codes created at different milliseconds differ, whatever the names. */
  lemma DistinctTimesDistinctCodes(name1: string, name2: string, now1: nat, now2: nat, upper: string -> string)
    requires now1 != now2
    ensures Derive(name1, now1, upper) != Derive(name2, now2, upper)
  {
    PnrTimestamp(name1, now1, upper);
    PnrTimestamp(name2, now2, upper);
  }
}
