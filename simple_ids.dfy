/**
  The identifiers the simple handlers make up: the PNR taken from the
  base-36 expansion of a random fraction, and the transaction id built
  from the clock (backend/simple-lambda/createBooking.js and
  createBookingWithDB.js, `generatePNR` and `TXN${Date.now()}`).
 */
module SimpleIds {
  import opened Text

  /** The digit `d` as `Number.prototype.toString(36)` writes it. */
  function Base36Char(d: nat): (c: char)
    requires d < 36
    ensures IsUpperAlnum(UpperChar(c))
  {
    if d < 10 then ('0' as int + d) as char else ('a' as int + d - 10) as char
  }

  predicate IsUpperAlnum(c: char) {
    '0' <= c <= '9' || 'A' <= c <= 'Z'
  }

  function Min(a: nat, b: nat): nat {
    if a <= b then a else b
  }

  /** `Math.random().toString(36).substring(2, 12).toUpperCase()`, given
      the base-36 digits after the point of the random fraction. The
      expansion can be shorter than ten digits, and then so is the PNR. */
  function RandomPnr(fraction: seq<nat>): (pnr: string)
    requires forall i :: 0 <= i < |fraction| ==> fraction[i] < 36
    ensures |pnr| == Min(10, |fraction|)
    ensures forall i :: 0 <= i < |pnr| ==> IsUpperAlnum(pnr[i])
  {
    var n := Min(10, |fraction|);
    var digits := seq(n, i requires 0 <= i < n => Base36Char(fraction[i]));
    ToUpper(digits)
  }

  /** `txn` is "TXN" followed by the decimal digits of `nowMillis`. */
  predicate IsTxnFor(txn: string, nowMillis: nat) {
    && |txn| > 3 && txn[..3] == "TXN"
    && (forall i :: 3 <= i < |txn| ==> IsDigit(txn[i]))
    && DecimalValue(txn[3..]) == nowMillis
  }

  /** `TXN${Date.now()}`: the prefix and the clock in decimal. */
  function TransactionId(nowMillis: nat): (txn: string)
    ensures IsTxnFor(txn, nowMillis)
  {
    var digits := Decimal(nowMillis);
    DecimalRoundTrip(nowMillis);
    assert ("TXN" + digits)[3..] == digits;
    "TXN" + digits
  }

  /** Different clock readings give different transaction ids. */
  lemma TransactionIdInjective(t1: nat, t2: nat)
    requires TransactionId(t1) == TransactionId(t2)
    ensures t1 == t2
  {
  }

  /** A random fraction with a short expansion gives a short PNR:
      0.5 is 0.i in base 36. */
  lemma ShortPnr()
    ensures RandomPnr([18]) == "I"
  {
    assert Base36Char(18) == 'i';
  }
}
