/** Document numbers `PFX-yyyyMMdd-NNN`, used for shipments (`SHP`) and invoices
    (`INV`): ShipmentsController.cs:91, InvoicesController.cs:80, SeedController.cs:86. */
module Numbering {
  import opened Text
  import opened Calendar

  /** The `yyyyMMdd` format of a date. */
  function Yyyymmdd(c: Civil): (s: string)
    ensures AllDigits(s)
    ensures c.year < 10000 && ValidCivil(c) ==> |s| == 8
  {
    assert ValidCivil(c) ==> |Digits(c.month)| <= 2 && |Digits(c.day)| <= 2 by {
      if ValidCivil(c) {
        DigitsBelow(c.month, 100, 2);
        DigitsBelow(c.day, 100, 2);
      }
    }
    assert c.year < 10000 ==> |Digits(c.year)| <= 4 by {
      if c.year < 10000 { DigitsBelow(c.year, 10000, 4); }
    }
    ZeroPad(c.year, 4) + ZeroPad(c.month, 2) + ZeroPad(c.day, 2)
  }

  /** `$"{prefix}-{date:yyyyMMdd}-{num:D3}"`. */
  function DocNumber(prefix: string, date: Civil, num: nat): (s: string)
    ensures num < 1000 && date.year < 10000 && ValidCivil(date) ==> |s| == |prefix| + 13
  {
    prefix + "-" + Yyyymmdd(date) + "-" + Pad3(num)
  }

  /** The sequence number reads back from the last segment of a document number. */
  lemma DocNumberSequence(prefix: string, date: Civil, num: nat)
    ensures AllDigits(LastSegment(DocNumber(prefix, date, num)))
    ensures ValueOf(LastSegment(DocNumber(prefix, date, num))) == num
  {
    AllDigitsNoHyphen(Pad3(num));
    assert DocNumber(prefix, date, num) == (prefix + "-" + Yyyymmdd(date)) + "-" + Pad3(num);
    LastSegmentAfterHyphen(prefix + "-" + Yyyymmdd(date), Pad3(num));
    ZeroPadRoundTrip(num, 3);
  }

  /** Two document numbers that differ in their sequence number differ, whatever their
      prefixes and dates. */
  lemma DocNumbersDistinct(p1: string, d1: Civil, n1: nat, p2: string, d2: Civil, n2: nat)
    requires n1 != n2
    ensures DocNumber(p1, d1, n1) != DocNumber(p2, d2, n2)
  {
    DocNumberSequence(p1, d1, n1);
    DocNumberSequence(p2, d2, n2);
  }

  /** The date part reads back too: two numbers with the same prefix and sequence
      number but different (valid, four-digit-year) dates differ. */
  lemma DocNumberDateInjective(prefix: string, d1: Civil, d2: Civil, num: nat)
    requires ValidCivil(d1) && ValidCivil(d2) && d1.year < 10000 && d2.year < 10000
    requires DocNumber(prefix, d1, num) == DocNumber(prefix, d2, num)
    ensures d1 == d2
  {
    var s1, s2 := DocNumber(prefix, d1, num), DocNumber(prefix, d2, num);
    var k := |prefix| + 1;
    assert s1[k..k + 8] == Yyyymmdd(d1);
    assert s2[k..k + 8] == Yyyymmdd(d2);
    var y1, y2 := Yyyymmdd(d1), Yyyymmdd(d2);
    DigitsBelow(d1.year, 10000, 4);
    DigitsBelow(d2.year, 10000, 4);
    DigitsBelow(d1.month, 100, 2);
    DigitsBelow(d2.month, 100, 2);
    DigitsBelow(d1.day, 100, 2);
    DigitsBelow(d2.day, 100, 2);
    assert y1[..4] == ZeroPad(d1.year, 4) && y2[..4] == ZeroPad(d2.year, 4);
    assert y1[4..6] == ZeroPad(d1.month, 2) && y2[4..6] == ZeroPad(d2.month, 2);
    assert y1[6..] == ZeroPad(d1.day, 2) && y2[6..] == ZeroPad(d2.day, 2);
    ZeroPadRoundTrip(d1.year, 4);
    ZeroPadRoundTrip(d2.year, 4);
    ZeroPadRoundTrip(d1.month, 2);
    ZeroPadRoundTrip(d2.month, 2);
    ZeroPadRoundTrip(d1.day, 2);
    ZeroPadRoundTrip(d2.day, 2);
  }

  /** The number the source's seeded data cites as an example. */
  lemma ExampleNumber()
    ensures DocNumber("INV", Civil(2026, 1, 29), 1) == "INV-20260129-001"
  {
  }
}
