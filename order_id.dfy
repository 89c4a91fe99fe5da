/** The order-id sequencer of server/utils/orderIdGenerator.js: ids have the form
    `ORD-YYYYMMDD-NNNN`, where NNNN counts the day's orders from 0001. The clock
    and the store lookup of the day's greatest id are inputs. */
module OrderId {
  import opened Wrappers
  import opened Text

  /** `${year}${month}${day}` with the month (0-based from the clock) and the day
      padded to two digits; the year is written as it is. */
  function DatePrefix(year: nat, monthIndex: nat, day: nat): string {
    NatToDecimal(year) + PadStart(NatToDecimal(monthIndex + 1), 2, '0') + PadStart(NatToDecimal(day), 2, '0')
  }

  /** A number below 100 padded to two places is two digits. */
  lemma {:induction false} TwoDigits(n: nat)
    requires n <= 99
    ensures |PadStart(NatToDecimal(n), 2, '0')| == 2 && AllDigits(PadStart(NatToDecimal(n), 2, '0'))
  {
    assert Pow10(2) == 100;
    DecimalLength(n, 2);
    ZeroPaddedValue(NatToDecimal(n), 2);
  }

  lemma AllDigitsConcat(a: string, b: string)
    requires AllDigits(a) && AllDigits(b)
    ensures AllDigits(a + b)
  {
    forall i | 0 <= i < |a + b| ensures IsDigit((a + b)[i]) {
      if i >= |a| { assert (a + b)[i] == b[i - |a|]; }
    }
  }

  /** For a four-digit year and a calendar month and day the prefix is YYYYMMDD. */
  lemma DatePrefixIsEightDigits(year: nat, monthIndex: nat, day: nat)
    requires 1000 <= year <= 9999 && monthIndex <= 11 && 1 <= day <= 31
    ensures ValidPrefix(DatePrefix(year, monthIndex, day))
  {
    var y, m, d := NatToDecimal(year), PadStart(NatToDecimal(monthIndex + 1), 2, '0'), PadStart(NatToDecimal(day), 2, '0');
    assert |y| == 4 by {
      assert Pow10(3) == 1000 && Pow10(4) == 10000 by { assert Pow10(2) == 100; }
      DecimalLength(year, 4);
      DecimalLength(year, 3);
    }
    assert |m| == 2 && AllDigits(m) by { TwoDigits(monthIndex + 1); }
    assert |d| == 2 && AllDigits(d) by { TwoDigits(day); }
    AllDigitsConcat(y, m);
    AllDigitsConcat(y + m, d);
    assert DatePrefix(year, monthIndex, day) == y + m + d;
  }

  /** An eight-digit date prefix. */
  predicate ValidPrefix(p: string) {
    |p| == 8 && AllDigits(p)
  }

  /** `nextNumber`: 1 for the day's first order, otherwise one more than the
      `parseInt` of the third dash-separated field of the last id; None is NaN
      (a missing field or one that does not start with a digit). */
  function NextNumber(lastOrderId: Option<string>): Option<nat> {
    match lastOrderId
    case None => Some(1)
    case Some(id) =>
      var pieces := Split(id, '-');
      var field := if |pieces| > 2 then pieces[2] else "";
      match ParseInt(field)
      case Some(n) => Some(n + 1)
      case None => None
  }

  /** `String(nextNumber).padStart(4, '0')`; NaN prints as "NaN". */
  function OrderNumber(next: Option<nat>): string {
    PadStart(match next case Some(n) => NatToDecimal(n) case None => "NaN", 4, '0')
  }

  /** `generateOrderId`, given today's prefix and the greatest id of today. */
  function GenerateOrderId(datePrefix: string, lastOrderId: Option<string>): string {
    "ORD-" + datePrefix + "-" + OrderNumber(NextNumber(lastOrderId))
  }

  /** `/^ORD-\d{8}-\d{4}$/.test(orderId)`. */
  predicate IsValidOrderId(s: string) {
    |s| == 17 && s[..4] == "ORD-" && AllDigits(s[4..12]) && s[12] == '-' && AllDigits(s[13..])
  }

  /** The value of the counter of a valid id. */
  function Counter(s: string): nat
    requires IsValidOrderId(s)
  {
    DigitsValue(s[13..])
  }

  // ---------------------------------------------------------------------------
  // Formatting the counter

  /** A counter of at most four digits is printed as exactly four digits that
      denote it. */
  lemma {:induction false} OrderNumberOfSmall(n: nat)
    requires n <= 9999
    ensures |OrderNumber(Some(n))| == 4 && AllDigits(OrderNumber(Some(n)))
    ensures DigitsValue(OrderNumber(Some(n))) == n
  {
    assert Pow10(4) == 10000 by {
      assert Pow10(2) == 100;
    }
    DecimalLength(n, 4);
    ZeroPaddedValue(NatToDecimal(n), 4);
    DecimalRoundTrip(n);
  }

  /** padStart does not truncate: a counter of 10000 or more has five digits or more. */
  lemma {:induction false} OrderNumberOfLarge(n: nat)
    requires n >= 10000
    ensures |OrderNumber(Some(n))| > 4
  {
    assert Pow10(4) == 10000 by {
      assert Pow10(2) == 100;
    }
    DecimalLength(n, 4);
  }

  /** A valid id is its prefix and its counter put together as the generator does. */
  lemma ValidIdShape(s: string)
    requires IsValidOrderId(s)
    ensures s == "ORD-" + s[4..12] + "-" + s[13..]
  {
  }

  /** The generated text splits back into ORD, the prefix and the counter. */
  lemma {:induction false} SplitGenerated(p: string, d: string)
    requires ValidPrefix(p) && AllDigits(d)
    ensures Split("ORD-" + p + "-" + d, '-') == ["ORD", p, d]
  {
    assert "ORD-" + p + "-" + d == "ORD" + ['-'] + (p + ['-'] + d);
    SplitAfterPiece("ORD", p + ['-'] + d, '-');
    SplitAfterPiece(p, d, '-');
    SplitWhole(d, '-');
  }

  // ---------------------------------------------------------------------------
  // Properties of the sequencer

  /** The first order of a day gets the counter 0001. */
  lemma FirstOfTheDay(p: string)
    ensures GenerateOrderId(p, None) == "ORD-" + p + "-0001"
  {
    assert NatToDecimal(1) == "1";
    assert PadStart("1", 4, '0') == "0001";
  }

  /** A valid prefix and four digits make a valid id, whose counter is those digits. */
  lemma AssembleValid(p: string, d: string)
    requires ValidPrefix(p) && |d| == 4 && AllDigits(d)
    ensures IsValidOrderId("ORD-" + p + "-" + d)
    ensures ("ORD-" + p + "-" + d)[13..] == d
  {
    var s := "ORD-" + p + "-" + d;
    assert s[..4] == "ORD-";
    assert s[4..12] == p;
    assert s[13..] == d;
  }

  /** Any counter up to 9999 with a valid prefix gives a valid id whose counter
      it is. */
  lemma {:induction false} GeneratedIsValid(p: string, lastOrderId: Option<string>)
    requires ValidPrefix(p)
    requires NextNumber(lastOrderId).Some? && NextNumber(lastOrderId).value <= 9999
    ensures IsValidOrderId(GenerateOrderId(p, lastOrderId))
    ensures Counter(GenerateOrderId(p, lastOrderId)) == NextNumber(lastOrderId).value
  {
    var n := NextNumber(lastOrderId).value;
    OrderNumberOfSmall(n);
    AssembleValid(p, OrderNumber(Some(n)));
  }

  /** After a valid id the counter is one more than the id's own counter. */
  lemma {:induction false} NextAfterValid(last: string)
    requires IsValidOrderId(last)
    ensures NextNumber(Some(last)) == Some(Counter(last) + 1)
  {
    ValidIdShape(last);
    SplitGenerated(last[4..12], last[13..]);
    LeadingDigitsOfDigits(last[13..]);
  }

  /** The sequencer counts up: after a valid id whose counter is below 9999 the
      next id of the day is valid and its counter is one more. */
  lemma {:induction false} SuccessorIsNext(p: string, last: string)
    requires ValidPrefix(p) && IsValidOrderId(last) && Counter(last) < 9999
    ensures IsValidOrderId(GenerateOrderId(p, Some(last)))
    ensures Counter(GenerateOrderId(p, Some(last))) == Counter(last) + 1
  {
    NextAfterValid(last);
    GeneratedIsValid(p, Some(last));
  }

  /** Feeding a generated id back as the day's last id continues the count. */
  lemma {:induction false} GenerateContinues(p: string, lastOrderId: Option<string>)
    requires ValidPrefix(p)
    requires NextNumber(lastOrderId).Some? && NextNumber(lastOrderId).value <= 9999
    ensures NextNumber(Some(GenerateOrderId(p, lastOrderId))) == Some(NextNumber(lastOrderId).value + 1)
  {
    var n := NextNumber(lastOrderId).value;
    calc {
      NextNumber(Some(GenerateOrderId(p, lastOrderId)));
      == { GeneratedDigits(p, lastOrderId, n); }
      NextNumber(Some("ORD-" + p + "-" + OrderNumber(Some(n))));
      == { GeneratedDigits(p, lastOrderId, n); ContinuesFrom(p, OrderNumber(Some(n)), n); }
      Some(n + 1);
    }
  }

  /** The generated id is the prefix and the four printed digits of counter n. */
  lemma GeneratedDigits(p: string, lastOrderId: Option<string>, n: nat)
    requires NextNumber(lastOrderId) == Some(n) && n <= 9999
    ensures GenerateOrderId(p, lastOrderId) == "ORD-" + p + "-" + OrderNumber(Some(n))
    ensures |OrderNumber(Some(n))| == 4 && AllDigits(OrderNumber(Some(n)))
    ensures DigitsValue(OrderNumber(Some(n))) == n
  {
    OrderNumberOfSmall(n);
  }

  /** An id whose four counter digits denote n is read back as counter n, so
      the next counter is n + 1. */
  lemma ContinuesFrom(p: string, d: string, n: nat)
    requires ValidPrefix(p) && |d| == 4 && AllDigits(d) && DigitsValue(d) == n
    ensures NextNumber(Some("ORD-" + p + "-" + d)) == Some(n + 1)
  {
    AssembleValid(p, d);
    NextAfterValid("ORD-" + p + "-" + d);
  }

  /** From 10000 on the padded counter has five digits and the id is invalid. */
  lemma {:induction false} OverflowIsInvalid(p: string, lastOrderId: Option<string>)
    requires NextNumber(lastOrderId).Some? && NextNumber(lastOrderId).value >= 10000
    ensures !IsValidOrderId(GenerateOrderId(p, lastOrderId))
  {
    OrderNumberOfLarge(NextNumber(lastOrderId).value);
    if |p| == 8 {
      assert |GenerateOrderId(p, lastOrderId)| > 17;
    }
  }

  /** A last id whose third field does not start with a digit yields NaN, and the
      generated id ends in "0NaN", which is not valid. */
  lemma {:induction false} MalformedLastGivesNaN(p: string, last: string)
    requires var pieces := Split(last, '-'); |pieces| <= 2 || pieces[2] == [] || !IsDigit(pieces[2][0])
    ensures NextNumber(Some(last)).None?
    ensures GenerateOrderId(p, Some(last)) == "ORD-" + p + "-0NaN"
    ensures !IsValidOrderId(GenerateOrderId(p, Some(last)))
  {
    MalformedIsNaN(last);
    NaNGenerated(p, Some(last));
  }

  /** Whatever the last id was, a NaN counter is printed as "0NaN". */
  lemma NaNGenerated(p: string, lastOrderId: Option<string>)
    requires NextNumber(lastOrderId).None?
    ensures GenerateOrderId(p, lastOrderId) == "ORD-" + p + "-0NaN"
    ensures !IsValidOrderId(GenerateOrderId(p, lastOrderId))
  {
    NaNPrinted();
    NaNIdInvalid(p);
  }

  lemma MalformedIsNaN(last: string)
    requires var pieces := Split(last, '-'); |pieces| <= 2 || pieces[2] == [] || !IsDigit(pieces[2][0])
    ensures NextNumber(Some(last)).None?
  {
  }

  /** NaN padded to four places. */
  lemma NaNPrinted()
    ensures OrderNumber(None) == "0NaN"
  {
    assert PadStart("NaN", 4, '0') == "0NaN";
  }

  /** An id ending in "0NaN" does not match the id pattern. */
  lemma NaNIdInvalid(p: string)
    ensures !IsValidOrderId("ORD-" + p + "-0NaN")
  {
    var s := "ORD-" + p + "-0NaN";
    if |s| == 17 {
      assert s[14] == 'N';
    }
  }

  // ---------------------------------------------------------------------------
  // The "greatest id" of the day, by string order

  /** Strict lexicographic order on strings by character code, the order of
      the store's descending sort on `orderId`. */
  predicate LexLess(a: string, b: string) {
    (a == [] && b != []) ||
    (a != [] && b != [] && (a[0] < b[0] || (a[0] == b[0] && LexLess(a[1..], b[1..]))))
  }

  /** `String` order is not numeric order: the five-digit id "...-10000" sorts
      before "...-9999", so once a day reaches 10000 the lookup keeps returning
      "...-9999" and the generator's next id repeats "...-10000". */
  lemma {:induction false} CounterStallsAfter9999(p: string)
    requires ValidPrefix(p)
    ensures LexLess("ORD-" + p + "-10000", "ORD-" + p + "-9999")
    ensures NextNumber(Some("ORD-" + p + "-9999")) == Some(10000)
  {
    var common := "ORD-" + p + "-";
    LexLessAfterCommon(common, "10000", "9999");
    assert common + "10000" == "ORD-" + p + "-10000";
    assert common + "9999" == "ORD-" + p + "-9999";
    var last := "ORD-" + p + "-9999";
    AssembleValid(p, "9999");
    assert DigitsValue("9999") == 9999 by {
      assert "9999"[..3] == "999" && "999"[..2] == "99" && "99"[..1] == "9" && "9"[..0] == "";
    }
    assert Counter(last) == 9999;
    NextAfterValid(last);
  }

  lemma {:induction false} LexLessAfterCommon(common: string, a: string, b: string)
    requires a != [] && b != [] && a[0] < b[0]
    ensures LexLess(common + a, common + b)
    decreases |common|
  {
    if common != [] {
      assert (common + a)[1..] == common[1..] + a;
      assert (common + b)[1..] == common[1..] + b;
      LexLessAfterCommon(common[1..], a, b);
    }
  }
}
