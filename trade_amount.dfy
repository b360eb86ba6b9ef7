/**
 * The 24-hour trade amount label shown next to each instrument: the amount
 * in hundred-million (억) or trillion (조) units of the quote currency,
 * truncated to a whole count.
 */
module TradeAmount {
  import opened Wrappers
  import opened Text

  const HundredMillion: real := 100000000.0
  const Trillion: real := 1000000000000.0

  /** The suffix characters 억 (10^8) and 조 (10^12). */
  const EokChar: char := '억'
  const JoChar: char := '조'

  /** `formatTradeAmount`. Any amount under 10^8 (zero and negatives included) reads "1억". */
  function FormatTradeAmount(amount: real): string
  {
    if amount < HundredMillion then "1" + [EokChar]
    else if amount >= Trillion then Decimal(WholeUnits(amount, Trillion)) + [JoChar]
    else Decimal(WholeUnits(amount, HundredMillion)) + [EokChar]
  }

  /** `Math.floor(amount / unit)` for an amount of at least one unit. */
  function WholeUnits(amount: real, unit: real): (n: nat)
    requires unit > 0.0 && amount >= unit
    ensures n >= 1
    ensures n as real * unit <= amount < (n + 1) as real * unit
  {
    var q := amount / unit;
    var n: nat := q.Floor;
    assert q * unit == amount;
    ScaleBy(n as real, q, unit);
    ScaleBy(q, (n + 1) as real, unit);
    n
  }

  /** Multiplying by a positive factor keeps an order. */
  lemma ScaleBy(a: real, b: real, c: real)
    requires c > 0.0
    ensures a <= b ==> a * c <= b * c
    ensures a < b ==> a * c < b * c
  {
  }

  /** The magnitude unit of a label. */
  datatype Unit = Eok | Jo

  /** A label read back as a whole count of a unit. */
  datatype AmountLabel = AmountLabel(count: nat, unit: Unit)

  /** Reads a label of the form digits followed by 억 or 조. */
  function ParseAmount(s: string): Option<AmountLabel>
  {
    if |s| < 2 then None
    else
      var unit := if s[|s| - 1] == EokChar then Some(Eok) else if s[|s| - 1] == JoChar then Some(Jo) else None;
      match (ParseDecimal(s[..|s| - 1]), unit)
      case (Some(n), Some(u)) => Some(AmountLabel(n, u))
      case _ => None
  }

  /** A count rendered with a suffix reads back as that count and unit. */
  lemma LabelRoundTrip(n: nat, suffix: char)
    requires suffix == EokChar || suffix == JoChar
    ensures ParseAmount(Decimal(n) + [suffix]) == Some(AmountLabel(n, if suffix == EokChar then Eok else Jo))
  {
    var s := Decimal(n) + [suffix];
    assert s[..|s| - 1] == Decimal(n);
    DecimalRoundTrip(n);
  }

  /**
   * What a label means: below 10^8 the fixed label "1억"; from 10^12 up the
   * whole number of trillions with 조; in between the whole number of
   * hundred-millions with 억, which is then between 1 and 9999.
   */
  lemma FormatTradeAmountMeaning(amount: real)
    ensures ParseAmount(FormatTradeAmount(amount)).Some?
    ensures amount < HundredMillion ==> FormatTradeAmount(amount) == "1억"
    ensures amount < HundredMillion ==> ParseAmount(FormatTradeAmount(amount)) == Some(AmountLabel(1, Eok))
    ensures amount >= Trillion ==>
      var shown := ParseAmount(FormatTradeAmount(amount)).value;
      shown.unit == Jo && shown.count >= 1 &&
      shown.count as real * Trillion <= amount < (shown.count + 1) as real * Trillion
    ensures HundredMillion <= amount < Trillion ==>
      var shown := ParseAmount(FormatTradeAmount(amount)).value;
      shown.unit == Eok && 1 <= shown.count <= 9999 &&
      shown.count as real * HundredMillion <= amount < (shown.count + 1) as real * HundredMillion
  {
    if amount < HundredMillion {
      LabelRoundTrip(1, EokChar);
      assert Decimal(1) == "1";
    } else if amount >= Trillion {
      LabelRoundTrip(WholeUnits(amount, Trillion), JoChar);
    } else {
      var n := WholeUnits(amount, HundredMillion);
      LabelRoundTrip(n, EokChar);
      assert n as real * HundredMillion < Trillion;
    }
  }

  /** The labels quoted as examples: 5×10^7, 2.5×10^8 and 1.5×10^12. */
  lemma FormatTradeAmountExamples()
    ensures FormatTradeAmount(50000000.0) == "1억"
    ensures FormatTradeAmount(250000000.0) == "2억"
    ensures FormatTradeAmount(1500000000000.0) == "1조"
  {
    assert WholeUnits(250000000.0, HundredMillion) == 2;
    assert WholeUnits(1500000000000.0, Trillion) == 1;
  }
}
