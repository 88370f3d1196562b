/** The 5% safe-harbour cost test and the liquidated-damages figure.
    Money is counted in whole cents, so every amount is a natural number and
    every percentage an exact ratio; the display rounding to two decimals is
    written out as rounding to a whole number of hundredths of a percent. */
module SafeHarbor {

  /** The percentage shown for allocated / total * 100 after rounding to two
      decimals: a number of hundredths of a percent, or one of the two
      values a division by a zero total gives (0 / 0 is not a number, a
      positive amount over 0 is infinite). */
  datatype Percentage = Hundredths(value: nat) | NotANumber | Infinity

  /** 5.00% in hundredths of a percent. */
  const QualifyingHundredths := 500

  /** (allocatedCost / totalCost * 100) rounded to two decimals, a tie going up. */
  function SafeHarborPercentage(allocatedCost: nat, totalCost: nat): (r: Percentage)
    ensures totalCost > 0 ==> r.Hundredths?
    ensures totalCost > 0 ==> 20000 * allocatedCost - totalCost < 2 * totalCost * r.value <= 20000 * allocatedCost + totalCost
    ensures totalCost == 0 && allocatedCost == 0 ==> r == NotANumber
    ensures totalCost == 0 && allocatedCost > 0 ==> r == Infinity
  {
    if totalCost == 0 then
      if allocatedCost == 0 then NotANumber else Infinity
    else
      var x, y := 20000 * allocatedCost + totalCost, 2 * totalCost;
      DivisionBounds(x, y);
      Hundredths(x / y)
  }

  lemma DivisionBounds(x: nat, y: nat)
    requires y > 0
    ensures y * (x / y) <= x < y * (x / y) + y
  {
  }

  /** The rounded percentage reaches 5.00 exactly when the unrounded
      percentage is at least 4.995. */
  lemma RoundingThreshold(allocatedCost: nat, totalCost: nat)
    ensures totalCost > 0 ==>
              (SafeHarborPercentage(allocatedCost, totalCost).value >= QualifyingHundredths
               <==> 20000 * allocatedCost >= 999 * totalCost)
  {
    if totalCost > 0 {
      var n := SafeHarborPercentage(allocatedCost, totalCost).value;
      if n >= 500 {
        ScaleMonotone(2 * totalCost, 500, n);
      } else {
        ScaleMonotone(2 * totalCost, n, 499);
      }
    }
  }

  /** The qualification test: the rounded percentage, read back as a number,
      is at least 5.0. NaN fails and Infinity passes. Because the rounded
      value is compared, a project qualifies exactly when its unrounded
      percentage is at least 4.995. */
  predicate Qualified(allocatedCost: nat, totalCost: nat)
    ensures totalCost > 0 ==> (Qualified(allocatedCost, totalCost) <==> 20000 * allocatedCost >= 999 * totalCost)
    ensures totalCost == 0 ==> (Qualified(allocatedCost, totalCost) <==> allocatedCost > 0)
  {
    RoundingThreshold(allocatedCost, totalCost);
    match SafeHarborPercentage(allocatedCost, totalCost)
    case Hundredths(n) => n >= QualifyingHundredths
    case NotANumber => false
    case Infinity => true
  }

  lemma {:induction false} ScaleMonotone(c: nat, x: int, y: int)
    requires x <= y
    ensures c * x <= c * y
  {
    if c > 0 {
      ScaleMonotone(c - 1, x, y);
      assert c * x == (c - 1) * x + x && c * y == (c - 1) * y + y;
    }
  }

  /** An unrounded share of exactly 5% qualifies. */
  lemma ExactlyFivePercent(allocatedCost: nat, totalCost: nat)
    requires totalCost > 0 && 20 * allocatedCost == totalCost
    ensures SafeHarborPercentage(allocatedCost, totalCost) == Hundredths(500)
    ensures Qualified(allocatedCost, totalCost)
  {
    var n := SafeHarborPercentage(allocatedCost, totalCost).value;
    if n < 500 {
      ScaleMonotone(2 * totalCost, n, 499);
    } else if n > 500 {
      ScaleMonotone(2 * totalCost, 501, n);
    }
  }

  /** The rounding admits a share just under 5%: 999 / 20000 is 4.995%. */
  lemma RoundingAdmitsJustUnderFive()
    ensures Qualified(999, 20000)
  {
    // 20 * 999 < 20000: the share is below one twentieth.
  }

  /** A project whose whole cost is allocated shows 100.00%. */
  lemma FullAllocation(totalCost: nat)
    requires totalCost > 0
    ensures SafeHarborPercentage(totalCost, totalCost) == Hundredths(10000)
  {
    var n := SafeHarborPercentage(totalCost, totalCost).value;
    if n < 10000 {
      ScaleMonotone(2 * totalCost, n, 9999);
    } else if n > 10000 {
      ScaleMonotone(2 * totalCost, 10001, n);
    }
  }

  /** For a fixed total cost, allocating more never loses qualification. */
  lemma QualifiedMonotone(a1: nat, a2: nat, totalCost: nat)
    requires a1 <= a2
    requires Qualified(a1, totalCost)
    ensures Qualified(a2, totalCost)
  {
  }

  /** Liquidated damages: 5% of the contract's total price, as a currency
      amount rounded to the cent (a half cent going up). */
  function LiquidatedDamages(totalPriceCents: nat): (r: nat)
    ensures 20 * r - 10 <= totalPriceCents < 20 * r + 10
    ensures totalPriceCents % 20 == 0 ==> 20 * r == totalPriceCents
  {
    (totalPriceCents + 10) / 20
  }

  /** Liquidated damages set on a price in whole multiples of 20 cents are
      exactly the 5% share of it that the safe-harbour test asks for, and on
      a price of at least $100 they always pass the test. */
  lemma LiquidatedDamagesMeetSafeHarbor(totalPriceCents: nat)
    requires totalPriceCents > 0
    ensures totalPriceCents % 20 == 0 ==> SafeHarborPercentage(LiquidatedDamages(totalPriceCents), totalPriceCents) == Hundredths(500)
    ensures totalPriceCents >= 10000 ==> Qualified(LiquidatedDamages(totalPriceCents), totalPriceCents)
  {
    var d := LiquidatedDamages(totalPriceCents);
    if totalPriceCents % 20 == 0 {
      ExactlyFivePercent(d, totalPriceCents);
    }
  }
}
