/**
 * The premium-blending calculation of the solidarity model: six risk types,
 * a risk-based ("fair") premium per type, one equal premium for everybody,
 * and a solidarity factor alpha that blends the two.  Money and alpha are
 * exact reals here, so the break-even check becomes an exact statement.
 */
module Solidarity {
  import opened Amounts

  /** Number of risk types. */
  const NumTypes: nat := 6

  /** Fair premium of the highest risk type. */
  const MaxPremium: real := 50000.0

  /** Tolerance of the break-even check. */
  const Tolerance: real := 0.001

  /** A risk type, numbered 1 to 6; a higher number is a higher risk. */
  type RiskType = x: int | 1 <= x <= NumTypes witness 1

  /** The range of the solidarity slider. */
  predicate ValidAlpha(alpha: real) {
    0.0 <= alpha <= 1.0
  }

  // ---------------------------------------------------------------------
  // Fair and equal premiums
  // ---------------------------------------------------------------------

  /** Risk-based premium of type x: its share x/6 of the maximum premium. */
  function Fair(x: RiskType): (r: real)
    ensures 0.0 < r <= MaxPremium
    ensures r == MaxPremium <==> x == NumTypes
  {
    (x as real / 6.0) * 50000.0
  }

  /** Fair premiums of types 1..6, in type order (entry i belongs to type i + 1). */
  function FairPremiums(): seq<real> {
    seq(NumTypes, i requires 0 <= i < NumTypes => Fair(i + 1))
  }

  /** The fair premiums of the first n types add up to n(n+1)/2 times 50000/6. */
  lemma {:induction false} SumFairPrefix(n: nat)
    requires n <= NumTypes
    ensures Sum(FairPremiums()[..n]) == (n * (n + 1)) as real / 2.0 * (50000.0 / 6.0)
  {
    if n > 0 {
      assert FairPremiums()[..n][..n - 1] == FairPremiums()[..n - 1];
      SumFairPrefix(n - 1);
    }
  }

  /** The six fair premiums add up to 175000. */
  lemma FairPremiumsTotal()
    ensures Sum(FairPremiums()) == 175000.0
  {
    SumFairPrefix(NumTypes);
    assert FairPremiums()[..NumTypes] == FairPremiums();
  }

  /** Equal premium: the mean of the six fair premiums. */
  function Equal(): (r: real)
    ensures r == 175000.0 / 6.0
    ensures Fair(3) < r < Fair(4)
  {
    FairPremiumsTotal();
    Sum(FairPremiums()) / 6.0
  }

  /** A higher risk type pays a strictly higher fair premium. */
  lemma FairStrictlyIncreasing(x: RiskType, y: RiskType)
    ensures x < y <==> Fair(x) < Fair(y)
  {
  }

  /** Types 1-3 have a fair premium below the mean, types 4-6 above it; none equals it. */
  lemma FairVersusEqual(x: RiskType)
    ensures Fair(x) < Equal() <==> x <= 3
    ensures Fair(x) > Equal() <==> x >= 4
  {
    if x <= 3 {
      FairStrictlyIncreasing(x, 4);
    } else {
      FairStrictlyIncreasing(3, x);
    }
  }

  // ---------------------------------------------------------------------
  // Blended premiums, per type
  // ---------------------------------------------------------------------

  /**
   * Solidary premium of type x: the convex combination of its fair premium
   * and the equal premium with weight alpha on the equal premium.
   */
  function Solidary(alpha: real, x: RiskType): (r: real)
    requires ValidAlpha(alpha)
    ensures Min(Fair(x), Equal()) <= r <= Max(Fair(x), Equal())
    ensures alpha == 0.0 ==> r == Fair(x)
    ensures alpha == 1.0 ==> r == Equal()
  {
    ConvexBounds(alpha, Fair(x), Equal());
    (1.0 - alpha) * Fair(x) + alpha * Equal()
  }

  /** Change of type x's premium against its fair premium. */
  function Delta(alpha: real, x: RiskType): (r: real)
    requires ValidAlpha(alpha)
    ensures r == alpha * (Equal() - Fair(x))
  {
    Shift(alpha, Fair(x), Equal(), alpha * (Equal() - Fair(x)));
    Solidary(alpha, x) - Fair(x)
  }

  /**
   * Expected cost of type x for the insurer: its fair premium, so that the
   * premium a type pays without solidarity exactly covers its cost.
   */
  function ExpectedCost(x: RiskType): (r: real)
    ensures r == Solidary(0.0, x)
  {
    Fair(x)
  }

  /** The insurer's gain (positive) or loss (negative) on type x. */
  function GainOrLoss(alpha: real, x: RiskType): (r: real)
    requires ValidAlpha(alpha)
    ensures r == Delta(alpha, x)
  {
    Solidary(alpha, x) - ExpectedCost(x)
  }

  /** Without solidarity no premium moves and the insurer neither gains nor loses on a type. */
  lemma NoSolidarity(x: RiskType)
    ensures Delta(0.0, x) == 0.0 && GainOrLoss(0.0, x) == 0.0
  {
  }

  /** With full solidarity any two types pay the same premium. */
  lemma FullSolidarity(x: RiskType, y: RiskType)
    ensures Solidary(1.0, x) == Solidary(1.0, y)
  {
  }

  /**
   * For alpha > 0 types 1-3 pay more than their fair premium and types 4-6
   * pay less; a premium changes at all exactly when alpha > 0.
   */
  lemma DeltaSign(alpha: real, x: RiskType)
    requires ValidAlpha(alpha)
    ensures alpha > 0.0 ==> (Delta(alpha, x) > 0.0 <==> x <= 3)
    ensures alpha > 0.0 ==> (Delta(alpha, x) < 0.0 <==> x >= 4)
    ensures Delta(alpha, x) == 0.0 <==> alpha == 0.0
  {
    FairVersusEqual(x);
    ProductSign(alpha, Equal() - Fair(x));
  }

  /**
   * Raising alpha moves every premium towards the equal premium: up for the
   * types below the mean, down for the types above it.
   */
  lemma SolidaryMonotone(alpha: real, beta: real, x: RiskType)
    requires ValidAlpha(alpha) && ValidAlpha(beta) && alpha <= beta
    ensures Fair(x) < Equal() ==> Solidary(alpha, x) <= Solidary(beta, x)
    ensures Fair(x) > Equal() ==> Solidary(alpha, x) >= Solidary(beta, x)
  {
    assert Solidary(alpha, x) == Fair(x) + Delta(alpha, x);
    assert Solidary(beta, x) == Fair(x) + Delta(beta, x);
    ScaleMonotone(alpha, beta, Equal() - Fair(x), Delta(alpha, x), Delta(beta, x));
  }

  /** The table at alpha = 0.5 for the lowest and the highest risk type. */
  lemma HalfSolidarityScenario()
    ensures Solidary(0.5, 1) == 18750.0 && Delta(0.5, 1) == 62500.0 / 6.0
    ensures Solidary(0.5, 6) == 237500.0 / 6.0 && Delta(0.5, 6) == -62500.0 / 6.0
  {
  }

  // ---------------------------------------------------------------------
  // The table of rows
  // ---------------------------------------------------------------------

  /** One row of the premium table. */
  datatype Row = Row(typ: int, fair: real, solidary: real, delta: real, gainOrLoss: real)

  /**
   * The row of type x.  Its columns are consistent with each other: the
   * solidary premium is the fair premium plus the delta, and the insurer's
   * gain/loss is the delta.
   */
  function RowFor(alpha: real, x: RiskType): (r: Row)
    requires ValidAlpha(alpha)
    ensures r.typ == x && r.fair == Fair(x)
    ensures r.solidary == r.fair + r.delta
    ensures r.gainOrLoss == r.delta == alpha * (Equal() - r.fair)
  {
    Row(x, Fair(x), Solidary(alpha, x), Delta(alpha, x), GainOrLoss(alpha, x))
  }

  /** The rows of types 1..n, in type order. */
  function RowsUpTo(alpha: real, n: nat): (r: seq<Row>)
    requires ValidAlpha(alpha) && n <= NumTypes
    ensures |r| == n
    ensures forall i :: 0 <= i < n ==> r[i] == RowFor(alpha, i + 1)
  {
    if n == 0 then [] else RowsUpTo(alpha, n - 1) + [RowFor(alpha, n)]
  }

  /**
   * The full table: one row per risk type, in type order; on every row the
   * insurer's gain/loss is alpha times the gap between the equal premium and
   * that row's fair premium.
   */
  function Rows(alpha: real): (r: seq<Row>)
    requires ValidAlpha(alpha)
    ensures |r| == NumTypes
    ensures forall i :: 0 <= i < NumTypes ==>
      r[i].typ == i + 1 && r[i].gainOrLoss == alpha * (Equal() - r[i].fair)
  {
    RowsUpTo(alpha, NumTypes)
  }

  /**
   * Builds the table row by row, in type order, the way the script does:
   * for each type it reads the fair premium, blends it with the equal
   * premium and derives delta and gain/loss.
   */
  method ComputeRows(alpha: real) returns (data: seq<Row>)
    requires ValidAlpha(alpha)
    ensures |data| == NumTypes
    ensures forall i :: 0 <= i < NumTypes ==>
      && data[i].typ == i + 1
      && data[i].fair == Fair(i + 1)
      && data[i].solidary == Solidary(alpha, i + 1)
      && data[i].delta == Delta(alpha, i + 1)
      && data[i].gainOrLoss == GainOrLoss(alpha, i + 1)
    ensures data == Rows(alpha)
  {
    var fairPremiums := FairPremiums();
    var equalPremium := Equal();
    data := [];
    for x := 1 to NumTypes + 1
      invariant data == RowsUpTo(alpha, x - 1)
    {
      var fair := fairPremiums[x - 1];
      var solidar := (1.0 - alpha) * fair + alpha * equalPremium;
      var delta := solidar - fair;
      var expectedCost := fair;
      var gainOrLoss := solidar - expectedCost;
      assert solidar == Solidary(alpha, x);
      data := data + [Row(x, fair, solidar, delta, gainOrLoss)];
    }
  }

  // ---------------------------------------------------------------------
  // The insurer's total
  // ---------------------------------------------------------------------

  /** The gain/loss column of a table. */
  function GainColumn(rows: seq<Row>): seq<real> {
    seq(|rows|, i requires 0 <= i < |rows| => rows[i].gainOrLoss)
  }

  /** The insurer's total gain or loss: the sum of the gain/loss column. */
  function TotalGain(rows: seq<Row>): real {
    Sum(GainColumn(rows))
  }

  /** Gap between the equal premium and each type's fair premium, in type order. */
  function Gaps(): seq<real> {
    seq(NumTypes, i requires 0 <= i < NumTypes => Equal() - Fair(i + 1))
  }

  /** Over the first n types the gaps add up to n equal premiums minus their fair premiums. */
  lemma {:induction false} SumGapsPrefix(n: nat)
    requires n <= NumTypes
    ensures Sum(Gaps()[..n]) == n as real * (175000.0 / 6.0) - Sum(FairPremiums()[..n])
  {
    if n > 0 {
      assert Gaps()[..n][..n - 1] == Gaps()[..n - 1];
      assert FairPremiums()[..n][..n - 1] == FairPremiums()[..n - 1];
      SumGapsPrefix(n - 1);
    }
  }

  /** Over all six types the gaps cancel: the equal premium is the exact mean. */
  lemma SumGapsIsZero()
    ensures Sum(Gaps()) == 0.0
  {
    SumGapsPrefix(NumTypes);
    SumFairPrefix(NumTypes);
    assert Gaps()[..NumTypes] == Gaps();
    assert FairPremiums()[..NumTypes] == FairPremiums();
  }

  /** Each type's gain/loss is alpha times its gap. */
  lemma GainColumnIsScaledGaps(alpha: real)
    requires ValidAlpha(alpha)
    ensures GainColumn(Rows(alpha)) == Scaled(alpha, Gaps())
  {
    var rows := Rows(alpha);
    forall i | 0 <= i < NumTypes
      ensures GainColumn(rows)[i] == Scaled(alpha, Gaps())[i]
    {
      assert rows[i] == RowFor(alpha, i + 1);
    }
  }

  /** The redistribution is zero-sum: over all six types the insurer breaks even exactly. */
  lemma TotalGainIsZero(alpha: real)
    requires ValidAlpha(alpha)
    ensures TotalGain(Rows(alpha)) == 0.0
  {
    GainColumnIsScaledGaps(alpha);
    SumScaled(alpha, Gaps());
    SumGapsIsZero();
  }

  /**
   * The script's break-even test: the absolute total is below the tolerance,
   * that is, the total lies strictly between -0.001 and 0.001.
   */
  function BreaksEven(totalGain: real): (b: bool)
    ensures b <==> -0.001 < totalGain < 0.001
  {
    Abs(totalGain) < Tolerance
  }

  /** The break-even test passes for every alpha the slider allows. */
  lemma InsurerBreaksEven(alpha: real)
    requires ValidAlpha(alpha)
    ensures BreaksEven(TotalGain(Rows(alpha)))
  {
    TotalGainIsZero(alpha);
  }
}
