/**
 The risk assessment shown beside an application: a debt-to-income ratio and a
 four-row first-match decision table on credit score and that ratio.
 */
module Risk {
  import opened LoanTypes
  import opened Arithmetic

  /**
   A number as the ratio's floating-point division can produce it. Division by
   zero gives a signed infinity, or NaN for zero over zero.
   */
  datatype Ratio = Finite(value: real) | PosInfinity | NegInfinity | NaN {

    /** `ratio < bound`; every comparison with NaN, and `+Infinity < bound`, is false. */
    predicate Below(bound: real)
    {
      match this
      case Finite(v) => v < bound
      case NegInfinity => true
      case _ => false
    }
  }

  /** How `<` treats the non-finite values: +Infinity and NaN are below nothing, -Infinity is below everything. */
  lemma BelowOnSpecialValues(bound: real)
    ensures !PosInfinity.Below(bound) && !NaN.Below(bound) && NegInfinity.Below(bound)
    ensures forall v: real :: Finite(v).Below(bound) <==> v < bound
  {
  }

  /** `loanAmount / (monthlyIncome * 12)`. */
  function DebtToIncome(loanAmount: real, monthlyIncome: real): (r: Ratio)
    ensures monthlyIncome != 0.0 ==> r.Finite? && r.value * (monthlyIncome * 12.0) == loanAmount
    ensures monthlyIncome == 0.0 ==>
      && (r.PosInfinity? <==> loanAmount > 0.0)
      && (r.NegInfinity? <==> loanAmount < 0.0)
      && (r.NaN? <==> loanAmount == 0.0)
  {
    var denominator := monthlyIncome * 12.0;
    if denominator != 0.0 then Finite(loanAmount / denominator)
    else if loanAmount > 0.0 then PosInfinity
    else if loanAmount < 0.0 then NegInfinity
    else NaN
  }

  /** The four risk levels, from safest to riskiest. */
  datatype Level = Low | Moderate | Medium | High {

    /** Position in the order from safest (0) to riskiest (3). */
    function Rank(): nat
    {
      match this
      case Low => 0
      case Moderate => 1
      case Medium => 2
      case High => 3
    }
  }

  /** The fixed recommendations listed for each level, in display order. */
  function Recommendations(l: Level): (r: seq<string>)
    ensures |r| == 1 <==> l.Rank() <= 1
    ensures |r| == 2 <==> l.Rank() >= 2
    ensures "Verify income documentation" in r <==> l == Medium
    ensures "Consider rejection based on risk profile" in r <==> l == High
  {
    match l
    case Low => ["Excellent candidate for approval"]
    case Moderate => ["Consider approval with standard terms"]
    case Medium => ["Consider approval with higher interest rates", "Verify income documentation"]
    case High => ["Recommend additional verification", "Consider rejection based on risk profile"]
  }

  /** The outcome of an assessment. */
  datatype Assessment = Assessment(level: Level, ratio: Ratio, recommendations: seq<string>)

  /**
   The decision table, first match wins: score >= 750 and ratio < 0.3 is Low;
   else score >= 650 and ratio < 0.4 is Moderate; else score >= 600 and
   ratio < 0.5 is Medium; else High. Because each row implies the next, the
   level is at most row k exactly when row k's condition holds.
   */
  function Classify(creditScore: int, ratio: Ratio): (r: Level)
    ensures r.Rank() == 0 <==> creditScore >= 750 && ratio.Below(0.3)
    ensures r.Rank() <= 1 <==> creditScore >= 650 && ratio.Below(0.4)
    ensures r.Rank() <= 2 <==> creditScore >= 600 && ratio.Below(0.5)
  {
    if creditScore >= 750 && ratio.Below(0.3) then Low
    else if creditScore >= 650 && ratio.Below(0.4) then Moderate
    else if creditScore >= 600 && ratio.Below(0.5) then Medium
    else High
  }

  /** For a positive income, `ratio < bound` is `loanAmount < bound * 12 * monthlyIncome`. */
  lemma BelowCrossMultiplied(loanAmount: real, monthlyIncome: real, bound: real)
    ensures monthlyIncome > 0.0 ==>
      (DebtToIncome(loanAmount, monthlyIncome).Below(bound) <==> loanAmount < bound * (12.0 * monthlyIncome))
  {
    if monthlyIncome <= 0.0 {
      return;
    }
    var d := 12.0 * monthlyIncome;
    var v := DebtToIncome(loanAmount, monthlyIncome).value;
    assert v * d == loanAmount;
    if v < bound {
      MultiplyLt(v, bound, d);
    } else {
      MultiplyLe(bound, v, d);
    }
  }

  /**
   Assesses an application: its ratio, its level by the table, and that level's
   recommendations. The level obeys the table's conditions on score and ratio.
   */
  function Assess(a: LoanApplication): (r: Assessment)
    ensures r.ratio == DebtToIncome(a.loanAmount, a.monthlyIncome)
    ensures r.level.Rank() == 0 <==> a.creditScore >= 750 && r.ratio.Below(0.3)
    ensures r.level.Rank() <= 1 <==> a.creditScore >= 650 && r.ratio.Below(0.4)
    ensures r.level.Rank() <= 2 <==> a.creditScore >= 600 && r.ratio.Below(0.5)
    ensures r.recommendations == Recommendations(r.level)
  {
    var ratio := DebtToIncome(a.loanAmount, a.monthlyIncome);
    var level := Classify(a.creditScore, ratio);
    Assessment(level, ratio, Recommendations(level))
  }

  /**
   For a positive income the table reads, without division: Low when
   10 * amount < 36 * income, at most Moderate when 10 * amount < 48 * income,
   at most Medium when amount < 6 * income (each with its score bound).
   */
  lemma AssessThresholds(a: LoanApplication)
    requires a.monthlyIncome > 0.0
    ensures Assess(a).level == Low <==> a.creditScore >= 750 && 10.0 * a.loanAmount < 36.0 * a.monthlyIncome
    ensures Assess(a).level.Rank() <= 1 <==> a.creditScore >= 650 && 10.0 * a.loanAmount < 48.0 * a.monthlyIncome
    ensures Assess(a).level.Rank() <= 2 <==> a.creditScore >= 600 && a.loanAmount < 6.0 * a.monthlyIncome
  {
    var r := Assess(a);
    BelowCrossMultiplied(a.loanAmount, a.monthlyIncome, 0.3);
    BelowCrossMultiplied(a.loanAmount, a.monthlyIncome, 0.4);
    BelowCrossMultiplied(a.loanAmount, a.monthlyIncome, 0.5);
    assert 0.3 * (12.0 * a.monthlyIncome) == 3.6 * a.monthlyIncome;
    assert 0.4 * (12.0 * a.monthlyIncome) == 4.8 * a.monthlyIncome;
    assert 0.5 * (12.0 * a.monthlyIncome) == 6.0 * a.monthlyIncome;
  }

  /** A higher credit score with the same ratio never gives a riskier level. */
  lemma ScoreMonotone(lower: int, higher: int, ratio: Ratio)
    requires lower <= higher
    ensures Classify(higher, ratio).Rank() <= Classify(lower, ratio).Rank()
  {
  }

  /** A smaller finite ratio with the same credit score never gives a riskier level. */
  lemma RatioMonotone(creditScore: int, smaller: real, larger: real)
    requires smaller <= larger
    ensures Classify(creditScore, Finite(smaller)).Rank() <= Classify(creditScore, Finite(larger)).Rank()
  {
  }

  /**
   For a positive income, asking for less, or earning more, never makes an
   application riskier.
   */
  lemma AmountAndIncomeMonotone(a: LoanApplication, loanAmount: real, monthlyIncome: real)
    requires 0.0 < a.monthlyIncome <= monthlyIncome
    requires loanAmount <= a.loanAmount
    requires loanAmount >= 0.0
    ensures Assess(a.(loanAmount := loanAmount, monthlyIncome := monthlyIncome)).level.Rank()
            <= Assess(a).level.Rank()
  {
    var b := a.(loanAmount := loanAmount, monthlyIncome := monthlyIncome);
    AssessThresholds(a);
    AssessThresholds(b);
  }

  /**
   With zero income the ratio is not a finite number: a positive amount gives
   +Infinity and a zero amount NaN, and both fail every row, so the level is High.
   */
  lemma ZeroIncomeIsHigh(a: LoanApplication)
    requires a.monthlyIncome == 0.0 && a.loanAmount >= 0.0
    ensures Assess(a).level == High
    ensures Assess(a).ratio == if a.loanAmount > 0.0 then PosInfinity else NaN
  {
  }

  /**
   With zero income a negative amount gives -Infinity, which is below every
   bound, so a score of 750 or more rates the application Low.
   */
  lemma NegativeOverZeroIsLow(a: LoanApplication)
    requires a.monthlyIncome == 0.0 && a.loanAmount < 0.0 && a.creditScore >= 750
    ensures Assess(a).ratio == NegInfinity
    ensures Assess(a).level == Low
  {
  }

  /** The ratio thresholds are strict: score 750 at a ratio of exactly 0.3 is Moderate, not Low. */
  lemma ThresholdIsStrict(a: LoanApplication)
    requires a.creditScore == 750 && a.monthlyIncome > 0.0
    requires 10.0 * a.loanAmount == 36.0 * a.monthlyIncome
    ensures Assess(a).ratio == Finite(0.3)
    ensures Assess(a).level == Moderate
  {
    var d := a.monthlyIncome * 12.0;
    var v := Assess(a).ratio.value;
    assert v * d == a.loanAmount;
    assert a.loanAmount == 0.3 * d;
    CancelPositive(v, 0.3, d);
  }

  lemma CancelPositive(x: real, y: real, c: real)
    requires c > 0.0 && x * c == y * c
    ensures x == y
  {
    if x < y {
      MultiplyLt(x, y, c);
    } else if y < x {
      MultiplyLt(y, x, c);
    }
  }

  /** An application with only the fields the assessment reads filled in. */
  function Sample(creditScore: int, loanAmount: real, monthlyIncome: real): LoanApplication
  {
    LoanApplication("sample", "", "", "", loanAmount, "", creditScore, "", monthlyIncome, Pending, 0)
  }

  /** Worked cases, one per level. */
  lemma WorkedCases()
    ensures Assess(Sample(760, 20000.0, 10000.0)).level == Low
    ensures Assess(Sample(760, 20000.0, 10000.0)).recommendations == ["Excellent candidate for approval"]
    ensures Assess(Sample(660, 40000.0, 10000.0)).level == Moderate
    ensures Assess(Sample(610, 55000.0, 10000.0)).level == Medium
    ensures |Assess(Sample(610, 55000.0, 10000.0)).recommendations| == 2
    ensures Assess(Sample(580, 90000.0, 5000.0)).ratio == Finite(1.5)
    ensures Assess(Sample(580, 90000.0, 5000.0)).level == High
  {
  }
}
