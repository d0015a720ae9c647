/** The Italian flat-rate ("forfettario") tax decomposition of a gross income. */
module Finance {

  /** Share of gross income that is taxable (coefficiente di redditività). */
  const TaxableShare: real := 0.78
  /** Substitute tax rate (imposta sostitutiva) on the taxable base. */
  const SubstituteTaxRate: real := 0.05
  /** Social-security contribution rate (contributi INPS) on the taxable base. */
  const InpsRate: real := 0.2607

  datatype TaxBreakdown = TaxBreakdown(
    taxableBase: real,       // reddito imponibile
    substituteTax: real,     // imposta sostitutiva
    inpsContribution: real,  // contributi INPS
    net: real)

  /** Both withholdings together, the "taxes" the screens show. */
  function Taxes(t: TaxBreakdown): real
  {
    t.substituteTax + t.inpsContribution
  }

  /** The tax decomposition of `gross`: every field is a fixed fraction of the
      gross, and net plus the two withholdings gives the gross back. */
  function CalculateNetFromGross(gross: real): (r: TaxBreakdown)
    ensures r.taxableBase == 0.78 * gross
    ensures r.substituteTax == 0.039 * gross
    ensures r.inpsContribution == 0.203346 * gross
    ensures r.net == 0.757654 * gross
    ensures r.net + Taxes(r) == gross
  {
    var base := gross * TaxableShare;
    var substitute := base * SubstituteTaxRate;
    var inps := base * InpsRate;
    TaxBreakdown(base, substitute, inps, gross - substitute - inps)
  }

  /** The two withholdings are the rates applied to the taxable base. */
  lemma WithholdingsOnBase(gross: real)
    ensures CalculateNetFromGross(gross).substituteTax == CalculateNetFromGross(gross).taxableBase * SubstituteTaxRate
    ensures CalculateNetFromGross(gross).inpsContribution == CalculateNetFromGross(gross).taxableBase * InpsRate
  {
  }

  lemma ZeroGross()
    ensures CalculateNetFromGross(0.0) == TaxBreakdown(0.0, 0.0, 0.0, 0.0)
  {
  }

  lemma ThousandGross()
    ensures CalculateNetFromGross(1000.0) == TaxBreakdown(780.0, 39.0, 203.346, 757.654)
  {
  }

  /** Every field is additive in the gross, so summing the breakdowns of
      several incomes equals the breakdown of their summed gross. */
  lemma Additive(a: real, b: real)
    ensures CalculateNetFromGross(a + b) == Add(CalculateNetFromGross(a), CalculateNetFromGross(b))
  {
  }

  function Add(x: TaxBreakdown, y: TaxBreakdown): TaxBreakdown
  {
    TaxBreakdown(x.taxableBase + y.taxableBase, x.substituteTax + y.substituteTax,
                 x.inpsContribution + y.inpsContribution, x.net + y.net)
  }

  /** For a non-negative gross the net lies between zero and the gross. */
  lemma NetBounds(gross: real)
    requires gross >= 0.0
    ensures 0.0 <= CalculateNetFromGross(gross).net <= gross
    ensures 0.0 <= Taxes(CalculateNetFromGross(gross)) <= gross
  {
  }

  lemma NetMonotone(a: real, b: real)
    requires a <= b
    ensures CalculateNetFromGross(a).net <= CalculateNetFromGross(b).net
  {
  }

  lemma MulDistrib(a: real, b: real, r: real)
    ensures (a + b) * r == a * r + b * r
  {
  }

  /** The gross of `days` worked days at `rate`, the screens' `days * rate`.
      It is written as repeated addition so that proofs about sums of it stay
      linear; EarningsIsProduct states that it is the product. */
  function Earnings(days: nat, rate: real): real
  {
    if days == 0 then 0.0 else Earnings(days - 1, rate) + rate
  }

  lemma {:induction false} EarningsIsProduct(days: nat, rate: real)
    ensures Earnings(days, rate) == days as real * rate
  {
    if days > 0 {
      EarningsIsProduct(days - 1, rate);
      MulDistrib((days - 1) as real, 1.0, rate);
    }
  }

  lemma {:induction false} EarningsAdd(a: nat, b: nat, rate: real)
    ensures Earnings(a + b, rate) == Earnings(a, rate) + Earnings(b, rate)
    decreases b
  {
    if b > 0 { EarningsAdd(a, b - 1, rate); }
  }

  lemma {:induction false} EarningsNonNegative(days: nat, rate: real)
    requires rate >= 0.0
    ensures Earnings(days, rate) >= 0.0
  {
    if days > 0 { EarningsNonNegative(days - 1, rate); }
  }
}
