/**
 * Fe-C microstructure bookkeeping of part A: the eutectoid split (A6), the
 * proeutectoid/eutectoid ferrite split of a hypoeutectoid steel (A7), the
 * carbon content recovered from a given eutectoid-cementite fraction of a
 * hypereutectoid steel (A8) and the cementite/pearlite table of a series of
 * plain carbon steels (A9). Every fraction comes from the lever rule.
 */
module CarbonSteel {

  import opened RealArith
  import opened Utils

  /** Molar masses in g/mol. */
  const M_FE: real := 55.845
  const M_C: real := 12.011

  /** Weight percent of carbon in cementite Fe3C, from the molar masses. */
  const C_IN_CEMENTITE: real := (M_C / (3.0 * M_FE + M_C)) * 100.0

  /** The molar-mass value agrees with the rounded 6.69 wt% used everywhere else. */
  lemma CementiteCarbonRoundsTo669()
    ensures 6.68 < C_IN_CEMENTITE < 6.70
  {
  }

  /** Carbon contents (wt%) of the phases, as the analyses write them. */
  const C_FERRITE: real := 0.02
  const C_CEMENTITE: real := 6.69
  /** The eutectoid composition `find_critical_points` returns. */
  const C_EUTECTOID: real := 0.76

  // ---------------------------------------------------------------------------
  // A6: eutectoid steel
  // ---------------------------------------------------------------------------

  /** A6: ferrite and cementite fractions of pearlite, the lever rule at the eutectoid composition. */
  function AnalyzeEutectoid(cEutectoid: real): (r: Split)
    ensures r.left + r.right == 1.0
    ensures r.left * C_FERRITE + r.right * C_CEMENTITE == cEutectoid
  {
    LeverRule(cEutectoid, C_FERRITE, C_CEMENTITE)
  }

  /** At 0.76 wt% C pearlite is mostly ferrite: both fractions lie strictly inside (0, 1). */
  lemma EutectoidSplitAt076()
    ensures 0.5 < AnalyzeEutectoid(C_EUTECTOID).left < 1.0
    ensures 0.0 < AnalyzeEutectoid(C_EUTECTOID).right < 0.5
  {
    LeverRuleBetween(C_EUTECTOID, C_FERRITE, C_CEMENTITE);
  }

  // ---------------------------------------------------------------------------
  // A7: hypoeutectoid steel
  // ---------------------------------------------------------------------------

  /** Carbon content of the A7 steel (wt%). */
  const HYPO_CARBON: real := 0.52

  /** Every fraction A7 computes; `analyze_hypoeutectoid_steel` returns the first, the last and the cementite. */
  datatype HypoeutectoidSteel = HypoeutectoidSteel(
    proeutectoidFerrite: real,  // just above the eutectoid temperature
    austenite: real,            // just above the eutectoid temperature
    totalFerrite: real,         // just below the eutectoid temperature
    cementite: real,            // just below the eutectoid temperature
    eutectoidFerrite: real)     // the ferrite that forms from austenite, inside pearlite

  /** A7: the 0.52 wt% C steel just above and just below the eutectoid temperature. */
  function AnalyzeHypoeutectoid(cEutectoid: real): (r: HypoeutectoidSteel)
    ensures cEutectoid != C_FERRITE ==> r.proeutectoidFerrite + r.austenite == 1.0
    ensures cEutectoid != C_FERRITE ==>
      r.proeutectoidFerrite * C_FERRITE + r.austenite * cEutectoid == HYPO_CARBON
    ensures cEutectoid == C_FERRITE ==> r.proeutectoidFerrite == 0.0 && r.austenite == 0.0
    ensures r.totalFerrite + r.cementite == 1.0
    ensures r.totalFerrite * C_FERRITE + r.cementite * C_CEMENTITE == HYPO_CARBON
    // the austenite becomes pearlite: eutectoid ferrite plus all of the cementite
    ensures cEutectoid != C_FERRITE ==> r.eutectoidFerrite + r.cementite == r.austenite
  {
    var cFerriteHigh := C_FERRITE;
    var cAustenite := cEutectoid;
    var above := LeverRule(HYPO_CARBON, cFerriteHigh, cAustenite);
    var cFerriteLow := C_FERRITE;
    var below := LeverRule(HYPO_CARBON, cFerriteLow, C_CEMENTITE);
    HypoeutectoidSteel(above.left, above.right, below.left, below.right, below.left - above.left)
  }

  /**
   * The pearlite formed from the austenite has the eutectoid split of A6:
   * the cementite below the eutectoid is the austenite fraction times the
   * cementite fraction of pearlite.
   */
  lemma HypoeutectoidPearliteIsEutectoid(cEutectoid: real)
    requires cEutectoid != C_FERRITE
    ensures AnalyzeHypoeutectoid(cEutectoid).cementite ==
            AnalyzeHypoeutectoid(cEutectoid).austenite * AnalyzeEutectoid(cEutectoid).right
  {
    ChainQuotients(HYPO_CARBON - C_FERRITE, cEutectoid - C_FERRITE, C_CEMENTITE - C_FERRITE);
  }

  /** With the eutectoid at 0.76 wt% C every A7 fraction lies in (0, 1), eutectoid ferrite included. */
  lemma HypoeutectoidAt076()
    ensures var r := AnalyzeHypoeutectoid(C_EUTECTOID);
      && 0.0 < r.proeutectoidFerrite < 1.0 && 0.0 < r.austenite < 1.0
      && 0.0 < r.totalFerrite < 1.0 && 0.0 < r.cementite < 1.0
      && 0.0 < r.eutectoidFerrite < 1.0
  {
    LeverRuleBetween(HYPO_CARBON, C_FERRITE, C_EUTECTOID);
    LeverRuleBetween(HYPO_CARBON, C_FERRITE, C_CEMENTITE);
  }

  // ---------------------------------------------------------------------------
  // A8: hypereutectoid steel
  // ---------------------------------------------------------------------------

  /** The given weight fraction of eutectoid cementite. */
  const EUTECTOID_CEMENTITE: real := 0.103

  /** Every quantity A8 computes; `analyze_hypereutectoid_steel` returns the overall carbon and the pearlite. */
  datatype HypereutectoidSteel = HypereutectoidSteel(
    ferriteInPearlite: real,
    cementiteInPearlite: real,
    pearlite: real,
    proeutectoidCementite: real,
    overallCarbon: real,
    ferriteRT: real,
    cementiteRT: real)

  /**
   * A8: the overall carbon content of a steel whose eutectoid cementite is 0.103.
   * None stands for the ZeroDivisionError raised when pearlite holds no
   * cementite, that is when the eutectoid sits at the ferrite composition.
   */
  function AnalyzeHypereutectoid(cEutectoid: real): (r: Option<HypereutectoidSteel>)
    ensures r.None? <==> cEutectoid == C_FERRITE
    ensures r.Some? ==> r.value.pearlite + r.value.proeutectoidCementite == 1.0
    ensures r.Some? ==> r.value.pearlite * r.value.cementiteInPearlite == EUTECTOID_CEMENTITE
    ensures r.Some? ==> r.value.ferriteInPearlite + r.value.cementiteInPearlite == 1.0
    ensures r.Some? ==> r.value.ferriteRT + r.value.cementiteRT == 1.0
  {
    var inPearlite := LeverRule(cEutectoid, C_FERRITE, C_CEMENTITE);
    if inPearlite.right == 0.0 then None
    else
      var pearlite := EUTECTOID_CEMENTITE / inPearlite.right;
      var proeutectoidCementite := 1.0 - pearlite;
      var overall := proeutectoidCementite * (C_CEMENTITE - cEutectoid) + cEutectoid;
      var roomTemperature := LeverRule(overall, C_FERRITE, C_CEMENTITE);
      Some(HypereutectoidSteel(inPearlite.left, inPearlite.right, pearlite, proeutectoidCementite,
                               overall, roomTemperature.left, roomTemperature.right))
  }

  /**
   * The overall carbon inverts the lever rule: applied to the austenite +
   * cementite field above the eutectoid it gives back the proeutectoid cementite.
   */
  lemma HypereutectoidInvertsLeverRule(cEutectoid: real)
    requires cEutectoid != C_FERRITE && cEutectoid != C_CEMENTITE
    ensures var r := AnalyzeHypereutectoid(cEutectoid).value;
      LeverRule(r.overallCarbon, cEutectoid, C_CEMENTITE).right == r.proeutectoidCementite
  {
    var r := AnalyzeHypereutectoid(cEutectoid).value;
    ProductQuotient(r.proeutectoidCementite, C_CEMENTITE - cEutectoid);
  }

  /** Mass balance at room temperature: all cementite is proeutectoid cementite plus the given eutectoid cementite. */
  lemma HypereutectoidCementiteBalance(cEutectoid: real)
    requires cEutectoid != C_FERRITE
    ensures var r := AnalyzeHypereutectoid(cEutectoid).value;
      r.cementiteRT == r.proeutectoidCementite + EUTECTOID_CEMENTITE
  {
    var r := AnalyzeHypereutectoid(cEutectoid).value;
    var width := C_CEMENTITE - C_FERRITE;
    var e := cEutectoid - C_FERRITE;
    var p := r.pearlite;
    // the cementite fraction of pearlite is e / width, so p * e == 0.103 * width
    assert r.cementiteInPearlite == e / width;
    ScaledQuotient(p, e, width, EUTECTOID_CEMENTITE);
    assert p * e == EUTECTOID_CEMENTITE * width;
    // overall - 0.02 == (1 - p) * (width - e) + e == width * (1 - p + 0.103)
    assert r.overallCarbon - C_FERRITE == (1.0 - p) * (width - e) + e;
    assert (1.0 - p) * (width - e) + e == width * (r.proeutectoidCementite + EUTECTOID_CEMENTITE);
    ProductQuotient(r.proeutectoidCementite + EUTECTOID_CEMENTITE, width);
  }

  /** With the literal constants the steel really is hypereutectoid. */
  lemma HypereutectoidAt076()
    ensures AnalyzeHypereutectoid(C_EUTECTOID).Some?
    ensures C_EUTECTOID < AnalyzeHypereutectoid(C_EUTECTOID).value.overallCarbon < C_CEMENTITE
    ensures 0.0 < AnalyzeHypereutectoid(C_EUTECTOID).value.proeutectoidCementite < 1.0
  {
  }

  // ---------------------------------------------------------------------------
  // A9: steel series
  // ---------------------------------------------------------------------------

  /** The carbon contents (wt%) of the A9 series. */
  const SERIES_CARBON: seq<real> := [0.0, 0.2, 0.4, 0.6, 0.8, 1.0]

  /** One row of the A9 table. */
  datatype SeriesRow = SeriesRow(carbon: real, cementitePct: real, pearlitePct: real)

  /** The hypereutectoid branch: one minus the proeutectoid cementite fraction. */
  function HyperPearlite(c: real): real
  {
    1.0 - (c - C_EUTECTOID) / (C_CEMENTITE - C_EUTECTOID)
  }

  /** The A9 pearlite rule: hypoeutectoid, hypereutectoid or eutectoid branch. */
  function PearliteFraction(c: real): real
  {
    if c < C_EUTECTOID then
      LeverRule(c, C_FERRITE, C_EUTECTOID).right
    else if c > C_EUTECTOID then
      HyperPearlite(c)
    else
      1.0
  }

  /** The row A9 appends for carbon content `c`. */
  function SeriesEntry(c: real): SeriesRow
  {
    SeriesRow(c, LeverRule(c, C_FERRITE, C_CEMENTITE).right * 100.0, PearliteFraction(c) * 100.0)
  }

  /** Closed form of the hypoeutectoid branch. */
  function HypoPearlite(c: real): real
  {
    (c - C_FERRITE) / (C_EUTECTOID - C_FERRITE)
  }

  /**
   * The branch rule is continuous: each closed form holds on its side of
   * the eutectoid including the eutectoid itself, where both give 1.
   */
  lemma PearliteFractionContinuous(c: real)
    ensures c <= C_EUTECTOID ==> PearliteFraction(c) == HypoPearlite(c)
    ensures c >= C_EUTECTOID ==> PearliteFraction(c) == HyperPearlite(c)
    ensures HypoPearlite(C_EUTECTOID) == 1.0 == HyperPearlite(C_EUTECTOID)
  {
  }

  /** Pearlite peaks at the eutectoid: the fraction never exceeds 1 and reaches it only there. */
  lemma PearliteFractionPeak(c: real)
    ensures PearliteFraction(c) <= 1.0
    ensures PearliteFraction(c) == 1.0 <==> c == C_EUTECTOID
  {
    if c < C_EUTECTOID {
      if c > C_FERRITE {
        QuotientInUnit(c - C_FERRITE, C_EUTECTOID - C_FERRITE);
      } else if c < C_FERRITE {
        QuotientNegative(c - C_FERRITE, C_EUTECTOID - C_FERRITE);
      }
    } else if c > C_EUTECTOID {
      QuotientPositive(c - C_EUTECTOID, C_CEMENTITE - C_EUTECTOID);
    }
  }

  /** Between the ferrite and cementite compositions the pearlite fraction lies in [0, 1]. */
  lemma PearliteFractionBounds(c: real)
    requires C_FERRITE <= c <= C_CEMENTITE
    ensures 0.0 <= PearliteFraction(c) <= 1.0
  {
    PearliteFractionPeak(c);
    if C_FERRITE < c < C_EUTECTOID {
      QuotientInUnit(c - C_FERRITE, C_EUTECTOID - C_FERRITE);
    } else if C_EUTECTOID < c < C_CEMENTITE {
      QuotientInUnit(c - C_EUTECTOID, C_CEMENTITE - C_EUTECTOID);
    }
  }

  /** No clamping: the 0.0 wt% C row, below the ferrite composition, has negative cementite and pearlite. */
  lemma SeriesRowBelowFerriteIsNegative()
    ensures SeriesEntry(SERIES_CARBON[0]).cementitePct < 0.0
    ensures SeriesEntry(SERIES_CARBON[0]).pearlitePct < 0.0
  {
    QuotientNegative(0.0 - C_FERRITE, C_CEMENTITE - C_FERRITE);
    QuotientNegative(0.0 - C_FERRITE, C_EUTECTOID - C_FERRITE);
  }

  /** A9: one row per carbon content of the series, in order. */
  method AnalyzeSteelSeries() returns (results: seq<SeriesRow>)
    ensures |results| == |SERIES_CARBON|
    ensures forall i :: 0 <= i < |results| ==> results[i] == SeriesEntry(SERIES_CARBON[i])
  {
    var carbonContents := SERIES_CARBON;
    var cFerrite, cCementite, cEutectoid := 0.02, 6.69, 0.76;
    results := [];
    for k := 0 to |carbonContents|
      invariant |results| == k
      invariant forall i :: 0 <= i < k ==> results[i] == SeriesEntry(carbonContents[i])
    {
      var c := carbonContents[k];
      var total := LeverRule(c, cFerrite, cCementite);
      var pearlite;
      if c < cEutectoid {
        var above := LeverRule(c, cFerrite, cEutectoid);
        pearlite := above.right;
      } else if c > cEutectoid {
        var proeutectoidCementite := (c - cEutectoid) / (cCementite - cEutectoid);
        pearlite := 1.0 - proeutectoidCementite;
      } else {
        pearlite := 1.0;
      }
      results := results + [SeriesRow(c, total.right * 100.0, pearlite * 100.0)];
    }
  }
}
