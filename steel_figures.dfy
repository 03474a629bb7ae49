/**
 * The fraction arithmetic of the A7 and A8 figure script. The script
 * repeats the part A analyses from its own module constants; the lemma at
 * the end shows that, the constants being the same, so are the values.
 */
module SteelFigures {

  import opened Utils
  import CarbonSteel

  /** The figure script's module constants. */
  const C_EUTECTOID: real := 0.76
  const C_FERRITE: real := 0.02
  const C_CEMENTITE: real := 6.69

  /** Carbon content of the A7 steel and the given eutectoid cementite of the A8 steel. */
  const A7_CARBON: real := 0.52
  const A8_EUTECTOID_CEMENTITE_GIVEN: real := 0.103

  /** The fractions drawn in the A7 figure. */
  function A7Figure(): (r: CarbonSteel.HypoeutectoidSteel)
    ensures r.proeutectoidFerrite + r.austenite == 1.0
    ensures r.totalFerrite + r.cementite == 1.0
    ensures r.eutectoidFerrite + r.cementite == r.austenite
    ensures r.eutectoidFerrite > 0.0
  {
    var above := LeverRule(A7_CARBON, C_FERRITE, C_EUTECTOID);
    var below := LeverRule(A7_CARBON, C_FERRITE, C_CEMENTITE);
    CarbonSteel.HypoeutectoidSteel(above.left, above.right, below.left, below.right, below.left - above.left)
  }

  /** The fractions and carbon content drawn in the A8 figure. */
  function A8Figure(): (r: CarbonSteel.HypereutectoidSteel)
    ensures r.pearlite + r.proeutectoidCementite == 1.0
    ensures r.pearlite * r.cementiteInPearlite == A8_EUTECTOID_CEMENTITE_GIVEN
    ensures r.ferriteRT + r.cementiteRT == 1.0
    ensures LeverRule(r.overallCarbon, C_EUTECTOID, C_CEMENTITE).right == r.proeutectoidCementite
    ensures C_EUTECTOID < r.overallCarbon < C_CEMENTITE
  {
    var inPearlite := LeverRule(C_EUTECTOID, C_FERRITE, C_CEMENTITE);
    var pearlite := A8_EUTECTOID_CEMENTITE_GIVEN / inPearlite.right;
    var proeutectoidCementite := 1.0 - pearlite;
    var overall := proeutectoidCementite * (C_CEMENTITE - C_EUTECTOID) + C_EUTECTOID;
    var roomTemperature := LeverRule(overall, C_FERRITE, C_CEMENTITE);
    CarbonSteel.HypereutectoidSteel(inPearlite.left, inPearlite.right, pearlite, proeutectoidCementite,
                                    overall, roomTemperature.left, roomTemperature.right)
  }

  /** The figures show exactly the values the part A analyses compute for a 0.76 wt% C eutectoid. */
  lemma FiguresAgreeWithAnalyses()
    ensures A7Figure() == CarbonSteel.AnalyzeHypoeutectoid(CarbonSteel.C_EUTECTOID)
    ensures CarbonSteel.AnalyzeHypereutectoid(CarbonSteel.C_EUTECTOID) == Some(A8Figure())
  {
  }
}
