/**
 * The shared helpers of the coursework scripts: the lever rule, the
 * weight/mole fraction conversions over an element dictionary, the
 * cementite scaling and the choice of a composition label template.
 *
 * Floating-point numbers are modelled as exact reals, so the tolerances the
 * scripts print ("Check sum: 1.0000") become exact equalities here.
 */
module Utils {

  import opened RealArith

  datatype Option<T> = None | Some(value: T)

  datatype Result<T, E> = Ok(value: T) | Err(error: E)

  /** The two mass fractions `(fraction_left, fraction_right)` of a two-phase split. */
  datatype Split = Split(left: real, right: real)

  /**
   * Lever rule: the mass fractions of the phases of compositions `leftComp`
   * and `rightComp` that an alloy of composition `overall` splits into.
   * Equal bounding compositions give (0, 0) instead of dividing by zero.
   */
  function LeverRule(overall: real, leftComp: real, rightComp: real): (r: Split)
    ensures leftComp == rightComp ==> r == Split(0.0, 0.0)
    ensures leftComp != rightComp ==> r.left + r.right == 1.0
    ensures leftComp != rightComp ==> r.left * leftComp + r.right * rightComp == overall
  {
    if rightComp == leftComp then Split(0.0, 0.0)
    else
      var fractionRight := (overall - leftComp) / (rightComp - leftComp);
      assert fractionRight * (rightComp - leftComp) == overall - leftComp;
      Split(1.0 - fractionRight, fractionRight)
  }

  /** The lever rule's split is the only one that sums to 1 and balances the mass. */
  lemma LeverRuleUnique(overall: real, leftComp: real, rightComp: real, s: Split)
    requires leftComp != rightComp
    requires s.left + s.right == 1.0
    requires s.left * leftComp + s.right * rightComp == overall
    ensures s == LeverRule(overall, leftComp, rightComp)
  {
    var r := LeverRule(overall, leftComp, rightComp);
    assert s.right * (rightComp - leftComp) == overall - leftComp;
    assert r.right * (rightComp - leftComp) == overall - leftComp;
    assert (s.right - r.right) * (rightComp - leftComp) == 0.0;
  }

  /** An alloy at either bounding composition is entirely that phase. */
  lemma LeverRuleEndpoints(leftComp: real, rightComp: real)
    requires leftComp != rightComp
    ensures LeverRule(leftComp, leftComp, rightComp) == Split(1.0, 0.0)
    ensures LeverRule(rightComp, leftComp, rightComp) == Split(0.0, 1.0)
  {
    SelfQuotient(rightComp - leftComp);
  }

  /** Strictly between the bounding compositions, both fractions lie strictly between 0 and 1. */
  lemma LeverRuleBetween(overall: real, leftComp: real, rightComp: real)
    requires leftComp < overall < rightComp || rightComp < overall < leftComp
    ensures 0.0 < LeverRule(overall, leftComp, rightComp).left < 1.0
    ensures 0.0 < LeverRule(overall, leftComp, rightComp).right < 1.0
  {
    QuotientInUnit(overall - leftComp, rightComp - leftComp);
  }

  /** No clamping: outside the bounding compositions one of the fractions is negative. */
  lemma LeverRuleOutside(overall: real, leftComp: real, rightComp: real)
    requires leftComp != rightComp
    requires (overall < leftComp && overall < rightComp) || (overall > leftComp && overall > rightComp)
    ensures LeverRule(overall, leftComp, rightComp).left < 0.0 || LeverRule(overall, leftComp, rightComp).right < 0.0
  {
    var n, d := overall - leftComp, rightComp - leftComp;
    if (n < 0.0 < d) || (d < 0.0 < n) {
      // beyond the left phase: the right-hand fraction turns negative
      QuotientNegative(n, d);
    } else {
      // beyond the right phase: the right-hand fraction exceeds 1
      QuotientAboveOne(n, d);
    }
  }

  /** Swapping the bounding phases swaps the two fractions. */
  lemma LeverRuleSwap(overall: real, leftComp: real, rightComp: real)
    ensures LeverRule(overall, rightComp, leftComp).left == LeverRule(overall, leftComp, rightComp).right
    ensures LeverRule(overall, rightComp, leftComp).right == LeverRule(overall, leftComp, rightComp).left
  {
    if leftComp != rightComp {
      var r := LeverRule(overall, leftComp, rightComp);
      var s := Split(r.right, r.left);
      LeverRuleUnique(overall, rightComp, leftComp, s);
    }
  }

  // ---------------------------------------------------------------------------
  // Element dictionaries
  // ---------------------------------------------------------------------------

  /** One `element: value` item of a Python dictionary. */
  datatype Entry = Entry(elem: string, value: real)

  /** A Python dictionary from element symbols to values, in insertion order. */
  type Dict = seq<Entry>

  datatype ConversionError =
    | MissingMolarMass(elem: string)  // KeyError on `molar_masses[elem]`
    | DivisionByZero                  // ZeroDivisionError

  function Keys(d: Dict): (ks: seq<string>)
    ensures |ks| == |d| && forall i :: 0 <= i < |d| ==> ks[i] == d[i].elem
  {
    if d == [] then [] else [d[0].elem] + Keys(d[1..])
  }

  /** `sum(d.values())` */
  function Sum(d: Dict): real
  {
    if d == [] then 0.0 else d[0].value + Sum(d[1..])
  }

  /** `d.get(key, default)`; a Python dictionary holds each key once, so the first match is the one. */
  function Get(d: Dict, key: string, default: real): (v: real)
    ensures (forall i :: 0 <= i < |d| ==> d[i].elem != key) ==> v == default
    ensures forall i :: 0 <= i < |d| && d[i].elem == key && (forall j :: 0 <= j < i ==> d[j].elem != key) ==> v == d[i].value
  {
    if d == [] then default
    else if d[0].elem == key then d[0].value
    else
      var r := Get(d[1..], key, default);
      assert forall i :: 1 <= i < |d| ==> d[i] == d[1..][i - 1];
      r
  }

  /** `{elem: v / t for elem, v in d.items()}` with `t` nonzero. */
  function DivideAll(d: Dict, t: real): Dict
    requires t != 0.0
  {
    seq(|d|, i requires 0 <= i < |d| => Entry(d[i].elem, d[i].value / t))
  }

  /** Dividing every value by `t` divides the sum by `t`. */
  lemma {:induction false} SumDivideAll(d: Dict, t: real)
    requires t != 0.0
    ensures Sum(DivideAll(d, t)) == Sum(d) / t
  {
    if d != [] {
      SumDivideAll(d[1..], t);
      assert DivideAll(d, t)[1..] == DivideAll(d[1..], t);
      AddQuotients(d[0].value, Sum(d[1..]), t);
    }
  }

  /**
   * `{elem: v / total for elem, v in d.items()}` with `total = sum(d.values())`.
   * An empty dictionary is returned as it is (the comprehension never divides);
   * a nonempty one whose values sum to zero raises ZeroDivisionError.
   */
  function Normalize(d: Dict): (r: Result<Dict, ConversionError>)
    ensures r.Ok? <==> d == [] || Sum(d) != 0.0
    ensures r.Err? ==> r.error == DivisionByZero
    ensures r.Ok? ==> Keys(r.value) == Keys(d)
  {
    if d == [] then Ok([])
    else if Sum(d) == 0.0 then Err(DivisionByZero)
    else Ok(DivideAll(d, Sum(d)))
  }

  /** A normalised nonempty dictionary sums to 1. */
  lemma NormalizeSumsToOne(d: Dict)
    requires d != [] && Normalize(d).Ok?
    ensures Sum(Normalize(d).value) == 1.0
  {
    SumDivideAll(d, Sum(d));
    assert Sum(d) / Sum(d) == 1.0;
  }

  /** The first key of `w` whose molar mass is missing or zero, as the comprehension meets it. */
  function MolarMassError(w: Dict, masses: map<string, real>): (e: Option<ConversionError>)
    ensures e.None? <==> forall i :: 0 <= i < |w| ==> w[i].elem in masses && masses[w[i].elem] != 0.0
  {
    if w == [] then None
    else if w[0].elem !in masses then Some(MissingMolarMass(w[0].elem))
    else if masses[w[0].elem] == 0.0 then Some(DivisionByZero)
    else MolarMassError(w[1..], masses)
  }

  /** The first key of `x` without a molar mass. */
  function MissingKey(x: Dict, masses: map<string, real>): (k: Option<string>)
    ensures k.None? <==> forall i :: 0 <= i < |x| ==> x[i].elem in masses
  {
    if x == [] then None
    else if x[0].elem !in masses then Some(x[0].elem)
    else MissingKey(x[1..], masses)
  }

  /** Moles of an element in weight `wt` of it. */
  function MolesOf(wt: real, molarMass: real): real
    requires molarMass != 0.0
  {
    wt / molarMass
  }

  /** Moles per element: `{elem: wt / molar_masses[elem] for elem, wt in w.items()}`. */
  function PerMole(w: Dict, masses: map<string, real>): (r: Result<Dict, ConversionError>)
    ensures r.Ok? <==> forall i :: 0 <= i < |w| ==> w[i].elem in masses && masses[w[i].elem] != 0.0
    ensures r.Ok? ==> Keys(r.value) == Keys(w)
  {
    match MolarMassError(w, masses)
    case Some(e) => Err(e)
    case None => Ok(seq(|w|, i requires 0 <= i < |w| => Entry(w[i].elem, MolesOf(w[i].value, masses[w[i].elem]))))
  }

  /** Mass of `moles` moles of an element. */
  function MassOf(moles: real, molarMass: real): real
  {
    moles * molarMass
  }

  /** Mass per element: `{elem: mole * molar_masses[elem] for elem, mole in x.items()}`. */
  function PerWeight(x: Dict, masses: map<string, real>): (r: Result<Dict, ConversionError>)
    ensures r.Ok? <==> forall i :: 0 <= i < |x| ==> x[i].elem in masses
    ensures r.Ok? ==> Keys(r.value) == Keys(x)
  {
    match MissingKey(x, masses)
    case Some(k) => Err(MissingMolarMass(k))
    case None => Ok(seq(|x|, i requires 0 <= i < |x| => Entry(x[i].elem, MassOf(x[i].value, masses[x[i].elem]))))
  }

  /** `wt_to_mole_fraction`: weight fractions to mole fractions. */
  function WtToMoleFraction(w: Dict, masses: map<string, real>): (r: Result<Dict, ConversionError>)
    ensures r.Ok? ==> Keys(r.value) == Keys(w)
  {
    match PerMole(w, masses)
    case Err(e) => Err(e)
    case Ok(moles) => Normalize(moles)
  }

  /** `mole_to_wt_fraction`: mole fractions to weight fractions. */
  function MoleToWtFraction(x: Dict, masses: map<string, real>): (r: Result<Dict, ConversionError>)
    ensures r.Ok? ==> Keys(r.value) == Keys(x)
  {
    match PerWeight(x, masses)
    case Err(e) => Err(e)
    case Ok(weights) => Normalize(weights)
  }

  /** The conversion fails exactly on a missing or zero molar mass, or on a zero mole total. */
  lemma WtToMoleFractionFails(w: Dict, masses: map<string, real>)
    ensures WtToMoleFraction(w, masses).Err? <==>
      (exists i :: 0 <= i < |w| && (w[i].elem !in masses || masses[w[i].elem] == 0.0))
      || (w != [] && Sum(PerMole(w, masses).value) == 0.0)
  {
    if PerMole(w, masses).Ok? {
      assert |PerMole(w, masses).value| == |Keys(w)|;
    }
  }

  /** Nonempty mole fractions sum to 1. */
  lemma WtToMoleFractionSumsToOne(w: Dict, masses: map<string, real>)
    requires w != [] && WtToMoleFraction(w, masses).Ok?
    ensures Sum(WtToMoleFraction(w, masses).value) == 1.0
  {
    var moles := PerMole(w, masses).value;
    assert |moles| == |Keys(w)|;
    NormalizeSumsToOne(moles);
  }

  /**
   * Mole fractions keep the ratios of the moles `n = PerMole(w, masses)`:
   * `x_i * n_j == x_j * n_i`, where `n_i == w_i / M_i` (PerMoleAt).
   */
  lemma WtToMoleFractionRatio(w: Dict, masses: map<string, real>, i: int, j: int)
    requires WtToMoleFraction(w, masses).Ok? && 0 <= i < |w| && 0 <= j < |w|
    ensures |PerMole(w, masses).value| == |w|
    ensures Proportional(WtToMoleFraction(w, masses).value[i].value, WtToMoleFraction(w, masses).value[j].value,
                         PerMole(w, masses).value[i].value, PerMole(w, masses).value[j].value)
  {
    var x, n := WtToMoleFraction(w, masses).value, PerMole(w, masses).value;
    WtToMoleFractionAt(w, masses, i);
    WtToMoleFractionAt(w, masses, j);
    ProportionalShares(x[i].value, x[j].value, n[i].value, n[j].value, Sum(n));
  }

  /** The `i`-th mole fraction is the element's moles over the total moles. */
  lemma WtToMoleFractionAt(w: Dict, masses: map<string, real>, i: int)
    requires WtToMoleFraction(w, masses).Ok? && 0 <= i < |w|
    ensures |PerMole(w, masses).value| == |w| && Sum(PerMole(w, masses).value) != 0.0
    ensures WtToMoleFraction(w, masses).value[i].value == PerMole(w, masses).value[i].value / Sum(PerMole(w, masses).value)
  {
    assert |PerMole(w, masses).value| == |Keys(w)|;
  }

  /** The moles of the `i`-th element of `w`. */
  lemma PerMoleAt(w: Dict, masses: map<string, real>, i: int)
    requires PerMole(w, masses).Ok? && 0 <= i < |w|
    ensures |PerMole(w, masses).value| == |w|
    ensures w[i].elem in masses && masses[w[i].elem] != 0.0
    ensures PerMole(w, masses).value[i] == Entry(w[i].elem, MolesOf(w[i].value, masses[w[i].elem]))
  {
    assert |PerMole(w, masses).value| == |Keys(w)|;
  }

  /** Normalising keeps the ratio of any two values: `x_i * d_j == x_j * d_i` for `x` the normalised `d`. */
  lemma NormalizeKeepsRatios(d: Dict, x: Dict, i: int, j: int)
    requires Normalize(d) == Ok(x) && 0 <= i < |d| && 0 <= j < |d|
    ensures |x| == |d|
    ensures Proportional(x[i].value, x[j].value, d[i].value, d[j].value)
  {
    var t := Sum(d);
    assert x == DivideAll(d, t);
    ProportionalShares(x[i].value, x[j].value, d[i].value, d[j].value, t);
  }

  /** Nonempty weight fractions from a successful conversion sum to 1. */
  lemma MoleToWtFractionSumsToOne(x: Dict, masses: map<string, real>)
    requires x != [] && MoleToWtFraction(x, masses).Ok?
    ensures Sum(MoleToWtFraction(x, masses).value) == 1.0
  {
    var weights := PerWeight(x, masses).value;
    assert |weights| == |Keys(x)|;
    NormalizeSumsToOne(weights);
  }

  /** Nonnegative weights with a positive sum over positive molar masses always convert. */
  lemma WtToMoleFractionDefined(w: Dict, masses: map<string, real>)
    requires forall i :: 0 <= i < |w| ==> w[i].elem in masses && masses[w[i].elem] > 0.0
    requires forall i :: 0 <= i < |w| ==> w[i].value >= 0.0
    requires Sum(w) > 0.0
    ensures WtToMoleFraction(w, masses).Ok?
  {
    MolesPositive(w, masses);
  }

  /** Nonnegative weights over positive molar masses give a mole total of the same sign. */
  lemma {:induction false} MolesPositive(w: Dict, masses: map<string, real>)
    requires forall i :: 0 <= i < |w| ==> w[i].elem in masses && masses[w[i].elem] > 0.0
    requires forall i :: 0 <= i < |w| ==> w[i].value >= 0.0
    ensures PerMole(w, masses).Ok?
    ensures Sum(PerMole(w, masses).value) >= 0.0
    ensures Sum(w) > 0.0 ==> Sum(PerMole(w, masses).value) > 0.0
  {
    if w != [] {
      MolesPositive(w[1..], masses);
      var moles := PerMole(w, masses).value;
      var rest := PerMole(w[1..], masses).value;
      assert |moles| == |Keys(w)| && |rest| == |Keys(w[1..])|;
      forall k | 0 <= k < |rest| ensures moles[1..][k] == rest[k] {
        assert w[1..][k] == w[k + 1];
      }
      assert moles[1..] == rest;
      var first := w[0].value / masses[w[0].elem];
      assert moles[0].value == first;
      PosDiv(w[0].value, masses[w[0].elem]);
      assert Sum(moles) == first + Sum(rest);
      assert Sum(w) == w[0].value + Sum(w[1..]);
    }
  }

  /** Weighting the mole fractions `w_i / M_i / t` by `M_i` gives `w_i / t`. */
  lemma WeightsOfMoleFractions(w: Dict, masses: map<string, real>, t: real)
    requires PerMole(w, masses).Ok? && t != 0.0
    ensures PerWeight(DivideAll(PerMole(w, masses).value, t), masses) == Ok(DivideAll(w, t))
  {
    var moles := PerMole(w, masses).value;
    assert |moles| == |Keys(w)|;
    var x := DivideAll(moles, t);
    assert forall i :: 0 <= i < |x| ==> x[i].elem == w[i].elem;
    assert MissingKey(x, masses).None?;
    var weights := PerWeight(x, masses).value;
    assert |weights| == |w|;
    forall i | 0 <= i < |x| ensures weights[i] == DivideAll(w, t)[i] {
      WeightOfMoleFractionAt(w, masses, t, i);
    }
    assert weights == DivideAll(w, t);
  }

  lemma WeightOfMoleFractionAt(w: Dict, masses: map<string, real>, t: real, i: int)
    requires PerMole(w, masses).Ok? && t != 0.0 && 0 <= i < |w|
    requires PerWeight(DivideAll(PerMole(w, masses).value, t), masses).Ok?
    ensures |PerWeight(DivideAll(PerMole(w, masses).value, t), masses).value| == |w|
    ensures PerWeight(DivideAll(PerMole(w, masses).value, t), masses).value[i] == DivideAll(w, t)[i]
  {
    PerMoleAt(w, masses, i);
    var x := DivideAll(PerMole(w, masses).value, t);
    assert |PerWeight(x, masses).value| == |Keys(x)|;
    MassOfMolesEntry(w[i].elem, w[i].value, masses[w[i].elem], t);
  }

  /** The entry of weight `a / t` comes back from the entry of moles `a / m / t` at molar mass `m`. */
  lemma MassOfMolesEntry(e: string, a: real, m: real, t: real)
    requires m != 0.0 && t != 0.0
    ensures Entry(e, MassOf(MolesOf(a, m) / t, m)) == Entry(e, a / t)
  {
    MassOfMoles(a, m, t);
  }

  /** Round trip: weight fractions summing to 1 come back from mole fractions unchanged. */
  lemma WtMoleRoundTrip(w: Dict, masses: map<string, real>)
    requires Sum(w) == 1.0
    requires WtToMoleFraction(w, masses).Ok?
    ensures MoleToWtFraction(WtToMoleFraction(w, masses).value, masses) == Ok(w)
  {
    var moles := PerMole(w, masses).value;
    assert |moles| == |Keys(w)|;
    var t := Sum(moles);
    WeightsOfMoleFractions(w, masses, t);
    var weights := DivideAll(w, t);
    SumDivideAll(w, t);
    assert Sum(weights) == 1.0 / t;
    assert |weights| == |w| && weights != [];
    forall i | 0 <= i < |w| ensures DivideAll(weights, 1.0 / t)[i] == w[i] {
      DivInverse(w[i].value, t);
    }
    assert DivideAll(weights, 1.0 / t) == w;
  }

  // ---------------------------------------------------------------------------
  // Cementite scaling and composition labels
  // ---------------------------------------------------------------------------

  /** Weight percent of carbon in cementite, as `calculate_cementite_content` writes it. */
  const CARBON_IN_CEMENTITE: real := 6.69

  /** `calculate_cementite_content`: the cementite percentage that carries `carbonWt` percent carbon. */
  function CementiteContent(carbonWt: real): (pct: real)
    ensures pct * CARBON_IN_CEMENTITE == carbonWt * 100.0
  {
    (carbonWt / CARBON_IN_CEMENTITE) * 100.0
  }

  /** The scaling is linear, sends 0 to 0 and the carbon content of cementite to 100. */
  lemma CementiteContentLinear(a: real, x: real, y: real)
    ensures CementiteContent(a * x + y) == a * CementiteContent(x) + CementiteContent(y)
    ensures CementiteContent(0.0) == 0.0
    ensures CementiteContent(CARBON_IN_CEMENTITE) == 100.0
  {
  }

  /** The label templates of `format_composition`, with the percentages they print. */
  datatype Template =
    | FeCrC(crPct: real, cPct: real)  // "Fe-{cr}Cr-{c}C"
    | FeC(cPct: real)                 // "Fe-{c}C"
    | PlainFe(fePct: real)            // "Fe-{fe}"

  /** `format_composition`: chooses the template by the Cr and C percentages (missing keys count as 0). */
  function FormatComposition(composition: Dict): (t: Template)
    ensures t.FeCrC? <==> Get(composition, "CR", 0.0) * 100.0 > 0.01 && Get(composition, "C", 0.0) * 100.0 > 0.001
    ensures t.FeC? <==> Get(composition, "CR", 0.0) * 100.0 <= 0.01 && Get(composition, "C", 0.0) * 100.0 > 0.001
    ensures t.PlainFe? <==> Get(composition, "C", 0.0) * 100.0 <= 0.001
    ensures t.FeCrC? ==> t == FeCrC(Get(composition, "CR", 0.0) * 100.0, Get(composition, "C", 0.0) * 100.0)
    ensures t.FeC? ==> t == FeC(Get(composition, "C", 0.0) * 100.0)
    ensures t.PlainFe? ==> t == PlainFe(Get(composition, "FE", 0.0) * 100.0)
  {
    var fe := Get(composition, "FE", 0.0) * 100.0;
    var cr := Get(composition, "CR", 0.0) * 100.0;
    var c := Get(composition, "C", 0.0) * 100.0;
    if cr > 0.01 && c > 0.001 then FeCrC(cr, c)
    else if c > 0.001 then FeC(c)
    else PlainFe(fe)
  }

  /** A composition without carbon, the empty one included, gets the plain Fe label. */
  lemma FormatCarbonFree(composition: Dict)
    requires forall i :: 0 <= i < |composition| ==> composition[i].elem != "C"
    ensures FormatComposition(composition) == PlainFe(Get(composition, "FE", 0.0) * 100.0)
    ensures FormatComposition([]) == PlainFe(0.0)
  {
  }
}
