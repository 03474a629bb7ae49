/**
 * Part B: the Fe-Cr-C analyses of Type 410 stainless steel. The
 * thermodynamic equilibrium itself is computed by an external solver and is
 * a parameter here; what is modelled is what the script does around it: the
 * conversion of weight percents to the mole fractions it hands the solver,
 * the loops over the composition/temperature grid and the four alloys, the
 * filter that reads the phases present out of the solver's answer, the
 * labels and table rows built from them, and the placement of a
 * composition on the ternary diagram.
 */
module StainlessSteel {

  import opened RealArith
  import opened Utils

  // ---------------------------------------------------------------------------
  // Weight percents to mole fractions
  // ---------------------------------------------------------------------------

  /** Molar masses in g/mol. */
  const M_FE: real := 55.845
  const M_CR: real := 51.996
  const M_C: real := 12.011

  /** The same molar masses as a dictionary, for the shared conversion. */
  const MOLAR_MASSES: map<string, real> := map["FE" := M_FE, "CR" := M_CR, "C" := M_C]

  /** An amount of each of the three elements (fractions or moles). */
  datatype Amounts = Amounts(fe: real, cr: real, c: real)

  /** The mole fractions of chromium and carbon handed to the solver. */
  datatype MoleFractions = MoleFractions(xCr: real, xC: real)

  /** Weight fractions of an alloy given in weight percent, iron making up the balance. */
  function WeightFractions(cWtPct: real, crWtPct: real): (w: Amounts)
    ensures w.fe + w.cr + w.c == 1.0
    ensures 100.0 * w.c == cWtPct && 100.0 * w.cr == crWtPct
  {
    var wC := cWtPct / 100.0;
    var wCr := crWtPct / 100.0;
    Amounts(1.0 - wC - wCr, wCr, wC)
  }

  /** Moles of each element in a unit mass of alloy. */
  function Moles(w: Amounts): (n: Amounts)
    ensures n.fe * M_FE == w.fe && n.cr * M_CR == w.cr && n.c * M_C == w.c
  {
    Amounts(w.fe / M_FE, w.cr / M_CR, w.c / M_C)
  }

  function TotalMoles(cWtPct: real, crWtPct: real): real
  {
    var n := Moles(WeightFractions(cWtPct, crWtPct));
    n.fe + n.cr + n.c
  }

  /** The conversion divides by a nonzero mole total. */
  predicate Converts(cWtPct: real, crWtPct: real)
  {
    TotalMoles(cWtPct, crWtPct) != 0.0
  }

  /**
   * The conversion both part B loops perform before calling the solver.
   * A zero mole total raises ZeroDivisionError, modelled as `None`.
   */
  function FeCrCMoleFractions(cWtPct: real, crWtPct: real): (r: Option<MoleFractions>)
    ensures r.Some? <==> Converts(cWtPct, crWtPct)
    ensures r.Some? ==> r.value.xC * TotalMoles(cWtPct, crWtPct) == Moles(WeightFractions(cWtPct, crWtPct)).c
    ensures r.Some? ==> r.value.xCr * TotalMoles(cWtPct, crWtPct) == Moles(WeightFractions(cWtPct, crWtPct)).cr
  {
    var n := Moles(WeightFractions(cWtPct, crWtPct));
    var total := n.fe + n.cr + n.c;
    if total == 0.0 then None
    else Some(MoleFractions(n.cr / total, n.c / total))
  }

  /** The dictionary the shared conversion would be given for the same alloy. */
  function FeCrCDict(cWtPct: real, crWtPct: real): Dict
  {
    var w := WeightFractions(cWtPct, crWtPct);
    [Entry("FE", w.fe), Entry("CR", w.cr), Entry("C", w.c)]
  }

  /** The inline conversion agrees with `wt_to_mole_fraction` on the three elements. */
  lemma MoleFractionsAgreeWithConversion(cWtPct: real, crWtPct: real)
    ensures Converts(cWtPct, crWtPct) <==> WtToMoleFraction(FeCrCDict(cWtPct, crWtPct), MOLAR_MASSES).Ok?
    ensures Converts(cWtPct, crWtPct) ==>
      var x := FeCrCMoleFractions(cWtPct, crWtPct).value;
      WtToMoleFraction(FeCrCDict(cWtPct, crWtPct), MOLAR_MASSES).value[1..] == [Entry("CR", x.xCr), Entry("C", x.xC)]
  {
    var d := FeCrCDict(cWtPct, crWtPct);
    var n := Moles(WeightFractions(cWtPct, crWtPct));
    assert MolarMassError(d, MOLAR_MASSES).None?;
    var moles := PerMole(d, MOLAR_MASSES).value;
    assert moles == [Entry("FE", n.fe), Entry("CR", n.cr), Entry("C", n.c)];
    assert Sum(moles[2..]) == n.c;
    assert Sum(moles[1..]) == n.cr + n.c;
    assert Sum(moles) == n.fe + n.cr + n.c;
  }

  /**
   * For an alloy whose chromium and carbon percents are nonnegative and sum
   * to at most 100 the conversion succeeds, and the fractions lie in [0, 1]
   * with the iron fraction `1 - x_C - x_Cr` left over.
   */
  lemma MoleFractionsInRange(cWtPct: real, crWtPct: real)
    requires 0.0 <= cWtPct && 0.0 <= crWtPct && cWtPct + crWtPct <= 100.0
    ensures Converts(cWtPct, crWtPct)
    ensures var x := FeCrCMoleFractions(cWtPct, crWtPct).value;
      0.0 <= x.xC && 0.0 <= x.xCr && x.xC + x.xCr <= 1.0
      && (cWtPct + crWtPct < 100.0 ==> x.xC + x.xCr < 1.0)
      && (cWtPct > 0.0 ==> x.xC > 0.0)
      && (crWtPct > 0.0 ==> x.xCr > 0.0)
  {
    var w := WeightFractions(cWtPct, crWtPct);
    var n := Moles(w);
    PosDiv(w.fe, M_FE);
    PosDiv(w.cr, M_CR);
    PosDiv(w.c, M_C);
    SharesInRange(n.fe, n.cr, n.c);
  }

  // ---------------------------------------------------------------------------
  // The solver and the phases read out of its answer
  // ---------------------------------------------------------------------------

  /** Pressure in Pa at which every equilibrium is computed. */
  const PRESSURE: int := 101325

  /** Smallest phase amount that counts as present (exclusive). */
  const MIN_PHASE_AMOUNT: real := 0.000001

  /** The conditions of one equilibrium calculation. */
  datatype Conditions = Conditions(temperature: int, pressure: int, xCr: real, xC: real)

  /**
   * The solver's answer, flattened: the phase name at each vertex (blank
   * where no phase sits) and the amount of that phase.
   */
  datatype Equilibrium = Equilibrium(phase: seq<string>, amount: seq<real>)

  /** An equilibrium, or the exception the solver raised. */
  datatype SolverOutcome = Solved(eq: Equilibrium) | SolverFailed

  type Solver = Conditions -> SolverOutcome

  /** The characters `str.isspace` accepts. */
  predicate IsSpace(ch: char)
  {
    ch == ' ' || '\t' <= ch <= '\r' || '\U{1C}' <= ch <= '\U{1F}'
    || ch == '\U{85}' || ch == '\U{A0}' || ch == '\U{1680}' || '\U{2000}' <= ch <= '\U{200A}'
    || ch == '\U{2028}' || ch == '\U{2029}' || ch == '\U{202F}' || ch == '\U{205F}' || ch == '\U{3000}'
  }

  /** `s` without its leading whitespace. */
  function TrimStart(s: string): string
  {
    if s != [] && IsSpace(s[0]) then TrimStart(s[1..]) else s
  }

  /** `s` without its trailing whitespace. */
  function TrimEnd(s: string): string
  {
    if s != [] && IsSpace(s[|s| - 1]) then TrimEnd(s[..|s| - 1]) else s
  }

  /** Trimming the start leaves a suffix that does not start with whitespace, and cuts only whitespace. */
  lemma {:induction false} TrimStartSuffix(s: string)
    ensures var r := TrimStart(s);
      |r| <= |s| && r == s[|s| - |r|..]
      && (r == [] || !IsSpace(r[0]))
      && (forall k :: 0 <= k < |s| - |r| ==> IsSpace(s[k]))
  {
    if s != [] && IsSpace(s[0]) {
      TrimStartSuffix(s[1..]);
      var r := TrimStart(s);
      forall k | 1 <= k < |s| - |r| ensures IsSpace(s[k]) {
        assert s[k] == s[1..][k - 1];
      }
    }
  }

  /** Trimming the end leaves a prefix that does not end with whitespace, and cuts only whitespace. */
  lemma {:induction false} TrimEndPrefix(s: string)
    ensures var r := TrimEnd(s);
      |r| <= |s| && r == s[..|r|]
      && (r == [] || !IsSpace(r[|r| - 1]))
      && (forall k :: |r| <= k < |s| ==> IsSpace(s[k]))
  {
    if s != [] && IsSpace(s[|s| - 1]) {
      TrimEndPrefix(s[..|s| - 1]);
      var r := TrimEnd(s);
      forall k | |r| <= k < |s| - 1 ensures IsSpace(s[k]) {
        assert s[k] == s[..|s| - 1][k];
      }
    }
  }

  /** `str.strip()`: `s` without its leading and trailing whitespace. */
  function Strip(s: string): string
  {
    TrimEnd(TrimStart(s))
  }

  /**
   * What is left is a slice of `s` that neither starts nor ends with
   * whitespace, and everything cut off on either side is whitespace.
   */
  lemma StripSlice(s: string)
    ensures var r := Strip(s);
      var lo := |s| - |TrimStart(s)|;
      0 <= lo && lo + |r| <= |s| && r == s[lo..lo + |r|]
      && (forall k :: 0 <= k < lo ==> IsSpace(s[k]))
      && (forall k :: lo + |r| <= k < |s| ==> IsSpace(s[k]))
      && (r == [] || (!IsSpace(r[0]) && !IsSpace(r[|r| - 1])))
  {
    var t := TrimStart(s);
    var r := TrimEnd(t);
    var lo := |s| - |t|;
    TrimStartSuffix(s);
    TrimEndPrefix(t);
    assert r == [] || r[0] == t[0];
    forall k | lo + |r| <= k < |s| ensures IsSpace(s[k]) {
      assert s[k] == t[k - lo];
    }
  }

  /** A string strips to nothing exactly when it is all whitespace. */
  lemma StripBlank(s: string)
    ensures Strip(s) == [] <==> forall k :: 0 <= k < |s| ==> IsSpace(s[k])
  {
    StripSlice(s);
  }

  /** Stripping twice is stripping once. */
  lemma StripIdempotent(s: string)
    ensures Strip(Strip(s)) == Strip(s)
  {
    StripSlice(s);
    var r := Strip(s);
    assert TrimStart(r) == r;
    assert TrimEnd(r) == r;
  }

  /** Whether the phase at vertex `i` is reported: a nonblank name and an amount above 1e-6. */
  predicate Keeps(e: Equilibrium, i: int)
    requires 0 <= i < |e.phase|
  {
    Strip(e.phase[i]) != "" && i < |e.amount| && e.amount[i] > MIN_PHASE_AMOUNT
  }

  /**
   * The amounts can be read without an IndexError: every vertex with a
   * nonblank name has an amount. (The amount is only looked up for those.)
   */
  predicate Readable(e: Equilibrium)
  {
    forall i :: 0 <= i < |e.phase| && Strip(e.phase[i]) != "" ==> i < |e.amount|
  }

  /** The vertices among the first `n` whose phase is reported, in order. */
  function KeptIndices(e: Equilibrium, n: nat): (ks: seq<nat>)
    requires n <= |e.phase|
    ensures forall k :: 0 <= k < |ks| ==> ks[k] < n && Keeps(e, ks[k])
    ensures forall i :: 0 <= i < n && Keeps(e, i) ==> i in ks
    ensures forall k, l :: 0 <= k < l < |ks| ==> ks[k] < ks[l]
  {
    if n == 0 then []
    else if Keeps(e, n - 1) then KeptIndices(e, n - 1) + [n - 1]
    else KeptIndices(e, n - 1)
  }

  /** The stripped names of the reported phases among the first `n` vertices. */
  function KeptNames(e: Equilibrium, n: nat): seq<string>
    requires n <= |e.phase|
  {
    if n == 0 then []
    else if Keeps(e, n - 1) then KeptNames(e, n - 1) + [Strip(e.phase[n - 1])]
    else KeptNames(e, n - 1)
  }

  /** The kept names are the stripped names at the kept vertices, in order. */
  lemma {:induction false} KeptNamesAtKeptIndices(e: Equilibrium, n: nat)
    requires n <= |e.phase|
    ensures |KeptNames(e, n)| == |KeptIndices(e, n)|
    ensures forall k :: 0 <= k < |KeptNames(e, n)| ==> KeptNames(e, n)[k] == Strip(e.phase[KeptIndices(e, n)[k]])
  {
    if n > 0 {
      KeptNamesAtKeptIndices(e, n - 1);
    }
  }

  /** What the filter loop yields: the reported names, or `None` for an IndexError. */
  function PhaseFilter(e: Equilibrium): (r: Option<seq<string>>)
    ensures r.None? <==> !Readable(e)
    ensures r.Some? ==> forall k :: 0 <= k < |r.value| ==> r.value[k] != ""
  {
    if Readable(e) then
      KeptNamesAtKeptIndices(e, |e.phase|);
      Some(KeptNames(e, |e.phase|))
    else None
  }

  /** The loop of both part B functions that collects the names of the phases present. */
  method FilterPhases(e: Equilibrium) returns (r: Option<seq<string>>)
    ensures r == PhaseFilter(e)
  {
    var names: seq<string> := [];
    for i := 0 to |e.phase|
      invariant names == KeptNames(e, i)
      invariant forall k :: 0 <= k < i && Strip(e.phase[k]) != "" ==> k < |e.amount|
    {
      var name := Strip(e.phase[i]);
      if name != "" {
        if i >= |e.amount| {
          // IndexError: the amounts array is shorter than the phase array
          return None;
        }
        if e.amount[i] > MIN_PHASE_AMOUNT {
          names := names + [name];
        }
      }
    }
    return Some(names);
  }

  // ---------------------------------------------------------------------------
  // Labels
  // ---------------------------------------------------------------------------

  /** `sep.join(xs)` */
  function Join(sep: string, xs: seq<string>): string
  {
    if xs == [] then "" else if |xs| == 1 then xs[0] else xs[0] + sep + Join(sep, xs[1..])
  }

  /** `s.split(c)` for a one-character separator: the pieces between the occurrences of `c`. */
  function SplitOn(c: char, s: string): (parts: seq<string>)
    ensures |parts| >= 1
  {
    if s == [] then [""]
    else
      var rest := SplitOn(c, s[1..]);
      if s[0] == c then [""] + rest else [[s[0]] + rest[0]] + rest[1..]
  }

  /** A piece without the separator extends the first piece of what follows it. */
  lemma {:induction false} SplitOnPrefix(c: char, x: string, t: string)
    requires c !in x
    ensures SplitOn(c, x + t) == [x + SplitOn(c, t)[0]] + SplitOn(c, t)[1..]
  {
    if x == [] {
      assert x + t == t;
      assert x + SplitOn(c, t)[0] == SplitOn(c, t)[0];
      assert SplitOn(c, t) == [SplitOn(c, t)[0]] + SplitOn(c, t)[1..];
    } else {
      var p := SplitOn(c, t);
      SplitOnPrefix(c, x[1..], t);
      assert x + t == [x[0]] + (x[1..] + t);
      SplitOnCons(c, x[0], x[1..] + t);
      assert x + p[0] == [x[0]] + (x[1..] + p[0]);
    }
  }

  /** A first character other than the separator starts the first piece. */
  lemma SplitOnCons(c: char, a: char, s: string)
    requires a != c
    ensures SplitOn(c, [a] + s) == [[a] + SplitOn(c, s)[0]] + SplitOn(c, s)[1..]
  {
    assert ([a] + s)[0] == a && ([a] + s)[1..] == s;
  }

  /** Splitting a join on its one-character separator gives back the names, if none contains it. */
  lemma {:induction false} SplitJoin(c: char, xs: seq<string>)
    requires xs != []
    requires forall k :: 0 <= k < |xs| ==> c !in xs[k]
    ensures SplitOn(c, Join([c], xs)) == xs
  {
    if |xs| == 1 {
      SplitOnPrefix(c, xs[0], "");
      assert xs[0] + "" == xs[0];
    } else {
      var rest := Join([c], xs[1..]);
      SplitJoin(c, xs[1..]);
      assert Join([c], xs) == xs[0] + ([c] + rest);
      SplitOnPrefix(c, xs[0], [c] + rest);
      assert ([c] + rest)[1..] == rest;
      assert xs[0] + "" == xs[0];
    }
  }

  const NO_PHASES_LABEL: string := "NONE"
  const ERROR_LABEL: string := "ERROR"

  /**
   * The phases cell of one grid row: the reported phases joined by "+",
   * "NONE" when there are none, "ERROR" when the solver raised or the
   * amounts could not be read.
   */
  function GridLabel(outcome: SolverOutcome): string
  {
    match outcome
    case SolverFailed => ERROR_LABEL
    case Solved(e) =>
      match PhaseFilter(e)
      case None => ERROR_LABEL
      case Some(names) => if names == [] then NO_PHASES_LABEL else Join("+", names)
  }

  /** A grid label reads back as the reported phases when it is neither "ERROR" nor "NONE". */
  lemma GridLabelListsPhases(outcome: SolverOutcome)
    ensures (outcome.SolverFailed? || PhaseFilter(outcome.eq).None?) ==> GridLabel(outcome) == ERROR_LABEL
    ensures outcome.Solved? && PhaseFilter(outcome.eq) == Some([]) ==> GridLabel(outcome) == NO_PHASES_LABEL
    ensures outcome.Solved? && PhaseFilter(outcome.eq).Some? && PhaseFilter(outcome.eq).value != []
            && (forall k :: 0 <= k < |PhaseFilter(outcome.eq).value| ==> '+' !in PhaseFilter(outcome.eq).value[k])
            ==> SplitOn('+', GridLabel(outcome)) == PhaseFilter(outcome.eq).value
  {
    if outcome.Solved? && PhaseFilter(outcome.eq).Some? && PhaseFilter(outcome.eq).value != []
       && (forall k :: 0 <= k < |PhaseFilter(outcome.eq).value| ==> '+' !in PhaseFilter(outcome.eq).value[k]) {
      SplitJoin('+', PhaseFilter(outcome.eq).value);
    }
  }

  // ---------------------------------------------------------------------------
  // B1: the composition/temperature grid at fixed chromium
  // ---------------------------------------------------------------------------

  const GRID_CARBON: seq<real> := [0.0, 0.5, 1.0, 1.5, 2.0, 2.5, 3.0, 3.5, 4.0, 4.5, 5.0]
  const GRID_TEMPERATURES: seq<int> := [1000, 1100, 1200, 1300, 1350, 1400, 1500, 1525, 1600, 1700, 1800]

  /** One record of the B1 results table. */
  datatype GridRow = GridRow(temperature: int, carbonWtPct: real, phases: string)

  /** The results table, or the ZeroDivisionError that ends the run. */
  datatype GridRun = Completed(rows: seq<GridRow>) | Aborted

  /** The grid cell for `cWtPct` wt% C at `temperature` K. */
  function GridCell(crContent: real, solver: Solver, cWtPct: real, temperature: int): GridRow
    requires Converts(cWtPct, crContent)
  {
    var x := FeCrCMoleFractions(cWtPct, crContent).value;
    GridRow(temperature, cWtPct, GridLabel(solver(Conditions(temperature, PRESSURE, x.xCr, x.xC))))
  }

  /** The cells for one carbon content, one per temperature in order. */
  function GridLine(crContent: real, solver: Solver, cWtPct: real): (line: seq<GridRow>)
    requires Converts(cWtPct, crContent)
    ensures |line| == |GRID_TEMPERATURES|
  {
    seq(|GRID_TEMPERATURES|, j requires 0 <= j < |GRID_TEMPERATURES| =>
      GridCell(crContent, solver, cWtPct, GRID_TEMPERATURES[j]))
  }

  /** Every grid carbon content converts at this chromium content. */
  predicate GridConvertible(crContent: real)
  {
    forall i :: 0 <= i < |GRID_CARBON| ==> Converts(GRID_CARBON[i], crContent)
  }

  /** The rows for the first `n` carbon contents, carbon-major. */
  function GridRows(crContent: real, solver: Solver, n: nat): (rows: seq<GridRow>)
    requires n <= |GRID_CARBON|
    requires forall i :: 0 <= i < n ==> Converts(GRID_CARBON[i], crContent)
    ensures |rows| == 11 * n
  {
    if n == 0 then []
    else GridRows(crContent, solver, n - 1) + GridLine(crContent, solver, GRID_CARBON[n - 1])
  }

  /**
   * The body of the inner B1 loop: convert, call the solver, label the
   * phases. `None` is the ZeroDivisionError of the conversion.
   */
  method GridStep(crContent: real, solver: Solver, cWtPct: real, temperature: int) returns (row: Option<GridRow>)
    ensures row.Some? <==> Converts(cWtPct, crContent)
    ensures row.Some? ==> row.value == GridCell(crContent, solver, cWtPct, temperature)
  {
    var fractions := FeCrCMoleFractions(cWtPct, crContent);
    if fractions.None? {
      return None;
    }
    var outcome := solver(Conditions(temperature, PRESSURE, fractions.value.xCr, fractions.value.xC));
    var phases: string;
    if outcome.SolverFailed? {
      phases := ERROR_LABEL;
    } else {
      var names := FilterPhases(outcome.eq);
      phases := if names.None? then ERROR_LABEL else if names.value == [] then NO_PHASES_LABEL else Join("+", names.value);
    }
    return Some(GridRow(temperature, cWtPct, phases));
  }

  /** The inner B1 loop: the rows for one carbon content over all temperatures. */
  method GridLineRows(crContent: real, solver: Solver, cWtPct: real) returns (line: Option<seq<GridRow>>)
    ensures line.Some? <==> Converts(cWtPct, crContent)
    ensures line.Some? ==> line.value == GridLine(crContent, solver, cWtPct)
  {
    var rows: seq<GridRow> := [];
    for j := 0 to |GRID_TEMPERATURES|
      invariant j > 0 ==> Converts(cWtPct, crContent)
      invariant |rows| == j
      invariant forall k :: 0 <= k < j ==> rows[k] == GridCell(crContent, solver, cWtPct, GRID_TEMPERATURES[k])
    {
      var row := GridStep(crContent, solver, cWtPct, GRID_TEMPERATURES[j]);
      if row.None? {
        return None;
      }
      rows := rows + [row.value];
    }
    return Some(rows);
  }

  /**
   * The B1 loops: for each carbon content and each temperature, one row.
   * A conversion that divides by zero happens outside the `try` block and
   * ends the whole run.
   */
  method PhaseGrid(crContent: real, solver: Solver) returns (run: GridRun)
    ensures run == if GridConvertible(crContent) then Completed(GridRows(crContent, solver, |GRID_CARBON|)) else Aborted
  {
    var rows: seq<GridRow> := [];
    for i := 0 to |GRID_CARBON|
      invariant forall k :: 0 <= k < i ==> Converts(GRID_CARBON[k], crContent)
      invariant rows == GridRows(crContent, solver, i)
    {
      var line := GridLineRows(crContent, solver, GRID_CARBON[i]);
      if line.None? {
        return Aborted;
      }
      rows := rows + line.value;
    }
    return Completed(rows);
  }

  /** Row `11 * i + j` of a completed grid is the cell for carbon `i` and temperature `j`. */
  lemma {:induction false} GridRowAt(crContent: real, solver: Solver, n: nat, i: nat, j: nat)
    requires n <= |GRID_CARBON| && i < n && j < |GRID_TEMPERATURES|
    requires forall k :: 0 <= k < n ==> Converts(GRID_CARBON[k], crContent)
    ensures GridRows(crContent, solver, n)[11 * i + j] == GridCell(crContent, solver, GRID_CARBON[i], GRID_TEMPERATURES[j])
  {
    if i < n - 1 {
      GridRowAt(crContent, solver, n - 1, i, j);
    }
  }

  /** The grid completes for any chromium content from 0 to 95 wt%, the script's 12.5 among them. */
  lemma GridCompletes(crContent: real)
    requires 0.0 <= crContent <= 95.0
    ensures GridConvertible(crContent)
  {
    forall i | 0 <= i < |GRID_CARBON|
      ensures Converts(GRID_CARBON[i], crContent)
    {
      assert 0.0 <= GRID_CARBON[i] <= 5.0;
      MoleFractionsInRange(GRID_CARBON[i], crContent);
    }
  }

  /**
   * The chromium content at which the carbon-free alloy's mole total is
   * zero: its conversion divides by zero and the grid run ends.
   */
  lemma GridAbortsAtZeroMoleTotal()
    ensures !GridConvertible(-519960.0 / 384.9)
  {
    assert !Converts(GRID_CARBON[0], -519960.0 / 384.9);
  }

  // ---------------------------------------------------------------------------
  // B2: the four alloys at one temperature
  // ---------------------------------------------------------------------------

  /** An alloy of the B2 table: its name and its chromium and carbon weight percents. */
  datatype Alloy = Alloy(name: string, crWtPct: real, cWtPct: real)

  const B2_ALLOYS: seq<Alloy> := [
    Alloy("Fe-15.0Cr-0.01C", 15.0, 0.01),
    Alloy("Fe-15.0Cr-0.70C", 15.0, 0.70),
    Alloy("Fe-20.0Cr-0.20C", 20.0, 0.20),
    Alloy("Fe-15.0Cr-3.0C", 15.0, 3.0)
  ]

  const SINGLE_PHASE_LABEL: string := "Single phase"
  const CALCULATION_ERROR_LABEL: string := "Calculation error - use phase diagram"

  /** One record of the B2 results table. */
  datatype AlloyRow = AlloyRow(composition: string, phases: string, count: nat)

  /** The conditions handed to the solver for an alloy whose conversion succeeds. */
  function AlloyConditions(alloy: Alloy, temperature: int): Conditions
    requires Converts(alloy.cWtPct, alloy.crWtPct)
  {
    var x := FeCrCMoleFractions(alloy.cWtPct, alloy.crWtPct).value;
    Conditions(temperature, PRESSURE, x.xCr, x.xC)
  }

  /** The B2 record built from the solver's outcome for an alloy. */
  function AlloyRowFor(alloy: Alloy, outcome: SolverOutcome): (row: AlloyRow)
    ensures row.composition == alloy.name
    ensures outcome.SolverFailed? || !Readable(outcome.eq) ==> row == AlloyRow(alloy.name, CALCULATION_ERROR_LABEL, 0)
    ensures outcome.Solved? && Readable(outcome.eq) ==>
      row.count == |KeptNames(outcome.eq, |outcome.eq.phase|)|
      && (row.count == 0 ==> row.phases == SINGLE_PHASE_LABEL)
      && (row.count > 0 ==> row.phases == Join(", ", KeptNames(outcome.eq, |outcome.eq.phase|)))
  {
    match outcome
    case SolverFailed => AlloyRow(alloy.name, CALCULATION_ERROR_LABEL, 0)
    case Solved(e) =>
      match PhaseFilter(e)
      case None => AlloyRow(alloy.name, CALCULATION_ERROR_LABEL, 0)
      case Some(names) =>
        if names == [] then AlloyRow(alloy.name, SINGLE_PHASE_LABEL, 0)
        else AlloyRow(alloy.name, Join(", ", names), |names|)
  }

  /** The B2 alloys are all made of nonnegative amounts summing to at most 100 wt%. */
  lemma B2AlloysConvert()
    ensures forall k :: 0 <= k < |B2_ALLOYS| ==> Converts(B2_ALLOYS[k].cWtPct, B2_ALLOYS[k].crWtPct)
  {
    forall k | 0 <= k < |B2_ALLOYS|
      ensures Converts(B2_ALLOYS[k].cWtPct, B2_ALLOYS[k].crWtPct)
    {
      MoleFractionsInRange(B2_ALLOYS[k].cWtPct, B2_ALLOYS[k].crWtPct);
    }
  }

  /** The B2 loop: one record per alloy, in order. */
  method AnalyzeAlloys(temperature: int, solver: Solver) returns (rows: seq<AlloyRow>)
    ensures |rows| == |B2_ALLOYS|
    ensures forall k :: 0 <= k < |rows| ==>
      Converts(B2_ALLOYS[k].cWtPct, B2_ALLOYS[k].crWtPct)
      && rows[k] == AlloyRowFor(B2_ALLOYS[k], solver(AlloyConditions(B2_ALLOYS[k], temperature)))
  {
    B2AlloysConvert();
    rows := [];
    for k := 0 to |B2_ALLOYS|
      invariant |rows| == k
      invariant forall l :: 0 <= l < k ==>
        rows[l] == AlloyRowFor(B2_ALLOYS[l], solver(AlloyConditions(B2_ALLOYS[l], temperature)))
    {
      var alloy := B2_ALLOYS[k];
      var fractions := FeCrCMoleFractions(alloy.cWtPct, alloy.crWtPct).value;
      var outcome := solver(Conditions(temperature, PRESSURE, fractions.xCr, fractions.xC));
      var row;
      if outcome.SolverFailed? {
        row := AlloyRow(alloy.name, CALCULATION_ERROR_LABEL, 0);
      } else {
        var names := FilterPhases(outcome.eq);
        if names.None? {
          row := AlloyRow(alloy.name, CALCULATION_ERROR_LABEL, 0);
        } else if names.value == [] {
          row := AlloyRow(alloy.name, SINGLE_PHASE_LABEL, 0);
        } else {
          row := AlloyRow(alloy.name, Join(", ", names.value), |names.value|);
        }
      }
      rows := rows + [row];
    }
  }

  // ---------------------------------------------------------------------------
  // Ternary diagram coordinates
  // ---------------------------------------------------------------------------

  datatype Point = Point(x: real, y: real)

  /**
   * The point of the ternary diagram, Fe at (0, 0), Cr at (1, 0) and C at
   * (1/2, sqrt(3)/2), for an alloy with `crWtPct` wt% Cr and `cWtPct` wt% C.
   * `sqrt3` stands for `sqrt(3)`.
   */
  function TernaryToCartesian(crWtPct: real, cWtPct: real, sqrt3: real): Point
  {
    Point((crWtPct + cWtPct / 2.0) / 100.0, (cWtPct * sqrt3 / 2.0) / 100.0)
  }

  /** Reading the weight percents of Cr and C back off the diagram. */
  function CartesianToTernary(p: Point, sqrt3: real): (w: (real, real))
    requires sqrt3 > 0.0
  {
    var cWtPct := 200.0 * p.y / sqrt3;
    (100.0 * p.x - cWtPct / 2.0, cWtPct)
  }

  /** The map is one to one: reading a plotted point back gives the alloy. */
  lemma TernaryRoundTrip(crWtPct: real, cWtPct: real, sqrt3: real)
    requires sqrt3 > 0.0
    ensures CartesianToTernary(TernaryToCartesian(crWtPct, cWtPct, sqrt3), sqrt3) == (crWtPct, cWtPct)
  {
    var p := TernaryToCartesian(crWtPct, cWtPct, sqrt3);
    assert 200.0 * p.y == cWtPct * sqrt3;
    ProductQuotient(cWtPct, sqrt3);
  }

  /** The pure elements land on the three corners of the drawn triangle. */
  lemma TernaryCorners(sqrt3: real)
    ensures TernaryToCartesian(0.0, 0.0, sqrt3) == Point(0.0, 0.0)
    ensures TernaryToCartesian(100.0, 0.0, sqrt3) == Point(1.0, 0.0)
    ensures TernaryToCartesian(0.0, 100.0, sqrt3) == Point(0.5, sqrt3 / 2.0)
  {
  }

  /** The triangle with corners (0, 0), (1, 0) and (1/2, sqrt3/2). */
  predicate InTriangle(p: Point, sqrt3: real)
  {
    0.0 <= p.y && p.y <= sqrt3 * p.x && p.y <= sqrt3 * (1.0 - p.x)
  }

  /** `a * s <= b * s` exactly when `a <= b`, for positive `s`. */
  lemma ScaleCompare(a: real, b: real, s: real)
    requires s > 0.0
    ensures a * s <= b * s <==> a <= b
  {
    assert b * s - a * s == (b - a) * s;
    if a > b {
      assert (a - b) * s > 0.0;
    }
  }

  /**
   * A point lies in the triangle exactly when its alloy has no negative
   * amount of any element (the iron balance included).
   */
  lemma TernaryInTriangle(crWtPct: real, cWtPct: real, sqrt3: real)
    requires sqrt3 > 0.0
    ensures InTriangle(TernaryToCartesian(crWtPct, cWtPct, sqrt3), sqrt3) <==>
      0.0 <= crWtPct && 0.0 <= cWtPct && crWtPct + cWtPct <= 100.0
  {
    var p := TernaryToCartesian(crWtPct, cWtPct, sqrt3);
    assert p.y == (cWtPct / 200.0) * sqrt3;
    assert sqrt3 * p.x == ((2.0 * crWtPct + cWtPct) / 200.0) * sqrt3;
    assert sqrt3 * (1.0 - p.x) == ((200.0 - 2.0 * crWtPct - cWtPct) / 200.0) * sqrt3;
    ScaleCompare(0.0, cWtPct / 200.0, sqrt3);
    assert 0.0 <= p.y <==> 0.0 <= cWtPct;
    ScaleCompare(cWtPct / 200.0, (2.0 * crWtPct + cWtPct) / 200.0, sqrt3);
    assert p.y <= sqrt3 * p.x <==> 0.0 <= crWtPct;
    ScaleCompare(cWtPct / 200.0, (200.0 - 2.0 * crWtPct - cWtPct) / 200.0, sqrt3);
    assert p.y <= sqrt3 * (1.0 - p.x) <==> crWtPct + cWtPct <= 100.0;
  }

  /** With `sqrt3 * sqrt3 == 3` the drawn triangle is equilateral with side 1. */
  lemma TriangleEquilateral(sqrt3: real)
    requires sqrt3 * sqrt3 == 3.0
    ensures var c := TernaryToCartesian(0.0, 100.0, sqrt3);
      c.x * c.x + c.y * c.y == 1.0 && (1.0 - c.x) * (1.0 - c.x) + c.y * c.y == 1.0
  {
    var c := TernaryToCartesian(0.0, 100.0, sqrt3);
    assert c.x == 0.5 && c.y == sqrt3 / 2.0;
    assert (sqrt3 / 2.0) * (sqrt3 / 2.0) == sqrt3 * sqrt3 / 4.0;
    assert c.y * c.y == 0.75;
    assert c.x * c.x == 0.25 && (1.0 - c.x) * (1.0 - c.x) == 0.25;
  }
}
