# Fe-C and Fe-Cr-C phase-fraction arithmetic, in Dafny

This project models the arithmetic core of a materials-science coursework
repository about carbon steels (Fe-C) and a martensitic stainless steel
(Fe-12.5Cr-0.15C, Type 410). It covers the computations that sit under the
plots and the thermodynamic solver calls, and proves what those
computations promise.

- `utils.py` (module `Utils`, file `utils.dfy`):
  - the lever rule, including its degenerate case;
  - the weight-fraction ↔ mole-fraction conversions over an element
    dictionary, with their KeyError and ZeroDivisionError paths;
  - the cementite scaling;
  - the choice of composition label template.
- `part_a_carbon_steel.py` (module `CarbonSteel`, file `carbon_steel.dfy`):
  - the carbon content of cementite;
  - the eutectoid split (A6);
  - the hypoeutectoid ferrite split (A7);
  - the hypereutectoid inverse calculation (A8);
  - the loop over a series of carbon contents (A9), as a method with a loop.
- `generate_A6_A7_A8_figures.py` (module `SteelFigures`, file
  `steel_figures.dfy`): the A7/A8 figure arithmetic, shown to equal the
  part A analyses.
- `part_b_stainless_steel.py` (module `StainlessSteel`, file
  `stainless_steel.dfy`):
  - the weight-percent → mole-fraction conversion;
  - the 11 × 11 composition/temperature grid loop (B1);
  - the loop over the four alloys (B2);
  - the loop that reads the phases present out of the solver's answer,
    with the labels built from them;
  - the ternary → Cartesian map.
- `real_arith.dfy` (module `RealArith`): small facts about division over
  the reals that the other proofs use.

Modelling choices:
- Floating-point numbers are exact `real`s, so the tolerances the scripts
  print ("Check sum: 1.0000") become exact equalities.
- A Python dictionary is an ordered sequence of `Entry(elem, value)`.
  Dictionary comprehensions keep insertion order, so this matches the
  code's order.
- A KeyError or ZeroDivisionError is an `Err` / `None` result.
- The equilibrium solver is a function parameter `Solver`. It returns an
  `Equilibrium` (the phase name and phase amount arrays, flattened) or
  `SolverFailed`.
- √3 is a parameter `sqrt3`.

Behaviour of the code worth noting:
- The `except` clauses of both part B loops catch any exception raised
  inside the `try`, not only the solver's. An IndexError from reading a
  phase amount past the end of the amounts array is therefore also
  reported as `ERROR` (B1) or as the calculation-error row (B2)
  (`StainlessSteel.PhaseFilter`, `Readable`).
- Besides the lever rule's `(0, 0)`, the part B loops fall back to `NONE`
  or `Single phase` when no phase is reported.
- The mole-fraction conversion in part B runs before the `try`. A zero
  mole total there raises ZeroDivisionError and ends the run, modelled as
  `Aborted`.

## Model

| member | source | states |
|---|---|---|
| Utils.LeverRule | utils.py:41-64 | equal bounding compositions give exactly (0, 0); otherwise the two fractions sum to 1 and balance the mass: `left*leftComp + right*rightComp == overall` |
| Utils.LeverRuleUnique | utils.py:61-62 | the lever-rule split is the only split that sums to 1 and balances the mass |
| Utils.LeverRuleEndpoints | utils.py:61-64 | an alloy at the left composition is (1, 0); one at the right composition is (0, 1) |
| Utils.LeverRuleBetween | utils.py:61-64 | strictly between the two compositions, both fractions lie strictly in (0, 1) |
| Utils.LeverRuleOutside | utils.py:61-64 | there is no clamping: outside the two compositions one fraction is negative |
| Utils.LeverRuleSwap | utils.py:58-64 | swapping the bounding phases swaps the fractions, in the degenerate case too |
| Utils.Get | utils.py:162-164 | `dict.get(key, 0)` gives the default for an absent key, and otherwise the value stored at the key's first (only) occurrence |
| Utils.Keys | utils.py:104-106 | the keys of a dictionary, in order: one per entry, the i-th being the i-th entry's key |
| Utils.Sum | utils.py:105 | `sum(d.values())`, added from the first entry on; no contract of its own (SumDivideAll, NormalizeSumsToOne state what is used) |
| Utils.DivideAll | utils.py:106 | `{elem: v / t}` entry by entry; no contract of its own (SumDivideAll states its sum) |
| Utils.SumDivideAll | utils.py:105-106 | dividing every value by a nonzero total divides the sum by that total |
| Utils.Normalize | utils.py:105-106 | dividing by the sum of the values: fails (ZeroDivisionError) exactly for a nonempty dictionary summing to 0; keeps the keys in order |
| Utils.NormalizeSumsToOne | utils.py:105-106 | a normalised nonempty dictionary sums to 1 |
| Utils.MolarMassError | utils.py:104 | the comprehension succeeds exactly when every key has a nonzero molar mass |
| Utils.PerMole | utils.py:104 | the moles comprehension fails exactly on a missing or zero molar mass, and keeps the keys |
| Utils.MissingKey | utils.py:124 | the comprehension over mole fractions finds a key without a molar mass exactly when one exists |
| Utils.PerWeight | utils.py:124 | the weights comprehension fails exactly on a missing molar mass, and keeps the keys |
| Utils.WtToMoleFraction | utils.py:89-106 | the mole fractions have the same keys, in the same order, as the weight fractions |
| Utils.MoleToWtFraction | utils.py:109-126 | the weight fractions have the same keys, in the same order, as the mole fractions |
| Utils.WtToMoleFractionFails | utils.py:104-106 | the conversion fails exactly on a missing or zero molar mass, or on a zero mole total |
| Utils.WtToMoleFractionSumsToOne | utils.py:104-106 | nonempty mole fractions sum to 1 |
| Utils.NormalizeKeepsRatios | utils.py:105-106 | normalising keeps the ratio of any two values: `x_i*d_j == x_j*d_i` |
| Utils.PerMoleAt | utils.py:104 | the moles of element `i` are `w_i / M_i`, under the same key |
| Utils.WtToMoleFractionAt | utils.py:104-106 | the mole fraction of element `i` is its moles over the mole total, which is nonzero |
| Utils.WtToMoleFractionRatio | utils.py:104-106 | mole fractions keep the ratios of the moles `n_i = w_i/M_i`: `x_i*n_j == x_j*n_i` |
| Utils.WtToMoleFractionDefined | utils.py:104-106 | nonnegative weights with a positive sum over positive molar masses always convert |
| Utils.MolesPositive | utils.py:104-105 | nonnegative weights over positive molar masses give a nonnegative mole total, positive when the weights sum to a positive number |
| Utils.MoleToWtFractionSumsToOne | utils.py:124-126 | nonempty weight fractions from a successful conversion sum to 1 |
| Utils.WeightsOfMoleFractions | utils.py:104-124 | weighting mole fractions by molar mass gives the weights divided by the mole total |
| Utils.WeightOfMoleFractionAt | utils.py:104-124 | the same, for the entry of one element: `(w_i/M_i/t)*M_i == w_i/t` under the same key |
| Utils.WtMoleRoundTrip | utils.py:89-126 | round trip: `mole_to_wt_fraction(wt_to_mole_fraction(w))` gives back weights that sum to 1 |
| Utils.CementiteContent | utils.py:129-146 | the cementite percentage times 6.69 is the carbon percentage times 100 |
| Utils.CementiteContentLinear | utils.py:145-146 | the scaling is linear; 0 maps to 0 and 6.69 maps to 100 |
| Utils.FormatComposition | utils.py:149-171 | the Fe-Cr-C form iff 100·CR > 0.01 and 100·C > 0.001; otherwise Fe-C iff 100·C > 0.001; otherwise plain Fe; each form carries the percentages it prints |
| Utils.FormatCarbonFree | utils.py:162-171 | a composition without carbon, `{}` included, gets the plain Fe form (`{}` gives Fe-0) |
| CarbonSteel.CementiteCarbonRoundsTo669 | part_a_carbon_steel.py:20-24 | `M_C/(3·M_FE + M_C)·100` lies strictly between 6.68 and 6.70 |
| CarbonSteel.AnalyzeEutectoid | part_a_carbon_steel.py:537-551 | A6: the ferrite and cementite fractions sum to 1 and balance the carbon at the eutectoid composition |
| CarbonSteel.EutectoidSplitAt076 | part_a_carbon_steel.py:546-551 | at 0.76 wt% C, ferrite lies in (0.5, 1) and cementite in (0, 0.5) |
| CarbonSteel.AnalyzeHypoeutectoid | part_a_carbon_steel.py:638-673 | A7: proeutectoid ferrite + austenite == 1; total ferrite + cementite == 1; eutectoid ferrite + cementite == austenite |
| CarbonSteel.HypoeutectoidPearliteIsEutectoid | part_a_carbon_steel.py:650-673 | the cementite below the eutectoid is the austenite fraction times A6's cementite fraction of pearlite |
| CarbonSteel.HypoeutectoidAt076 | part_a_carbon_steel.py:650-673 | with the eutectoid at 0.76, every A7 fraction, eutectoid ferrite included, lies in (0, 1) |
| CarbonSteel.AnalyzeHypereutectoid | part_a_carbon_steel.py:695-735 | A8: ZeroDivisionError exactly when the eutectoid sits at 0.02; pearlite + proeutectoid cementite == 1; pearlite × cementite-in-pearlite == 0.103; both lever splits sum to 1 |
| CarbonSteel.HypereutectoidInvertsLeverRule | part_a_carbon_steel.py:720-728 | `lever_rule(C_overall, C_eutectoid, C_cementite)[1]` equals the proeutectoid cementite |
| CarbonSteel.HypereutectoidCementiteBalance | part_a_carbon_steel.py:707-735 | the room-temperature cementite is the proeutectoid cementite plus the given 0.103 |
| CarbonSteel.HypereutectoidAt076 | part_a_carbon_steel.py:724-728 | with the literal constants, 0.76 < C_overall < 6.69 and the proeutectoid cementite lies in (0, 1) |
| CarbonSteel.PearliteFraction | part_a_carbon_steel.py:771-781 | the three-branch pearlite rule; no contract of its own (PearliteFractionContinuous, Peak and Bounds state its properties) |
| CarbonSteel.HyperPearlite | part_a_carbon_steel.py:776-778 | the hypereutectoid branch `1 - (C - 0.76)/(6.69 - 0.76)`; no contract of its own |
| CarbonSteel.SeriesEntry | part_a_carbon_steel.py:766-787 | the A9 row for one carbon content: the lever-rule cementite and the pearlite rule, both as percentages; no contract of its own (AnalyzeSteelSeries, SeriesRowBelowFerriteIsNegative) |
| CarbonSteel.PearliteFractionContinuous | part_a_carbon_steel.py:771-781 | each branch formula holds on its side of the eutectoid, and both give 1 at C = 0.76 |
| CarbonSteel.PearliteFractionPeak | part_a_carbon_steel.py:771-781 | the pearlite fraction is at most 1, and equals 1 only at C = 0.76 |
| CarbonSteel.PearliteFractionBounds | part_a_carbon_steel.py:771-781 | between 0.02 and 6.69 wt% C the pearlite fraction lies in [0, 1] |
| CarbonSteel.SeriesRowBelowFerriteIsNegative | part_a_carbon_steel.py:758-787 | no clamping: the 0.0 wt% C row has negative cementite and pearlite percentages |
| CarbonSteel.AnalyzeSteelSeries | part_a_carbon_steel.py:752-787 | A9: one row per carbon content, in input order; cementite = 100 × the right-hand lever fraction on (0.02, 6.69); pearlite follows the branch rule |
| SteelFigures.A7Figure | generate_A6_A7_A8_figures.py:17-31 | the A7 figure's fractions sum to 1 above and below the eutectoid; eutectoid ferrite is positive |
| SteelFigures.A8Figure | generate_A6_A7_A8_figures.py:161-181 | pearlite + proeutectoid cementite == 1; C_overall inverts the lever rule on (0.76, 6.69) and lies inside it; the room-temperature split sums to 1 |
| SteelFigures.FiguresAgreeWithAnalyses | generate_A6_A7_A8_figures.py:11-31 | with the same constants, the A7 and A8 figure values equal those of the part A analyses |
| StainlessSteel.WeightFractions | part_b_stainless_steel.py:163-166 | iron makes up the balance: the three weight fractions sum to 1 |
| StainlessSteel.Moles | part_b_stainless_steel.py:168-171 | the moles times the molar masses give back the weight fractions |
| StainlessSteel.TotalMoles | part_b_stainless_steel.py:172 | `n_total = n_Fe + n_Cr + n_C`; no contract of its own |
| StainlessSteel.Converts | part_b_stainless_steel.py:172-176 | the conversion does not divide by zero: `n_total != 0`; FeCrCMoleFractions succeeds exactly then |
| StainlessSteel.FeCrCMoleFractions | part_b_stainless_steel.py:161-176 | the conversion fails (ZeroDivisionError) exactly on a zero mole total; x_C and x_Cr are the carbon and chromium shares of the moles |
| StainlessSteel.MoleFractionsAgreeWithConversion | part_b_stainless_steel.py:161-176 | the inline conversion agrees with `wt_to_mole_fraction` on {FE, CR, C}: same failure case, same x_Cr and x_C |
| StainlessSteel.MoleFractionsInRange | part_b_stainless_steel.py:161-176 | nonnegative percents summing to at most 100 convert; then x_C, x_Cr ≥ 0 and x_C + x_Cr ≤ 1, strictly below 1 when iron is present |
| StainlessSteel.IsSpace | part_b_stainless_steel.py:192 | the characters Python's `str.isspace` accepts (ASCII and Unicode); no contract of its own |
| StainlessSteel.TrimStart | part_b_stainless_steel.py:192 | the leading-whitespace half of `strip()`; TrimStartSuffix states its contract |
| StainlessSteel.TrimEnd | part_b_stainless_steel.py:192 | the trailing-whitespace half of `strip()`; TrimEndPrefix states its contract |
| StainlessSteel.Strip | part_b_stainless_steel.py:192 | `str(p).strip()`; StripSlice, StripBlank and StripIdempotent state its contract |
| StainlessSteel.TrimStartSuffix | part_b_stainless_steel.py:192 | stripping the start removes only whitespace and leaves a suffix that does not start with whitespace |
| StainlessSteel.TrimEndPrefix | part_b_stainless_steel.py:192 | stripping the end removes only whitespace and leaves a prefix that does not end with whitespace |
| StainlessSteel.StripSlice | part_b_stainless_steel.py:192 | `strip()` leaves a slice of the name that neither starts nor ends with whitespace, and cuts only whitespace |
| StainlessSteel.StripBlank | part_b_stainless_steel.py:192-193 | a name strips to '' exactly when it is all whitespace |
| StainlessSteel.StripIdempotent | part_b_stainless_steel.py:192 | stripping twice is stripping once |
| StainlessSteel.Keeps | part_b_stainless_steel.py:193 | vertex i is kept when its stripped name is nonblank and it has an amount above 1e-6 |
| StainlessSteel.Readable | part_b_stainless_steel.py:190-194 | no nonblank name lacks an amount, so the filter raises no IndexError |
| StainlessSteel.KeptNames | part_b_stainless_steel.py:190-194 | the names the filter appends; KeptNamesAtKeptIndices states its contract |
| StainlessSteel.KeptIndices | part_b_stainless_steel.py:190-194 | the kept vertices are exactly those with a nonblank name and an amount above 1e-6, in increasing order |
| StainlessSteel.KeptNamesAtKeptIndices | part_b_stainless_steel.py:190-194 | the kept names are the stripped names at the kept vertices, in order |
| StainlessSteel.PhaseFilter | part_b_stainless_steel.py:190-194 | the filter fails (IndexError) exactly when a nonblank name has no amount; otherwise every kept name is nonblank |
| StainlessSteel.FilterPhases | part_b_stainless_steel.py:190-194 | the loop returns exactly what the filter specifies |
| StainlessSteel.Join | part_b_stainless_steel.py:199 | `sep.join(names)` (also the `', '.join` at line 345); SplitJoin shows that a `'+'` join loses nothing |
| StainlessSteel.SplitOn | part_b_stainless_steel.py:199 | splitting on one character, used to read a label back; there is always at least one piece |
| StainlessSteel.SplitOnPrefix | part_b_stainless_steel.py:199 | splitting a separator-free piece followed by more text extends the first part |
| StainlessSteel.SplitJoin | part_b_stainless_steel.py:199 | splitting a `'+'.join` on '+' gives back the names when none of them contains '+' |
| StainlessSteel.GridLabel | part_b_stainless_steel.py:196-208 | the B1 label of a solver outcome; GridLabelListsPhases states its contract |
| StainlessSteel.GridCell | part_b_stainless_steel.py:159-208 | the row of one (carbon, temperature) cell, for a convertible carbon content; GridStep and GridRowAt state what it is used for |
| StainlessSteel.GridConvertible | part_b_stainless_steel.py:156-176 | every grid carbon content converts at this Cr content; PhaseGrid aborts exactly when it fails |
| StainlessSteel.GridLabelListsPhases | part_b_stainless_steel.py:196-208 | the label is 'ERROR' on a solver failure or IndexError and 'NONE' when no phase is kept; otherwise it reads back as the kept names |
| StainlessSteel.GridLine | part_b_stainless_steel.py:158-200 | one row per temperature for each carbon content |
| StainlessSteel.GridRows | part_b_stainless_steel.py:157-208 | the first n carbon contents give 11·n rows |
| StainlessSteel.GridStep | part_b_stainless_steel.py:159-208 | one cell of the grid: fails exactly when the conversion divides by zero, and otherwise gives the row for that carbon content and temperature |
| StainlessSteel.GridLineRows | part_b_stainless_steel.py:158-208 | the inner loop yields the row for each temperature in order, or fails on the conversion |
| StainlessSteel.PhaseGrid | part_b_stainless_steel.py:155-208 | B1: aborts exactly when some grid carbon content does not convert; otherwise gives the 121 rows, carbon-major |
| StainlessSteel.GridRowAt | part_b_stainless_steel.py:157-208 | row 11·i + j is the cell for carbon content i and temperature j |
| StainlessSteel.GridCompletes | part_b_stainless_steel.py:161-176 | for 0 ≤ Cr ≤ 95 wt% (the script's 12.5 among them) the grid always completes |
| StainlessSteel.GridAbortsAtZeroMoleTotal | part_b_stainless_steel.py:164-176 | the abort path is reachable: at Cr = -519960/384.9 wt% the carbon-free alloy's mole total is zero |
| StainlessSteel.AlloyRowFor | part_b_stainless_steel.py:337-356 | a solver failure or IndexError gives the calculation-error row with count 0; otherwise the count is the number of kept names and the label is their ', ' join, or 'Single phase' when there are none |
| StainlessSteel.B2AlloysConvert | part_b_stainless_steel.py:277-304 | all four B2 alloys convert without dividing by zero |
| StainlessSteel.AnalyzeAlloys | part_b_stainless_steel.py:288-356 | B2: one row per alloy, in order, each built from the solver's outcome at that alloy's mole fractions |
| StainlessSteel.TernaryToCartesian | part_b_stainless_steel.py:380-381 | `x = (Cr + C/2)/100`, `y = (C·√3/2)/100`; TernaryRoundTrip, TernaryCorners and TernaryInTriangle state its contract |
| StainlessSteel.TernaryRoundTrip | part_b_stainless_steel.py:373-381 | the map is one to one: the Cr and C percents can be read back from the plotted point |
| StainlessSteel.TernaryCorners | part_b_stainless_steel.py:363-381 | pure Fe, pure Cr and pure C land on the triangle's vertices (0, 0), (1, 0) and (1/2, √3/2) |
| StainlessSteel.TernaryInTriangle | part_b_stainless_steel.py:373-381 | a point lies in the drawn triangle exactly when no element amount (the iron balance included) is negative |
| StainlessSteel.TriangleEquilateral | part_b_stainless_steel.py:363 | with √3·√3 = 3, the drawn triangle is equilateral with side 1 |

## Left out

- `quadratic_fit` (utils.py): a wrapper over a foreign nonlinear least-squares fitter.
- `find_eutectic_point` and `find_eutectoid_point` (utils.py): stubs with empty bodies.
- The equilibrium solver and the thermodynamic database text, loading and writing:
  - they are foreign code plus file I/O;
  - the solver is the parameter `Solver`;
  - the list of phases passed to it, filtered against the database, is not modelled.
- `find_critical_points`: the model uses the eutectoid composition 0.76 wt% it returns.
- Everything else that only prints or draws:
  - plotting, `save_plot` and `print_section_header`;
  - the CSV/text writes;
  - the literature tables and narrative printouts;
  - the printout of the 1350 K isotherm;
  - the A3 critical-point tables;
  - the eutectoid temperature arguments, used only for printing;
  - the ternary plot's point labels.
- Floating-point rounding and the `%.2f`/`%.4f` text formatting: reals are exact.
- Utils.FormatComposition: returns the template and the percentages it prints, not the formatted text.
- `phase_compositions` in B2: whichever way its inner `try` ends, it appends the same name as `phase_names`, so it duplicates that list and is not kept.
- The shapes of the solver's arrays. The model sees the squeezed arrays as flat sequences of names and amounts; NaN amounts and 0-dimensional arrays are not modelled.
- StainlessSteel.TernaryCorners: √3 is the parameter `sqrt3`, not the square root itself. TriangleEquilateral assumes `sqrt3 * sqrt3 == 3`.
- `part_b_simplified.py`: schematic plotting over literal tables. Its only computation is the same ternary map.
- `run_all.py` (an interactive menu) and `test_setup.py` (import and installation checks).
