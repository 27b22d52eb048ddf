# Chemical formula composition and parse-tree fold, in Dafny

This project models the core of `chemical-formula-rs`, a Rust library that
reads chemical formulas such as `SiO2`, `Pt5wt%/SiO2` or
`(Pt5wt%SiO2)50wt%(Au5wt%/SiO2)50wt%` and converts between amounts of
substance and mass percents. It covers two parts:

- `ChemicalFormula` (src/element.rs). A formula is a set of elements, a
  molar map (`stoichiometry`) and a mass map (`wt_percent`). The project
  models its builders (`add_element`, `add_wt_percent`, `multiply`,
  `add_formula`) and its conversions (`to_molecular_formula`,
  `molecular_weight`, `to_wt`, `to_wt_percent`, `to_mol_percent`,
  `multiply_wt_percent`). It also models the element table: `from_str` and
  the atomic weights.
- `parse_formula_pairs` (src/parser.rs). This fold turns a parse tree into
  a `ChemicalFormula`.

Layout:

- `elements.dfy` (module `Elements`): the 118 element symbols and the
  `None` sentinel, `from_str` with its round trip, and the atomic-weight
  table.
- `composition.dfy` (module `Composition`): every `ChemicalFormula`
  operation as a function from the old value to the new value or to an
  error, with contracts that state keys, per-element amounts, totals and
  error conditions.
- `formulas.dfy` (module `Formulas`): the class `ChemicalFormula`. Its
  fields are updated in place by the source's loops, and each method is
  proved against the function in `Composition`.
- `properties.dfy` (module `Properties`) and `roundtrip.dfy` (module
  `RoundTrip`): what the operations promise.
  - Builders add their amount to the totals.
  - `to_wt` and `multiply_wt_percent` normalise to 100 and to `n`.
  - `to_wt_percent` and `to_mol_percent` normalise to 100.
  - The round trip: convert mass percents to amounts of substance, convert
    back with `to_wt` or `to_wt_percent`, and the stated mass percents come
    back unchanged.
- `parser.dfy` (module `Parser`): the tree fold as functions, and as an
  in-place procedure proved equal to them. It also holds the fold's
  algebra:
  - appending a child to a `formula` node;
  - an `EOI` child adds nothing;
  - an empty stoichiometry stops a group;
  - a number suffix multiplies the group;
  - a `wt%` suffix rescales the group to that mass total.
- `scenarios.dfy` (module `Scenarios`): the unit tests of both source
  files, each proved as a lemma with exact values.

Numbers are exact reals. A Rust division by zero that would continue with
an infinity or a NaN becomes `Err(NonFinite)`. A panic through `unwrap` in
the fold becomes the `Err` that was unwrapped.

## Model

| member | source | states |
|---|---|---|
| Elements.FromStr | src/element.rs:286-408 | the result is `None` or the element whose symbol is exactly the input string |
| Elements.FromStrName | src/element.rs:162-408 | `from_str` gives back every element from its own symbol |
| Elements.AtomicWeight | src/element.rs:38-159 | the sentinel `None` weighs 0 and every real element weighs more than 0 |
| Elements.AtomicWeightRow | src/element.rs:38-159 | the weight of each element is the value on its row of the weight table |
| Elements.MassOfMoles | src/element.rs:410-412 | dividing a mass by the atomic weight, then multiplying back, gives the mass again |
| Composition.Merge | src/element.rs:628-646 | the merged map has the keys of both maps; each element's amount is the sum of both amounts; the total is the sum of both totals |
| Composition.AddElement | src/element.rs:430-439 | adds the element to the set and adds `n` to its molar amount (inserting it when absent); leaves the mass map alone |
| Composition.AddWtPercent | src/element.rs:441-449 | adds the element to the set and adds `n` to its mass percent; leaves the molar map alone |
| Composition.Multiply | src/element.rs:451-460 | keeps the element set and the keys of both maps |
| Composition.AddFormula | src/element.rs:628-647 | the element set gains the keys of the other formula's maps; amounts and totals add up key by key in both maps |
| Composition.ToMolecular | src/element.rs:462-515 | returns the formula unchanged without mass percents; overflow exactly when the mass percents sum over 100; a non-finite result exactly at a zero residue, a `None` mass entry or zero moles; otherwise a molar map over all keys, an empty mass map, and untouched amounts for molar-only elements |
| Composition.MolecularWeight | src/element.rs:535-545 | fails exactly when the molar conversion fails; otherwise the sum of the masses of the molar formula |
| Composition.ToWt | src/element.rs:547-569 | returns the formula unchanged without molar amounts; passes on the molar conversion's error; overflow exactly when there are molar amounts and the mass percents sum over 100; otherwise only mass percents, over all keys |
| Composition.ToWtPercent | src/element.rs:571-579 | passes on the errors of `to_wt`; keeps its keys and element set; an empty molar map |
| Composition.ToMolPercent | src/element.rs:517-533 | passes on the molar conversion's error; gives the new, empty formula when the formula has neither molar amounts nor mass percents; otherwise an empty mass map |
| Composition.MultiplyWtPercent | src/element.rs:602-626 | passes on the molar conversion's error; overflow exactly when the mass percents sum over 100; otherwise only mass values, over all keys of both maps |
| Composition.MainWeight | src/element.rs:479-491 | the main molecular weight per mole of the mass-percent part is the residue's weight per residue percent |
| Properties.AddElementSum | src/element.rs:430-439 | `add_element(e, n)` adds `n` to the molar total |
| Properties.AddWtPercentSum | src/element.rs:441-449 | `add_wt_percent(e, n)` adds `n` to the mass total |
| Properties.MultiplyValues | src/element.rs:451-460 | `multiply(k)` multiplies every value and both totals by `k` |
| Properties.MolecularWeightAdds | src/element.rs:535-545 | for formulas without mass percents, the molecular weight of `add_formula` is the sum of the two molecular weights |
| Properties.ToWtSum | src/element.rs:547-569 | whenever `to_wt` converts molar amounts, the mass percents sum to 100 |
| Properties.MultiplyWtPercentSum | src/element.rs:602-626 | the mass values of `multiply_wt_percent(n)` sum to `n` |
| Properties.WtNormalised | src/element.rs:571-579 | rescaling by 100 over the mass total keeps the keys and each value's proportion, and makes the values sum to 100 |
| Properties.ToWtPercentSum | src/element.rs:571-579 | `to_wt_percent` is `to_wt` with every value multiplied by the one factor 100 over the mass total (or `to_wt` itself when that total is 0, which happens only with no mass percents); it keeps the keys of `to_wt`, and its mass percents sum to 100 when there are any |
| Properties.ToMolPercentSum | src/element.rs:517-533 | for a formula whose molar form has a nonzero total, `to_mol_percent` is that molar form with every amount multiplied by the one factor 100 over the total; it keeps the element set, takes the keys of both maps, and its molar amounts sum to 100 |
| Properties.ScaleHundred | src/element.rs:571-579 | rescaling mass percents that already sum to 100 changes nothing |
| Properties.MolecularMultipliesAmount | src/element.rs:462-515 | an element with molar amount `x` and mass percent `w` under 100 ends `to_molecular_formula` with `x` times its coefficient `x·w/(100−w)`, not with the sum of the two |
| Properties.HalfByMassKept | src/element.rs:495-508 | one mole of an element that is also 50 % by mass keeps one mole, where adding the coefficient would give two |
| RoundTrip.MolecularComposite | src/element.rs:462-515 | with disjoint maps and mass percents under 100, the molar result's masses are the original masses plus mass shares in proportion to the stated percents |
| RoundTrip.CompositeWt | src/element.rs:547-569 | converting such masses back gives every stated mass percent, and molar-only elements their share of the rest |
| RoundTrip.WtRoundTrip | src/element.rs:462-569 | `to_wt` after the molar conversion gives back every stated mass percent |
| RoundTrip.MultiplyWtPercentRoundTrip | src/element.rs:602-626 | `multiply_wt_percent(n)` gives each stated mass percent times `n / 100` |
| RoundTrip.WtPercentRoundTrip | src/element.rs:547-579 | `to_wt_percent` equals `to_wt` and gives back every stated mass percent |
| Formulas.ScaleEach | src/element.rs:451-460 | the loop over the map multiplies every value by `k` |
| Formulas.AccumulateEach | src/element.rs:628-646 | the loop adds each entry to the map and its key to the set, giving the key-wise sum |
| Formulas.WtRatioSums | src/element.rs:467-473 | the first loop of `to_molecular_formula` gives the mass-percent total, and it yields a finite amount-of-substance total exactly when `None` has no mass entry, in which case that total is the sum of the amounts |
| Formulas.MolecularInsert | src/element.rs:493-508 | the insert loop multiplies existing molar amounts by the coefficient and inserts it elsewhere |
| Formulas.MassSum | src/element.rs:541-544 | the loop over a molar map gives the sum of the masses of its elements |
| Formulas.WtRatios | src/element.rs:557-562 | the loop of `to_wt` gives each element's mass percent of the molecular weight |
| Formulas.ScaledWtRatios | src/element.rs:609-614 | the loop of `multiply_wt_percent` gives each element's mass fraction times the multiplier |
| Formulas.ChemicalFormula.constructor | src/element.rs:423-429 | a new formula is empty |
| Formulas.ChemicalFormula.AddElement | src/element.rs:430-439 | updates the object to the value of `add_element` |
| Formulas.ChemicalFormula.AddWtPercent | src/element.rs:441-449 | updates the object to the value of `add_wt_percent` |
| Formulas.ChemicalFormula.Multiply | src/element.rs:451-460 | updates both maps in place to the value of `multiply` |
| Formulas.ChemicalFormula.AddFormula | src/element.rs:628-647 | updates the object to the value of `add_formula` |
| Formulas.ChemicalFormula.ToMolecularFormula | src/element.rs:462-515 | the loops compute the molar conversion without changing the object |
| Formulas.ChemicalFormula.MolecularWeight | src/element.rs:535-545 | computes the molecular weight: the molar conversion when there are mass percents, then the mass-sum loop over the molar map |
| Formulas.ChemicalFormula.ToWt | src/element.rs:547-569 | the loop computes `to_wt` |
| Formulas.ChemicalFormula.ToWtPercent | src/element.rs:571-579 | computes `to_wt_percent` |
| Formulas.ChemicalFormula.ToMolPercent | src/element.rs:517-533 | computes `to_mol_percent` |
| Formulas.ChemicalFormula.MultiplyWtPercent | src/element.rs:602-626 | on success the object is replaced by the converted formula; on error the object is unchanged and the error is returned |
| Parser.ElementLeaf | src/parser.rs:81-117 | an `element` node gives a one-element formula: amount 1 without a suffix, the number with one, or the mass percent with `wt%` |
| Parser.ElementInPlace | src/parser.rs:81-117 | the arm builds that formula on a fresh object |
| Parser.ParseFormulaPairsInPlace | src/parser.rs:32-128 | the recursive procedure, with its in-place group loop, computes the fold |
| Parser.FormulaAppend | src/parser.rs:34-38 | one more child of a `formula` node adds its formula to the others, or passes on the first error |
| Parser.FormulaEOI | src/parser.rs:118 | an `EOI` child adds nothing to a formula |
| Parser.GroupAppend | src/parser.rs:39-80 | a group that has not stopped folds its next item into what it has so far |
| Parser.GroupStops | src/parser.rs:46-51 | an empty stoichiometry ends the group; the items after it are ignored |
| Parser.GroupNumber | src/parser.rs:56-58 | a number suffix multiplies the group formula so far |
| Parser.GroupWtPercent | src/parser.rs:59-71 | a `wt%` suffix replaces the group by `multiply_wt_percent(n)`, whose mass values sum to `n` |
| Scenarios.OHNBuilt | src/element.rs:657-664 | the builder chain gives O 1 and mass percents H 10 and N 20 |
| Scenarios.OxygenWithPercents | src/element.rs:657-697 | for any positive O amount and mass percents summing under 100, the molar conversion keeps O and `to_wt_percent` gives back both percents |
| Scenarios.OHNMolecularAndPercent | src/element.rs:657-697 | O stays 1 in the molar conversion; `to_wt_percent` gives H 10 and N 20 |
| Scenarios.PercentsOnly | src/element.rs:699-744 | with mass percents only, the molar conversion succeeds and gives both H and N a molar amount, `to_wt` changes nothing, and `to_wt_percent` gives H 100/3 and N 200/3 |
| Scenarios.OxygenOnly | src/element.rs:746-769 | O alone stays as it is, and is 100 % of the mass |
| Scenarios.OHNDoubled | src/element.rs:771-862 | adding the formula to itself and multiplying it by 2 both give O 2, H 20 and N 40 |
| Scenarios.OHNDoubledConverted | src/element.rs:771-862 | that formula keeps O 2 in the molar conversion and gives back H 20 and N 40 |
| Scenarios.OHNWtMultiplied | src/element.rs:865-884 | `multiply_wt_percent(2)` gives H 0.2 and N 0.4 |
| Scenarios.OHNWtMultipliedPercent | src/element.rs:886-898 | after that, `to_wt_percent` gives back H 10 and N 20 |
| Scenarios.SilicaParsed | src/parser.rs:159-171 | the tree for `SiO2` folds to Si 1, O 2 |
| Scenarios.SiO2Parsed | src/parser.rs:159-171 | the same for the literal symbols `Si` and `O` |
| Scenarios.SiO2Weight | src/parser.rs:159-171 | its molecular weight is 60.083 |
| Scenarios.MetalOnSilicaParsed | src/parser.rs:174-194 | the tree for `x5wt%/SiO2` folds to Si 1, O 2 and 5 % of `x` |
| Scenarios.PtOnSilicaParsed | src/parser.rs:174-194 | the same for platinum |
| Scenarios.MetalOnSilicaPercent | src/parser.rs:174-194 | its mass percents give 5 for the metal and 95 for Si and O together |
| Scenarios.PtOnSilicaPercent | src/parser.rs:174-194 | the same for platinum |
| Scenarios.MetalOnSilicaGroup | src/parser.rs:39-80 | the group `(x5wt%SiO2)50wt%` folds to `multiply_wt_percent(50)` of 5 % `x` on silica |
| Scenarios.MetalOnSilicaHalved | src/element.rs:602-626 | that gives mass values only: 2.5 of the metal, 50 in all |
| Scenarios.TwoMetalsParsed | src/parser.rs:197-224 | two such groups, for any two metals, fold to mass percents only, with 2.5 of each metal and 95 for Si and O, which `to_wt_percent` keeps |
| Scenarios.NestedParsed | src/parser.rs:197-224 | the same for platinum and gold |

## Left out

- The pest grammar (`formula.pest`) and the building of the parse tree are
  not part of this model. The fold takes the tree as an input, with one
  node kind for each arm it matches.
- `parse_formula` (src/parser.rs:144-148) is left out. It only runs the
  generated parser and folds the root pair, so it is the grammar plus
  `ParseFormulaPairs`.
- Number literals are not parsed from text. Tree leaves hold reals
  already. So the `unwrap_or(1.0)` of an element's number, and the panic
  of a group's number that fails to parse, are not modelled.
- `f64` is modelled as exact reals. Rounding and the tests' tolerances are
  not modelled, so the scenario lemmas state exact equalities.
- A division by zero gives `Err(NonFinite)` instead of an infinity or a
  NaN carried in `Ok`. This covers a zero residue, a `None` mass entry, and
  zero moles or molecular weight.
- The `.unwrap()` inside `molecular_weight` and after
  `multiply_wt_percent` in the group arm is modelled as returning the
  error rather than panicking.
- `HashMap` and `HashSet` iteration order is not modelled. Maps and sets
  are unordered, and each loop is proved for every order.
- The Display and Error impls of `FormulaError` are left out. So are the
  variants `FileIOError`, `FileParseError` and `NoFormula`, since the core
  never returns them.
- src/lib.rs, src/main.rs and src/prelude.rs hold documentation, I/O and
  re-exports only, and are not part of this model.
- RoundTrip.WtRoundTrip: states only the mass-percent elements. The values
  for molar-only elements (their share of the rest) are proved over
  abstract maps in RoundTrip.CompositeWt.
- Composition.Multiply: its contract states keys only. The values and
  totals are in Properties.MultiplyValues.
- Composition.ToMolPercent and Composition.ToWtPercent: their contracts
  give error passthrough, the empty case and shape. The rescaling by 100
  over the total, and the sum of 100, are in Properties.ToMolPercentSum and
  Properties.ToWtPercentSum.
- Groups hold only `element` and `stoichiometry` children, as in the
  code's `unreachable!()` arm. A nested group inside a group is treated as
  unreachable, as the code does.
- Kept as written:
  - `to_molecular_formula` MULTIPLIES an existing molar amount by the
    coefficient instead of adding to it (Properties.MolecularMultipliesAmount).
  - `add_formula` adds the other formula's map keys to the element set,
    not its element set.
