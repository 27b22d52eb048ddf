/** The composition algebra of `ChemicalFormula` (src/element.rs), on values.

    A formula is an element set, a molar map (`stoichiometry`: element to
    amount of substance) and a mass map (`wtPercent`: element to weight
    percent). Every operation of the source is specified here as a function
    from the old value to the new one (or to an error); the class in
    formulas.dfy performs the same operations in place and is proved against
    these functions.

    Numbers are exact reals. Where the source divides by zero in f64 and
    carries on with an infinity or a NaN, the model returns `Err(NonFinite)`;
    where it panics through `unwrap`, the model returns the error it
    unwrapped. */
module Composition {
  import opened Elements

  /** `FormulaError::WeightPercentOverflow`, plus `NonFinite` for a result
      that the source computes with a division by zero. */
  datatype FormulaError = WeightPercentOverflow | NonFinite

  datatype Result<T> = Ok(value: T) | Err(error: FormulaError)

  /** An element-keyed map of amounts (the source's `HashMap<ElementSymbol, f64>`). */
  type Amounts = map<ElementSymbol, real>

  datatype Formula = Formula(element: set<ElementSymbol>, stoichiometry: Amounts, wtPercent: Amounts)

  /** `ChemicalFormula::new()`. */
  function Empty(): Formula
  {
    Formula({}, map[], map[])
  }

  /** The element set is exactly the set of elements that have an entry in
      one of the two maps. Every operation keeps this. */
  predicate Consistent(f: Formula)
  {
    f.element == f.stoichiometry.Keys + f.wtPercent.Keys
  }

  /** The amount of `e` in `m`, zero when absent. */
  function Get(m: Amounts, e: ElementSymbol): real
  {
    if e in m then m[e] else 0.0
  }

  // ---------------------------------------------------------------------
  // Sums over maps. The source folds over a HashMap in its iteration order;
  // with exact arithmetic the order does not matter, so the sum runs over
  // the atomic numbers from k up to 118.

  function SumFrom(m: Amounts, k: int): real
    requires 0 <= k <= 119
    decreases 119 - k, |m|  // |m| keeps a literal k alone from unrolling the sum
  {
    if k == 119 then 0.0 else Get(m, k as ElementSymbol) + SumFrom(m, k + 1)
  }

  /** The sum of all values of `m`. */
  function Sum(m: Amounts): real
  {
    SumFrom(m, 0)
  }

  lemma {:induction false} SumFromAdd(a: Amounts, b: Amounts, c: Amounts, k: int)
    requires 0 <= k <= 119
    requires forall e: ElementSymbol :: Get(c, e) == Get(a, e) + Get(b, e)
    ensures SumFrom(c, k) == SumFrom(a, k) + SumFrom(b, k)
    decreases 119 - k
  {
    if k < 119 {
      SumFromAdd(a, b, c, k + 1);
    }
  }

  /** If `c` is pointwise `a + b` then its sum is the sum of theirs. */
  lemma SumAdd(a: Amounts, b: Amounts, c: Amounts)
    requires forall e: ElementSymbol :: Get(c, e) == Get(a, e) + Get(b, e)
    ensures Sum(c) == Sum(a) + Sum(b)
  {
    SumFromAdd(a, b, c, 0);
  }

  lemma Distribute(s: real, x: real, y: real)
    ensures s * (x + y) == s * x + s * y
  {
  }

  lemma {:induction false} SumFromScale(a: Amounts, c: Amounts, s: real, k: int)
    requires 0 <= k <= 119
    requires forall e: ElementSymbol :: Get(c, e) == s * Get(a, e)
    ensures SumFrom(c, k) == s * SumFrom(a, k)
    decreases 119 - k
  {
    if k < 119 {
      SumFromScale(a, c, s, k + 1);
      Distribute(s, Get(a, k as ElementSymbol), SumFrom(a, k + 1));
    }
  }

  /** If `c` is pointwise `s` times `a` then so is its sum. */
  lemma SumScale(a: Amounts, c: Amounts, s: real)
    requires forall e: ElementSymbol :: Get(c, e) == s * Get(a, e)
    ensures Sum(c) == s * Sum(a)
  {
    SumFromScale(a, c, s, 0);
  }

  lemma {:induction false} SumFromSingleton(e: ElementSymbol, v: real, k: int)
    requires 0 <= k <= 119
    ensures SumFrom(map[e := v], k) == if k <= e as int then v else 0.0
    decreases 119 - k
  {
    if k < 119 {
      SumFromSingleton(e, v, k + 1);
    }
  }

  lemma SumEmpty()
    ensures Sum(map[]) == 0.0
  {
    SumAdd(map[], map[], map[]);
  }

  /** Taking one entry out of a map takes its value out of the sum. */
  lemma SumRemove(m: Amounts, e: ElementSymbol)
    requires e in m
    ensures Sum(m) == m[e] + Sum(m - {e})
  {
    SumAdd(m - {e}, map[e := m[e]], m);
    SumFromSingleton(e, m[e], 0);
  }

  /** Adding a new entry to a map adds its value to the sum. */
  lemma SumInsert(m: Amounts, e: ElementSymbol, v: real)
    requires e !in m
    ensures Sum(m[e := v]) == Sum(m) + v
  {
    SumRemove(m[e := v], e);
    assert m[e := v] - {e} == m;
  }

  lemma {:induction false} SumFromNonNegative(m: Amounts, k: int)
    requires 0 <= k <= 119
    requires forall e :: e in m ==> m[e] >= 0.0
    ensures SumFrom(m, k) >= 0.0
    decreases 119 - k
  {
    if k < 119 {
      SumFromNonNegative(m, k + 1);
    }
  }

  /** A non-empty map of positive values has a positive sum. */
  lemma SumPositive(m: Amounts)
    requires |m| > 0
    requires forall e :: e in m ==> m[e] > 0.0
    ensures Sum(m) > 0.0
  {
    var e :| e in m;
    SumRemove(m, e);
    SumFromNonNegative(m - {e}, 0);
  }

  // ---------------------------------------------------------------------
  // Maps built from maps.

  /** `m` with every value multiplied by `k` (the `iter_mut` loops of `multiply`). */
  function Scale(m: Amounts, k: real): (r: Amounts)
    ensures r.Keys == m.Keys
  {
    map e | e in m :: m[e] * k
  }

  /** Scaling every value scales the sum. */
  lemma ScaleSum(m: Amounts, k: real)
    ensures Sum(Scale(m, k)) == k * Sum(m)
  {
    SumScale(m, Scale(m, k), k);
  }

  /** The entry-by-entry accumulation `entry(e).and_modify(|x| *x += v).or_insert(v)`
      of every entry of `b` into `a`. */
  function Merge(a: Amounts, b: Amounts): (r: Amounts)
    ensures r.Keys == a.Keys + b.Keys
    ensures forall e :: Get(r, e) == Get(a, e) + Get(b, e)
    ensures Sum(r) == Sum(a) + Sum(b)
  {
    var r := map e | e in a.Keys + b.Keys :: if e in b then (if e in a then a[e] + b[e] else b[e]) else a[e];
    SumAdd(a, b, r);
    r
  }

  /** The mass of each element of a molar map: weight times amount
      (`ATOMIC_WEIGHT[element] * stoichiometry`). */
  function Masses(m: Amounts): (r: Amounts)
    ensures r.Keys == m.Keys
  {
    map e | e in m :: Mass(e, m[e])
  }

  /** The amount of substance of each element of a mass map that has a
      non-zero atomic weight: mass divided by weight. */
  function Moles(w: Amounts): (r: Amounts)
    ensures r.Keys == w.Keys - {None}
  {
    map e | e in w && e != None :: MolesIn(e, w[e])
  }

  // ---------------------------------------------------------------------
  // The in-place builders, as functions of the old value.

  /** `add_element(e, n)`: adds `n` to the molar amount of `e`. */
  function AddElement(f: Formula, e: ElementSymbol, n: real): (r: Formula)
    ensures r.element == f.element + {e}
    ensures r.stoichiometry.Keys == f.stoichiometry.Keys + {e}
    ensures forall x :: Get(r.stoichiometry, x) == Get(f.stoichiometry, x) + (if x == e then n else 0.0)
    ensures r.wtPercent == f.wtPercent
    ensures Consistent(f) ==> Consistent(r)
  {
    var amount := if e in f.stoichiometry then f.stoichiometry[e] + n else n;
    Formula(f.element + {e}, f.stoichiometry[e := amount], f.wtPercent)
  }

  /** `add_wt_percent(e, n)`: adds `n` to the weight percent of `e`. */
  function AddWtPercent(f: Formula, e: ElementSymbol, n: real): (r: Formula)
    ensures r.element == f.element + {e}
    ensures r.wtPercent.Keys == f.wtPercent.Keys + {e}
    ensures forall x :: Get(r.wtPercent, x) == Get(f.wtPercent, x) + (if x == e then n else 0.0)
    ensures r.stoichiometry == f.stoichiometry
    ensures Consistent(f) ==> Consistent(r)
  {
    var amount := if e in f.wtPercent then f.wtPercent[e] + n else n;
    Formula(f.element + {e}, f.stoichiometry, f.wtPercent[e := amount])
  }

  /** `multiply(k)`: every molar and every mass value times `k`. */
  function Multiply(f: Formula, k: real): (r: Formula)
    ensures r.element == f.element
    ensures r.stoichiometry.Keys == f.stoichiometry.Keys && r.wtPercent.Keys == f.wtPercent.Keys
    ensures Consistent(f) ==> Consistent(r)
  {
    Formula(f.element, Scale(f.stoichiometry, k), Scale(f.wtPercent, k))
  }

  /** `add_formula(g)`: accumulates both maps of `g` into `f`. The element
      set gains the keys of `g`'s maps, not `g`'s element set itself; the two
      agree when `g` is consistent. */
  function AddFormula(f: Formula, g: Formula): (r: Formula)
    ensures r.element == f.element + g.stoichiometry.Keys + g.wtPercent.Keys
    ensures Consistent(g) ==> r.element == f.element + g.element
    ensures forall e :: Get(r.stoichiometry, e) == Get(f.stoichiometry, e) + Get(g.stoichiometry, e)
    ensures forall e :: Get(r.wtPercent, e) == Get(f.wtPercent, e) + Get(g.wtPercent, e)
    ensures Sum(r.stoichiometry) == Sum(f.stoichiometry) + Sum(g.stoichiometry)
    ensures Sum(r.wtPercent) == Sum(f.wtPercent) + Sum(g.wtPercent)
    ensures Consistent(f) ==> Consistent(r)
  {
    Formula(f.element + g.stoichiometry.Keys + g.wtPercent.Keys,
            Merge(f.stoichiometry, g.stoichiometry), Merge(f.wtPercent, g.wtPercent))
  }

  // ---------------------------------------------------------------------
  // The conversions.

  /** The amount of substance given to a mass-percent element `e` of mass
      `w` by `to_molecular_formula`: `mwMain * w`, divided by the atomic
      weight of `e` and by `molSum`. The source divides by the weight first;
      with exact numbers the order of the two divisions does not matter. */
  function Coefficient(e: ElementSymbol, w: real, mwMain: real, molSum: real): real
    requires e != None && molSum != 0.0
  {
    MolesIn(e, mwMain * w / molSum)
  }

  /** The coefficients of the mass-percent entries `w`: each element's
      amount `Coefficient(e, w[e], mwMain, molSum)`. */
  function Coefficients(w: Amounts, mwMain: real, molSum: real): (r: Amounts)
    requires None !in w && molSum != 0.0
    ensures r.Keys == w.Keys
  {
    map e | e in w :: Coefficient(e, w[e], mwMain, molSum)
  }

  /** The molar map built by `to_molecular_formula` from the molar map `m`
      and the coefficients `c`: a copy of `m` in which every element of `c`
      gets its coefficient. An element that already has a molar amount has it
      MULTIPLIED by the coefficient, as the source does (`*e *= ...`), rather
      than added to. */
  function Molecular(m: Amounts, c: Amounts): (r: Amounts)
    ensures r.Keys == m.Keys + c.Keys
    ensures forall e :: e in m && e !in c ==> r[e] == m[e]
  {
    map e | e in m.Keys + c.Keys :: if e in c then (if e in m then m[e] * c[e] else c[e]) else m[e]
  }

  /** The molecular weight `to_molecular_formula` gives the molar part: 100
      when there is none, else the sum of its masses. */
  function ResidueWeight(m: Amounts): real
  {
    if |m| == 0 then 100.0 else Sum(Masses(m))
  }

  /** `residue` of `to_molecular_formula`: the percent of the total mass
      that the mass-percent entries leave to the molar part. */
  function Residue(w: Amounts): real
  {
    100.0 - Sum(w)
  }

  /** `molecular_weight_main` of `to_molecular_formula`: the weight of the
      molar part times the molar sum of the mass part, over the `residue`
      percent that the mass part leaves to the molar part. Each mole of the
      mass part then carries `residueWeight / residue` of mass. */
  function MainWeight(residueWeight: real, molSum: real, residue: real): (r: real)
    requires residue != 0.0
    ensures molSum != 0.0 ==> r / molSum == residueWeight / residue
  {
    assert molSum != 0.0 ==> residueWeight * molSum / residue == residueWeight / residue * molSum;
    residueWeight * molSum / residue
  }

  /** `to_molecular_formula()`: turns every mass-percent entry into a molar
      amount, taking the molar part to make up the rest of the 100 percent. */
  function ToMolecular(f: Formula): (r: Result<Formula>)
    ensures |f.wtPercent| == 0 ==> r == Ok(f)
    ensures r == Err(WeightPercentOverflow) <==> |f.wtPercent| > 0 && Sum(f.wtPercent) > 100.0
    ensures r == Err(NonFinite) <==>
      |f.wtPercent| > 0 && Sum(f.wtPercent) <= 100.0 &&
      (None in f.wtPercent || Sum(f.wtPercent) == 100.0 || Sum(Moles(f.wtPercent)) == 0.0)
    ensures r.Ok? ==> r.value.element == f.element
    ensures r.Ok? ==> |r.value.wtPercent| == 0
    ensures r.Ok? ==> r.value.stoichiometry.Keys == f.stoichiometry.Keys + f.wtPercent.Keys
    ensures r.Ok? ==> forall e :: e in f.stoichiometry && e !in f.wtPercent ==>
      r.value.stoichiometry[e] == f.stoichiometry[e]
    ensures r.Ok? && Consistent(f) ==> Consistent(r.value)
  {
    if |f.wtPercent| == 0 then Ok(f)
    else
      var wtSum := Sum(f.wtPercent);
      if wtSum > 100.0 then Err(WeightPercentOverflow)
      else if None in f.wtPercent || wtSum == 100.0 then Err(NonFinite)
      else
        var molSum := Sum(Moles(f.wtPercent));
        if molSum == 0.0 then Err(NonFinite)
        else
          var mwMain := MainWeight(ResidueWeight(f.stoichiometry), molSum, Residue(f.wtPercent));
          Ok(Formula(f.element, Molecular(f.stoichiometry, Coefficients(f.wtPercent, mwMain, molSum)), map[]))
  }

  /** `molecular_weight()`: the mass sum of the molar form. The source
      unwraps the conversion and panics on its error; here the error is
      returned. */
  function MolecularWeight(f: Formula): (r: Result<real>)
    ensures r.Err? <==> ToMolecular(f).Err?
    ensures r.Err? ==> r.error == ToMolecular(f).error
    ensures r.Ok? ==> r.value == Sum(Masses(ToMolecular(f).value.stoichiometry))
  {
    if |f.wtPercent| == 0 then Ok(Sum(Masses(f.stoichiometry)))
    else
      match ToMolecular(f)
      case Err(x) => Err(x)
      case Ok(g) => Ok(Sum(Masses(g.stoichiometry)))
  }

  /** The mass percents `to_wt` gives an element of mass `masses[e]` in a
      molar formula of molecular weight `mw`. */
  function WtFractions(masses: Amounts, mw: real): (r: Amounts)
    requires mw != 0.0
    ensures r.Keys == masses.Keys
  {
    map e | e in masses :: masses[e] * 100.0 / mw
  }

  /** `to_wt()`: the mass-percent form. A formula without molar entries is
      returned as it is, even when its mass map does not sum to 100. */
  function ToWt(f: Formula): (r: Result<Formula>)
    ensures |f.stoichiometry| == 0 ==> r == Ok(f)
    ensures |f.stoichiometry| > 0 && ToMolecular(f).Err? ==> r == ToMolecular(f)
    ensures r == Err(WeightPercentOverflow) <==>
      |f.stoichiometry| > 0 && |f.wtPercent| > 0 && Sum(f.wtPercent) > 100.0
    ensures r.Ok? ==> r.value.element == f.element
    ensures |f.stoichiometry| > 0 && r.Ok? ==>
      r.value.stoichiometry == map[] && r.value.wtPercent.Keys == f.stoichiometry.Keys + f.wtPercent.Keys
    ensures r.Ok? && Consistent(f) ==> Consistent(r.value)
  {
    if |f.stoichiometry| == 0 then Ok(f)
    else
      match ToMolecular(f)
      case Err(x) => Err(x)
      case Ok(g) =>
        match MolecularWeight(g)
        case Err(x) => Err(x)
        case Ok(mw) =>
          if mw == 0.0 then Err(NonFinite)
          else Ok(Formula(g.element, map[], WtFractions(Masses(g.stoichiometry), mw)))
  }

  /** `to_wt_percent()`: the mass-percent form rescaled to sum to 100. */
  function ToWtPercent(f: Formula): (r: Result<Formula>)
    ensures ToWt(f).Err? ==> r == ToWt(f)
    ensures r.Ok? ==> r.value.element == f.element && r.value.stoichiometry == map[]
    ensures r.Ok? ==> ToWt(f).Ok? && r.value.wtPercent.Keys == ToWt(f).value.wtPercent.Keys
    ensures r.Ok? && Sum(ToWt(f).value.wtPercent) == 0.0 ==> |ToWt(f).value.wtPercent| == 0
  {
    match ToWt(f)
    case Err(x) => Err(x)
    case Ok(g) =>
      var total := Sum(g.wtPercent);
      if total == 0.0 then
        // multiply(100 / 0) leaves nothing finite unless there is nothing to scale
        if |g.wtPercent| == 0 then Ok(g) else Err(NonFinite)
      else Ok(Multiply(g, 100.0 / total))
  }

  /** `to_mol_percent()`: the molar form rescaled to sum to 100; the empty
      formula when there is no molar form. */
  function ToMolPercent(f: Formula): (r: Result<Formula>)
    ensures ToMolecular(f).Err? ==> r == ToMolecular(f)
    ensures |f.stoichiometry| == 0 && |f.wtPercent| == 0 ==> r == Ok(Empty())
    ensures r.Ok? ==> r.value.wtPercent == map[]
  {
    match ToMolecular(f)
    case Err(x) => Err(x)
    case Ok(g) =>
      if |g.stoichiometry| == 0 then Ok(Empty())
      else
        var total := Sum(g.stoichiometry);
        if total == 0.0 then Err(NonFinite)
        else Ok(Multiply(g, 100.0 / total))
  }

  /** The mass fractions `multiply_wt_percent(n)` gives an element of mass
      `masses[e]` in a molar formula of molecular weight `mw`: its fraction
      of the total mass times `n`. */
  function ScaledFractions(masses: Amounts, mw: real, n: real): (r: Amounts)
    requires mw != 0.0
    ensures r.Keys == masses.Keys
  {
    map e | e in masses :: masses[e] / mw * n
  }

  /** `multiply_wt_percent(n)`: the formula replaced by its mass fractions
      times `n` (no factor 100, so the result sums to `n`). */
  function MultiplyWtPercent(f: Formula, n: real): (r: Result<Formula>)
    ensures ToMolecular(f).Err? ==> r == ToMolecular(f)
    ensures r == Err(WeightPercentOverflow) <==> |f.wtPercent| > 0 && Sum(f.wtPercent) > 100.0
    ensures r.Ok? ==> r.value.element == f.element && r.value.stoichiometry == map[]
    ensures r.Ok? ==> r.value.wtPercent.Keys == f.stoichiometry.Keys + f.wtPercent.Keys
    ensures r.Ok? && Consistent(f) ==> Consistent(r.value)
  {
    match ToMolecular(f)
    case Err(x) => Err(x)
    case Ok(g) =>
      match MolecularWeight(g)
      case Err(x) => Err(x)
      case Ok(mw) =>
        if |g.stoichiometry| == 0 then Ok(Formula(g.element, map[], map[]))
        else if mw == 0.0 then Err(NonFinite)
        else Ok(Formula(g.element, map[], ScaledFractions(Masses(g.stoichiometry), mw, n)))
  }
}
