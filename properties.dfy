/** What the builders and conversions of src/element.rs promise, proved
    about the functions of module Composition: the amounts the builders add,
    and the totals the conversions normalise to. The round trip from mass
    percents to molar amounts and back is in roundtrip.dfy. */
module Properties {
  import opened Elements
  import opened Composition

  // ---------------------------------------------------------------------
  // Builders.

  /** `add_element` adds its amount to the molar total; `add_wt_percent`
      adds its amount to the mass total. */
  lemma AddElementSum(f: Formula, e: ElementSymbol, n: real)
    ensures Sum(AddElement(f, e, n).stoichiometry) == Sum(f.stoichiometry) + n
  {
    SumAdd(f.stoichiometry, map[e := n], AddElement(f, e, n).stoichiometry);
    SumRemove(map[e := n], e);
    assert map[e := n] - {e} == map[];
    SumEmpty();
  }

  lemma AddWtPercentSum(f: Formula, e: ElementSymbol, n: real)
    ensures Sum(AddWtPercent(f, e, n).wtPercent) == Sum(f.wtPercent) + n
  {
    SumAdd(f.wtPercent, map[e := n], AddWtPercent(f, e, n).wtPercent);
    SumRemove(map[e := n], e);
    assert map[e := n] - {e} == map[];
    SumEmpty();
  }

  /** `multiply(k)` multiplies every value, and so both totals, by `k`. */
  lemma MultiplyValues(f: Formula, k: real)
    ensures forall e :: e in f.stoichiometry ==> Multiply(f, k).stoichiometry[e] == f.stoichiometry[e] * k
    ensures forall e :: e in f.wtPercent ==> Multiply(f, k).wtPercent[e] == f.wtPercent[e] * k
    ensures Sum(Multiply(f, k).stoichiometry) == k * Sum(f.stoichiometry)
    ensures Sum(Multiply(f, k).wtPercent) == k * Sum(f.wtPercent)
  {
    ScaleSum(f.stoichiometry, k);
    ScaleSum(f.wtPercent, k);
  }

  /** Without mass percents, the molecular weight of `add_formula` is the
      sum of the two molecular weights. */
  lemma MolecularWeightAdds(f: Formula, g: Formula)
    requires |f.wtPercent| == 0 && |g.wtPercent| == 0
    ensures MolecularWeight(f).Ok? && MolecularWeight(g).Ok? && MolecularWeight(AddFormula(f, g)).Ok?
    ensures MolecularWeight(AddFormula(f, g)).value == MolecularWeight(f).value + MolecularWeight(g).value
  {
    assert AddFormula(f, g).wtPercent.Keys == {};
    MassTotalAdds(f.stoichiometry, g.stoichiometry, AddFormula(f, g).stoichiometry);
  }

  lemma MassTotalAdds(a: Amounts, b: Amounts, c: Amounts)
    requires forall e :: Get(c, e) == Get(a, e) + Get(b, e)
    ensures Sum(Masses(c)) == Sum(Masses(a)) + Sum(Masses(b))
  {
    forall e: ElementSymbol
      ensures Get(Masses(c), e) == Get(Masses(a), e) + Get(Masses(b), e)
    {
      MassAdded(e, Get(a, e), Get(b, e));
    }
    SumAdd(Masses(a), Masses(b), Masses(c));
  }

  lemma MassAdded(e: ElementSymbol, x: real, y: real)
    ensures Mass(e, x + y) == Mass(e, x) + Mass(e, y)
    ensures Mass(e, 0.0) == 0.0
  {
    var w := AtomicWeight(e);
    assert w * (x + y) == w * x + w * y;
  }

  // ---------------------------------------------------------------------
  // The sums the conversions normalise to.

  lemma WtFractionsPointwise(masses: Amounts, mw: real)
    requires mw != 0.0
    ensures forall e: ElementSymbol :: Get(WtFractions(masses, mw), e) == (100.0 / mw) * Get(masses, e)
  {
    forall e: ElementSymbol ensures Get(WtFractions(masses, mw), e) == (100.0 / mw) * Get(masses, e) {
      if e in masses {
        Ratio(masses[e], 100.0, mw);
      }
    }
  }

  /** Mass percents taken against the total mass sum to 100. */
  lemma WtFractionsSum(masses: Amounts, mw: real)
    requires mw != 0.0 && mw == Sum(masses)
    ensures Sum(WtFractions(masses, mw)) == 100.0
  {
    WtFractionsPointwise(masses, mw);
    SumScale(masses, WtFractions(masses, mw), 100.0 / mw);
    Cancel(100.0, mw);
  }

  lemma ScaledFractionsPointwise(masses: Amounts, mw: real, n: real)
    requires mw != 0.0
    ensures forall e: ElementSymbol :: Get(ScaledFractions(masses, mw, n), e) == (n / mw) * Get(masses, e)
  {
    forall e: ElementSymbol ensures Get(ScaledFractions(masses, mw, n), e) == (n / mw) * Get(masses, e) {
      if e in masses {
        Fraction(masses[e], mw, n);
      }
    }
  }

  /** Mass fractions times `n` sum to `n`. */
  lemma ScaledFractionsSum(masses: Amounts, mw: real, n: real)
    requires mw != 0.0 && mw == Sum(masses)
    ensures Sum(ScaledFractions(masses, mw, n)) == n
  {
    ScaledFractionsPointwise(masses, mw, n);
    SumScale(masses, ScaledFractions(masses, mw, n), n / mw);
    Cancel(n, mw);
  }

  /** The mass percents of `to_wt` sum to 100 whenever it converts. */
  lemma ToWtSum(f: Formula)
    requires |f.stoichiometry| > 0 && ToWt(f).Ok?
    ensures Sum(ToWt(f).value.wtPercent) == 100.0
  {
    var masses := Masses(ToMolecular(f).value.stoichiometry);
    WtFractionsSum(masses, Sum(masses));
  }

  /** The mass values of `multiply_wt_percent(n)` sum to `n` (when there are any). */
  lemma MultiplyWtPercentSum(f: Formula, n: real)
    requires MultiplyWtPercent(f, n).Ok? && |MultiplyWtPercent(f, n).value.wtPercent| > 0
    ensures Sum(MultiplyWtPercent(f, n).value.wtPercent) == n
  {
    var masses := Masses(ToMolecular(f).value.stoichiometry);
    ScaledFractionsSum(masses, Sum(masses), n);
  }

  /** Rescaling a mass map by 100 over its total: the keys stay, every value
      keeps its proportion, and the values sum to 100. */
  lemma WtNormalised(g: Formula)
    requires Sum(g.wtPercent) != 0.0
    ensures Multiply(g, 100.0 / Sum(g.wtPercent)).wtPercent.Keys == g.wtPercent.Keys
    ensures Sum(Multiply(g, 100.0 / Sum(g.wtPercent)).wtPercent) == 100.0
    ensures forall e :: e in g.wtPercent ==>
      Multiply(g, 100.0 / Sum(g.wtPercent)).wtPercent[e] * Sum(g.wtPercent) == g.wtPercent[e] * 100.0
  {
    var total := Sum(g.wtPercent);
    ScaleSum(g.wtPercent, 100.0 / total);
    Cancel(100.0, total);
    forall e | e in g.wtPercent ensures g.wtPercent[e] * (100.0 / total) * total == g.wtPercent[e] * 100.0 {
      RatioBack(g.wtPercent[e], 100.0, total);
    }
  }

  /** `to_wt_percent` is `to_wt` with every value multiplied by the one
      factor 100 over the mass total, so it keeps the elements of `to_wt` and
      its mass percents sum to 100 (when there are any). */
  lemma ToWtPercentSum(f: Formula)
    requires ToWtPercent(f).Ok?
    ensures ToWt(f).Ok?
    ensures Sum(ToWt(f).value.wtPercent) != 0.0 ==>
      ToWtPercent(f) == Ok(Multiply(ToWt(f).value, 100.0 / Sum(ToWt(f).value.wtPercent)))
    ensures Sum(ToWt(f).value.wtPercent) == 0.0 ==> ToWtPercent(f) == ToWt(f) && ToWt(f).value.wtPercent == map[]
    ensures ToWtPercent(f).value.wtPercent.Keys == ToWt(f).value.wtPercent.Keys
    ensures |ToWtPercent(f).value.wtPercent| > 0 ==> Sum(ToWtPercent(f).value.wtPercent) == 100.0
  {
    RescaledOf(ToWt(f), ToWtPercent(f));
  }

  /** The rescaling step of `to_wt_percent`, from the result `t` of `to_wt`
      to the result `r`. */
  lemma RescaledOf(t: Result<Formula>, r: Result<Formula>)
    requires r.Ok?
    requires t.Ok? && r.value.wtPercent.Keys == t.value.wtPercent.Keys
    requires Sum(t.value.wtPercent) == 0.0 ==> |t.value.wtPercent| == 0
    requires Sum(t.value.wtPercent) != 0.0 ==> r == Ok(Multiply(t.value, 100.0 / Sum(t.value.wtPercent)))
    ensures |r.value.wtPercent| > 0 ==> Sum(r.value.wtPercent) == 100.0
  {
    if Sum(t.value.wtPercent) != 0.0 {
      RescaledNonZero(t.value, r);
    } else {
      assert t.value.wtPercent == map[];
    }
  }

  lemma RescaledNonZero(g: Formula, r: Result<Formula>)
    requires Sum(g.wtPercent) != 0.0
    requires r == Ok(Multiply(g, 100.0 / Sum(g.wtPercent)))
    ensures r.Ok?
    ensures Sum(r.value.wtPercent) == 100.0
  {
    WtNormalised(g);
  }

  /** Rescaling a molar map by 100 over its total makes it sum to 100. */
  lemma MolNormalised(g: Formula)
    requires Sum(g.stoichiometry) != 0.0
    ensures Sum(Multiply(g, 100.0 / Sum(g.stoichiometry)).stoichiometry) == 100.0
  {
    ScaleSum(g.stoichiometry, 100.0 / Sum(g.stoichiometry));
    Cancel(100.0, Sum(g.stoichiometry));
  }

  /** `to_mol_percent` multiplies every amount of the molar form by the one
      factor 100 over its total, so the amounts sum to 100 (when there are
      any). */
  lemma ToMolPercentSum(f: Formula)
    requires ToMolPercent(f).Ok? && |ToMolPercent(f).value.stoichiometry| > 0
    ensures ToMolecular(f).Ok? && Sum(ToMolecular(f).value.stoichiometry) != 0.0
    ensures ToMolPercent(f) == Ok(Multiply(ToMolecular(f).value, 100.0 / Sum(ToMolecular(f).value.stoichiometry)))
    ensures ToMolPercent(f).value.element == f.element
    ensures ToMolPercent(f).value.stoichiometry.Keys == f.stoichiometry.Keys + f.wtPercent.Keys
    ensures Sum(ToMolPercent(f).value.stoichiometry) == 100.0
  {
    MolNormalised(ToMolecular(f).value);
  }


  /** Rescaling by 100 over a total of 100 changes nothing. */
  lemma ScaleHundred(g: Formula)
    requires Sum(g.wtPercent) == 100.0
    ensures Multiply(g, 100.0 / Sum(g.wtPercent)) == g
  {
    ScaleOne(g.stoichiometry);
    ScaleOne(g.wtPercent);
  }

  lemma ScaleOne(m: Amounts)
    ensures Scale(m, 1.0) == m
  {
  }

  // ---------------------------------------------------------------------
  // The molar map of to_molecular_formula.

  /** An element that has a molar amount and a mass percent gets that amount
      MULTIPLIED by its coefficient (the source's `and_modify(|e| *e *= ...)`),
      not added to it; an element with a mass percent only gets the
      coefficient itself. */
  lemma MolecularQuirk(m: Amounts, c: Amounts)
    ensures forall e :: e in c && e in m ==> Molecular(m, c)[e] == m[e] * c[e]
    ensures forall e :: e in c && e !in m ==> Molecular(m, c)[e] == c[e]
  {
  }

  /** What the quirk does: an element with molar amount `x` and mass
      percent `w` gets the coefficient `c = x * w / (100 - w)` and ends with
      `x * c`, where adding would give `x + c`. */
  lemma MolecularMultipliesAmount(e: ElementSymbol, x: real, w: real, c: real)
    requires e != None && x > 0.0 && 0.0 < w < 100.0 && c == x * w / (100.0 - w)
    ensures var r := ToMolecular(Formula({e}, map[e := x], map[e := w]));
      r.Ok? && r.value.stoichiometry == map[e := x * c]
  {
    var st, wt := map[e := x], map[e := w];
    SingleSums(e, x, w);
    var molSum := Sum(Moles(wt));
    var mw := MainWeight(ResidueWeight(st), molSum, Residue(wt));
    SingleMainWeight(e, x, w, c, molSum, mw);
    SingleMolecular(e, x, w, c, molSum, mw);
  }

  lemma SingleMainWeight(e: ElementSymbol, x: real, w: real, c: real, molSum: real, mw: real)
    requires e != None && 0.0 < w < 100.0 && c == x * w / (100.0 - w) && molSum == MolesIn(e, w)
    requires mw == MainWeight(Mass(e, x), molSum, 100.0 - w)
    ensures mw == c
  {
    MainWeightOf(Mass(e, x), molSum, 100.0 - w);
    MainOfSingle(AtomicWeight(e), x, Mass(e, x), w, molSum, mw, c);
  }

  lemma SingleSums(e: ElementSymbol, x: real, w: real)
    requires e != None && 0.0 < w
    ensures Sum(map[e := w]) == w
    ensures Sum(Moles(map[e := w])) == MolesIn(e, w) && MolesIn(e, w) > 0.0
    ensures ResidueWeight(map[e := x]) == Mass(e, x)
  {
    SumFromSingleton(e, w, 0);
    assert Moles(map[e := w]) == map[e := MolesIn(e, w)];
    SumFromSingleton(e, MolesIn(e, w), 0);
    PositiveQuotient(w, AtomicWeight(e));
    assert Masses(map[e := x]) == map[e := Mass(e, x)];
    SumFromSingleton(e, Mass(e, x), 0);
  }

  lemma SingleMolecular(e: ElementSymbol, x: real, w: real, c: real, molSum: real, mw: real)
    requires e != None && 0.0 < w && molSum == MolesIn(e, w) && molSum > 0.0 && mw == c
    ensures Molecular(map[e := x], Coefficients(map[e := w], mw, molSum)) == map[e := x * c]
  {
    SingleCoefficients(e, w, molSum, mw);
    SingleProduct(e, x, c);
  }

  lemma SingleProduct(e: ElementSymbol, x: real, c: real)
    ensures Molecular(map[e := x], map[e := c]) == map[e := x * c]
  {
    var r := Molecular(map[e := x], map[e := c]);
    assert r.Keys == {e};
    assert r[e] == x * c;
  }

  lemma SingleCoefficients(e: ElementSymbol, w: real, molSum: real, mw: real)
    requires e != None && 0.0 < w && molSum == MolesIn(e, w)
    ensures molSum != 0.0 ==> Coefficients(map[e := w], mw, molSum) == map[e := mw]
  {
    if molSum != 0.0 {
      CoefficientOfSingle(AtomicWeight(e), w, molSum, mw, Coefficient(e, w, mw, molSum));
    }
  }

  lemma MainOfSingle(a: real, x: real, m: real, w: real, molSum: real, mw: real, c: real)
    requires a > 0.0 && w < 100.0 && molSum == w / a && m == a * x && mw == m * molSum / (100.0 - w)
    requires c == x * w / (100.0 - w)
    ensures mw == c
  {
    assert a * molSum == w;
    assert m * molSum == x * (a * molSum);
    DivBoth(m * molSum, x * w, 100.0 - w);
  }

  lemma CoefficientOfSingle(a: real, w: real, molSum: real, mw: real, c: real)
    requires a > 0.0 && w > 0.0 && molSum == w / a && c == mw * w / molSum / a
    ensures c == mw
  {
  }

  /** One mole of an element with 50 % of it by mass keeps ONE mole (a
      coefficient of 1 multiplied in), not two. */
  lemma HalfByMassKept(e: ElementSymbol, x: real, w: real)
    requires e != None && x == 1.0 && w == 50.0
    ensures var r := ToMolecular(Formula({e}, map[e := x], map[e := w]));
      r.Ok? && r.value.stoichiometry == map[e := x]
  {
    HalfCoefficient(x, w);
    MolecularMultipliesAmount(e, x, w, x);
    assert x * x == x;
  }

  lemma HalfCoefficient(x: real, w: real)
    requires x == 1.0 && w == 50.0
    ensures x == x * w / (100.0 - w)
  {
  }

  // ---------------------------------------------------------------------
  // Real arithmetic used by the proofs.

  lemma Commute(x: real, y: real)
    ensures x * y == y * x
  {
  }

  lemma MainWeightOf(rw: real, molSum: real, residue: real)
    requires residue != 0.0
    ensures MainWeight(rw, molSum, residue) == rw * molSum / residue
  {
  }

  lemma DivBoth(p: real, q: real, d: real)
    requires d != 0.0 && p == q
    ensures p / d == q / d
  {
  }

  lemma Cancel(k: real, d: real)
    requires d != 0.0
    ensures (k / d) * d == k
  {
  }

  lemma PositiveQuotient(x: real, y: real)
    requires x > 0.0 && y > 0.0
    ensures x / y > 0.0
  {
  }

  lemma Ratio(x: real, k: real, d: real)
    requires d != 0.0
    ensures x * k / d == (k / d) * x
  {
  }

  lemma RatioBack(x: real, k: real, d: real)
    requires d != 0.0
    ensures x * (k / d) * d == x * k
  {
  }

  lemma Fraction(x: real, d: real, n: real)
    requires d != 0.0
    ensures x / d * n == (n / d) * x
  {
  }

  lemma Regroup(x: real, w: real, d: real)
    requires d != 0.0
    ensures x * w / d == x / d * w
  {
  }
}
