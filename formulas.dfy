/** `ChemicalFormula` (src/element.rs) as an object whose three fields the
    builders update in place, and the loops of the conversions.

    Every method is proved against the function of module Composition that
    specifies it: a builder leaves `Value()` equal to that function of the
    old value, a conversion returns that function of the current value. */
module Formulas {
  import opened Elements
  import opened Composition

  /** The entries of `m` whose keys are in `keys`: the part of a map a loop
      over its entries has already visited. */
  function Restrict(m: Amounts, keys: set<ElementSymbol>): (r: Amounts)
    ensures r.Keys == m.Keys * keys
  {
    map e | e in m && e in keys :: m[e]
  }

  /** Visiting one more entry adds its value to the sum of the visited part. */
  lemma RestrictSum(m: Amounts, keys: set<ElementSymbol>, e: ElementSymbol)
    requires e in m && e !in keys
    ensures Sum(Restrict(m, keys + {e})) == Sum(Restrict(m, keys)) + m[e]
  {
    assert Restrict(m, keys + {e}) == Restrict(m, keys)[e := m[e]];
    SumInsert(Restrict(m, keys), e, m[e]);
  }

  /** The same for the amounts of substance of the visited part. */
  lemma RestrictMolesSum(m: Amounts, keys: set<ElementSymbol>, e: ElementSymbol)
    requires e in m && e !in keys && e != None
    ensures Sum(Moles(Restrict(m, keys + {e}))) == Sum(Moles(Restrict(m, keys))) + MolesIn(e, m[e])
  {
    assert Moles(Restrict(m, keys + {e})) == Moles(Restrict(m, keys))[e := MolesIn(e, m[e])];
    SumInsert(Moles(Restrict(m, keys)), e, MolesIn(e, m[e]));
  }

  // ---------------------------------------------------------------------
  // The loops.

  /** The `iter_mut` loop of `multiply`: every value of `m` times `k`. */
  method ScaleEach(m: Amounts, k: real) returns (r: Amounts)
    ensures r == Scale(m, k)
  {
    r := m;
    var rest := m.Keys;
    while rest != {}
      invariant rest <= m.Keys
      invariant ScaledUpTo(m, k, r, m.Keys - rest)
      decreases rest
    {
      var e :| e in rest;
      ScaleStep(m, k, r, m.Keys - rest, e);
      assert (m.Keys - rest) + {e} == m.Keys - (rest - {e});
      r := r[e := r[e] * k];
      rest := rest - {e};
    }
    assert forall e :: e in r ==> r[e] == Scale(m, k)[e];
  }

  /** After visiting the entries `done` of `m`, the map `r` of `ScaleEach`
      holds them scaled and the others as they were. */
  predicate ScaledUpTo(m: Amounts, k: real, r: Amounts, done: set<ElementSymbol>)
  {
    r.Keys == m.Keys &&
    (forall e :: e in m && e !in done ==> r[e] == m[e]) &&
    (forall e :: e in m && e in done ==> r[e] == m[e] * k)
  }

  lemma ScaleStep(m: Amounts, k: real, r: Amounts, done: set<ElementSymbol>, e: ElementSymbol)
    requires e in m && e !in done && ScaledUpTo(m, k, r, done)
    ensures ScaledUpTo(m, k, r[e := r[e] * k], done + {e})
  {
  }

  /** One loop of `add_formula`: every entry of `b` is inserted into the
      element set `es` and accumulated into `a`. */
  method AccumulateEach(es: set<ElementSymbol>, a: Amounts, b: Amounts) returns (es': set<ElementSymbol>, r: Amounts)
    ensures es' == es + b.Keys
    ensures r == Merge(a, b)
  {
    es', r := es, a;
    var rest := b.Keys;
    while rest != {}
      invariant rest <= b.Keys
      invariant es' == es + (b.Keys - rest)
      invariant AccumulatedUpTo(a, b, r, b.Keys - rest)
      decreases rest
    {
      var e :| e in rest;
      AccumulateStep(a, b, r, b.Keys - rest, e);
      assert (b.Keys - rest) + {e} == b.Keys - (rest - {e});
      es' := es' + {e};
      r := r[e := if e in r then r[e] + b[e] else b[e]];
      rest := rest - {e};
    }
    AccumulateDone(a, b, r);
  }

  /** After visiting the entries `done` of `b`, the map `r` of
      `AccumulateEach` is `a` with those entries added. */
  predicate AccumulatedUpTo(a: Amounts, b: Amounts, r: Amounts, done: set<ElementSymbol>)
  {
    r.Keys == a.Keys + done && done <= b.Keys &&
    forall e :: e in r ==> r[e] == Get(a, e) + (if e in done then b[e] else 0.0)
  }

  lemma AccumulateDone(a: Amounts, b: Amounts, r: Amounts)
    requires AccumulatedUpTo(a, b, r, b.Keys)
    ensures r == Merge(a, b)
  {
    assert forall e :: e in r ==> r[e] == Merge(a, b)[e];
  }

  lemma AccumulateStep(a: Amounts, b: Amounts, r: Amounts, done: set<ElementSymbol>, e: ElementSymbol)
    requires done <= b.Keys && e in b && e !in done && AccumulatedUpTo(a, b, r, done)
    ensures AccumulatedUpTo(a, b, r[e := if e in r then r[e] + b[e] else b[e]], done + {e})
  {
  }

  /** The `map`/`fold` over a molar map that sums its masses, in
      `molecular_weight` (src/element.rs:541-544) and for the molar part of
      `to_molecular_formula` (src/element.rs:484-487). */
  method MassSum(st: Amounts) returns (s: real)
    ensures s == Sum(Masses(st))
  {
    s := 0.0;
    var masses := Masses(st);
    var rest := st.Keys;
    SumEmpty();
    assert Restrict(masses, {}) == map[];
    while rest != {}
      invariant rest <= st.Keys
      invariant s == Sum(Restrict(masses, st.Keys - rest))
      decreases rest
    {
      var e :| e in rest;
      var done := st.Keys - rest;
      RestrictSum(masses, done, e);
      assert done + {e} == st.Keys - (rest - {e});
      s := s + AtomicWeight(e) * st[e];
      rest := rest - {e};
    }
    assert st.Keys - rest == st.Keys;
    assert Restrict(masses, st.Keys) == masses;
  }

  /** The loop of `to_molecular_formula` over the mass entries `w`
      (src/element.rs:467-473): their sum, and the sum of their amounts of
      substance. The latter divides by the atomic weight, so it is finite
      exactly when the sentinel `None` has no mass entry. */
  method WtRatioSums(w: Amounts) returns (wtSum: real, molSum: real, finite: bool)
    ensures wtSum == Sum(w)
    ensures finite <==> None !in w
    ensures finite ==> molSum == Sum(Moles(w))
  {
    wtSum, molSum, finite := 0.0, 0.0, true;
    var rest := w.Keys;
    SumEmpty();
    assert Restrict(w, {}) == map[];
    assert Moles(map[]) == map[];
    while rest != {}
      invariant rest <= w.Keys
      invariant wtSum == Sum(Restrict(w, w.Keys - rest))
      invariant finite <==> None !in w.Keys - rest
      invariant finite ==> molSum == Sum(Moles(Restrict(w, w.Keys - rest)))
      decreases rest
    {
      var e :| e in rest;
      var done := w.Keys - rest;
      RestrictSum(w, done, e);
      assert done + {e} == w.Keys - (rest - {e});
      wtSum := wtSum + w[e];
      if e == None {
        finite := false;
      } else if finite {
        RestrictMolesSum(w, done, e);
        molSum := molSum + w[e] / AtomicWeight(e);
      }
      rest := rest - {e};
    }
    assert w.Keys - rest == w.Keys;
    assert Restrict(w, w.Keys) == w;
  }

  /** The loop of `to_molecular_formula` that builds the molar map
      (src/element.rs:493-508): a copy of `m` in which every mass entry of
      `w` gets its amount of substance, multiplying an existing molar
      amount (`*e *= ...`) or inserting a new one. */
  method MolecularInsert(m: Amounts, w: Amounts, mwMain: real, molSum: real) returns (r: Amounts)
    requires None !in w && molSum != 0.0
    ensures r == Molecular(m, Coefficients(w, mwMain, molSum))
  {
    ghost var c := Coefficients(w, mwMain, molSum);
    r := m;
    var rest := w.Keys;
    while rest != {}
      invariant rest <= w.Keys
      invariant MolecularUpTo(m, c, r, w.Keys - rest)
      decreases rest
    {
      var e :| e in rest;
      // mwMain * w[e] / weight / molSum
      var amount := Coefficient(e, w[e], mwMain, molSum);
      MolecularStep(m, c, r, w.Keys - rest, e, amount);
      assert (w.Keys - rest) + {e} == w.Keys - (rest - {e});
      r := r[e := if e in r then r[e] * amount else amount];
      rest := rest - {e};
    }
    MolecularDone(m, c, r);
  }

  /** After visiting the entries `done` of `c`, the map `r` of
      `MolecularInsert` agrees with `Molecular(m, c)` on them and with `m`
      elsewhere. */
  predicate MolecularUpTo(m: Amounts, c: Amounts, r: Amounts, done: set<ElementSymbol>)
  {
    r.Keys == m.Keys + done &&
    (forall e :: e in m && e !in done ==> r[e] == m[e]) &&
    (forall e :: e in done ==> e in Molecular(m, c) && r[e] == Molecular(m, c)[e])
  }

  lemma MolecularStep(m: Amounts, c: Amounts, r: Amounts, done: set<ElementSymbol>, e: ElementSymbol, v: real)
    requires done <= c.Keys && e in c && e !in done && v == c[e]
    requires MolecularUpTo(m, c, r, done)
    ensures MolecularUpTo(m, c, r[e := if e in r then r[e] * v else v], done + {e})
  {
    if e in r {
      assert r[e] == m[e];
    }
  }

  lemma MolecularDone(m: Amounts, c: Amounts, r: Amounts)
    requires MolecularUpTo(m, c, r, c.Keys)
    ensures r == Molecular(m, c)
  {
    assert forall e :: e in r ==> r[e] == Molecular(m, c)[e];
  }

  /** The loop of `to_wt` (src/element.rs:555-562): every molar amount of
      `st` becomes `amount * weight * 100 / mw`. */
  method WtRatios(st: Amounts, mw: real) returns (r: Amounts)
    requires mw != 0.0
    ensures r == WtFractions(Masses(st), mw)
  {
    r := map[];
    var rest := st.Keys;
    while rest != {}
      invariant rest <= st.Keys
      invariant r.Keys == st.Keys - rest
      invariant forall e :: e in r ==> r[e] == Mass(e, st[e]) * 100.0 / mw
      decreases rest
    {
      var e :| e in rest;
      // the source multiplies the amount by the weight; Mass multiplies the other way round
      r := r[e := Mass(e, st[e]) * 100.0 / mw];
      rest := rest - {e};
    }
    WtRatiosDone(st, mw, r);
  }

  lemma WtRatiosDone(st: Amounts, mw: real, r: Amounts)
    requires mw != 0.0 && r.Keys == st.Keys
    requires forall e :: e in r ==> r[e] == Mass(e, st[e]) * 100.0 / mw
    ensures r == WtFractions(Masses(st), mw)
  {
    assert forall e :: e in r ==> r[e] == WtFractions(Masses(st), mw)[e];
  }

  /** The loop of `multiply_wt_percent` (src/element.rs:609-614): every
      molar amount of `st` becomes `amount * weight / mw * n`. */
  method ScaledWtRatios(st: Amounts, mw: real, n: real) returns (r: Amounts)
    requires mw != 0.0
    ensures r == ScaledFractions(Masses(st), mw, n)
  {
    r := map[];
    var rest := st.Keys;
    while rest != {}
      invariant rest <= st.Keys
      invariant r.Keys == st.Keys - rest
      invariant forall e :: e in r ==> r[e] == Mass(e, st[e]) / mw * n
      decreases rest
    {
      var e :| e in rest;
      r := r[e := Mass(e, st[e]) / mw * n];
      rest := rest - {e};
    }
    ScaledWtRatiosDone(st, mw, n, r);
  }

  lemma ScaledWtRatiosDone(st: Amounts, mw: real, n: real, r: Amounts)
    requires mw != 0.0 && r.Keys == st.Keys
    requires forall e :: e in r ==> r[e] == Mass(e, st[e]) / mw * n
    ensures r == ScaledFractions(Masses(st), mw, n)
  {
    assert forall e :: e in r ==> r[e] == ScaledFractions(Masses(st), mw, n)[e];
  }

  // ---------------------------------------------------------------------
  // The object.

  class ChemicalFormula {
    var element: set<ElementSymbol>
    var stoichiometry: Amounts
    var wtPercent: Amounts

    /** The formula this object holds. */
    function Value(): Formula
      reads this
    {
      Formula(element, stoichiometry, wtPercent)
    }

    /** `ChemicalFormula::new()`. */
    constructor ()
      ensures Value() == Empty()
    {
      element, stoichiometry, wtPercent := {}, map[], map[];
    }

    /** A formula built from its three fields, as `clone` and the struct
        literals of the conversions do. */
    constructor Of(f: Formula)
      ensures Value() == f
    {
      element, stoichiometry, wtPercent := f.element, f.stoichiometry, f.wtPercent;
    }

    /** `add_element(e, n)`. */
    method AddElement(e: ElementSymbol, n: real)
      modifies this
      ensures Value() == Composition.AddElement(old(Value()), e, n)
    {
      element := element + {e};
      if e in stoichiometry {
        stoichiometry := stoichiometry[e := stoichiometry[e] + n];
      } else {
        stoichiometry := stoichiometry[e := n];
      }
    }

    /** `add_wt_percent(e, n)`. */
    method AddWtPercent(e: ElementSymbol, n: real)
      modifies this
      ensures Value() == Composition.AddWtPercent(old(Value()), e, n)
    {
      element := element + {e};
      if e in wtPercent {
        wtPercent := wtPercent[e := wtPercent[e] + n];
      } else {
        wtPercent := wtPercent[e := n];
      }
    }

    /** `multiply(k)`. */
    method Multiply(k: real)
      modifies this
      ensures Value() == Composition.Multiply(old(Value()), k)
    {
      stoichiometry := ScaleEach(stoichiometry, k);
      wtPercent := ScaleEach(wtPercent, k);
    }

    /** `add_formula(g)`. */
    method AddFormula(g: Formula)
      modifies this
      ensures Value() == Composition.AddFormula(old(Value()), g)
    {
      element, stoichiometry := AccumulateEach(element, stoichiometry, g.stoichiometry);
      element, wtPercent := AccumulateEach(element, wtPercent, g.wtPercent);
    }

    /** `to_molecular_formula()`. */
    method ToMolecularFormula() returns (r: Result<Formula>)
      ensures r == ToMolecular(Value())
    {
      if |wtPercent| == 0 {
        return Ok(Value());
      }
      var wtSum, molSum, finite := WtRatioSums(wtPercent);
      if wtSum > 100.0 {
        return Err(WeightPercentOverflow);
      }
      var residue := 100.0 - wtSum;
      if !finite || residue == 0.0 || molSum == 0.0 {
        // a division by zero: f64 carries on with an infinity or a NaN
        return Err(NonFinite);
      }
      var residueWeight := 100.0;
      if |stoichiometry| > 0 {
        residueWeight := MassSum(stoichiometry);
      }
      var mwMain := MainWeight(residueWeight, molSum, residue);
      var st := MolecularInsert(stoichiometry, wtPercent, mwMain, molSum);
      return Ok(Formula(element, st, map[]));
    }

    /** `molecular_weight()`: the mass sum of the molar form; the error of
        the conversion where the source panics on it. */
    method MolecularWeight() returns (r: Result<real>)
      ensures r == Composition.MolecularWeight(Value())
    {
      var st := stoichiometry;
      if |wtPercent| > 0 {
        var m := ToMolecularFormula();
        if m.Err? {
          return Err(m.error);
        }
        st := m.value.stoichiometry;
      }
      var mw := MassSum(st);
      return Ok(mw);
    }

    /** `to_wt()`. */
    method ToWt() returns (r: Result<Formula>)
      ensures r == Composition.ToWt(Value())
    {
      if |stoichiometry| == 0 {
        return Ok(Value());
      }
      var m := ToMolecularFormula();
      if m.Err? {
        return Err(m.error);
      }
      var g := m.value;
      var mw := Sum(Masses(g.stoichiometry));
      assert Composition.MolecularWeight(g) == Ok(mw);
      if mw == 0.0 {
        return Err(NonFinite);
      }
      var wt := WtRatios(g.stoichiometry, mw);
      return Ok(Formula(g.element, map[], wt));
    }

    /** `to_wt_percent()`: `to_wt`, then `multiply(100 / total)` on it. */
    method ToWtPercent() returns (r: Result<Formula>)
      ensures r == Composition.ToWtPercent(Value())
    {
      var t := ToWt();
      if t.Err? {
        return t;
      }
      var total := Sum(t.value.wtPercent);
      if total == 0.0 && |t.value.wtPercent| > 0 {
        return Err(NonFinite);
      }
      if total == 0.0 {
        return t;
      }
      var formula := new ChemicalFormula.Of(t.value);
      formula.Multiply(100.0 / total);
      return Ok(formula.Value());
    }

    /** `to_mol_percent()`: the molar form, then `multiply(100 / total)`
        on it; an empty formula when the molar form has no entries. */
    method ToMolPercent() returns (r: Result<Formula>)
      ensures r == Composition.ToMolPercent(Value())
    {
      var m := ToMolecularFormula();
      if m.Err? {
        return m;
      }
      if |m.value.stoichiometry| == 0 {
        return Ok(Empty());
      }
      var total := Sum(m.value.stoichiometry);
      if total == 0.0 {
        return Err(NonFinite);
      }
      var formula := new ChemicalFormula.Of(m.value);
      formula.Multiply(100.0 / total);
      return Ok(formula.Value());
    }

    /** `multiply_wt_percent(n)`: on success the object is replaced by the
        mass fractions of its molar form times `n`; on an error it is left
        as it was. */
    method MultiplyWtPercent(n: real) returns (r: Result<()>)
      modifies this
      ensures Composition.MultiplyWtPercent(old(Value()), n).Ok? ==>
        r == Ok(()) && Value() == Composition.MultiplyWtPercent(old(Value()), n).value
      ensures Composition.MultiplyWtPercent(old(Value()), n).Err? ==>
        r == Err(Composition.MultiplyWtPercent(old(Value()), n).error) && Value() == old(Value())
    {
      var m := ToMolecularFormula();
      if m.Err? {
        return Err(m.error);
      }
      var g := m.value;
      var mw := Sum(Masses(g.stoichiometry));
      assert Composition.MolecularWeight(g) == Ok(mw);
      var wt := map[];
      if |g.stoichiometry| > 0 {
        if mw == 0.0 {
          return Err(NonFinite);
        }
        wt := ScaledWtRatios(g.stoichiometry, mw, n);
      }
      element, stoichiometry, wtPercent := g.element, map[], wt;
      return Ok(());
    }
  }
}
