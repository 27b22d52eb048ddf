module RoundTrip {
  import opened Elements
  import opened Composition
  import opened Properties

  lemma SplitSum(a: Amounts, b: Amounts, c: Amounts, share: real)
    requires a.Keys !! b.Keys && c.Keys == a.Keys + b.Keys
    requires forall e :: e in a ==> c[e] == a[e]
    requires forall e :: e in b ==> c[e] == share * b[e]
    ensures Sum(c) == Sum(a) + share * Sum(b)
  {
    var shares := Scale(b, share);
    forall e: ElementSymbol ensures Get(c, e) == Get(a, e) + Get(shares, e) {
      if e in b {
        Commute(b[e], share);
      }
    }
    SumAdd(a, shares, c);
    ScaleSum(b, share);
  }

  /** `masses` joins the masses `a` with the weight-percent entries `w`, each scaled by `share`,
      the mass of one weight percent. */
  predicate Composite(a: Amounts, w: Amounts, masses: Amounts, share: real)
  {
    a.Keys !! w.Keys && masses.Keys == a.Keys + w.Keys &&
    Sum(a) > 0.0 && Sum(w) < 100.0 && share == Sum(a) / (100.0 - Sum(w)) &&
    (forall e :: e in a ==> masses[e] == a[e]) &&
    (forall e :: e in w ==> masses[e] == share * w[e])
  }

  lemma CompositeTotal(a: Amounts, w: Amounts, masses: Amounts, share: real)
    requires Composite(a, w, masses, share)
    ensures Sum(masses) == Sum(a) * 100.0 / (100.0 - Sum(w))
  {
    SplitSum(a, w, masses, share);
    Proportion(Sum(a), Sum(w));
  }

  lemma CompositePositive(a: Amounts, w: Amounts, masses: Amounts, share: real)
    requires Composite(a, w, masses, share)
    ensures Sum(masses) > 0.0
  {
    CompositeTotal(a, w, masses, share);
    PositiveTotal(Sum(a), Sum(w));
  }

  lemma CompositeParts(a: Amounts, w: Amounts, masses: Amounts, share: real)
    requires Composite(a, w, masses, share)
    ensures Sum(masses) > 0.0
    ensures forall e :: e in w ==> masses[e] * 100.0 / Sum(masses) == w[e]
  {
    CompositeTotal(a, w, masses, share);
    CompositePositive(a, w, masses, share);
    forall e | e in w ensures masses[e] * 100.0 / Sum(masses) == w[e] {
      ShareBack(masses[e], Sum(masses), Sum(a), Sum(w), w[e]);
    }
  }

  lemma CompositeRest(a: Amounts, w: Amounts, masses: Amounts, share: real)
    requires Composite(a, w, masses, share)
    ensures Sum(masses) > 0.0
    ensures forall e :: e in a ==> masses[e] * 100.0 / Sum(masses) == a[e] * (100.0 - Sum(w)) / Sum(a)
  {
    CompositeTotal(a, w, masses, share);
    CompositePositive(a, w, masses, share);
    forall e | e in a ensures masses[e] * 100.0 / Sum(masses) == a[e] * (100.0 - Sum(w)) / Sum(a) {
      MassBack(masses[e], Sum(masses), Sum(a), Sum(w));
    }
  }

  lemma CompositeScaled(a: Amounts, w: Amounts, masses: Amounts, share: real, n: real)
    requires Composite(a, w, masses, share)
    ensures Sum(masses) > 0.0
    ensures forall e :: e in w ==> masses[e] / Sum(masses) * n == w[e] * n / 100.0
  {
    CompositeTotal(a, w, masses, share);
    CompositePositive(a, w, masses, share);
    forall e | e in w ensures masses[e] / Sum(masses) * n == w[e] * n / 100.0 {
      ShareScaled(masses[e], Sum(masses), Sum(a), Sum(w), w[e], n);
    }
  }

  lemma Proportion(r: real, ws: real)
    requires ws < 100.0
    ensures r + r / (100.0 - ws) * ws == r * 100.0 / (100.0 - ws)
  {
    var d := 100.0 - ws;
    var q := r / d;
    assert q * d == r;
    calc {
      r + q * ws;
      q * d + q * ws;
      q * (d + ws);
      q * 100.0;
      r * 100.0 / d;
    }
  }

  lemma PositiveTotal(r: real, ws: real)
    requires r > 0.0 && ws < 100.0
    ensures r * 100.0 / (100.0 - ws) > 0.0
  {
    PositiveQuotient(r * 100.0, 100.0 - ws);
  }

  lemma ShareBack(x: real, mw: real, r: real, ws: real, w: real)
    requires r > 0.0 && ws < 100.0
    requires mw == r * 100.0 / (100.0 - ws)
    requires x == r / (100.0 - ws) * w
    ensures x * 100.0 / mw == w
  {
    assert x * 100.0 == mw * w;
  }

  lemma MassBack(x: real, mw: real, r: real, ws: real)
    requires r > 0.0 && ws < 100.0
    requires mw == r * 100.0 / (100.0 - ws)
    ensures x * 100.0 / mw == x * (100.0 - ws) / r
  {
  }

  lemma ShareScaled(x: real, mw: real, r: real, ws: real, w: real, n: real)
    requires r > 0.0 && ws < 100.0
    requires mw == r * 100.0 / (100.0 - ws)
    requires x == r / (100.0 - ws) * w
    ensures x / mw * n == w * n / 100.0
  {
    assert x == mw * w / 100.0;
  }

  predicate RoundTripReady(f: Formula)
  {
    |f.stoichiometry| > 0 &&
    f.stoichiometry.Keys !! f.wtPercent.Keys &&
    None !in f.wtPercent &&
    (forall e :: e in f.wtPercent ==> f.wtPercent[e] > 0.0) &&
    Sum(f.wtPercent) < 100.0 &&
    Sum(Masses(f.stoichiometry)) > 0.0
  }

  lemma CoefficientMass(e: ElementSymbol, w: real, mwMain: real, molSum: real)
    requires e != None && molSum != 0.0
    ensures Mass(e, Coefficient(e, w, mwMain, molSum)) == mwMain / molSum * w
  {
    var y := mwMain * w / molSum;
    assert Coefficient(e, w, mwMain, molSum) == MolesIn(e, y);
    MassOfMoles(e, y);
    Regroup(mwMain, w, molSum);
  }

  lemma CoefficientMassAll(mwMain: real, molSum: real)
    requires molSum != 0.0
    ensures forall e, x {:trigger Coefficient(e, x, mwMain, molSum)} :: e != None ==>
      Mass(e, Coefficient(e, x, mwMain, molSum)) == mwMain / molSum * x
  {
    forall e, x | e != None ensures Mass(e, Coefficient(e, x, mwMain, molSum)) == mwMain / molSum * x {
      CoefficientMass(e, x, mwMain, molSum);
    }
  }

  lemma CoefficientMasses(w: Amounts, mwMain: real, molSum: real)
    requires None !in w && molSum != 0.0
    ensures forall e :: e in w ==> Masses(Coefficients(w, mwMain, molSum))[e] == mwMain / molSum * w[e]
  {
    CoefficientMassAll(mwMain, molSum);
  }

  lemma MolecularNew(m: Amounts, c: Amounts)
    ensures forall e :: e in c && e !in m ==> Molecular(m, c)[e] == c[e]
  {
  }

  lemma MolecularMassesSplit(m: Amounts, c: Amounts)
    requires m.Keys !! c.Keys
    ensures forall e :: e in m ==> Masses(Molecular(m, c))[e] == Masses(m)[e]
    ensures forall e :: e in c ==> Masses(Molecular(m, c))[e] == Masses(c)[e]
  {
    MolecularNew(m, c);
  }

  lemma MolesInPositive(e: ElementSymbol, x: real)
    requires e != None && x > 0.0
    ensures MolesIn(e, x) > 0.0
  {
    MolesQuotient(e, x);
    PositiveQuotient(x, AtomicWeight(e));
  }

  lemma MolesPositive(w: Amounts)
    requires |w| > 0 && None !in w
    requires forall e :: e in w ==> w[e] > 0.0
    ensures Sum(Moles(w)) > 0.0
  {
    var moles := Moles(w);
    forall e | e in moles ensures moles[e] > 0.0 {
      MolesInPositive(e, w[e]);
    }
    SumPositive(moles);
  }

  lemma ToMolecularForm(f: Formula)
    requires |f.wtPercent| > 0 && None !in f.wtPercent
    requires Sum(f.wtPercent) < 100.0 && Sum(Moles(f.wtPercent)) != 0.0
    ensures ToMolecular(f) == Ok(Formula(f.element,
      Molecular(f.stoichiometry, Coefficients(f.wtPercent,
        MainWeight(ResidueWeight(f.stoichiometry), Sum(Moles(f.wtPercent)), Residue(f.wtPercent)),
        Sum(Moles(f.wtPercent)))), map[]))
  {
  }

  lemma MolecularShares(m: Amounts, w: Amounts, mwMain: real, molSum: real)
    requires m.Keys !! w.Keys && None !in w && molSum != 0.0
    ensures forall e :: e in w ==> Masses(Molecular(m, Coefficients(w, mwMain, molSum)))[e] == mwMain / molSum * w[e]
  {
    CoefficientMassAll(mwMain, molSum);
    MolecularMassesSplit(m, Coefficients(w, mwMain, molSum));
  }

  lemma MolecularCompositeOf(m: Amounts, w: Amounts, mwMain: real, molSum: real)
    requires m.Keys !! w.Keys && None !in w && molSum != 0.0
    requires Sum(Masses(m)) > 0.0 && Sum(w) < 100.0
    requires mwMain / molSum == Sum(Masses(m)) / (100.0 - Sum(w))
    ensures Composite(Masses(m), w, Masses(Molecular(m, Coefficients(w, mwMain, molSum))), mwMain / molSum)
  {
    MolecularShares(m, w, mwMain, molSum);
    MolecularMassesSplit(m, Coefficients(w, mwMain, molSum));
  }

  lemma MolecularCompositeAll(m: Amounts, w: Amounts)
    requires m.Keys !! w.Keys && None !in w
    requires Sum(Masses(m)) > 0.0 && Sum(w) < 100.0
    ensures forall mwMain, molSum {:trigger Coefficients(w, mwMain, molSum)} ::
      molSum != 0.0 && mwMain / molSum == Sum(Masses(m)) / (100.0 - Sum(w)) ==>
      Composite(Masses(m), w, Masses(Molecular(m, Coefficients(w, mwMain, molSum))), mwMain / molSum)
  {
    forall mwMain, molSum | molSum != 0.0 && mwMain / molSum == Sum(Masses(m)) / (100.0 - Sum(w))
      ensures Composite(Masses(m), w, Masses(Molecular(m, Coefficients(w, mwMain, molSum))), mwMain / molSum)
    {
      MolecularCompositeOf(m, w, mwMain, molSum);
    }
  }

  lemma MainShare(m: Amounts, w: Amounts)
    requires |m| > 0 && Sum(w) < 100.0
    ensures forall molSum {:trigger MainWeight(ResidueWeight(m), molSum, Residue(w))} :: molSum != 0.0 ==>
      MainWeight(ResidueWeight(m), molSum, Residue(w)) / molSum == Sum(Masses(m)) / (100.0 - Sum(w))
  {
  }

  lemma MolecularCompositeFilled(m: Amounts, w: Amounts)
    requires |m| > 0 && |w| > 0 && m.Keys !! w.Keys && None !in w
    requires forall e :: e in w ==> w[e] > 0.0
    requires Sum(w) < 100.0 && Sum(Masses(m)) > 0.0
    ensures Sum(Moles(w)) > 0.0
    ensures var mw := MainWeight(ResidueWeight(m), Sum(Moles(w)), Residue(w));
      Composite(Masses(m), w, Masses(Molecular(m, Coefficients(w, mw, Sum(Moles(w))))), mw / Sum(Moles(w)))
  {
    MolesPositive(w);
    MolecularCompositeAll(m, w);
    MainShare(m, w);
  }

  lemma MolecularComposite(f: Formula)
    requires RoundTripReady(f)
    ensures ToMolecular(f).Ok?
    ensures exists share :: Composite(Masses(f.stoichiometry), f.wtPercent, Masses(ToMolecular(f).value.stoichiometry), share)
  {
    var m, w := f.stoichiometry, f.wtPercent;
    if |w| == 0 {
      assert w == map[];
      SumEmpty();
      assert Composite(Masses(m), w, Masses(m), Sum(Masses(m)) / (100.0 - Sum(w)));
    } else {
      MolecularCompositeFilled(m, w);
      ToMolecularForm(f);
    }
  }

  lemma ToWtForm(f: Formula)
    requires |f.stoichiometry| > 0 && ToMolecular(f).Ok?
    requires Sum(Masses(ToMolecular(f).value.stoichiometry)) != 0.0
    ensures ToWt(f) == Ok(Formula(f.element, map[],
      WtFractions(Masses(ToMolecular(f).value.stoichiometry), Sum(Masses(ToMolecular(f).value.stoichiometry)))))
  {
  }

  lemma CompositeWt()
    ensures forall a, w, masses, share {:trigger Composite(a, w, masses, share)} ::
      Composite(a, w, masses, share) ==>
        Sum(masses) > 0.0 &&
        (forall e :: e in w ==> WtFractions(masses, Sum(masses))[e] == w[e]) &&
        (forall e :: e in a ==> WtFractions(masses, Sum(masses))[e] == a[e] * (100.0 - Sum(w)) / Sum(a))
  {
    forall a, w, masses, share | Composite(a, w, masses, share)
      ensures Sum(masses) > 0.0
      ensures forall e :: e in w ==> WtFractions(masses, Sum(masses))[e] == w[e]
      ensures forall e :: e in a ==> WtFractions(masses, Sum(masses))[e] == a[e] * (100.0 - Sum(w)) / Sum(a)
    {
      CompositeParts(a, w, masses, share);
      CompositeRest(a, w, masses, share);
    }
  }

  lemma CompositeMultipliedOf(a: Amounts, w: Amounts, masses: Amounts, share: real, n: real)
    requires Composite(a, w, masses, share)
    ensures Sum(masses) > 0.0
    ensures forall e :: e in w ==> ScaledFractions(masses, Sum(masses), n)[e] == w[e] * n / 100.0
  {
    CompositeScaled(a, w, masses, share, n);
  }

  lemma CompositeMultiplied()
    ensures forall a, w, masses, share, n {:trigger Composite(a, w, masses, share), ScaledFractions(masses, Sum(masses), n)} ::
      Composite(a, w, masses, share) && Sum(masses) != 0.0 ==>
        forall e :: e in w ==> ScaledFractions(masses, Sum(masses), n)[e] == w[e] * n / 100.0
  {
    forall a, w, masses, share, n {:trigger Composite(a, w, masses, share), ScaledFractions(masses, Sum(masses), n)}
      | Composite(a, w, masses, share) && Sum(masses) != 0.0
      ensures forall e :: e in w ==> ScaledFractions(masses, Sum(masses), n)[e] == w[e] * n / 100.0
    {
      CompositeMultipliedOf(a, w, masses, share, n);
    }
  }

  lemma WtOfComposite(f: Formula, masses: Amounts, share: real, r: Result<Formula>)
    requires Composite(Masses(f.stoichiometry), f.wtPercent, masses, share)
    requires Sum(masses) != 0.0
    requires r == Ok(Formula(f.element, map[], WtFractions(masses, Sum(masses))))
    ensures r.Ok?
    ensures forall e :: e in f.wtPercent ==> r.value.wtPercent[e] == f.wtPercent[e]
  {
    CompositeWt();
  }

  lemma WtRoundTrip(f: Formula)
    requires RoundTripReady(f)
    ensures ToWt(f).Ok?
    ensures forall e :: e in f.wtPercent ==> ToWt(f).value.wtPercent[e] == f.wtPercent[e]
  {
    MolecularComposite(f);
    var masses := Masses(ToMolecular(f).value.stoichiometry);
    var share :| Composite(Masses(f.stoichiometry), f.wtPercent, masses, share);
    CompositePositive(Masses(f.stoichiometry), f.wtPercent, masses, share);
    ToWtForm(f);
    WtOfComposite(f, masses, share, ToWt(f));
  }

  lemma MultiplyWtPercentForm(f: Formula, n: real)
    requires ToMolecular(f).Ok?
    requires Sum(Masses(ToMolecular(f).value.stoichiometry)) != 0.0
    ensures MultiplyWtPercent(f, n) == Ok(Formula(f.element, map[],
      ScaledFractions(Masses(ToMolecular(f).value.stoichiometry), Sum(Masses(ToMolecular(f).value.stoichiometry)), n)))
  {
  }

  lemma MultipliedOfComposite(f: Formula, n: real, masses: Amounts, share: real, r: Result<Formula>)
    requires Composite(Masses(f.stoichiometry), f.wtPercent, masses, share)
    requires Sum(masses) != 0.0
    requires r == Ok(Formula(f.element, map[], ScaledFractions(masses, Sum(masses), n)))
    ensures r.Ok?
    ensures forall e :: e in f.wtPercent ==> r.value.wtPercent[e] == f.wtPercent[e] * n / 100.0
  {
    CompositeMultiplied();
  }

  lemma MultiplyWtPercentRoundTrip(f: Formula, n: real)
    requires RoundTripReady(f)
    ensures MultiplyWtPercent(f, n).Ok?
    ensures forall e :: e in f.wtPercent ==> MultiplyWtPercent(f, n).value.wtPercent[e] == f.wtPercent[e] * n / 100.0
  {
    MolecularComposite(f);
    var masses := Masses(ToMolecular(f).value.stoichiometry);
    var share :| Composite(Masses(f.stoichiometry), f.wtPercent, masses, share);
    CompositePositive(Masses(f.stoichiometry), f.wtPercent, masses, share);
    MultiplyWtPercentForm(f, n);
    MultipliedOfComposite(f, n, masses, share, MultiplyWtPercent(f, n));
  }

  /** The mass percents of `to_wt` sum to 100 already, so `to_wt_percent`
      changes nothing: it too gives every mass-percent element its value back. */
  lemma WtPercentRoundTrip(f: Formula)
    requires RoundTripReady(f)
    ensures ToWt(f).Ok? && ToWtPercent(f) == ToWt(f)
    ensures forall e :: e in f.wtPercent ==> ToWtPercent(f).value.wtPercent[e] == f.wtPercent[e]
  {
    WtRoundTrip(f);
    ToWtSum(f);
    ScaleHundred(ToWt(f).value);
  }
}
