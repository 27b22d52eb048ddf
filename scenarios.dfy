/** The formulas of the source's unit tests, worked through the model:
    the builders and conversions of src/element.rs and the trees the
    grammar gives for the formulas of src/parser.rs. */
module Scenarios {
  import opened Elements
  import opened Composition
  import opened Properties
  import opened RoundTrip
  import opened Parser

  // ---------------------------------------------------------------------
  // Small facts the examples share.

  lemma SiO2Symbols()
    ensures FromStr("Si") == Si && FromStr("O") == O
  {
  }

  lemma MetalSymbols()
    ensures FromStr("Pt") == Pt && FromStr("Au") == Au
  {
  }

  /** Accumulating maps with no element in common is their union. */
  lemma MergeDisjoint(a: Amounts, b: Amounts)
    requires a.Keys !! b.Keys
    ensures Merge(a, b) == a + b
  {
    var r := Merge(a, b);
    forall e | e in r ensures r[e] == (a + b)[e] {
      assert Get(r, e) == Get(a, e) + Get(b, e);
    }
  }

  /** The formula an element leaf contributes, added to `f`, when `f` does
      not mention that element yet. */
  function WithLeaf(f: Formula, e: ElementSymbol, suffix: Suffix): Formula
  {
    match suffix
    case Bare => Formula(f.element + {e}, f.stoichiometry[e := 1.0], f.wtPercent)
    case Number(n) => Formula(f.element + {e}, f.stoichiometry[e := n], f.wtPercent)
    case WeightPercent(n) => Formula(f.element + {e}, f.stoichiometry, f.wtPercent[e := n])
  }

  lemma LeafAdded(f: Formula, e: ElementSymbol, suffix: Suffix)
    requires e !in f.stoichiometry && e !in f.wtPercent
    ensures AddFormula(f, ElementLeaf(e, suffix)) == WithLeaf(f, e, suffix)
  {
    var g := ElementLeaf(e, suffix);
    MergeDisjoint(f.stoichiometry, g.stoichiometry);
    MergeDisjoint(f.wtPercent, g.wtPercent);
    match suffix
    case Bare =>
      assert f.stoichiometry + map[e := 1.0] == f.stoichiometry[e := 1.0];
      assert f.wtPercent + map[] == f.wtPercent;
    case Number(n) =>
      assert f.stoichiometry + map[e := n] == f.stoichiometry[e := n];
      assert f.wtPercent + map[] == f.wtPercent;
    case WeightPercent(n) =>
      assert f.stoichiometry + map[] == f.stoichiometry;
      assert f.wtPercent + map[e := n] == f.wtPercent[e := n];
  }

  /** One more element leaf in a `formula` node. */
  lemma ChildLeaf(children: seq<Node>, f: Formula, symbol: string, e: ElementSymbol, suffix: Suffix)
    requires FromStr(symbol) == e && e !in f.stoichiometry && e !in f.wtPercent
    requires ParseFormulaPairs(FormulaNode(children)) == Ok(f)
    ensures ParseFormulaPairs(FormulaNode(children + [ElementNode(symbol, suffix)])) == Ok(WithLeaf(f, e, suffix))
  {
    FormulaAppend(children, ElementNode(symbol, suffix));
    LeafAdded(f, e, suffix);
  }

  /** One silicon, and `n` oxygen, more in a `formula` node. */
  lemma ThenSi(children: seq<Node>, f: Formula)
    requires Si !in f.stoichiometry && Si !in f.wtPercent
    requires ParseFormulaPairs(FormulaNode(children)) == Ok(f)
    ensures ParseFormulaPairs(FormulaNode(children + [ElementNode("Si", Bare)])) == Ok(WithLeaf(f, Si, Bare))
  {
    SiO2Symbols();
    ChildLeaf(children, f, "Si", Si, Bare);
  }

  lemma ThenO(children: seq<Node>, f: Formula, n: real)
    requires O !in f.stoichiometry && O !in f.wtPercent
    requires ParseFormulaPairs(FormulaNode(children)) == Ok(f)
    ensures ParseFormulaPairs(FormulaNode(children + [ElementNode("O", Number(n))])) == Ok(WithLeaf(f, O, Number(n)))
  {
    SiO2Symbols();
    ChildLeaf(children, f, "O", O, Number(n));
  }

  /** One more element item in a group that has not stopped. */
  lemma GroupLeaf(items: seq<Item>, f: Formula, symbol: string, e: ElementSymbol, suffix: Suffix)
    requires FromStr(symbol) == e && e !in f.stoichiometry && e !in f.wtPercent
    requires NoStop(items) && ParseFormulaPairs(GroupNode(items)) == Ok(f)
    ensures ParseFormulaPairs(GroupNode(items + [ElementItem(symbol, suffix)])) == Ok(WithLeaf(f, e, suffix))
  {
    GroupAppend(items, ElementItem(symbol, suffix), Empty());
    assert [ElementItem(symbol, suffix)][1..] == [];
    LeafAdded(f, e, suffix);
  }

  lemma SumSingle(m: Amounts, e: ElementSymbol)
    requires m.Keys == {e}
    ensures Sum(m) == m[e]
  {
    assert m == map[][e := m[e]];
    SumEmpty();
    SumInsert(map[], e, m[e]);
  }

  lemma SumPair(a: ElementSymbol, x: real, b: ElementSymbol, y: real)
    requires a != b
    ensures Sum(map[a := x, b := y]) == x + y
  {
    SumEmpty();
    SumInsert(map[], a, x);
    assert map[][a := x] == map[a := x];
    SumInsert(map[a := x], b, y);
  }

  /** Splitting the sum of a map with keys `{a, b, c}` into `a` and the rest. */
  lemma SumThree(m: Amounts, a: ElementSymbol, b: ElementSymbol, c: ElementSymbol)
    requires m.Keys == {a, b, c} && a != b && a != c && b != c
    ensures Sum(m) == m[a] + (m[b] + m[c])
  {
    SumRemove(m, a);
    assert m - {a} == map[b := m[b], c := m[c]];
    SumPair(b, m[b], c, m[c]);
  }

  lemma SumFour(m: Amounts, a: ElementSymbol, b: ElementSymbol, c: ElementSymbol, d: ElementSymbol)
    requires m.Keys == {a, b, c, d} && a != b && a != c && a != d && b != c && b != d && c != d
    ensures Sum(m) == m[a] + (m[b] + (m[c] + m[d]))
  {
    SumRemove(m, a);
    SumThree(m - {a}, b, c, d);
  }

  /** `to_wt_percent` of a formula with no molar part rescales its mass
      percents by 100 over their total. */
  lemma PercentsRescaled(g: Formula, total: real, k: real)
    requires |g.stoichiometry| == 0 && Sum(g.wtPercent) == total && total != 0.0 && k == 100.0 / total
    ensures ToWtPercent(g) == Ok(Multiply(g, k))
  {
    assert ToWt(g) == Ok(g);
  }

  /** ... so mass percents that already sum to 100 stay as they are. */
  lemma PercentsKept(g: Formula)
    requires |g.stoichiometry| == 0 && Sum(g.wtPercent) == 100.0
    ensures ToWtPercent(g) == Ok(g)
  {
    PercentsRescaled(g, 100.0, 1.0);
    MultiplyOne(g);
  }

  lemma MultiplyOne(g: Formula)
    ensures Multiply(g, 1.0) == g
  {
    ScaleOne(g.stoichiometry);
    ScaleOne(g.wtPercent);
  }

  lemma ScaledAt(g: Formula, k: real, e: ElementSymbol)
    requires e in g.wtPercent
    ensures Multiply(g, k).wtPercent[e] == g.wtPercent[e] * k
  {
  }

  /** The rescaled value of one element of such a formula: its mass
      percent times `k`, 100 over the total. */
  lemma PercentRescaled(g: Formula, total: real, k: real, e: ElementSymbol)
    requires |g.stoichiometry| == 0 && Sum(g.wtPercent) == total && total != 0.0 && k == 100.0 / total
    requires e in g.wtPercent
    ensures ToWtPercent(g).Ok? && ToWtPercent(g).value.wtPercent[e] == g.wtPercent[e] * k
  {
    PercentsRescaled(g, total, k);
    ScaledAt(g, k, e);
  }

  /** The masses of one silicon and two oxygen. */
  lemma SiO2Masses()
    ensures Masses(map[Si := 1.0, O := 2.0]) == map[Si := 28.085, O := 31.998]
  {
    AtomicWeightRow(Si);
    AtomicWeightRow(O);
  }

  // ---------------------------------------------------------------------
  // The builder and conversion tests of src/element.rs.

  /** One oxygen, 10 % hydrogen and 20 % nitrogen by mass. */
  const OHN: Formula := Formula({O, H, N}, map[O := 1.0], map[H := 10.0, N := 20.0])


  /** `add_element(O, 1)`, `add_wt_percent(H, 10)`, `add_wt_percent(N, 20)`
      on a new formula build `OHN`. */
  lemma OHNBuilt()
    ensures AddWtPercent(AddWtPercent(AddElement(Empty(), O, 1.0), H, 10.0), N, 20.0) == OHN
  {
    var f1 := AddElement(Empty(), O, 1.0);
    assert f1.stoichiometry == map[O := 1.0];
    var f2 := AddWtPercent(f1, H, 10.0);
    assert f2.wtPercent == map[H := 10.0];
    var f3 := AddWtPercent(f2, N, 20.0);
    assert f3.wtPercent == map[H := 10.0, N := 20.0];
    assert f3.element == {O, H, N};
  }

  /** A formula of `o` oxygen and `h` and `n` percent by mass of hydrogen
      and nitrogen: the molar form keeps the oxygen amount (oxygen has no
      mass percent), and the mass-percent form gives hydrogen and nitrogen
      back their percents. */
  lemma OxygenWithPercents(o: real, h: real, n: real)
    requires o > 0.0 && h > 0.0 && n > 0.0 && h + n < 100.0
    ensures var f := Formula({O, H, N}, map[O := o], map[H := h, N := n]);
      ToMolecular(f).Ok? && ToMolecular(f).value.stoichiometry[O] == o &&
      ToWtPercent(f).Ok? && ToWtPercent(f).value.wtPercent[H] == h && ToWtPercent(f).value.wtPercent[N] == n
  {
    var f := Formula({O, H, N}, map[O := o], map[H := h, N := n]);
    OxygenWithPercentsReady(o, h, n);
    MolesPositive(f.wtPercent);
    WtPercentRoundTrip(f);
  }

  lemma OxygenWithPercentsReady(o: real, h: real, n: real)
    requires o > 0.0 && h > 0.0 && n > 0.0 && h + n < 100.0
    ensures var f := Formula({O, H, N}, map[O := o], map[H := h, N := n]);
      RoundTripReady(f)
  {
    var f := Formula({O, H, N}, map[O := o], map[H := h, N := n]);
    SumPair(H, h, N, n);
    AtomicWeightRow(O);
    assert Masses(f.stoichiometry).Keys == {O};
    SumSingle(Masses(f.stoichiometry), O);
  }

  lemma OHNMolecularAndPercent()
    ensures ToMolecular(OHN).Ok? && ToMolecular(OHN).value.stoichiometry[O] == 1.0
    ensures ToWtPercent(OHN).Ok? && ToWtPercent(OHN).value.wtPercent[H] == 10.0 && ToWtPercent(OHN).value.wtPercent[N] == 20.0
  {
    OxygenWithPercents(1.0, 10.0, 20.0);
  }

  /** Adding `OHN` to itself, or multiplying it by 2, doubles every amount. */
  lemma OHNDoubled()
    ensures AddFormula(OHN, OHN) == Formula({O, H, N}, map[O := 2.0], map[H := 20.0, N := 40.0])
    ensures Multiply(OHN, 2.0) == Formula({O, H, N}, map[O := 2.0], map[H := 20.0, N := 40.0])
  {
    var r := AddFormula(OHN, OHN);
    assert Get(r.stoichiometry, O) == 2.0;
    assert Get(r.wtPercent, H) == 20.0 && Get(r.wtPercent, N) == 40.0;
    assert r.stoichiometry == map[O := 2.0];
    assert r.wtPercent == map[H := 20.0, N := 40.0];
  }

  lemma OHNDoubledConverted()
    ensures var f := Formula({O, H, N}, map[O := 2.0], map[H := 20.0, N := 40.0]);
      ToMolecular(f).Ok? && ToMolecular(f).value.stoichiometry[O] == 2.0 &&
      ToWtPercent(f).Ok? && ToWtPercent(f).value.wtPercent[H] == 20.0 && ToWtPercent(f).value.wtPercent[N] == 40.0
  {
    OxygenWithPercents(2.0, 20.0, 40.0);
  }

  /** Two positive mass percents under 100 in all and no molar amounts:
      `to_molecular_formula` gives both elements a molar amount. */
  lemma PercentsMolecular(h: real, n: real)
    requires h > 0.0 && n > 0.0 && h + n < 100.0
    ensures var f := Formula({H, N}, map[], map[H := h, N := n]);
      ToMolecular(f).Ok? && ToMolecular(f).value.stoichiometry.Keys == {H, N}
  {
    SumPair(H, h, N, n);
    MolesPositive(map[H := h, N := n]);
  }

  /** Ten percent hydrogen and twenty percent nitrogen by mass, and no molar
      amounts. */
  const HN: Formula := Formula({H, N}, map[], map[H := 10.0, N := 20.0])

  lemma HNMolecular()
    ensures ToMolecular(HN).Ok? && ToMolecular(HN).value.stoichiometry.Keys == {H, N}
  {
    PercentsMolecular(10.0, 20.0);
  }

  lemma HNPercents()
    ensures ToWt(HN) == Ok(HN)
    ensures ToWtPercent(HN).Ok? && ToWtPercent(HN).value.wtPercent[H] == 100.0 / 3.0 &&
      ToWtPercent(HN).value.wtPercent[N] == 200.0 / 3.0
  {
    SumPair(H, 10.0, N, 20.0);
    PercentRescaled(HN, 30.0, 100.0 / 30.0, H);
    PercentRescaled(HN, 30.0, 100.0 / 30.0, N);
  }

  /** Mass percents alone: `to_molecular_formula` turns both into molar
      amounts, `to_wt` passes them through, and `to_wt_percent` rescales 10
      and 20 to a third and two thirds of 100. */
  lemma PercentsOnly()
    ensures ToMolecular(HN).Ok? && ToMolecular(HN).value.stoichiometry.Keys == {H, N}
    ensures ToWt(HN) == Ok(HN)
    ensures ToWtPercent(HN).Ok? && ToWtPercent(HN).value.wtPercent[H] == 100.0 / 3.0 &&
      ToWtPercent(HN).value.wtPercent[N] == 200.0 / 3.0
  {
    HNMolecular();
    HNPercents();
  }

  /** One oxygen alone: the molar form is the formula, and oxygen is 100 %
      of the mass. */
  lemma OxygenOnly()
    ensures var f := Formula({O}, map[O := 1.0], map[]);
      ToMolecular(f) == Ok(f) && ToWtPercent(f).Ok? && ToWtPercent(f).value.wtPercent == map[O := 100.0]
  {
    var f := Formula({O}, map[O := 1.0], map[]);
    AtomicWeightRow(O);
    assert Masses(f.stoichiometry).Keys == {O};
    SumSingle(Masses(f.stoichiometry), O);
    assert ToWt(f).Ok?;
    ToWtSum(f);
    ScaleHundred(ToWt(f).value);
    var w := ToWtPercent(f).value.wtPercent;
    assert w.Keys == {O};
    SumSingle(w, O);
  }

  /** `multiply_wt_percent(2)` on `OHN` turns the percents into fractions
      of 2: hydrogen 0.2 and nitrogen 0.4 ... */
  lemma OHNWtMultiplied()
    ensures MultiplyWtPercent(OHN, 2.0).Ok?
    ensures MultiplyWtPercent(OHN, 2.0).value.wtPercent[H] == 0.2
    ensures MultiplyWtPercent(OHN, 2.0).value.wtPercent[N] == 0.4
  {
    SumPair(H, 10.0, N, 20.0);
    AtomicWeightRow(O);
    assert Masses(OHN.stoichiometry).Keys == {O};
    SumSingle(Masses(OHN.stoichiometry), O);
    assert RoundTripReady(OHN);
    MultiplyWtPercentRoundTrip(OHN, 2.0);
  }

  /** ... and `to_wt_percent` of that gives back 10 and 20. */
  lemma OHNWtMultipliedPercent()
    ensures MultiplyWtPercent(OHN, 2.0).Ok?
    ensures var g := MultiplyWtPercent(OHN, 2.0).value;
      ToWtPercent(g).Ok? && ToWtPercent(g).value.wtPercent[H] == 10.0 && ToWtPercent(g).value.wtPercent[N] == 20.0
  {
    OHNWtMultiplied();
    var g := MultiplyWtPercent(OHN, 2.0).value;
    MultiplyWtPercentSum(OHN, 2.0);
    PercentRescaled(g, 2.0, 50.0, H);
    PercentRescaled(g, 2.0, 50.0, N);
  }

  // ---------------------------------------------------------------------
  // The parser tests of src/parser.rs.

  /** The tree the grammar gives for `SiO2`, over the two symbol strings. */
  function SilicaTree(s: string, t: string): Node
  {
    FormulaNode([ElementNode(s, Bare), ElementNode(t, Number(2.0)), EOI])
  }

  lemma SilicaLeaves()
    ensures WithLeaf(WithLeaf(Empty(), Si, Bare), O, Number(2.0)) == Formula({Si, O}, map[Si := 1.0, O := 2.0], map[])
  {
  }

  lemma SilicaParsed(s: string, t: string)
    requires FromStr(s) == Si && FromStr(t) == O
    ensures ParseFormulaPairs(SilicaTree(s, t)) == Ok(Formula({Si, O}, map[Si := 1.0, O := 2.0], map[]))
  {
    var si, o := ElementNode(s, Bare), ElementNode(t, Number(2.0));
    assert ParseFormulaPairs(FormulaNode([])) == Ok(Empty());
    ChildLeaf([], Empty(), s, Si, Bare);
    assert [] + [si] == [si];
    var f1 := WithLeaf(Empty(), Si, Bare);
    ChildLeaf([si], f1, t, O, Number(2.0));
    assert [si] + [o] == [si, o];
    FormulaEOI([si, o]);
    assert [si, o] + [EOI] == [si, o, EOI];
    SilicaLeaves();
  }

  /** `SiO2` parses to one silicon and two oxygen ... */
  lemma SiO2Parsed()
    ensures ParseFormulaPairs(SilicaTree("Si", "O")) == Ok(Formula({Si, O}, map[Si := 1.0, O := 2.0], map[]))
  {
    SiO2Symbols();
    SilicaParsed("Si", "O");
  }

  /** ... of molecular weight 60.083. */
  lemma SiO2Weight()
    ensures MolecularWeight(Formula({Si, O}, map[Si := 1.0, O := 2.0], map[])) == Ok(60.083)
  {
    SiO2Masses();
    SumPair(Si, 28.085, O, 31.998);
  }

  /** The tree for `x5wt%/SiO2` (the separator `/` gives no node). */
  function MetalOnSilicaTree(x: string): Node
  {
    FormulaNode([ElementNode(x, WeightPercent(5.0)), ElementNode("Si", Bare), ElementNode("O", Number(2.0)), EOI])
  }

  /** 5 % of a metal `x` by mass on one silicon and two oxygen. */
  function MetalOnSilica(x: ElementSymbol): Formula
  {
    Formula({x, Si, O}, map[Si := 1.0, O := 2.0], map[x := 5.0])
  }

  lemma MetalFirst(x: string, e: ElementSymbol)
    requires FromStr(x) == e
    ensures ParseFormulaPairs(FormulaNode([ElementNode(x, WeightPercent(5.0))])) == Ok(WithLeaf(Empty(), e, WeightPercent(5.0)))
  {
    assert ParseFormulaPairs(FormulaNode([])) == Ok(Empty());
    ChildLeaf([], Empty(), x, e, WeightPercent(5.0));
    assert [] + [ElementNode(x, WeightPercent(5.0))] == [ElementNode(x, WeightPercent(5.0))];
  }

  lemma MetalThenSi(x: string, e: ElementSymbol)
    requires FromStr(x) == e && e != Si
    ensures ParseFormulaPairs(FormulaNode([ElementNode(x, WeightPercent(5.0)), ElementNode("Si", Bare)])) ==
      Ok(WithLeaf(WithLeaf(Empty(), e, WeightPercent(5.0)), Si, Bare))
  {
    var pt, si := ElementNode(x, WeightPercent(5.0)), ElementNode("Si", Bare);
    MetalFirst(x, e);
    ThenSi([pt], WithLeaf(Empty(), e, WeightPercent(5.0)));
    assert [pt] + [si] == [pt, si];
  }

  lemma MetalOnSilicaLeaves(e: ElementSymbol)
    requires e != Si && e != O
    ensures WithLeaf(WithLeaf(WithLeaf(Empty(), e, WeightPercent(5.0)), Si, Bare), O, Number(2.0)) == MetalOnSilica(e)
  {
  }

  /** `x5wt%/SiO2` parses to one silicon, two oxygen and 5 % of `x`. */
  lemma MetalOnSilicaParsed(x: string, e: ElementSymbol)
    requires FromStr(x) == e && e != Si && e != O
    ensures ParseFormulaPairs(MetalOnSilicaTree(x)) == Ok(MetalOnSilica(e))
  {
    var pt, si, o := ElementNode(x, WeightPercent(5.0)), ElementNode("Si", Bare), ElementNode("O", Number(2.0));
    MetalThenSi(x, e);
    var f2 := WithLeaf(WithLeaf(Empty(), e, WeightPercent(5.0)), Si, Bare);
    ThenO([pt, si], f2, 2.0);
    assert [pt, si] + [o] == [pt, si, o];
    FormulaEOI([pt, si, o]);
    assert [pt, si, o] + [EOI] == [pt, si, o, EOI];
    MetalOnSilicaLeaves(e);
  }

  /** `Pt5wt%/SiO2` parses to one silicon, two oxygen and 5 % platinum. */
  lemma PtOnSilicaParsed()
    ensures ParseFormulaPairs(MetalOnSilicaTree("Pt")) == Ok(MetalOnSilica(Pt))
  {
    MetalSymbols();
    MetalOnSilicaParsed("Pt", Pt);
  }

  /** That formula is ready for the conversions of the mass-percent round trip. */
  lemma MetalOnSilicaReady(x: ElementSymbol)
    requires x != None && x != Si && x != O
    ensures RoundTripReady(MetalOnSilica(x))
  {
    var f := MetalOnSilica(x);
    SumSingle(f.wtPercent, x);
    SiO2Masses();
    SumPair(Si, 28.085, O, 31.998);
  }

  /** `to_wt_percent` of it keeps the metal at 5 % and gives silicon and
      oxygen together the other 95 %. */
  lemma MetalOnSilicaPercent(x: ElementSymbol)
    requires x != None && x != Si && x != O
    ensures ToWtPercent(MetalOnSilica(x)).Ok?
    ensures ToWtPercent(MetalOnSilica(x)).value.wtPercent[x] == 5.0
    ensures ToWtPercent(MetalOnSilica(x)).value.wtPercent[Si] + ToWtPercent(MetalOnSilica(x)).value.wtPercent[O] == 95.0
  {
    MetalOnSilicaPercentForm(x);
    SumThree(ToWtPercent(MetalOnSilica(x)).value.wtPercent, x, Si, O);
  }

  lemma MetalOnSilicaPercentForm(x: ElementSymbol)
    requires x != None && x != Si && x != O
    ensures ToWtPercent(MetalOnSilica(x)).Ok?
    ensures ToWtPercent(MetalOnSilica(x)).value.wtPercent.Keys == {x, Si, O}
    ensures ToWtPercent(MetalOnSilica(x)).value.wtPercent[x] == 5.0
    ensures Sum(ToWtPercent(MetalOnSilica(x)).value.wtPercent) == 100.0
  {
    MetalOnSilicaReady(x);
    WtPercentRoundTrip(MetalOnSilica(x));
    ToWtSum(MetalOnSilica(x));
  }

  lemma PtOnSilicaPercent()
    ensures ToWtPercent(MetalOnSilica(Pt)).Ok?
    ensures ToWtPercent(MetalOnSilica(Pt)).value.wtPercent[Pt] == 5.0
    ensures ToWtPercent(MetalOnSilica(Pt)).value.wtPercent[Si] + ToWtPercent(MetalOnSilica(Pt)).value.wtPercent[O] == 95.0
  {
    MetalOnSilicaPercent(Pt);
  }

  /** The items of the group `(x5wt%SiO2)50wt%`, and of `(x5wt%/SiO2)50wt%`. */
  function MetalOnSilicaItems(x: string): seq<Item>
  {
    MetalOnSilicaElements(x) + [SuffixItem(WeightPercent(50.0))]
  }

  function MetalOnSilicaElements(x: string): seq<Item>
  {
    [ElementItem(x, WeightPercent(5.0)), ElementItem("Si", Bare), ElementItem("O", Number(2.0))]
  }

  /** The tree for `(x5wt%SiO2)50wt%(y5wt%/SiO2)50wt%`. */
  function TwoMetalsTree(x: string, y: string): Node
  {
    FormulaNode([GroupNode(MetalOnSilicaItems(x)), GroupNode(MetalOnSilicaItems(y)), EOI])
  }

  lemma MetalOnSilicaFolded(x: string, e: ElementSymbol)
    requires FromStr(x) == e && e != None && e != Si && e != O
    ensures NoStop(MetalOnSilicaElements(x))
    ensures ParseFormulaPairs(GroupNode(MetalOnSilicaElements(x))) == Ok(MetalOnSilica(e))
  {
    var it := MetalOnSilicaElements(x);
    SiO2Symbols();
    assert NoStop([]);
    assert ParseFormulaPairs(GroupNode([])) == Ok(Empty());
    GroupLeaf([], Empty(), x, e, WeightPercent(5.0));
    assert [] + [it[0]] == it[..1];
    var f1 := WithLeaf(Empty(), e, WeightPercent(5.0));
    assert NoStop(it[..1]);
    GroupLeaf(it[..1], f1, "Si", Si, Bare);
    assert it[..1] + [it[1]] == it[..2];
    var f2 := WithLeaf(f1, Si, Bare);
    assert NoStop(it[..2]);
    GroupLeaf(it[..2], f2, "O", O, Number(2.0));
    assert it[..2] + [it[2]] == it;
    MetalOnSilicaLeaves(e);
  }

  /** `multiply_wt_percent(50)` on 5 % of `x` on silica: mass values only,
      2.5 of the metal, 50 in all. */
  lemma MetalOnSilicaHalved(e: ElementSymbol)
    requires e != None && e != Si && e != O
    ensures var r := MultiplyWtPercent(MetalOnSilica(e), 50.0);
      r.Ok? && r.value.stoichiometry == map[] && r.value.wtPercent.Keys == {e, Si, O} &&
      r.value.wtPercent[e] == 2.5 && Sum(r.value.wtPercent) == 50.0
  {
    MetalOnSilicaReady(e);
    HalvedForm(e);
    MultiplyWtPercentSum(MetalOnSilica(e), 50.0);
  }

  lemma HalvedForm(e: ElementSymbol)
    requires e != None && e != Si && e != O
    requires RoundTripReady(MetalOnSilica(e))
    ensures var r := MultiplyWtPercent(MetalOnSilica(e), 50.0);
      r.Ok? && r.value.stoichiometry == map[] && r.value.wtPercent.Keys == {e, Si, O} && r.value.wtPercent[e] == 2.5
  {
    MultiplyWtPercentRoundTrip(MetalOnSilica(e), 50.0);
  }

  /** The group `(x5wt%SiO2)50wt%` parses to that. */
  lemma MetalOnSilicaGroup(x: string, e: ElementSymbol)
    requires FromStr(x) == e && e != None && e != Si && e != O
    ensures ParseFormulaPairs(GroupNode(MetalOnSilicaItems(x))) == MultiplyWtPercent(MetalOnSilica(e), 50.0)
  {
    MetalOnSilicaFolded(x, e);
    GroupPercentStep(MetalOnSilicaElements(x), MetalOnSilica(e), 50.0);
  }

  lemma GroupPercentStep(items: seq<Item>, f: Formula, n: real)
    requires NoStop(items) && ParseFormulaPairs(GroupNode(items)) == Ok(f)
    ensures ParseFormulaPairs(GroupNode(items + [SuffixItem(WeightPercent(n))])) == MultiplyWtPercent(f, n)
  {
    GroupWtPercent(items, n);
  }

  /** Two groups of mass values only, one with 2.5 of a metal `x`, the other
      with 2.5 of `y`, each 50 in all, added up: ... */
  lemma TwoGroupsAdded(a: Formula, b: Formula, x: ElementSymbol, y: ElementSymbol)
    requires x != y && x != Si && x != O && y != Si && y != O && Si != O
    requires a.stoichiometry == map[] && a.wtPercent.Keys == {x, Si, O} && a.wtPercent[x] == 2.5 && Sum(a.wtPercent) == 50.0
    requires b.stoichiometry == map[] && b.wtPercent.Keys == {y, Si, O} && b.wtPercent[y] == 2.5 && Sum(b.wtPercent) == 50.0
    ensures var f := AddFormula(AddFormula(Empty(), a), b);
      f.stoichiometry == map[] && f.wtPercent.Keys == {x, y, Si, O} && Sum(f.wtPercent) == 100.0 &&
      f.wtPercent[x] == 2.5 && f.wtPercent[y] == 2.5
  {
    var f1 := AddFormula(Empty(), a);
    var f := AddFormula(f1, b);
    SumEmpty();
    assert Get(f.wtPercent, x) == Get(f1.wtPercent, x) + Get(b.wtPercent, x);
    assert Get(f.wtPercent, y) == Get(f1.wtPercent, y) + Get(b.wtPercent, y);
  }

  /** ... four elements whose mass values sum to 100, so that the formula is
      its own mass-percent form. */
  lemma HundredSplit(f: Formula, x: ElementSymbol, y: ElementSymbol)
    requires x != y && x != Si && x != O && y != Si && y != O && Si != O
    requires f.stoichiometry == map[] && f.wtPercent.Keys == {x, y, Si, O} && Sum(f.wtPercent) == 100.0
    requires f.wtPercent[x] == 2.5 && f.wtPercent[y] == 2.5
    ensures ToWtPercent(f) == Ok(f) && f.wtPercent[Si] + f.wtPercent[O] == 95.0
  {
    PercentsKept(f);
    SumFour(f.wtPercent, x, y, Si, O);
  }

  /** A `formula` node of two children and `EOI`. */
  lemma TwoChildren(c1: Node, c2: Node, a: Formula, b: Formula)
    requires ParseFormulaPairs(c1) == Ok(a) && ParseFormulaPairs(c2) == Ok(b)
    ensures ParseFormulaPairs(FormulaNode([c1, c2, EOI])) == Ok(AddFormula(AddFormula(Empty(), a), b))
  {
    assert ParseFormulaPairs(FormulaNode([])) == Ok(Empty());
    ChildAdded([], c1, Empty(), a);
    assert [] + [c1] == [c1];
    ChildAdded([c1], c2, AddFormula(Empty(), a), b);
    assert [c1] + [c2] == [c1, c2];
    FormulaEOI([c1, c2]);
    assert [c1, c2] + [EOI] == [c1, c2, EOI];
  }

  /** `(x5wt%SiO2)50wt%(y5wt%/SiO2)50wt%` parses to mass values only, and
      its mass-percent form has 2.5 % of each metal and 95 % silicon and
      oxygen together. */
  lemma TwoMetalsParsed(x: string, y: string, ex: ElementSymbol, ey: ElementSymbol)
    requires FromStr(x) == ex && FromStr(y) == ey
    requires ex != ey && ex != None && ex != Si && ex != O && ey != None && ey != Si && ey != O
    ensures ParseFormulaPairs(TwoMetalsTree(x, y)).Ok?
    ensures var f := ParseFormulaPairs(TwoMetalsTree(x, y)).value;
      f.stoichiometry == map[] && ToWtPercent(f) == Ok(f) && f.wtPercent.Keys == {ex, ey, Si, O} &&
      f.wtPercent[ex] == 2.5 && f.wtPercent[ey] == 2.5 && f.wtPercent[Si] + f.wtPercent[O] == 95.0
  {
    MetalOnSilicaGroup(x, ex);
    MetalOnSilicaGroup(y, ey);
    MetalOnSilicaHalved(ex);
    MetalOnSilicaHalved(ey);
    var a, b := MultiplyWtPercent(MetalOnSilica(ex), 50.0).value, MultiplyWtPercent(MetalOnSilica(ey), 50.0).value;
    TwoChildren(GroupNode(MetalOnSilicaItems(x)), GroupNode(MetalOnSilicaItems(y)), a, b);
    TwoGroupsAdded(a, b, ex, ey);
    HundredSplit(AddFormula(AddFormula(Empty(), a), b), ex, ey);
  }

  /** `(Pt5wt%SiO2)50wt%(Au5wt%/SiO2)50wt%`: 2.5 % platinum, 2.5 % gold. */
  lemma NestedParsed()
    ensures ParseFormulaPairs(TwoMetalsTree("Pt", "Au")).Ok?
    ensures var f := ParseFormulaPairs(TwoMetalsTree("Pt", "Au")).value;
      f.stoichiometry == map[] && ToWtPercent(f) == Ok(f) && f.wtPercent.Keys == {Pt, Au, Si, O} &&
      f.wtPercent[Pt] == 2.5 && f.wtPercent[Au] == 2.5 && f.wtPercent[Si] + f.wtPercent[O] == 95.0
  {
    MetalSymbols();
    TwoMetalsParsed("Pt", "Au", Pt, Au);
  }

  /** A formula node until its first failure grows child by child. */
  lemma ChildAdded(children: seq<Node>, c: Node, f: Formula, g: Formula)
    requires ParseFormulaPairs(FormulaNode(children)) == Ok(f)
    requires ParseFormulaPairs(c) == Ok(g)
    ensures ParseFormulaPairs(FormulaNode(children + [c])) == Ok(AddFormula(f, g))
  {
    FormulaAppend(children, c);
  }
}
