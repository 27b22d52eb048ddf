/** `parse_formula_pairs` (src/parser.rs): the fold of a formula's parse
    tree into a `ChemicalFormula`.

    The grammar and the parser generator that build the tree are not part
    of this model; the tree is an input, shaped as the match arms of the
    fold read it. Leaf numbers are already reals. A `weight_percent` group
    suffix that fails panics in the source (`unwrap`); here the fold
    returns that error. */
module Parser {
  import opened Elements
  import opened Composition
  import opened Formulas
  import opened Properties

  /** The optional `stoichiometry` after an element or inside a group: none,
      a `number`, or a `weight_percent` with its number. */
  datatype Suffix = Bare | Number(n: real) | WeightPercent(n: real)

  /** A child of a `group` node: an `element` node, or a `stoichiometry`. */
  datatype Item = ElementItem(symbol: string, suffix: Suffix) | SuffixItem(suffix: Suffix)

  /** The nodes the fold handles: `formula`, `group`, `element` and `EOI`. */
  datatype Node =
    | FormulaNode(children: seq<Node>)
    | GroupNode(items: seq<Item>)
    | ElementNode(symbol: string, suffix: Suffix)
    | EOI

  // ---------------------------------------------------------------------
  // The fold, as functions.

  /** The `element` arm (src/parser.rs:81-117) for the element `e` that
      `from_str` gives its symbol: a fresh formula with the element's molar
      amount (1 without a suffix) or its mass percent. */
  function ElementLeaf(e: ElementSymbol, suffix: Suffix): (r: Formula)
    ensures suffix.Bare? ==> r == Formula({e}, map[e := 1.0], map[])
    ensures suffix.Number? ==> r == Formula({e}, map[e := suffix.n], map[])
    ensures suffix.WeightPercent? ==> r == Formula({e}, map[], map[e := suffix.n])
  {
    match suffix
    case Bare => Composition.AddElement(Empty(), e, 1.0)
    case Number(n) => Composition.AddElement(Empty(), e, n)
    case WeightPercent(n) => Composition.AddWtPercent(Empty(), e, n)
  }

  /** The `group` arm (src/parser.rs:39-77) from item `items[0]` on, with
      the formula `acc` built so far: an element is added to it, a number
      multiplies it, a weight percent replaces it by its mass fractions
      scaled to that percent, and an empty stoichiometry ends the group. */
  function GroupFold(items: seq<Item>, acc: Formula): Result<Formula>
    decreases |items|
  {
    if |items| == 0 then Ok(acc)
    else
      match items[0]
      case ElementItem(symbol, suffix) => GroupFold(items[1..], Composition.AddFormula(acc, ElementLeaf(FromStr(symbol), suffix)))
      case SuffixItem(Bare) => Ok(acc)
      case SuffixItem(Number(n)) => GroupFold(items[1..], Composition.Multiply(acc, n))
      case SuffixItem(WeightPercent(n)) =>
        match Composition.MultiplyWtPercent(acc, n)
        case Err(x) => Err(x)
        case Ok(g) => GroupFold(items[1..], g)
  }

  /** `parse_formula_pairs(node)`. */
  function ParseFormulaPairs(node: Node): Result<Formula>
    decreases node, if node.FormulaNode? then |node.children| + 1 else 0
  {
    match node
    case FormulaNode(children) => FoldChildren(node, 0, Empty())
    case GroupNode(items) => GroupFold(items, Empty())
    case ElementNode(symbol, suffix) => Ok(ElementLeaf(FromStr(symbol), suffix))
    case EOI => Ok(Empty())
  }

  /** The `formula` arm (src/parser.rs:34-38) from child `i` on: the
      children's formulas added with `add_formula` to `acc`. */
  function FoldChildren(node: Node, i: nat, acc: Formula): Result<Formula>
    requires node.FormulaNode? && i <= |node.children|
    decreases node, |node.children| - i
  {
    if i == |node.children| then Ok(acc)
    else
      match ParseFormulaPairs(node.children[i])
      case Err(x) => Err(x)
      case Ok(g) => FoldChildren(node, i + 1, Composition.AddFormula(acc, g))
  }

  // ---------------------------------------------------------------------
  // The fold, as the source writes it: a recursive procedure whose `group`
  // arm updates a local formula item by item.

  /** `parse_formula_pairs(node)`, building each formula in place. */
  method ParseFormulaPairsInPlace(node: Node) returns (r: Result<Formula>)
    ensures r == ParseFormulaPairs(node)
    decreases node, 2
  {
    match node {
      case FormulaNode(children) =>
        var formula := new ChemicalFormula();
        var i := 0;
        while i < |children|
          invariant 0 <= i <= |children|
          invariant FoldChildren(node, i, formula.Value()) == ParseFormulaPairs(node)
          decreases |children| - i
        {
          var g := ParseFormulaPairsInPlace(children[i]);
          if g.Err? {
            return Err(g.error);
          }
          formula.AddFormula(g.value);
          i := i + 1;
        }
        return Ok(formula.Value());
      case GroupNode(items) =>
        var formula := new ChemicalFormula();
        var i := 0;
        assert items[0..] == items;
        while i < |items|
          invariant 0 <= i <= |items|
          invariant GroupFold(items[i..], formula.Value()) == ParseFormulaPairs(node)
          decreases |items| - i
        {
          assert items[i..][1..] == items[i + 1..];
          match items[i] {
            case ElementItem(symbol, suffix) =>
              var leaf := ElementInPlace(symbol, suffix);
              formula.AddFormula(leaf);
            case SuffixItem(Bare) =>
              return Ok(formula.Value());
            case SuffixItem(Number(n)) =>
              formula.Multiply(n);
            case SuffixItem(WeightPercent(n)) =>
              var ok := formula.MultiplyWtPercent(n);
              if ok.Err? {
                // the source panics here, through `unwrap`
                return Err(ok.error);
              }
          }
          i := i + 1;
        }
        return Ok(formula.Value());
      case ElementNode(symbol, suffix) =>
        var leaf := ElementInPlace(symbol, suffix);
        return Ok(leaf);
      case EOI =>
        return Ok(Empty());
    }
  }

  /** The `element` arm, on a fresh formula object. */
  method ElementInPlace(symbol: string, suffix: Suffix) returns (r: Formula)
    ensures r == ElementLeaf(FromStr(symbol), suffix)
  {
    var formula := new ChemicalFormula();
    match suffix {
      case Bare => formula.AddElement(FromStr(symbol), 1.0);
      case Number(n) => formula.AddElement(FromStr(symbol), n);
      case WeightPercent(n) => formula.AddWtPercent(FromStr(symbol), n);
    }
    return formula.Value();
  }

  // ---------------------------------------------------------------------
  // What the fold promises.

  /** No item of `items` is an empty stoichiometry, so a group does not
      stop before its end. */
  predicate NoStop(items: seq<Item>)
  {
    forall k :: 0 <= k < |items| ==> items[k] != SuffixItem(Bare)
  }

  /** The formula of a `formula` node with one more child: the formula of
      the others with the new child's formula added (`add_formula`), or the
      first error met from the left. */
  lemma FormulaAppend(children: seq<Node>, c: Node)
    ensures ParseFormulaPairs(FormulaNode(children + [c])) ==
      match ParseFormulaPairs(FormulaNode(children))
      case Err(x) => Err(x)
      case Ok(f) =>
        match ParseFormulaPairs(c)
        case Err(y) => Err(y)
        case Ok(g) => Ok(Composition.AddFormula(f, g))
  {
    FoldChildrenAppend(children, c, 0, Empty());
  }

  lemma {:induction false} FoldChildrenAppend(children: seq<Node>, c: Node, i: nat, acc: Formula)
    requires i <= |children|
    ensures FoldChildren(FormulaNode(children + [c]), i, acc) ==
      match FoldChildren(FormulaNode(children), i, acc)
      case Err(x) => Err(x)
      case Ok(f) =>
        match ParseFormulaPairs(c)
        case Err(y) => Err(y)
        case Ok(g) => Ok(Composition.AddFormula(f, g))
    decreases |children| - i
  {
    var node, node' := FormulaNode(children), FormulaNode(children + [c]);
    assert node'.children[i] == if i < |children| then children[i] else c;
    if i < |children| {
      match ParseFormulaPairs(children[i])
      case Err(x) =>
      case Ok(g) => FoldChildrenAppend(children, c, i + 1, Composition.AddFormula(acc, g));
    } else {
      match ParseFormulaPairs(c)
      case Err(y) =>
      case Ok(g) => assert FoldChildren(node', i + 1, Composition.AddFormula(acc, g)) == Ok(Composition.AddFormula(acc, g));
    }
  }

  /** Adding an empty formula changes nothing. */
  lemma AddEmpty(f: Formula)
    ensures Composition.AddFormula(f, Empty()) == f
  {
    assert Merge(f.stoichiometry, map[]) == f.stoichiometry;
    assert Merge(f.wtPercent, map[]) == f.wtPercent;
  }

  /** An `EOI` child adds nothing to a `formula` node. */
  lemma FormulaEOI(children: seq<Node>)
    ensures ParseFormulaPairs(FormulaNode(children + [EOI])) == ParseFormulaPairs(FormulaNode(children))
  {
    FormulaAppend(children, EOI);
    match ParseFormulaPairs(FormulaNode(children))
    case Err(x) =>
    case Ok(f) => AddEmpty(f);
  }

  /** A group item appended to items that do not stop: the item applied to
      the formula of the others, or their error. */
  lemma {:induction false} GroupAppend(items: seq<Item>, item: Item, acc: Formula)
    requires NoStop(items)
    ensures GroupFold(items + [item], acc) ==
      match GroupFold(items, acc)
      case Err(x) => Err(x)
      case Ok(f) => GroupFold([item], f)
    decreases |items|
  {
    if |items| == 0 {
      assert items + [item] == [item];
    } else {
      assert (items + [item])[0] == items[0];
      assert (items + [item])[1..] == items[1..] + [item];
      assert items[0] != SuffixItem(Bare);
      assert NoStop(items[1..]) by {
        forall k | 0 <= k < |items[1..]| ensures items[1..][k] != SuffixItem(Bare) {
          assert items[1..][k] == items[k + 1];
        }
      }
      match items[0]
      case ElementItem(symbol, suffix) =>
        GroupAppend(items[1..], item, Composition.AddFormula(acc, ElementLeaf(FromStr(symbol), suffix)));
      case SuffixItem(Bare) =>
        assert false;
      case SuffixItem(Number(n)) =>
        GroupAppend(items[1..], item, Composition.Multiply(acc, n));
      case SuffixItem(WeightPercent(n)) =>
        match Composition.MultiplyWtPercent(acc, n)
        case Err(x) =>
        case Ok(g) => GroupAppend(items[1..], item, g);
    }
  }

  /** An empty stoichiometry ends a group: the group's formula is the one
      built before it, and whatever follows is ignored. */
  lemma GroupStops(items: seq<Item>, rest: seq<Item>)
    requires NoStop(items)
    ensures ParseFormulaPairs(GroupNode(items + [SuffixItem(Bare)] + rest)) == ParseFormulaPairs(GroupNode(items))
  {
    GroupStopsFrom(items, rest, Empty());
  }

  lemma {:induction false} GroupStopsFrom(items: seq<Item>, rest: seq<Item>, acc: Formula)
    requires NoStop(items)
    ensures GroupFold(items + [SuffixItem(Bare)] + rest, acc) == GroupFold(items, acc)
    decreases |items|
  {
    var all := items + [SuffixItem(Bare)] + rest;
    if |items| == 0 {
      assert all[0] == SuffixItem(Bare);
    } else {
      assert all[0] == items[0];
      assert all[1..] == items[1..] + [SuffixItem(Bare)] + rest;
      assert items[0] != SuffixItem(Bare);
      assert NoStop(items[1..]) by {
        forall k | 0 <= k < |items[1..]| ensures items[1..][k] != SuffixItem(Bare) {
          assert items[1..][k] == items[k + 1];
        }
      }
      match items[0]
      case ElementItem(symbol, suffix) =>
        GroupStopsFrom(items[1..], rest, Composition.AddFormula(acc, ElementLeaf(FromStr(symbol), suffix)));
      case SuffixItem(Bare) =>
        assert false;
      case SuffixItem(Number(n)) =>
        GroupStopsFrom(items[1..], rest, Composition.Multiply(acc, n));
      case SuffixItem(WeightPercent(n)) =>
        match Composition.MultiplyWtPercent(acc, n)
        case Err(x) =>
        case Ok(g) => GroupStopsFrom(items[1..], rest, g);
    }
  }

  /** A number suffix applies `multiply` to what the group has gathered
      so far (every amount times the number, see
      Properties.MultiplyValues). */
  lemma GroupNumber(items: seq<Item>, n: real)
    requires NoStop(items)
    ensures ParseFormulaPairs(GroupNode(items + [SuffixItem(Number(n))])) ==
      match ParseFormulaPairs(GroupNode(items))
      case Err(x) => Err(x)
      case Ok(f) => Ok(Composition.Multiply(f, n))
  {
    GroupAppend(items, SuffixItem(Number(n)), Empty());
    assert [SuffixItem(Number(n))][1..] == [];
  }

  /** A weight-percent suffix `n` replaces the group's formula by the
      result of `multiply_wt_percent(n)`, and fails exactly when that
      conversion fails (where the source's `unwrap` panics); that result
      has no molar amounts, and its mass values sum to `n`. */
  lemma GroupWtPercent(items: seq<Item>, n: real)
    requires NoStop(items)
    ensures ParseFormulaPairs(GroupNode(items + [SuffixItem(WeightPercent(n))])) ==
      match ParseFormulaPairs(GroupNode(items))
      case Err(x) => Err(x)
      case Ok(f) => Composition.MultiplyWtPercent(f, n)
    ensures var r := ParseFormulaPairs(GroupNode(items + [SuffixItem(WeightPercent(n))]));
      r.Ok? ==> r.value.stoichiometry == map[] && (|r.value.wtPercent| > 0 ==> Sum(r.value.wtPercent) == n)
  {
    GroupAppend(items, SuffixItem(WeightPercent(n)), Empty());
    assert [SuffixItem(WeightPercent(n))][1..] == [];
    var r := ParseFormulaPairs(GroupNode(items + [SuffixItem(WeightPercent(n))]));
    if r.Ok? && |r.value.wtPercent| > 0 {
      MultiplyWtPercentSum(GroupFold(items, Empty()).value, n);
    }
  }
}
