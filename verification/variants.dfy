/** Product personalisation: the variant picker's selection map, the price
    modifiers of the selected options, the final price and description the
    product page computes, and its quantity picker. */
module Variants {
  import opened Prelude
  import opened Catalog
  import Cart

  /** `variants.find(v => v.type === kind)` */
  function FindVariant(vs: seq<Variant>, kind: string): (r: Option<Variant>)
    ensures r.Some? ==> exists k :: 0 <= k < |vs| && vs[k] == r.value && r.value.kind == kind
                          && forall j :: 0 <= j < k ==> vs[j].kind != kind
    ensures r.None? ==> forall i :: 0 <= i < |vs| ==> vs[i].kind != kind
  {
    if |vs| == 0 then None
    else if vs[0].kind == kind then Some(vs[0])
    else
      assert forall k :: 0 < k < |vs| ==> vs[k] == vs[1..][k - 1];
      FindVariant(vs[1..], kind)
  }

  /** `options.find(opt => opt.value === value)` */
  function FindOption(os: seq<VariantOption>, value: string): (r: Option<VariantOption>)
    ensures r.Some? ==> exists k :: 0 <= k < |os| && os[k] == r.value && r.value.value == value
                          && forall j :: 0 <= j < k ==> os[j].value != value
    ensures r.None? ==> forall i :: 0 <= i < |os| ==> os[i].value != value
  {
    if |os| == 0 then None
    else if os[0].value == value then Some(os[0])
    else
      assert forall k :: 0 < k < |os| ==> os[k] == os[1..][k - 1];
      FindOption(os[1..], value)
  }

  /** `variants.find(...)?.options.find(...)` */
  function ResolveOption(vs: seq<Variant>, kind: string, value: string): Option<VariantOption> {
    match FindVariant(vs, kind)
    case None => None
    case Some(v) => FindOption(v.options, value)
  }

  /** `option?.price_modifier || 0` */
  function ModifierOf(o: Option<VariantOption>): (m: real)
    ensures o.None? || o.value.priceModifier.None? ==> m == 0.0
    ensures o.Some? && o.value.priceModifier.Some? ==> m == o.value.priceModifier.value
  {
    if o.Some? && o.value.priceModifier.Some? then o.value.priceModifier.value else 0.0
  }

  /** `getVariantPriceModifier(type, value)` of the variant picker. */
  function GetVariantPriceModifier(vs: seq<Variant>, kind: string, value: string): (m: real)
    ensures ResolveOption(vs, kind, value).None? ==> m == 0.0
    ensures ResolveOption(vs, kind, value).Some? && ResolveOption(vs, kind, value).value.priceModifier.Some? ==>
              m == ResolveOption(vs, kind, value).value.priceModifier.value
    ensures m != 0.0 ==> ResolveOption(vs, kind, value).Some? && ResolveOption(vs, kind, value).value.priceModifier == Some(m)
  {
    ModifierOf(ResolveOption(vs, kind, value))
  }

  // ---------------------------------------------------------------------------
  // The selection map

  /** `selected[kind]` */
  function Lookup(sel: Selection, kind: string): (r: Option<string>)
    ensures r.None? <==> forall i :: 0 <= i < |sel| ==> sel[i].0 != kind
  {
    if |sel| == 0 then None
    else if sel[0].0 == kind then Some(sel[0].1)
    else Lookup(sel[1..], kind)
  }

  ghost predicate DistinctKeys(sel: Selection) {
    forall i, j :: 0 <= i < j < |sel| ==> sel[i].0 != sel[j].0
  }

  /** `{ ...selected, [kind]: value }`: an existing key keeps its place, a new
      key goes last. */
  function Select(sel: Selection, kind: string, value: string): (r: Selection)
    ensures Lookup(sel, kind).Some? ==> |r| == |sel|
    ensures Lookup(sel, kind).None? ==> r == sel + [(kind, value)]
  {
    if |sel| == 0 then [(kind, value)]
    else if sel[0].0 == kind then [(kind, value)] + sel[1..]
    else
      assert Lookup(sel, kind) == Lookup(sel[1..], kind);
      [sel[0]] + Select(sel[1..], kind, value)
  }

  /** Selecting sets that key and leaves every other key as it was. */
  lemma {:induction false} SelectSetsOnlyThatKey(sel: Selection, kind: string, value: string)
    ensures Lookup(Select(sel, kind, value), kind) == Some(value)
    ensures forall k :: k != kind ==> Lookup(Select(sel, kind, value), k) == Lookup(sel, k)
    decreases |sel|
  {
    if |sel| > 0 {
      SelectSetsOnlyThatKey(sel[1..], kind, value);
      var r := Select(sel, kind, value);
      if sel[0].0 == kind {
        assert r[1..] == sel[1..];
      } else {
        assert r[1..] == Select(sel[1..], kind, value);
      }
    }
  }

  /** Every key after a selection was already selected or is the new one. */
  lemma {:induction false} SelectKeysFrom(sel: Selection, kind: string, value: string, i: nat)
    requires i < |Select(sel, kind, value)|
    ensures Select(sel, kind, value)[i].0 == kind
            || exists j :: 0 <= j < |sel| && sel[j].0 == Select(sel, kind, value)[i].0
    decreases |sel|
  {
    if |sel| > 0 && sel[0].0 != kind && i > 0 {
      SelectKeysFrom(sel[1..], kind, value, i - 1);
      var r := Select(sel, kind, value);
      if r[i].0 != kind {
        var j :| 0 <= j < |sel[1..]| && sel[1..][j].0 == r[i].0;
        assert sel[j + 1].0 == r[i].0;
      }
    }
  }

  /** Keys stay distinct under selection. */
  lemma {:induction false} SelectKeepsKeysDistinct(sel: Selection, kind: string, value: string)
    requires DistinctKeys(sel)
    ensures DistinctKeys(Select(sel, kind, value))
    decreases |sel|
  {
    if |sel| > 0 && sel[0].0 != kind {
      assert DistinctKeys(sel[1..]);
      SelectKeepsKeysDistinct(sel[1..], kind, value);
      var rest := Select(sel[1..], kind, value);
      forall i | 0 <= i < |rest|
        ensures rest[i].0 != sel[0].0
      {
        SelectKeysFrom(sel[1..], kind, value, i);
        if rest[i].0 != kind {
          var j :| 0 <= j < |sel[1..]| && sel[1..][j].0 == rest[i].0;
          assert sel[j + 1].0 == rest[i].0;
        }
      }
      assert Select(sel, kind, value) == [sel[0]] + rest;
    } else if |sel| > 0 {
      assert Select(sel, kind, value)[1..] == sel[1..];
    }
  }

  /** Choosing the same option twice gives the same selection as once. */
  lemma {:induction false} SelectIdempotent(sel: Selection, kind: string, value: string)
    ensures Select(Select(sel, kind, value), kind, value) == Select(sel, kind, value)
    decreases |sel|
  {
    if |sel| > 0 && sel[0].0 != kind {
      SelectIdempotent(sel[1..], kind, value);
      var r := Select(sel, kind, value);
      assert r[1..] == Select(sel[1..], kind, value);
    } else if |sel| > 0 {
      var r := Select(sel, kind, value);
      assert r[1..] == sel[1..];
    }
  }

  /** What `handleVariantSelect` produces: the picker's new local selection
      and what `onVariantChange` is called with, if it was supplied. */
  datatype VariantChange = VariantChange(local: Selection, notified: Option<Selection>)

  function HandleVariantSelect(local: Selection, kind: string, value: string, hasCallback: bool): (r: VariantChange)
    ensures r.local == Select(local, kind, value)
    ensures hasCallback ==> r.notified == Some(r.local)
    ensures !hasCallback ==> r.notified.None?
  {
    var next := Select(local, kind, value);
    VariantChange(next, if hasCallback then Some(next) else None)
  }

  // ---------------------------------------------------------------------------
  // Price

  /** The modifiers the product page adds, entry by entry, from a running
      price: only options that resolve and have a truthy modifier count. */
  function AddModifiers(vs: seq<Variant>, sel: Selection, price: real): real {
    if |sel| == 0 then price
    else
      var o := ResolveOption(vs, sel[0].0, sel[0].1);
      var next := if o.Some? && o.value.priceModifier.Some? && o.value.priceModifier.value != 0.0
                  then price + o.value.priceModifier.value else price;
      AddModifiers(vs, sel[1..], next)
  }

  /** `calculateFinalPrice()`. `None` is a price that is not a number. */
  function CalculateFinalPrice(p: Product, sel: Selection): (r: Option<real>)
    ensures p.variants.None? ==> r == Some(p.price.GetOr(0.0))
    ensures p.variants.Some? && p.price.None? ==> r.None?
  {
    match p.variants
    case None => Some(p.price.GetOr(0.0))
    case Some(vs) =>
      match p.price
      case None => None
      case Some(base) => Some(AddModifiers(vs, sel, base))
  }

  function ModifierSum(vs: seq<Variant>, sel: Selection): real {
    SumReal(sel, (e: (string, string)) => GetVariantPriceModifier(vs, e.0, e.1))
  }

  lemma {:induction false} AddModifiersIsSum(vs: seq<Variant>, sel: Selection, price: real)
    ensures AddModifiers(vs, sel, price) == price + ModifierSum(vs, sel)
    decreases |sel|
  {
    if |sel| > 0 {
      var o := ResolveOption(vs, sel[0].0, sel[0].1);
      var next := if o.Some? && o.value.priceModifier.Some? && o.value.priceModifier.value != 0.0
                  then price + o.value.priceModifier.value else price;
      AddModifiersIsSum(vs, sel[1..], next);
    }
  }

  /** The page's final price is the base price plus the modifier the picker
      shows for every selected option; unresolved selections add nothing. */
  lemma FinalPriceIsBasePlusModifiers(p: Product, sel: Selection)
    requires p.variants.Some? && p.price.Some?
    ensures CalculateFinalPrice(p, sel) == Some(p.price.value + ModifierSum(p.variants.value, sel))
  {
    AddModifiersIsSum(p.variants.value, sel, p.price.value);
  }

  /** Nothing clamps the price: one negative modifier lowers it below base. */
  lemma NegativeModifierLowersPrice(p: Product, kind: string, value: string)
    requires p.variants.Some? && p.price.Some?
    requires GetVariantPriceModifier(p.variants.value, kind, value) < 0.0
    ensures CalculateFinalPrice(p, [(kind, value)]).value < p.price.value
  {
    var e := (kind, value);
    FinalPriceIsBasePlusModifiers(p, [e]);
    assert [e][1..] == [];
    assert ModifierSum(p.variants.value, [e]) == GetVariantPriceModifier(p.variants.value, kind, value) + ModifierSum(p.variants.value, []);
  }

  /** The seed thermos: a colour and a capacity variant. */
  const SeedThermos: Product :=
    Product("termo", "Termo Stanley Classic 1L", "", Some(89.99), Some(15), Some([
      Variant("color", "Color", [VariantOption("negro", "Negro", Some(0.0)), VariantOption("blanco", "Blanco", Some(0.0)),
                                 VariantOption("rojo", "Rojo", Some(5.0)), VariantOption("azul", "Azul", Some(5.0))]),
      Variant("size", "Capacidad", [VariantOption("1l", "1 Litro", Some(0.0)), VariantOption("500ml", "500ml", Some(-15.0))])]))

  /** The seed thermos in red at 500 ml costs 10 less than its base price. */
  lemma SeedThermosRedSmall()
    ensures CalculateFinalPrice(SeedThermos, [("color", "rojo"), ("size", "500ml")]) == Some(79.99)
  {
    var vs := SeedThermos.variants.value;
    assert FindVariant(vs, "size") == Some(vs[1]);
    assert FindOption(vs[0].options, "rojo") == Some(vs[0].options[2]);
    assert FindOption(vs[1].options, "500ml") == Some(vs[1].options[1]);
    var sel: Selection := [("color", "rojo"), ("size", "500ml")];
    assert sel[1..] == [("size", "500ml")] && sel[1..][1..] == [];
    assert AddModifiers(vs, sel, 89.99) == AddModifiers(vs, sel[1..], 94.99);
    assert AddModifiers(vs, sel[1..], 94.99) == AddModifiers(vs, [], 79.99);
  }

  // ---------------------------------------------------------------------------
  // The personalisation summary

  /** A selection the summary lists: it resolves to an option whose modifier
      is not exactly 0 (a missing modifier is listed). */
  predicate Listed(vs: seq<Variant>, e: (string, string)) {
    var o := ResolveOption(vs, e.0, e.1);
    o.Some? && o.value.priceModifier != Some(0.0)
  }

  /** The selections shown under "Resumen de personalización", in order. */
  function SummaryEntries(vs: seq<Variant>, sel: Selection): (r: Selection)
    ensures Subsequence(r, sel)
    ensures forall i :: 0 <= i < |r| ==> Listed(vs, r[i])
    ensures forall i :: 0 <= i < |sel| && Listed(vs, sel[i]) ==> sel[i] in r
  {
    Filter(sel, (e: (string, string)) => Listed(vs, e))
  }

  /** The summary accounts for the whole difference between the final price
      and the base price. */
  lemma {:induction false} SummaryAccountsForPrice(vs: seq<Variant>, sel: Selection)
    ensures ModifierSum(vs, SummaryEntries(vs, sel)) == ModifierSum(vs, sel)
    decreases |sel|
  {
    if |sel| > 0 {
      SummaryAccountsForPrice(vs, sel[1..]);
      if Listed(vs, sel[0]) {
        assert SummaryEntries(vs, sel) == [sel[0]] + SummaryEntries(vs, sel[1..]);
        assert ([sel[0]] + SummaryEntries(vs, sel[1..]))[1..] == SummaryEntries(vs, sel[1..]);
      }
    }
  }

  // ---------------------------------------------------------------------------
  // Description and adding to the cart

  const Undefined: string := "undefined"

  /** `${variant?.name}: ${option?.label}` */
  function DescribeEntry(vs: Option<seq<Variant>>, e: (string, string)): (r: string)
    ensures vs.Some? && ResolveOption(vs.value, e.0, e.1).Some? ==>
              r == FindVariant(vs.value, e.0).value.name + ": " + ResolveOption(vs.value, e.0, e.1).value.title
    ensures vs.Some? && FindVariant(vs.value, e.0).Some? && ResolveOption(vs.value, e.0, e.1).None? ==>
              r == FindVariant(vs.value, e.0).value.name + ": " + Undefined
    ensures vs.None? || FindVariant(vs.value, e.0).None? ==> r == Undefined + ": " + Undefined
  {
    var v := if vs.Some? then FindVariant(vs.value, e.0) else None;
    var o := if v.Some? then FindOption(v.value.options, e.1) else None;
    (if v.Some? then v.value.name else Undefined) + ": " + (if o.Some? then o.value.title else Undefined)
  }

  /** The line the picker's summary shows for a listed selection:
      `${variant.name}: ${option.label}`. */
  function SummaryLine(vs: seq<Variant>, e: (string, string)): string
    requires Listed(vs, e)
  {
    FindVariant(vs, e.0).value.name + ": " + ResolveOption(vs, e.0, e.1).value.title
  }

  /** A selection the summary lists is described in the cart exactly as the
      summary shows it. */
  lemma ListedDescribedAsInSummary(vs: seq<Variant>, e: (string, string))
    requires Listed(vs, e)
    ensures DescribeEntry(Some(vs), e) == SummaryLine(vs, e)
  {
  }

  function DescribeEntries(vs: Option<seq<Variant>>, sel: Selection): (r: seq<string>)
    ensures |r| == |sel| && forall i :: 0 <= i < |sel| ==> r[i] == DescribeEntry(vs, sel[i])
  {
    seq(|sel|, i requires 0 <= i < |sel| => DescribeEntry(vs, sel[i]))
  }

  /** `variantDescription` */
  function VariantDescription(vs: Option<seq<Variant>>, sel: Selection): string {
    Join(DescribeEntries(vs, sel), ", ")
  }

  /** Selecting one more variant appends its description after a comma. */
  lemma DescriptionAppend(vs: Option<seq<Variant>>, sel: Selection, e: (string, string))
    requires |sel| > 0
    ensures VariantDescription(vs, sel + [e]) == VariantDescription(vs, sel) + ", " + DescribeEntry(vs, e)
  {
    assert DescribeEntries(vs, sel + [e]) == DescribeEntries(vs, sel) + [DescribeEntry(vs, e)];
    JoinAppend(DescribeEntries(vs, sel), DescribeEntry(vs, e), ", ");
  }

  /** `handleAddToCart()`: the product with its selection, final price and
      description, added with the picked quantity. */
  function HandleAddToCart(cart: seq<Cart.Line>, p: Product, sel: Selection, quantity: int): (r: seq<Cart.Line>)
    ensures !Cart.HasId(cart, p.id) ==>
              r == cart + [Cart.Line(Cart.Item(p, Some(Cart.Personalisation(sel, CalculateFinalPrice(p, sel), VariantDescription(p.variants, sel)))),
                                     Min(StockLimit(p.stock), quantity))]
  {
    var extra := Cart.Personalisation(sel, CalculateFinalPrice(p, sel), VariantDescription(p.variants, sel));
    Cart.AddToCart(cart, Some(Cart.Item(p, Some(extra))), quantity)
  }

  /** The final price never reaches the cart totals: whatever was selected,
      a new line adds its base price times its quantity. */
  lemma ModifiersNeverReachTotals(cart: seq<Cart.Line>, p: Product, sel1: Selection, sel2: Selection, quantity: int)
    requires !Cart.HasId(cart, p.id)
    ensures Cart.CartTotal(HandleAddToCart(cart, p, sel1, quantity)) == Cart.CartTotal(HandleAddToCart(cart, p, sel2, quantity))
    ensures Cart.CartTotal(HandleAddToCart(cart, p, sel1, quantity)) ==
            Cart.CartTotal(cart) + p.price.GetOr(0.0) * Min(StockLimit(p.stock), quantity) as real
  {
    AddedLineTotal(cart, p, sel1, quantity);
    AddedLineTotal(cart, p, sel2, quantity);
  }

  /** One new line adds its base price times its quantity. */
  lemma AddedLineTotal(cart: seq<Cart.Line>, p: Product, sel: Selection, quantity: int)
    requires !Cart.HasId(cart, p.id)
    ensures Cart.CartTotal(HandleAddToCart(cart, p, sel, quantity)) ==
            Cart.CartTotal(cart) + p.price.GetOr(0.0) * Min(StockLimit(p.stock), quantity) as real
  {
    var it := Cart.Item(p, Some(Cart.Personalisation(sel, CalculateFinalPrice(p, sel), VariantDescription(p.variants, sel))));
    assert HandleAddToCart(cart, p, sel, quantity) == Cart.AddToCart(cart, Some(it), quantity);
    Cart.AddNewTotals(cart, it, quantity);
  }

  // ---------------------------------------------------------------------------
  // Quantity picker

  /** The minus button. */
  function DecrementQuantity(q: int): (r: int)
    ensures r >= 1
    ensures q > 1 ==> r == q - 1
    ensures q <= 1 ==> r == 1
  {
    Max(1, q - 1)
  }

  /** The plus button. */
  function IncrementQuantity(q: int, stock: Option<int>): (r: int)
    ensures r <= StockLimit(stock)
    ensures q < StockLimit(stock) ==> r == q + 1
    ensures q >= StockLimit(stock) ==> r == StockLimit(stock)
  {
    Min(StockLimit(stock), q + 1)
  }
}
