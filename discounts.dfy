/**
 * Price logic shared by the pages: `filterDiscounts` and the "discounted if any,
 * else all" selection (src/app.js, src/js/category.js) and the guards of `discountPct`.
 */
module Discounts {
  import opened Wrappers

  /**
   * A price field as JSON hands it over. `Num(r)` is any value that `Number()` maps to
   * the finite number r; `NotANumber` is any other non-null value (`Number()` gives NaN).
   */
  datatype JsonNumber = Undefined | Null | Num(value: real) | NotANumber

  /** `v == null` (loose equality: true for both null and undefined). */
  predicate IsNullish(v: JsonNumber) {
    v.Undefined? || v.Null?
  }

  /** `Number(v)`; None stands for NaN. */
  function ToNumber(v: JsonNumber): Option<real> {
    match v
    case Undefined => None
    case Null => Some(0.0)
    case Num(r) => Some(r)
    case NotANumber => None
  }

  /** `a > b` on numbers: false as soon as either side is NaN. */
  predicate Greater(a: Option<real>, b: Option<real>) {
    a.Some? && b.Some? && a.value > b.value
  }

  /** The fields of a product the core inspects; everything else passes through untouched. */
  datatype Product = Product(id: int, price: JsonNumber, oldPrice: JsonNumber)

  /** A products response: `data.items || []` and the truthiness of `data.next`. */
  datatype ProductsPage = ProductsPage(items: seq<Product>, next: bool)

  /** `p.old_price != null && Number(p.old_price) > Number(p.price)` */
  predicate IsDiscounted(p: Product) {
    !IsNullish(p.oldPrice) && Greater(ToNumber(p.oldPrice), ToNumber(p.price))
  }

  /** `filterDiscounts(items)` */
  function FilterDiscounts(items: seq<Product>): seq<Product> {
    if items == [] then []
    else (if IsDiscounted(items[0]) then [items[0]] else []) + FilterDiscounts(items[1..])
  }

  /** The list handed to rendering: the discounted items if there are any, else all items,
      cut to `limit` (24 on the home page, 12 in the category page's promo section). */
  function ProductsToShow(items: seq<Product>, limit: nat): seq<Product> {
    var discounted := FilterDiscounts(items);
    var list := if |discounted| > 0 then discounted else items;
    list[..Min(limit, |list|)]
  }

  /** filterDiscounts keeps exactly the discounted items, each as often as it occurs, in order. */
  lemma {:induction false} FilterDiscountsSpec(items: seq<Product>)
    ensures Subseq(FilterDiscounts(items), items)
    ensures forall p :: p in FilterDiscounts(items) ==> IsDiscounted(p)
    ensures forall p :: multiset(FilterDiscounts(items))[p] ==
                          if IsDiscounted(p) then multiset(items)[p] else 0
  {
    if items != [] {
      FilterDiscountsSpec(items[1..]);
      var x, t := items[0], FilterDiscounts(items[1..]);
      assert items == [x] + items[1..];
      if IsDiscounted(x) {
        assert FilterDiscounts(items) == [x] + t;
      } else {
        assert FilterDiscounts(items) == t;
      }
    }
  }

  /** Of prices 100/150, 100/90 and 100/null only the first is kept; a null price with an
      old price is kept too, since `Number(null)` is 0. */
  lemma FilterDiscountsExamples()
    ensures var a, b, c := Product(1, Num(100.0), Num(150.0)), Product(2, Num(100.0), Num(90.0)),
                           Product(3, Num(100.0), Null);
      FilterDiscounts([a, b, c]) == [a]
    ensures var d := Product(4, Null, Num(5.0)); FilterDiscounts([d]) == [d]
  {
    var a, b, c := Product(1, Num(100.0), Num(150.0)), Product(2, Num(100.0), Num(90.0)),
                   Product(3, Num(100.0), Null);
    assert [a, b, c][1..] == [b, c] && [b, c][1..] == [c];
    assert FilterDiscounts([c]) == [];
  }

  /** The shown list never exceeds the limit; it is made of discounted items whenever one exists,
      and is then the discounted items in order; otherwise it is the first items as received. */
  lemma ProductsToShowSpec(items: seq<Product>, limit: nat)
    ensures |ProductsToShow(items, limit)| == Min(limit, |if exists p :: p in items && IsDiscounted(p) then FilterDiscounts(items) else items|)
    ensures (exists p :: p in items && IsDiscounted(p)) ==>
              ProductsToShow(items, limit) == FilterDiscounts(items)[..|ProductsToShow(items, limit)|] &&
              forall p :: p in ProductsToShow(items, limit) ==> IsDiscounted(p)
    ensures (forall p :: p in items ==> !IsDiscounted(p)) ==>
              ProductsToShow(items, limit) == items[..Min(limit, |items|)]
    ensures ProductsToShow(items, limit) == [] <==> items == [] || limit == 0
  {
    FilterDiscountsSpec(items);
    var d := FilterDiscounts(items);
    if exists p :: p in items && IsDiscounted(p) {
      var p :| p in items && IsDiscounted(p);
      assert multiset(d)[p] > 0;
      assert p in d;
      forall q | q in ProductsToShow(items, limit) ensures IsDiscounted(q) {
        assert q in d;
      }
    } else {
      if |d| > 0 {
        assert d[0] in d;
        SubseqIn(d, items, d[0]);
      }
    }
  }

  // ---------------------------------------------------------------------------
  // discountPct
  // ---------------------------------------------------------------------------

  /** What `discountPct` returns: null, a rounded percentage, or Infinity (old price 0
      with a negative price divides by zero). */
  datatype Percent = NoPercent | Pct(value: int) | InfinitePct

  /** `Math.round(x)`: the nearest integer, halves rounded up. */
  function Round(x: real): int {
    (x + 0.5).Floor
  }

  /** `discountPct(price, oldPrice)` */
  function DiscountPct(price: JsonNumber, oldPrice: JsonNumber): Percent {
    if IsNullish(price) || IsNullish(oldPrice) then NoPercent
    else
      match (ToNumber(price), ToNumber(oldPrice))
      case (Some(p), Some(o)) =>
        if o <= p then NoPercent
        else if o == 0.0 then InfinitePct
        else Pct(Round((1.0 - p / o) * 100.0))
      case _ => NoPercent
  }

  /** discountPct is null whenever an argument is null, undefined or NaN, or the old price
      is not above the price; otherwise it is a number. */
  lemma DiscountPctGuards(price: JsonNumber, oldPrice: JsonNumber)
    ensures DiscountPct(price, oldPrice) == NoPercent <==>
      IsNullish(price) || IsNullish(oldPrice) || !Greater(ToNumber(oldPrice), ToNumber(price))
  {
  }

  /** A badge percentage implies the item passes filterDiscounts. */
  lemma PercentImpliesDiscounted(p: Product)
    ensures DiscountPct(p.price, p.oldPrice) != NoPercent ==> IsDiscounted(p)
  {
  }

  /** The converse holds except for a null price, which `Number()` reads as 0. */
  lemma DiscountedHasPercentUnlessPriceNull(p: Product)
    ensures IsDiscounted(p) && !IsNullish(p.price) ==> DiscountPct(p.price, p.oldPrice) != NoPercent
    ensures var q := Product(p.id, Null, Num(150.0));
      IsDiscounted(q) && DiscountPct(q.price, q.oldPrice) == NoPercent
  {
  }

  /** For a non-negative price below the old price the percentage lies in 0..100. */
  lemma PercentInRange(p: real, o: real)
    requires 0.0 <= p < o
    ensures DiscountPct(Num(p), Num(o)).Pct?
    ensures 0 <= DiscountPct(Num(p), Num(o)).value <= 100
  {
    var q := p / o;
    assert q * o == p;
    assert 0.0 <= q;
    assert (1.0 - q) * o == o - p;
    assert q < 1.0;
    var x := (1.0 - q) * 100.0;
    assert 0.0 < x <= 100.0;
    assert 0.5 <= x + 0.5 < 101.0;
  }
}
