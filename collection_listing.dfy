/** The storefront collection page: the products as the page reshapes them,
    the sidebar filters (price range, stock boxes, colour, material and size
    facets) and the handlers that change them. */
module CollectionListing {
  import opened Common
  import opened Strings
  import opened Js

  // ---------------------------------------------------------------------
  // The product transform

  /** The fields of a reshaped product that the filters and the stock label
      read. The price is parseFloat's result, None standing for NaN. */
  datatype ListingProduct = ListingProduct(
    id: Value, name: Value, price: Option<real>, inStock: bool,
    colors: seq<Value>, size: Value, material: Value)

  /** `v > 0` for the values a stock count can hold: a number, or a boolean
      (true counts as 1); text and missing values are not positive. */
  predicate Positive(v: Value)
  {
    (v.Num? && v.n > 0) || v == Bool(true)
  }

  /** `product.color_options ? (Array.isArray(o) ? o : [o]) : ['Mixed']` */
  function ColorOptions(options: Value): (colors: seq<Value>)
  {
    if !Truthy(options) then [Str("Mixed")]
    else if options.Arr? then options.elems
    else [options]
  }

  /** `dbProducts.map(product => ({ … }))` for one product; parseFloat is a
      parameter. */
  function Transform(product: Record, parseFloat: Value -> Option<real>): ListingProduct
  {
    ListingProduct(
      Get(product, "id"), Get(product, "name"), parseFloat(Get(product, "price")),
      Positive(Get(product, "stock_quantity")) && Get(product, "status") == Str("active"),
      ColorOptions(Get(product, "color_options")),
      Or(Get(product, "dimensions"), Str("Standard")),
      Or(Get(product, "material"), Str("Resin")))
  }

  function TransformAll(products: seq<Record>, parseFloat: Value -> Option<real>): (r: seq<ListingProduct>)
    ensures |r| == |products|
  {
    seq(|products|, i requires 0 <= i < |products| => Transform(products[i], parseFloat))
  }

  /** A product is in stock exactly when its stock is positive and its status
      is 'active' (an 'Active' or 'draft' product with stock is not); the
      colours are never empty unless the product sends an empty list; size
      and material fall back to 'Standard' and 'Resin'. */
  lemma TransformSpec(product: Record, parseFloat: Value -> Option<real>)
    ensures var t := Transform(product, parseFloat);
            && (t.inStock <==> Positive(Get(product, "stock_quantity")) && Get(product, "status") == Str("active"))
            && (Get(product, "stock_quantity") == Num(0) ==> !t.inStock)
            && (Get(product, "status") == Str("Active") ==> !t.inStock)
            && (!Truthy(Get(product, "color_options")) ==> t.colors == [Str("Mixed")])
            && (Get(product, "color_options").Arr? ==> t.colors == Get(product, "color_options").elems)
            && (Truthy(Get(product, "color_options")) && !Get(product, "color_options").Arr? ==>
                  t.colors == [Get(product, "color_options")])
            && (|t.colors| == 0 ==> Get(product, "color_options") == Arr([]))
            && Truthy(t.size) && Truthy(t.material)
            && (Truthy(Get(product, "material")) ==> t.material == Get(product, "material"))
  {
  }

  // ---------------------------------------------------------------------
  // The sidebar filters

  /** selectedFilters: priceRange as [min, max], the two stock boxes, and the
      chosen colours, materials and sizes. */
  datatype SelectedFilters = SelectedFilters(
    minPrice: int, maxPrice: int, inStock: bool, outOfStock: bool,
    colors: seq<string>, materials: seq<string>, sizes: seq<string>)

  /** The state the page starts in and clearAllFilters returns to. */
  const InitialFilters: SelectedFilters := SelectedFilters(0, 100, true, false, [], [], [])

  /** The price check: a price below min or above max fails; NaN compares
      false both ways, so a product without a price passes. */
  predicate PriceOk(p: ListingProduct, f: SelectedFilters)
  {
    match p.price
    case None => true
    case Some(price) => !(price < f.minPrice as real || price > f.maxPrice as real)
  }

  /** The stock check, as the if/else-if chain makes it. */
  predicate StockOk(p: ListingProduct, f: SelectedFilters)
  {
    if f.inStock && f.outOfStock then true
    else if f.inStock && !p.inStock then false
    else if f.outOfStock && p.inStock then false
    else true
  }

  /** Some chosen colour is among the product's colours. */
  predicate ColorOk(p: ListingProduct, f: SelectedFilters)
  {
    |f.colors| > 0 ==> exists i :: 0 <= i < |f.colors| && Str(f.colors[i]) in p.colors
  }

  /** `materials.includes(product.material)`: only text can be included. */
  predicate MaterialOk(p: ListingProduct, f: SelectedFilters)
  {
    |f.materials| > 0 ==> p.material.Str? && p.material.s in f.materials
  }

  predicate SizeOk(p: ListingProduct, f: SelectedFilters)
  {
    |f.sizes| > 0 ==> p.size.Str? && p.size.s in f.sizes
  }

  /** The filter callback: price, stock, colour, material and size. */
  predicate Keeps(p: ListingProduct, f: SelectedFilters)
  {
    PriceOk(p, f) && StockOk(p, f) && ColorOk(p, f) && MaterialOk(p, f) && SizeOk(p, f)
  }

  function KeepsFn(f: SelectedFilters): ListingProduct -> bool
  {
    p => Keeps(p, f)
  }

  /** filteredProducts */
  function FilteredProducts(products: seq<ListingProduct>, f: SelectedFilters): seq<ListingProduct>
  {
    Filter(products, KeepsFn(f))
  }

  /** The listed products are an order-preserving subsequence of the page's
      products, and a product is listed exactly when it passes every check. */
  lemma FilteredProductsSpec(products: seq<ListingProduct>, f: SelectedFilters)
    ensures IsSubseq(FilteredProducts(products, f), products)
    ensures forall i :: 0 <= i < |products| ==>
              (products[i] in FilteredProducts(products, f) <==> Keeps(products[i], f))
  {
    FilterIsSubseq(products, KeepsFn(f));
  }

  /** Both ends of the price range are inclusive. */
  lemma PriceRangeInclusive(p: ListingProduct, f: SelectedFilters)
    requires p.price.Some?
    ensures PriceOk(p, f) <==> f.minPrice as real <= p.price.value <= f.maxPrice as real
  {
  }

  /** The stock boxes: both or neither checked impose nothing; only
      "in stock" keeps the products in stock; only "out of stock" keeps the
      others. */
  lemma StockFilterSpec(p: ListingProduct, f: SelectedFilters)
    ensures f.inStock == f.outOfStock ==> StockOk(p, f)
    ensures f.inStock && !f.outOfStock ==> (StockOk(p, f) <==> p.inStock)
    ensures !f.inStock && f.outOfStock ==> (StockOk(p, f) <==> !p.inStock)
  {
  }

  /** With no facet chosen, only the price and stock checks remain. */
  lemma EmptyFacetsImposeNothing(p: ListingProduct, f: SelectedFilters)
    requires f.colors == [] && f.materials == [] && f.sizes == []
    ensures Keeps(p, f) <==> PriceOk(p, f) && StockOk(p, f)
  {
  }

  /** Choosing one more colour never hides a product: the colour facet is an OR. */
  lemma MoreColorsShowMore(p: ListingProduct, f: SelectedFilters, color: string)
    requires |f.colors| > 0 && ColorOk(p, f)
    ensures ColorOk(p, f.(colors := f.colors + [color]))
  {
    var i :| 0 <= i < |f.colors| && Str(f.colors[i]) in p.colors;
    assert (f.colors + [color])[i] == f.colors[i];
  }

  // ---------------------------------------------------------------------
  // The handlers

  /** toggleFilter on one list: drop every occurrence of a chosen value, or
      append a new one. */
  function Toggle(list: seq<string>, value: string): (r: seq<string>)
  {
    if value in list then Filter(list, NotEqual(value)) else list + [value]
  }

  function NotEqual(value: string): string -> bool
  {
    x => x != value
  }

  /** After a toggle the value is chosen exactly when it was not before, and
      every other value keeps its state. */
  lemma ToggleSpec(list: seq<string>, value: string)
    ensures value in Toggle(list, value) <==> value !in list
    ensures forall x :: x != value ==> (x in Toggle(list, value) <==> x in list)
    ensures Distinct(list) ==> Distinct(Toggle(list, value))
  {
    if value in list {
      FilterMembers(list, NotEqual(value));
      if Distinct(list) {
        FilterDistinct(list, NotEqual(value));
      }
    }
  }

  /** Toggling a new value twice gives back the list; toggling a chosen one
      twice, on a list without repeats, moves it to the end. */
  lemma ToggleTwice(list: seq<string>, value: string)
    ensures value !in list ==> Toggle(Toggle(list, value), value) == list
    ensures value in list && Distinct(list) ==>
              Toggle(Toggle(list, value), value) == Filter(list, NotEqual(value)) + [value]
  {
    if value !in list {
      assert value in list + [value];
      FilterAppend(list, [value], NotEqual(value));
      FilterKeepsAll(list, NotEqual(value));
      assert Filter([value], NotEqual(value)) == [] by {
        assert [value][1..] == [];
      }
    } else {
      FilterMembers(list, NotEqual(value));
    }
  }

  /** Which facet list a toggle changes. */
  datatype Facet = Colors | Materials | Sizes

  /** Which stock box toggleStockFilter flips. */
  datatype StockBox = InStockBox | OutOfStockBox

  /** `parseInt(text) || d`: the typed price, or d for text that is not a
      number or is 0. */
  function PriceInput(text: string, d: int): int
  {
    ParseIntOr(text, d)
  }

  /** The min and max inputs fall back to 0 and 100 when parseInt gives NaN
      or 0, and otherwise take the typed number. */
  lemma PriceInputSpec(text: string)
    ensures ParseInt(text).None? ==> PriceInput(text, 0) == 0 && PriceInput(text, 100) == 100
    ensures ParseInt(text) == Some(0) ==> PriceInput(text, 0) == 0 && PriceInput(text, 100) == 100
    ensures ParseInt(text).Some? && ParseInt(text).value != 0 ==>
              PriceInput(text, 0) == ParseInt(text).value && PriceInput(text, 100) == ParseInt(text).value
  {
  }

  /** The page's filter state. */
  class CollectionListingPage {
    var selected: SelectedFilters

    constructor ()
      ensures selected == InitialFilters
    {
      selected := InitialFilters;
    }

    /** toggleFilter(filterType, value) */
    method ToggleFilter(facet: Facet, value: string)
      modifies this
      ensures facet == Colors ==> selected == old(selected).(colors := Toggle(old(selected).colors, value))
      ensures facet == Materials ==> selected == old(selected).(materials := Toggle(old(selected).materials, value))
      ensures facet == Sizes ==> selected == old(selected).(sizes := Toggle(old(selected).sizes, value))
    {
      match facet
      case Colors => selected := selected.(colors := Toggle(selected.colors, value));
      case Materials => selected := selected.(materials := Toggle(selected.materials, value));
      case Sizes => selected := selected.(sizes := Toggle(selected.sizes, value));
    }

    /** updatePriceRange([min, max]) */
    method UpdatePriceRange(min: int, max: int)
      modifies this
      ensures selected == old(selected).(minPrice := min, maxPrice := max)
    {
      selected := selected.(minPrice := min, maxPrice := max);
    }

    /** The min input: `updatePriceRange([parseInt(text) || 0, max])`. */
    method TypeMinPrice(text: string)
      modifies this
      ensures selected == old(selected).(minPrice := PriceInput(text, 0))
    {
      UpdatePriceRange(PriceInput(text, 0), selected.maxPrice);
    }

    /** The max input: `updatePriceRange([min, parseInt(text) || 100])`. */
    method TypeMaxPrice(text: string)
      modifies this
      ensures selected == old(selected).(maxPrice := PriceInput(text, 100))
    {
      UpdatePriceRange(selected.minPrice, PriceInput(text, 100));
    }

    /** toggleStockFilter(type): flip one box, leave the other. */
    method ToggleStockFilter(box: StockBox)
      modifies this
      ensures box == InStockBox ==> selected == old(selected).(inStock := !old(selected).inStock)
      ensures box == OutOfStockBox ==> selected == old(selected).(outOfStock := !old(selected).outOfStock)
    {
      if box == InStockBox {
        selected := selected.(inStock := !selected.inStock);
      } else {
        selected := selected.(outOfStock := !selected.outOfStock);
      }
    }

    /** clearAllFilters */
    method ClearAllFilters()
      modifies this
      ensures selected == InitialFilters
    {
      selected := SelectedFilters(0, 100, true, false, [], [], []);
    }
  }

  /** Flipping a stock box twice restores the filters. */
  method StockToggleTwice(page: CollectionListingPage, box: StockBox)
    modifies page
    ensures page.selected == old(page.selected)
  {
    page.ToggleStockFilter(box);
    page.ToggleStockFilter(box);
  }

  /** The initial filters list the in-stock products priced from 0 to 100
      (and those without a price). */
  lemma InitialFiltersSpec(p: ListingProduct)
    ensures Keeps(p, InitialFilters) <==>
              p.inStock && (p.price.None? || 0.0 <= p.price.value <= 100.0)
  {
  }
}
