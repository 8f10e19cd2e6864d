/** The admin product list: four filters applied one after another by an
    effect, the active-filter count, the clear button, the status label and
    the tags column. */
module ProductsIndex {
  import opened Common
  import opened Strings
  import opened Js

  /** The filters state `{ search, category, artist, status }`. */
  datatype ProductFilters = ProductFilters(search: string, category: string, artist: string, status: string)

  const NoFilters: ProductFilters := ProductFilters("", "", "", "")

  /** The search: the name, or a non-empty sku, contains the search text,
      ignoring case. */
  predicate SearchMatch(product: Record, search: string)
  {
    var term := Lower(search);
    (Get(product, "name").Str? && Contains(Lower(Get(product, "name").s), term))
    || (Truthy(Get(product, "sku")) && Get(product, "sku").Str? && Contains(Lower(Get(product, "sku").s), term))
  }

  /** `product[field] === parseInt(value)`; NaN equals nothing. */
  predicate IdMatch(product: Record, field: string, value: string)
  {
    ParseInt(value).Some? && Get(product, field) == Num(ParseInt(value).value)
  }

  /** `product.status.toLowerCase() === status.toLowerCase()` */
  predicate StatusMatch(product: Record, status: string)
  {
    Get(product, "status").Str? && Lower(Get(product, "status").s) == Lower(status)
  }

  /** A product passes every non-empty filter. */
  predicate Matches(product: Record, f: ProductFilters)
  {
    && (f.search != "" ==> SearchMatch(product, f.search))
    && (f.category != "" ==> IdMatch(product, "category_id", f.category))
    && (f.artist != "" ==> IdMatch(product, "artist_id", f.artist))
    && (f.status != "" ==> StatusMatch(product, f.status))
  }

  function MatchesFn(f: ProductFilters): Record -> bool
  {
    p => Matches(p, f)
  }

  function SearchFn(search: string): Record -> bool
  {
    p => SearchMatch(p, search)
  }

  function IdFn(field: string, value: string): Record -> bool
  {
    p => IdMatch(p, field, value)
  }

  function StatusFn(status: string): Record -> bool
  {
    p => StatusMatch(p, status)
  }

  /** The k-th filter of the effect (search, category, artist, status), true
      when that filter is empty. */
  predicate Part(product: Record, f: ProductFilters, k: nat)
  {
    if k == 0 then f.search != "" ==> SearchMatch(product, f.search)
    else if k == 1 then f.category != "" ==> IdMatch(product, "category_id", f.category)
    else if k == 2 then f.artist != "" ==> IdMatch(product, "artist_id", f.artist)
    else f.status != "" ==> StatusMatch(product, f.status)
  }

  /** The first n filters of the effect. */
  function UptoFn(f: ProductFilters, n: nat): Record -> bool
  {
    p => forall k :: 0 <= k < n ==> Part(p, f, k)
  }

  /** The predicate the k-th filter narrows the list by. */
  function StageFn(f: ProductFilters, k: nat): Record -> bool
  {
    if k == 0 then SearchFn(f.search)
    else if k == 1 then IdFn("category_id", f.category)
    else if k == 2 then IdFn("artist_id", f.artist)
    else StatusFn(f.status)
  }

  /** The k-th filter is set. */
  predicate Active(f: ProductFilters, k: nat)
  {
    if k == 0 then f.search != ""
    else if k == 1 then f.category != ""
    else if k == 2 then f.artist != ""
    else f.status != ""
  }

  lemma StageApplied(products: seq<Record>, f: ProductFilters, k: nat)
    requires Active(f, k)
    ensures Filter(Filter(products, UptoFn(f, k)), StageFn(f, k)) == Filter(products, UptoFn(f, k + 1))
  {
    var q := StageFn(f, k);
    forall p ensures UptoFn(f, k + 1)(p) == (UptoFn(f, k)(p) && q(p)) {
      assert q(p) == Part(p, f, k);
      if UptoFn(f, k)(p) && q(p) {
        forall j | 0 <= j < k + 1 ensures Part(p, f, j) {
          if j < k { assert Part(p, f, j); }
        }
      }
    }
    FilterFuse(products, UptoFn(f, k), q, UptoFn(f, k + 1));
  }

  lemma StageSkipped(products: seq<Record>, f: ProductFilters, k: nat)
    requires !Active(f, k)
    ensures Filter(products, UptoFn(f, k)) == Filter(products, UptoFn(f, k + 1))
  {
    forall i | 0 <= i < |products| ensures UptoFn(f, k)(products[i]) == UptoFn(f, k + 1)(products[i]) {
      if UptoFn(f, k)(products[i]) {
        forall j | 0 <= j < k + 1 ensures Part(products[i], f, j) {
          if j < k { assert Part(products[i], f, j); }
        }
      }
    }
    FilterExt(products, UptoFn(f, k), UptoFn(f, k + 1));
  }

  lemma AllStages(products: seq<Record>, f: ProductFilters)
    ensures Filter(products, UptoFn(f, 4)) == Filter(products, MatchesFn(f))
  {
    forall i | 0 <= i < |products| ensures UptoFn(f, 4)(products[i]) == MatchesFn(f)(products[i]) {
      var p := products[i];
      assert Part(p, f, 0) && Part(p, f, 1) && Part(p, f, 2) && Part(p, f, 3) ==> UptoFn(f, 4)(p);
    }
    FilterExt(products, UptoFn(f, 4), MatchesFn(f));
  }

  /** One step of the effect: the k-th filter narrows the list when it is set. */
  method ApplyStage(products: seq<Record>, f: ProductFilters, k: nat, filtered: seq<Record>) returns (next: seq<Record>)
    requires filtered == Filter(products, UptoFn(f, k))
    ensures next == Filter(products, UptoFn(f, k + 1))
  {
    next := filtered;
    if Active(f, k) {
      StageApplied(products, f, k);
      next := Filter(filtered, StageFn(f, k));
    } else {
      StageSkipped(products, f, k);
    }
  }

  /** The body of the filter effect: search, category, artist and status in turn. */
  method ApplyFilters(products: seq<Record>, f: ProductFilters) returns (filtered: seq<Record>)
    ensures filtered == Filter(products, MatchesFn(f))
  {
    FilterKeepsAll(products, UptoFn(f, 0));
    filtered := products;
    filtered := ApplyStage(products, f, 0, filtered);
    filtered := ApplyStage(products, f, 1, filtered);
    filtered := ApplyStage(products, f, 2, filtered);
    filtered := ApplyStage(products, f, 3, filtered);
    AllStages(products, f);
  }

  /** The page's filters and the list it shows. */
  class ProductsIndexPage {
    var filters: ProductFilters
    var filteredProducts: seq<Record>

    constructor (products: seq<Record>)
      ensures filters == NoFilters && filteredProducts == products
    {
      filters := NoFilters;
      filteredProducts := products;
    }

    /** The filter effect: each non-empty filter narrows the list in turn;
        the result is the products that pass all of them, in order. */
    method FilterEffect(products: seq<Record>)
      modifies this
      ensures filters == old(filters)
      ensures filteredProducts == Filter(products, MatchesFn(filters))
    {
      filteredProducts := ApplyFilters(products, filters);
    }

    /** clearAllFilters: all four filters back to ''. */
    method ClearAllFilters()
      modifies this
      ensures filters == NoFilters && filteredProducts == old(filteredProducts)
    {
      filters := NoFilters;
    }
  }

  /** The filtered list is an order-preserving subsequence of the products;
      a product is in it exactly when it passes every non-empty filter; with
      no filter set it is the whole list. */
  lemma FilteredProductsSpec(products: seq<Record>, f: ProductFilters)
    ensures IsSubseq(Filter(products, MatchesFn(f)), products)
    ensures forall i :: 0 <= i < |products| ==>
              (products[i] in Filter(products, MatchesFn(f)) <==> Matches(products[i], f))
    ensures f == NoFilters ==> Filter(products, MatchesFn(f)) == products
  {
    FilterIsSubseq(products, MatchesFn(f));
    if f == NoFilters {
      FilterKeepsAll(products, MatchesFn(f));
    }
  }

  /** A category filter that is not a number (parseInt gives NaN) hides every product. */
  lemma NonNumericCategoryHidesAll(products: seq<Record>, f: ProductFilters)
    requires f.category != "" && ParseInt(f.category).None?
    ensures Filter(products, MatchesFn(f)) == []
  {
  }

  /** `value !== ''` */
  predicate NonEmpty(v: string)
  {
    v != ""
  }

  /** activeFiltersCount */
  function ActiveFiltersCount(f: ProductFilters): nat
  {
    Count([f.search, f.category, f.artist, f.status], NonEmpty)
  }

  /** The count is at most 4, and 0 exactly when no filter is set. */
  lemma ActiveFiltersCountSpec(f: ProductFilters)
    ensures ActiveFiltersCount(f) <= 4
    ensures ActiveFiltersCount(f) == 0 <==> f == NoFilters
    ensures ActiveFiltersCount(f) == 4 <==> (f.search != "" && f.category != "" && f.artist != "" && f.status != "")
  {
    var s := [f.search, f.category, f.artist, f.status];
    assert s[1..] == [f.category, f.artist, f.status];
    assert s[1..][1..] == [f.artist, f.status];
    assert s[1..][1..][1..] == [f.status];
    assert Count([f.status], NonEmpty) == (if f.status != "" then 1 else 0);
    assert Count([f.artist, f.status], NonEmpty) == (if f.artist != "" then 1 else 0) + Count([f.status], NonEmpty);
    assert Count([f.category, f.artist, f.status], NonEmpty) ==
             (if f.category != "" then 1 else 0) + Count([f.artist, f.status], NonEmpty);
  }

  // formatStatus

  /** `w.charAt(0).toUpperCase() + w.slice(1)` */
  function Capitalize(w: string): string
  {
    if w == [] then [] else [UpperChar(w[0])] + w[1..]
  }

  /** formatStatus: split on '_', capitalise each piece, join with spaces. */
  function FormatStatus(status: string): string
  {
    Join(CapitalizeAll(Split(status, '_')), ' ')
  }

  /** Character by character: '_' becomes a space, and a character at the
      start or after '_' is upper-cased. */
  function FormatChars(s: string, atStart: bool): string
    decreases |s|
  {
    if s == [] then []
    else if s[0] == '_' then [' '] + FormatChars(s[1..], true)
    else [if atStart then UpperChar(s[0]) else s[0]] + FormatChars(s[1..], false)
  }

  function CapitalizeAll(parts: seq<string>): seq<string>
  {
    seq(|parts|, i requires 0 <= i < |parts| => Capitalize(parts[i]))
  }

  lemma {:induction false} JoinConsChar(x: char, w: string, rest: seq<string>, sep: char)
    ensures Join([[x] + w] + rest, sep) == [x] + Join([w] + rest, sep)
  {
    if rest != [] {
      assert ([[x] + w] + rest)[1..] == rest;
      assert ([w] + rest)[1..] == rest;
    }
  }

  lemma {:induction false} FormatCharsSplit(s: string, atStart: bool)
    ensures var parts := Split(s, '_');
            Join([if atStart then Capitalize(parts[0]) else parts[0]] + CapitalizeAll(parts[1..]), ' ')
              == FormatChars(s, atStart)
    decreases |s|
  {
    var parts := Split(s, '_');
    if s == [] {
    } else if s[0] == '_' {
      var rest := Split(s[1..], '_');
      FormatCharsSplit(s[1..], true);
      assert parts == [[]] + rest;
      assert CapitalizeAll(parts[1..]) == CapitalizeAll(rest) == [Capitalize(rest[0])] + CapitalizeAll(rest[1..]);
      var head: string := if atStart then Capitalize(parts[0]) else parts[0];
      assert head == [];
      assert ([head] + CapitalizeAll(parts[1..]))[1..] == CapitalizeAll(rest);
    } else {
      var rest := Split(s[1..], '_');
      FormatCharsSplit(s[1..], false);
      assert parts == [[s[0]] + rest[0]] + rest[1..];
      var c := if atStart then UpperChar(s[0]) else s[0];
      var head: string := if atStart then Capitalize(parts[0]) else parts[0];
      assert head == [c] + rest[0];
      JoinConsChar(c, rest[0], CapitalizeAll(rest[1..]), ' ');
    }
  }

  /** formatStatus agrees with the character-by-character description. */
  lemma FormatStatusChars(status: string)
    ensures FormatStatus(status) == FormatChars(status, true)
  {
    var parts := Split(status, '_');
    FormatCharsSplit(status, true);
    CapitalizeAllCons(parts);
  }

  lemma CapitalizeAllCons(parts: seq<string>)
    requires parts != []
    ensures CapitalizeAll(parts) == [Capitalize(parts[0])] + CapitalizeAll(parts[1..])
  {
    assert CapitalizeAll(parts)[1..] == CapitalizeAll(parts[1..]);
  }

  /** The label's i-th character: a space for '_', upper case at the start
      (when atStart) or after '_', the character itself otherwise. */
  function LabelChar(s: string, atStart: bool, i: nat): char
    requires i < |s|
  {
    if s[i] == '_' then ' '
    else if (i == 0 && atStart) || (i > 0 && s[i - 1] == '_') then UpperChar(s[i])
    else s[i]
  }

  lemma {:induction false} FormatCharsAt(s: string, atStart: bool)
    ensures |FormatChars(s, atStart)| == |s|
    ensures forall i :: 0 <= i < |s| ==> FormatChars(s, atStart)[i] == LabelChar(s, atStart, i)
    decreases |s|
  {
    if s != [] {
      var r := FormatChars(s, atStart);
      var tail := FormatChars(s[1..], s[0] == '_');
      FormatCharsAt(s[1..], s[0] == '_');
      assert r == [r[0]] + tail;
      assert r[0] == (if s[0] == '_' then ' ' else if atStart then UpperChar(s[0]) else s[0]);
      forall i | 0 <= i < |s|
        ensures r[i] == LabelChar(s, atStart, i)
      {
        if i > 0 {
          assert r[i] == tail[i - 1] == LabelChar(s[1..], s[0] == '_', i - 1);
          assert s[1..][i - 1] == s[i];
          if i - 1 > 0 { assert s[1..][i - 2] == s[i - 1]; }
        }
      }
    }
  }

  /** The label has the status's length; each '_' becomes a space, and the
      first character and every character after a '_' are upper-cased. */
  lemma FormatStatusSpec(status: string)
    ensures |FormatStatus(status)| == |status|
    ensures forall i :: 0 <= i < |status| ==>
              FormatStatus(status)[i] ==
                (if status[i] == '_' then ' '
                 else if i == 0 || status[i - 1] == '_' then UpperChar(status[i])
                 else status[i])
  {
    FormatStatusChars(status);
    FormatCharsAt(status, true);
    forall i | 0 <= i < |status|
      ensures FormatStatus(status)[i] ==
                (if status[i] == '_' then ' '
                 else if i == 0 || status[i - 1] == '_' then UpperChar(status[i])
                 else status[i])
    {
      assert FormatStatus(status)[i] == FormatChars(status, true)[i];
      assert FormatChars(status, true)[i] == LabelChar(status, true, i);
    }
  }

  // The tags column

  /** What the tags cell shows: "No tags", or the first tags and, past three,
      a "+n more" count (0 when there is none). */
  datatype TagCell = NoTags | TagList(shown: seq<Value>, more: nat)

  function TagsCell(tags: Value): TagCell
  {
    if !tags.Arr? || |tags.elems| == 0 then NoTags
    else
      var n := |tags.elems|;
      TagList(tags.elems[..if n < 3 then n else 3], if n > 3 then n - 3 else 0)
  }

  /** The cell shows the first min(3, n) tags in order, and the "+more" count
      appears only past three; shown and hidden tags add up to n. */
  lemma TagsCellSpec(tags: seq<Value>)
    ensures |tags| == 0 ==> TagsCell(Arr(tags)) == NoTags
    ensures |tags| > 0 ==>
              var cell := TagsCell(Arr(tags));
              cell.TagList? && cell.shown <= tags
              && |cell.shown| == (if |tags| < 3 then |tags| else 3)
              && (cell.more > 0 <==> |tags| > 3)
              && |cell.shown| + cell.more == |tags|
  {
  }
}
