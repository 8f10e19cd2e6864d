/** The storefront routes: which categories the home and collections pages
    list, how a collection segment picks its category, and which products the
    listing, detail and related-products queries return. Each route is a
    query over the stored rows, given here as sequences in table order. */
module PublicRoutes {
  import opened Common
  import opened Strings
  import opened Sorting

  /** The columns of a categories row the routes read. */
  datatype CategoryRow = CategoryRow(id: int, name: string, slug: string, isActive: bool, sortOrder: int)

  /** The columns of a products row the routes read; `trashed` is a set
      deleted_at, which Product's soft deletes hide from every query. */
  datatype ProductRow = ProductRow(id: int, categoryId: int, status: string, createdAt: int, trashed: bool)

  // ---------------------------------------------------------------------
  // Category lists

  function IsActiveFn(): CategoryRow -> bool
  {
    (c: CategoryRow) => c.isActive
  }

  /** `orderBy('sort_order')->orderBy('name')`, names compared code point by
      code point. */
  function ByPosition(): (CategoryRow, CategoryRow) -> bool
  {
    (a: CategoryRow, b: CategoryRow) =>
      a.sortOrder < b.sortOrder || (a.sortOrder == b.sortOrder && StrLess(a.name, b.name))
  }

  lemma ByPositionStrictOrder()
    ensures StrictOrder(ByPosition())
  {
    forall a: CategoryRow ensures !ByPosition()(a, a) {
      StrLessIrreflexive(a.name);
    }
    forall a: CategoryRow, b: CategoryRow, c: CategoryRow
      | ByPosition()(a, b) && ByPosition()(b, c)
      ensures ByPosition()(a, c)
    {
      if a.sortOrder == b.sortOrder == c.sortOrder {
        StrLessTransitive(a.name, b.name, c.name);
      }
    }
  }

  /** The categories of the home page and of /collections. */
  function ListedCategories(cats: seq<CategoryRow>): seq<CategoryRow>
  {
    Sort(Filter(cats, IsActiveFn()), ByPosition())
  }

  /** The listed categories are the active ones, each once per row, ordered
      by sort_order and then by name. */
  lemma ListedCategoriesSpec(cats: seq<CategoryRow>)
    ensures multiset(ListedCategories(cats)) == multiset(Filter(cats, IsActiveFn()))
    ensures forall c :: c in ListedCategories(cats) <==> c in cats && c.isActive
    ensures forall i, j :: 0 <= i < j < |ListedCategories(cats)| ==>
              var a, b := ListedCategories(cats)[i], ListedCategories(cats)[j];
              a.sortOrder < b.sortOrder || (a.sortOrder == b.sortOrder && !StrLess(b.name, a.name))
  {
    var active := Filter(cats, IsActiveFn());
    SortPermutes(active, ByPosition());
    FilterMembers(cats, IsActiveFn());
    ByPositionStrictOrder();
    SortSorted(active, ByPosition());
    forall c ensures c in ListedCategories(cats) <==> c in active {
      assert c in ListedCategories(cats) <==> c in multiset(ListedCategories(cats));
    }
  }

  function InCategory(id: int): ProductRow -> bool
  {
    (p: ProductRow) => p.categoryId == id && !p.trashed
  }

  /** `withCount('products')`: the number of products of the category that
      are not soft-deleted, whatever their status. */
  function ProductsCount(products: seq<ProductRow>, c: CategoryRow): nat
  {
    Count(products, InCategory(c.id))
  }

  /** The /collections page: each listed category with its products count. */
  function CollectionsPage(cats: seq<CategoryRow>, products: seq<ProductRow>): seq<(CategoryRow, nat)>
  {
    var listed := ListedCategories(cats);
    seq(|listed|, i requires 0 <= i < |listed| => (listed[i], ProductsCount(products, listed[i])))
  }

  /** The collections page shows the listed categories in their order, each
      with as many products as a listing of all its rows would hold. */
  lemma CollectionsPageSpec(cats: seq<CategoryRow>, products: seq<ProductRow>)
    ensures |CollectionsPage(cats, products)| == |ListedCategories(cats)|
    ensures forall i :: 0 <= i < |CollectionsPage(cats, products)| ==>
              CollectionsPage(cats, products)[i].0 == ListedCategories(cats)[i]
              && CollectionsPage(cats, products)[i].1 == |Filter(products, InCategory(ListedCategories(cats)[i].id))|
  {
    forall i | 0 <= i < |CollectionsPage(cats, products)|
      ensures CollectionsPage(cats, products)[i].1 == |Filter(products, InCategory(ListedCategories(cats)[i].id))|
    {
      FilterLength(products, InCategory(ListedCategories(cats)[i].id));
    }
  }

  // ---------------------------------------------------------------------
  // Collection resolution

  /** `str_replace('-', ' ', segment)` */
  function DashesToSpaces(s: string): (r: string)
  {
    seq(|s|, i requires 0 <= i < |s| => if s[i] == '-' then ' ' else s[i])
  }

  /** `slug = segment OR name LIKE %segment with spaces%`; LIKE ignores
      (ASCII) case. */
  predicate CollectionMatch(c: CategoryRow, segment: string)
  {
    c.slug == segment || Contains(Lower(c.name), Lower(DashesToSpaces(segment)))
  }

  /** `->first()`: the first matching row in table order, active or not. */
  function ResolveCollection(cats: seq<CategoryRow>, segment: string): Option<CategoryRow>
    decreases |cats|
  {
    if cats == [] then None
    else if CollectionMatch(cats[0], segment) then Some(cats[0])
    else ResolveCollection(cats[1..], segment)
  }

  /** The segment resolves to the first category that matches it, and to
      none (a 404) exactly when no category matches. */
  lemma {:induction false} ResolveCollectionSpec(cats: seq<CategoryRow>, segment: string)
    ensures ResolveCollection(cats, segment).None? <==> forall c :: c in cats ==> !CollectionMatch(c, segment)
    ensures ResolveCollection(cats, segment).Some? ==>
              exists k :: 0 <= k < |cats| && cats[k] == ResolveCollection(cats, segment).value
                && CollectionMatch(cats[k], segment)
                && forall j :: 0 <= j < k ==> !CollectionMatch(cats[j], segment)
    decreases |cats|
  {
    if cats != [] {
      ResolveCollectionSpec(cats[1..], segment);
      if !CollectionMatch(cats[0], segment) {
        assert forall c :: c in cats <==> c == cats[0] || c in cats[1..];
        if ResolveCollection(cats[1..], segment).Some? {
          var k :| 0 <= k < |cats[1..]| && cats[1..][k] == ResolveCollection(cats, segment).value
                   && CollectionMatch(cats[1..][k], segment)
                   && forall j :: 0 <= j < k ==> !CollectionMatch(cats[1..][j], segment);
          assert cats[k + 1] == cats[1..][k];
          assert forall j :: 0 <= j < k + 1 ==> !CollectionMatch(cats[j], segment) by {
            forall j | 0 <= j < k + 1 ensures !CollectionMatch(cats[j], segment) {
              if j > 0 { assert cats[j] == cats[1..][j - 1]; }
            }
          }
        }
      } else {
        assert cats[0] in cats;
      }
    }
  }

  /** A category whose slug is the segment always resolves, even when it is
      inactive or when another category's name also matches. */
  lemma SlugAlwaysResolves(cats: seq<CategoryRow>, segment: string, c: CategoryRow)
    requires c in cats && c.slug == segment
    ensures ResolveCollection(cats, segment).Some?
    ensures CollectionMatch(ResolveCollection(cats, segment).value, segment)
  {
    ResolveCollectionSpec(cats, segment);
  }

  // ---------------------------------------------------------------------
  // Products

  /** `status = 'active' OR status = 'Active'` */
  predicate Published(p: ProductRow)
  {
    p.status == "active" || p.status == "Active"
  }

  function InListing(categoryId: int): ProductRow -> bool
  {
    (p: ProductRow) => p.categoryId == categoryId && Published(p) && !p.trashed
  }

  /** `orderBy('created_at', 'desc')` */
  function NewerFirst(): (ProductRow, ProductRow) -> bool
  {
    (a: ProductRow, b: ProductRow) => a.createdAt > b.createdAt
  }

  /** The products of a collection's listing. */
  function ListingProducts(products: seq<ProductRow>, category: CategoryRow): seq<ProductRow>
  {
    Sort(Filter(products, InListing(category.id)), NewerFirst())
  }

  /** The listing holds exactly the published, not deleted products of the
      category, each row once, newest first. */
  lemma ListingProductsSpec(products: seq<ProductRow>, category: CategoryRow)
    ensures multiset(ListingProducts(products, category)) == multiset(Filter(products, InListing(category.id)))
    ensures forall p :: p in ListingProducts(products, category) <==>
              p in products && p.categoryId == category.id && Published(p) && !p.trashed
    ensures forall i, j :: 0 <= i < j < |ListingProducts(products, category)| ==>
              ListingProducts(products, category)[i].createdAt >= ListingProducts(products, category)[j].createdAt
  {
    var listed := Filter(products, InListing(category.id));
    SortPermutes(listed, NewerFirst());
    FilterMembers(products, InListing(category.id));
    assert StrictOrder(NewerFirst());
    SortSorted(listed, NewerFirst());
    forall p ensures p in ListingProducts(products, category) <==> p in listed {
      assert p in ListingProducts(products, category) <==> p in multiset(ListingProducts(products, category));
    }
  }

  /** `where('id', id)` and published, `->firstOrFail()`: none is a 404. */
  function ProductDetail(products: seq<ProductRow>, id: int): Option<ProductRow>
    decreases |products|
  {
    if products == [] then None
    else if products[0].id == id && Published(products[0]) && !products[0].trashed then Some(products[0])
    else ProductDetail(products[1..], id)
  }

  /** The detail page shows a published, not deleted product with that id,
      and is not found exactly when there is none. */
  lemma {:induction false} ProductDetailSpec(products: seq<ProductRow>, id: int)
    ensures ProductDetail(products, id).Some? ==>
              var p := ProductDetail(products, id).value;
              p in products && p.id == id && Published(p) && !p.trashed
    ensures ProductDetail(products, id).None? <==>
              forall p :: p in products ==> !(p.id == id && Published(p) && !p.trashed)
    decreases |products|
  {
    if products != [] {
      ProductDetailSpec(products[1..], id);
      assert forall p :: p in products <==> p == products[0] || p in products[1..];
    }
  }

  function RelatedTo(product: ProductRow): ProductRow -> bool
  {
    (p: ProductRow) => p.categoryId == product.categoryId && p.id != product.id && Published(p) && !p.trashed
  }

  /** `limit(4)` with no order: the first four candidates in table order. */
  function RelatedProducts(products: seq<ProductRow>, product: ProductRow): seq<ProductRow>
  {
    var candidates := Filter(products, RelatedTo(product));
    if |candidates| <= 4 then candidates else candidates[..4]
  }

  /** At most four related products, each one published, not deleted, of
      the same category and not the product itself, in table order; all the
      candidates when there are at most four. */
  lemma RelatedProductsSpec(products: seq<ProductRow>, product: ProductRow)
    ensures |RelatedProducts(products, product)| <= 4
    ensures forall p :: p in RelatedProducts(products, product) ==>
              p in products && p.categoryId == product.categoryId && p.id != product.id
              && Published(p) && !p.trashed
    ensures IsSubseq(RelatedProducts(products, product), products)
    ensures Count(products, RelatedTo(product)) <= 4 ==>
              forall p :: p in products && RelatedTo(product)(p) ==> p in RelatedProducts(products, product)
    ensures |RelatedProducts(products, product)| == if Count(products, RelatedTo(product)) < 4 then Count(products, RelatedTo(product)) else 4
  {
    var candidates := Filter(products, RelatedTo(product));
    FilterMembers(products, RelatedTo(product));
    FilterLength(products, RelatedTo(product));
    FilterIsSubseq(products, RelatedTo(product));
    if |candidates| > 4 {
      PrefixIsSubseq(candidates, 4);
      SubseqTrans(candidates[..4], candidates, products);
    }
  }

  lemma {:induction false} PrefixIsSubseq<T>(s: seq<T>, n: nat)
    requires n <= |s|
    ensures IsSubseq(s[..n], s)
    decreases |s|
  {
    if n > 0 {
      PrefixIsSubseq(s[1..], n - 1);
      assert s[..n][1..] == s[1..][..n - 1];
    } else {
      assert s[..n] == [];
    }
  }
}
