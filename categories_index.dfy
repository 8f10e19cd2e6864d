/** The admin category list: the page's own filteredData (search on name and
    slug, then a status filter read off is_active), its active-filter count,
    and the guard on deletion. */
module CategoriesIndex {
  import opened Common
  import opened Strings
  import opened Js
  import AdminFilters

  /** `category.name?.toLowerCase().includes(term) || category.slug?.…`:
      a missing or null field is no match. */
  predicate SearchMatch(category: Record, search: string)
  {
    var term := Lower(search);
    AdminFilters.FieldContains(category, "name", term) || AdminFilters.FieldContains(category, "slug", term)
  }

  /** The status filter: 'active' keeps is_active 1 or true, 'inactive' keeps
      is_active 0 or false, any other value keeps everything. */
  predicate StatusKeeps(category: Record, status: string)
  {
    var a := Get(category, "is_active");
    if status == "active" then a == Num(1) || a == Bool(true)
    else if status == "inactive" then a == Num(0) || a == Bool(false)
    else true
  }

  function SearchFn(search: string): Record -> bool
  {
    c => SearchMatch(c, search)
  }

  function StatusFn(status: string): Record -> bool
  {
    c => StatusKeeps(c, status)
  }

  /** filteredData: the search narrows the copy when set, then the status
      filter when set. */
  function FilteredData(categories: seq<Record>, filters: AdminFilters.Filters): seq<Record>
  {
    var search := AdminFilters.FilterValue(filters, "search");
    var status := AdminFilters.FilterValue(filters, "status");
    var afterSearch := if search != "" then Filter(categories, SearchFn(search)) else categories;
    if status != "" then Filter(afterSearch, StatusFn(status)) else afterSearch
  }

  /** A category passes both filters (an unset filter passes everything). */
  predicate Matches(category: Record, filters: AdminFilters.Filters)
  {
    var search := AdminFilters.FilterValue(filters, "search");
    var status := AdminFilters.FilterValue(filters, "status");
    (search != "" ==> SearchMatch(category, search)) && (status != "" ==> StatusKeeps(category, status))
  }

  function MatchesFn(filters: AdminFilters.Filters): Record -> bool
  {
    c => Matches(c, filters)
  }

  /** The two stages together keep exactly the categories that pass both
      filters, in their order: an order-preserving subsequence. */
  lemma FilteredDataSpec(categories: seq<Record>, filters: AdminFilters.Filters)
    ensures FilteredData(categories, filters) == Filter(categories, MatchesFn(filters))
    ensures IsSubseq(FilteredData(categories, filters), categories)
  {
    var search := AdminFilters.FilterValue(filters, "search");
    var status := AdminFilters.FilterValue(filters, "status");
    var all := MatchesFn(filters);
    if search != "" && status != "" {
      FilterFuse(categories, SearchFn(search), StatusFn(status), all);
    } else if search != "" {
      FilterExt(categories, SearchFn(search), all);
    } else if status != "" {
      FilterExt(categories, StatusFn(status), all);
    } else {
      FilterKeepsAll(categories, all);
    }
    FilterIsSubseq(categories, all);
  }

  /** With status 'active' and no search, the list is exactly the categories
      whose is_active is 1 or true; with 'inactive', exactly those whose
      is_active is 0 or false; with any other status, all of them. */
  lemma StatusFilterSpec(categories: seq<Record>, filters: AdminFilters.Filters)
    requires AdminFilters.FilterValue(filters, "search") == ""
    ensures var status := AdminFilters.FilterValue(filters, "status");
            var r := FilteredData(categories, filters);
            && (status == "active" ==>
                  forall i :: 0 <= i < |categories| ==>
                    (categories[i] in r <==> Get(categories[i], "is_active") in {Num(1), Bool(true)}))
            && (status == "inactive" ==>
                  forall i :: 0 <= i < |categories| ==>
                    (categories[i] in r <==> Get(categories[i], "is_active") in {Num(0), Bool(false)}))
            && (status != "active" && status != "inactive" ==> r == categories)
  {
    var status := AdminFilters.FilterValue(filters, "status");
    if status != "" && status != "active" && status != "inactive" {
      FilterKeepsAll(categories, StatusFn(status));
    }
  }

  /** A listed category passes the status filter. */
  lemma ListedPassesStatus(categories: seq<Record>, filters: AdminFilters.Filters, c: Record)
    requires c in FilteredData(categories, filters)
    ensures StatusKeeps(c, AdminFilters.FilterValue(filters, "status"))
  {
    FilteredDataSpec(categories, filters);
  }

  /** No category is listed under both 'active' and 'inactive'. */
  lemma ActiveAndInactiveDisjoint(categories: seq<Record>, active: AdminFilters.Filters, inactive: AdminFilters.Filters)
    requires AdminFilters.FilterValue(active, "status") == "active"
    requires AdminFilters.FilterValue(inactive, "status") == "inactive"
    ensures forall c :: c in FilteredData(categories, active) ==> c !in FilteredData(categories, inactive)
  {
    forall c | c in FilteredData(categories, active) ensures c !in FilteredData(categories, inactive) {
      ListedPassesStatus(categories, active, c);
      if c in FilteredData(categories, inactive) {
        ListedPassesStatus(categories, inactive, c);
      }
    }
  }

  /** A non-empty search keeps exactly the categories whose name or slug
      contains it, ignoring case; a category with no name and no slug is
      never found. */
  lemma SearchSpec(categories: seq<Record>, search: string)
    requires search != ""
    ensures var r := FilteredData(categories, map["search" := search, "status" := ""]);
            forall i :: 0 <= i < |categories| ==> (categories[i] in r <==> SearchMatch(categories[i], search))
    ensures forall c :: Nullish(Get(c, "name")) && Nullish(Get(c, "slug")) ==> !SearchMatch(c, search)
  {
  }

  /** activeFiltersCount: the filter values, search and status, that are not ''. */
  function ActiveFiltersCount(filters: AdminFilters.Filters): nat
  {
    AdminFilters.ActiveFiltersCount(["search", "status"], filters)
  }

  /** The count is 0, 1 or 2, the number of set values. */
  lemma ActiveFiltersCountSpec(filters: AdminFilters.Filters)
    ensures ActiveFiltersCount(filters) ==
              (if AdminFilters.FilterValue(filters, "search") != "" then 1 else 0)
              + (if AdminFilters.FilterValue(filters, "status") != "" then 1 else 0)
  {
    var keys := ["search", "status"];
    assert keys[1..] == ["status"];
    assert keys[1..][1..] == [];
  }

  /** handleDeleteCategory: the id it asks the server to delete, none when no
      category is selected. */
  function DeleteTarget(categoryToDelete: Value): (target: Option<Value>)
  {
    if !Truthy(categoryToDelete) then None else Some(Member(categoryToDelete, "id"))
  }

  /** With nothing selected there is no request; with a selected category the
      request names its id. */
  lemma DeleteTargetSpec(categoryToDelete: Value)
    ensures Nullish(categoryToDelete) ==> DeleteTarget(categoryToDelete) == None
    ensures categoryToDelete.Obj? ==> DeleteTarget(categoryToDelete) == Some(Get(categoryToDelete.fields, "id"))
  {
  }
}
