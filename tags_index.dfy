/** The admin tag list: the search effect, the clear button, the usage
    statistics and the usage badge. */
module TagsIndex {
  import opened Common
  import opened Strings
  import opened Js

  /** The filters state `{ search, status }`; the status is kept but no
      code reads it. */
  datatype TagFilters = TagFilters(search: string, status: string)

  const NoFilters: TagFilters := TagFilters("", "")

  /** The name, or a non-empty description, contains the search text,
      ignoring case. A name that is not text is treated as no match. */
  predicate SearchMatch(tag: Record, search: string)
  {
    var term := Lower(search);
    (Get(tag, "name").Str? && Contains(Lower(Get(tag, "name").s), term))
    || (Truthy(Get(tag, "description")) && Get(tag, "description").Str?
        && Contains(Lower(Get(tag, "description").s), term))
  }

  function SearchFn(search: string): Record -> bool
  {
    t => SearchMatch(t, search)
  }

  /** What the effect stores in filteredTags. */
  function FilteredTags(tags: seq<Record>, f: TagFilters): seq<Record>
  {
    if f.search != "" then Filter(tags, SearchFn(f.search)) else tags
  }

  /** The list is an order-preserving subsequence of the tags; a tag is in it
      exactly when the search is empty or the tag matches it; the status
      filter changes nothing. */
  lemma FilteredTagsSpec(tags: seq<Record>, f: TagFilters, otherStatus: string)
    ensures IsSubseq(FilteredTags(tags, f), tags)
    ensures forall i :: 0 <= i < |tags| ==>
              (tags[i] in FilteredTags(tags, f) <==> f.search == "" || SearchMatch(tags[i], f.search))
    ensures FilteredTags(tags, f) == FilteredTags(tags, f.(status := otherStatus))
    ensures f.search == "" ==> FilteredTags(tags, f) == tags
  {
    if f.search != "" {
      FilterIsSubseq(tags, SearchFn(f.search));
    } else {
      SubseqRefl(tags);
    }
  }

  /** The page's filters and the list it shows. */
  class TagsIndexPage {
    var filters: TagFilters
    var filteredTags: seq<Record>

    constructor (tags: seq<Record>)
      ensures filters == NoFilters && filteredTags == tags
    {
      filters := NoFilters;
      filteredTags := tags;
    }

    /** The search box: `setFilters({ ...filters, search })`. */
    method SetSearch(search: string)
      modifies this
      ensures filters == old(filters).(search := search)
      ensures filteredTags == old(filteredTags)
    {
      filters := filters.(search := search);
    }

    /** The effect: re-filter the tags by the current search. */
    method FilterEffect(tags: seq<Record>)
      modifies this
      ensures filters == old(filters)
      ensures filteredTags == FilteredTags(tags, filters)
    {
      var filtered := tags;
      if filters.search != "" {
        filtered := Filter(filtered, SearchFn(filters.search));
      }
      filteredTags := filtered;
    }

    /** clearAllFilters: search and status back to ''. */
    method ClearAllFilters()
      modifies this
      ensures filters == NoFilters && filteredTags == old(filteredTags)
    {
      filters := TagFilters("", "");
    }
  }

  /** After clearing and re-running the effect every tag is shown. */
  method ClearThenFilter(page: TagsIndexPage, tags: seq<Record>)
    modifies page
    ensures page.filters == NoFilters && page.filteredTags == tags
  {
    page.ClearAllFilters();
    page.FilterEffect(tags);
  }

  // Statistics

  /** The server sends every tag with an integer usage_count. */
  predicate HasUsage(tag: Record)
  {
    Get(tag, "usage_count").Num?
  }

  function Usage(tag: Record): int
    requires HasUsage(tag)
  {
    Get(tag, "usage_count").n
  }

  /** totalTags */
  function TotalTags(tags: seq<Record>): nat
  {
    |tags|
  }

  /** totalUsage: the sum of usage_count, from 0. */
  function TotalUsage(tags: seq<Record>): int
    requires forall i :: 0 <= i < |tags| ==> HasUsage(tags[i])
  {
    if tags == [] then 0 else TotalUsage(tags[..|tags| - 1]) + Usage(tags[|tags| - 1])
  }

  /** averageUsage before rounding to one decimal: 0 with no tags. */
  function AverageUsage(tags: seq<Record>): real
    requires forall i :: 0 <= i < |tags| ==> HasUsage(tags[i])
  {
    if TotalTags(tags) > 0 then TotalUsage(tags) as real / TotalTags(tags) as real else 0.0
  }

  /** `tag.usage_count === 0` */
  predicate Unused(tag: Record)
  {
    Get(tag, "usage_count") == Num(0)
  }

  /** unusedTags */
  function UnusedTags(tags: seq<Record>): nat
  {
    Count(tags, Unused)
  }

  /** The average times the count gives back the total, and is 0 with no tags. */
  lemma AverageUsageSpec(tags: seq<Record>)
    requires forall i :: 0 <= i < |tags| ==> HasUsage(tags[i])
    ensures tags == [] ==> AverageUsage(tags) == 0.0
    ensures tags != [] ==> AverageUsage(tags) * TotalTags(tags) as real == TotalUsage(tags) as real
  {
  }

  /** The unused tags are never more than the tags; with usage counts that
      are never negative, the total is 0 exactly when every tag is unused. */
  lemma {:induction false} UnusedTagsSpec(tags: seq<Record>)
    requires forall i :: 0 <= i < |tags| ==> HasUsage(tags[i]) && Usage(tags[i]) >= 0
    ensures UnusedTags(tags) <= TotalTags(tags)
    ensures TotalUsage(tags) >= 0
    ensures TotalUsage(tags) == 0 <==> UnusedTags(tags) == TotalTags(tags)
    decreases |tags|
  {
    if tags != [] {
      var init := tags[..|tags| - 1];
      var last := tags[|tags| - 1];
      UnusedTagsSpec(init);
      assert init + [last] == tags;
      CountAppend(init, [last], Unused);
      assert Count([last], Unused) == (if Unused(last) then 1 else 0) by {
        assert [last][1..] == [];
      }
    }
  }

  // The usage badge

  /** The usage column's colour class. */
  datatype Badge = Grey | Green | Orange

  /** `=== 0` is grey, `> 10` green, anything else orange. */
  function UsageBadge(usage: int): Badge
  {
    if usage == 0 then Grey else if usage > 10 then Green else Orange
  }

  predicate GreyBadge(tag: Record)
  {
    HasUsage(tag) && UsageBadge(Usage(tag)).Grey?
  }

  /** The grey badges are exactly the tags counted as unused. */
  lemma {:induction false} GreyBadgesAreUnused(tags: seq<Record>)
    requires forall i :: 0 <= i < |tags| ==> HasUsage(tags[i])
    ensures Count(tags, GreyBadge) == UnusedTags(tags)
    decreases |tags|
  {
    if tags != [] {
      GreyBadgesAreUnused(tags[1..]);
      assert GreyBadge(tags[0]) == Unused(tags[0]);
    }
  }

  /** Each usage count gets exactly one badge: grey for 0, green above 10,
      orange for the rest, negative counts included. */
  lemma UsageBadgeSpec(usage: int)
    ensures UsageBadge(usage) == Grey <==> usage == 0
    ensures UsageBadge(usage) == Green <==> usage > 10
    ensures UsageBadge(usage) == Orange <==> usage != 0 && usage <= 10
  {
  }
}
