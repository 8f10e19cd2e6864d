/** The generic list hooks of the admin pages: useAdminFilters (free-text
    search, per-key exact filters, the active-filter count, update and clear),
    useAdminTable's sort, getNestedValue, and useAdminForm's updateData. */
module AdminFilters {
  import opened Common
  import opened Strings
  import opened Js
  import opened Sorting

  // ---------------------------------------------------------------------
  // Filtering

  /** Filter values by key; the filter inputs hold text. */
  type Filters = map<string, string>

  const SearchKey: string := "search"

  /** `filters[key]`, '' when the key is absent. */
  function FilterValue(values: Filters, key: string): string
  {
    if key in values then values[key] else ""
  }

  predicate EndsWith(s: string, suffix: string)
  {
    |suffix| <= |s| && s[|s| - |suffix|..] == suffix
  }

  /** `item[field]?.toLowerCase().includes(term)`: a missing field is no match. */
  predicate FieldContains(item: Record, field: string, term: string)
  {
    Get(item, field).Str? && Contains(Lower(Get(item, field).s), term)
  }

  /** The search: one of name, title, email, sku and username contains the
      lower-cased search text. */
  predicate SearchMatch(item: Record, search: string)
  {
    var term := Lower(search);
    FieldContains(item, "name", term) || FieldContains(item, "title", term)
    || FieldContains(item, "email", term) || FieldContains(item, "sku", term)
    || FieldContains(item, "username", term)
  }

  /** One exact filter: for a key ending in `_id` the field must be the number
      parseInt(value) (NaN equals nothing); for any other key the lower-cased
      field must equal the lower-cased value, and a missing field never does. */
  predicate KeyMatch(item: Record, key: string, value: string)
  {
    if EndsWith(key, "_id") then
      ParseInt(value).Some? && Get(item, key) == Num(ParseInt(value).value)
    else
      Get(item, key).Str? && Lower(Get(item, key).s) == Lower(value)
  }

  /** The key holds an exact filter that narrows the list: not the search, and
      not ''. */
  predicate Narrows(values: Filters, key: string)
  {
    key in values && key != SearchKey && values[key] != ""
  }

  /** An item passes the search (when there is one) and every narrowing filter. */
  predicate Matches(item: Record, values: Filters)
  {
    (FilterValue(values, SearchKey) != "" ==> SearchMatch(item, FilterValue(values, SearchKey)))
    && forall k | k in values :: Narrows(values, k) ==> KeyMatch(item, k, values[k])
  }

  /** The item passes the search and the narrowing filters among keys. */
  predicate MatchesKeys(item: Record, values: Filters, keys: seq<string>)
  {
    (FilterValue(values, SearchKey) != "" ==> SearchMatch(item, FilterValue(values, SearchKey)))
    && forall j :: 0 <= j < |keys| && Narrows(values, keys[j]) ==> KeyMatch(item, keys[j], values[keys[j]])
  }

  /** One more key adds its filter, if it narrows. */
  lemma MatchesKeysStep(item: Record, values: Filters, keys: seq<string>, i: nat)
    requires i < |keys|
    ensures MatchesKeys(item, values, keys[..i + 1]) ==
              (MatchesKeys(item, values, keys[..i])
               && (Narrows(values, keys[i]) ==> KeyMatch(item, keys[i], values[keys[i]])))
  {
    assert keys[..i + 1] == keys[..i] + [keys[i]];
  }

  /** Once every key of the filters has been visited, the item passes all of them. */
  lemma MatchesAllKeys(item: Record, values: Filters, keys: seq<string>)
    requires forall k :: k in values <==> k in keys
    ensures MatchesKeys(item, values, keys) == Matches(item, values)
  {
    if MatchesKeys(item, values, keys) {
      forall k | k in values && Narrows(values, k) ensures KeyMatch(item, k, values[k]) {
        var j :| 0 <= j < |keys| && keys[j] == k;
      }
    }
  }

  /** filteredData: the search first, then one filter pass per entry of the
      filters object, in its key order. Whatever that order, the result keeps
      exactly the items that pass every filter, in their original order. */
  method FilteredData(data: seq<Record>, keys: seq<string>, values: Filters) returns (result: seq<Record>)
    requires forall k :: k in values <==> k in keys
    ensures result == Filter(data, item => Matches(item, values))
  {
    result := data;
    var search := FilterValue(values, SearchKey);
    if search != "" {
      result := Filter(result, item => SearchMatch(item, search));
      FilterExt(data, item => SearchMatch(item, search), item => MatchesKeys(item, values, keys[..0]));
    } else {
      FilterKeepsAll(data, item => MatchesKeys(item, values, keys[..0]));
    }
    for i := 0 to |keys|
      invariant result == Filter(data, item => MatchesKeys(item, values, keys[..i]))
    {
      var key := keys[i];
      forall item | true
        ensures MatchesKeys(item, values, keys[..i + 1]) ==
                  (MatchesKeys(item, values, keys[..i]) && (Narrows(values, key) ==> KeyMatch(item, key, values[key])))
      {
        MatchesKeysStep(item, values, keys, i);
      }
      if key != SearchKey && values[key] != "" {
        var value := values[key];
        FilterFuse(data, item => MatchesKeys(item, values, keys[..i]), item => KeyMatch(item, key, value),
                   item => MatchesKeys(item, values, keys[..i + 1]));
        result := Filter(result, item => KeyMatch(item, key, value));
      } else {
        FilterExt(data, item => MatchesKeys(item, values, keys[..i]), item => MatchesKeys(item, values, keys[..i + 1]));
      }
    }
    assert keys[..|keys|] == keys;
    forall item | true
      ensures MatchesKeys(item, values, keys) == Matches(item, values)
    {
      MatchesAllKeys(item, values, keys);
    }
    FilterExt(data, item => MatchesKeys(item, values, keys), item => Matches(item, values));
  }

  /** The filtered list is an order-preserving subsequence of the input; an
      item of the input is in it exactly when it passes every filter. */
  lemma FilteredIsSubsequence(data: seq<Record>, values: Filters)
    ensures IsSubseq(Filter(data, item => Matches(item, values)), data)
    ensures forall i :: 0 <= i < |data| ==>
              (data[i] in Filter(data, item => Matches(item, values)) <==> Matches(data[i], values))
  {
    FilterIsSubseq(data, item => Matches(item, values));
  }

  /** When every filter value, the search included, is '', nothing is removed. */
  lemma EmptyFiltersKeepAll(data: seq<Record>, values: Filters)
    requires forall k :: k in values ==> values[k] == ""
    ensures Filter(data, item => Matches(item, values)) == data
  {
    FilterKeepsAll(data, item => Matches(item, values));
  }

  /** Setting a further exact filter on a key that held '' is one more filter
      pass over the current result (filters combine with AND). */
  lemma AddedFilterNarrows(data: seq<Record>, values: Filters, key: string, value: string)
    requires key != SearchKey && value != "" && FilterValue(values, key) == ""
    ensures Filter(data, item => Matches(item, values[key := value])) ==
            Filter(Filter(data, item => Matches(item, values)), item => KeyMatch(item, key, value))
  {
    var after := values[key := value];
    forall item | true
      ensures Matches(item, after) == (Matches(item, values) && KeyMatch(item, key, value))
    {
      assert FilterValue(after, SearchKey) == FilterValue(values, SearchKey);
      if Matches(item, values) && KeyMatch(item, key, value) {
        forall k | Narrows(after, k) ensures KeyMatch(item, k, after[k]) {
          if k != key {
            assert Narrows(values, k);
          }
        }
      }
      if Matches(item, after) {
        assert Narrows(after, key);
        forall k | Narrows(values, k) ensures KeyMatch(item, k, values[k]) {
          assert k != key && Narrows(after, k);
        }
      }
    }
    FilterFuse(data, item => Matches(item, values), item => KeyMatch(item, key, value),
               item => Matches(item, after));
  }

  /** activeFiltersCount: how many filter values, the search included, are not ''. */
  function ActiveFiltersCount(keys: seq<string>, values: Filters): nat
  {
    Count(keys, IsActive(values))
  }

  /** `value !== ''` for the value under a key. */
  function IsActive(values: Filters): string -> bool
  {
    k => FilterValue(values, k) != ""
  }

  /** The count is the number of keys whose value is not '', at most the
      number of filters. */
  lemma ActiveFiltersCountIsSetSize(keys: seq<string>, values: Filters)
    requires Distinct(keys) && forall k :: k in values <==> k in keys
    ensures ActiveFiltersCount(keys, values) == |set k | k in values && values[k] != ""|
    ensures ActiveFiltersCount(keys, values) <= |keys|
  {
    var p := IsActive(values);
    CountDistinct(keys, p);
    forall k ensures (k in keys && p(k)) <==> (k in values && values[k] != "") {
      if k in keys { assert k in values; }
    }
    assert Passing(keys, p) == set k | k in values && values[k] != "";
    FilterLength(keys, p);
  }

  /** With every value '', the count is 0. */
  lemma {:induction false} ClearedCountIsZero(keys: seq<string>, values: Filters)
    requires forall k :: k in values ==> values[k] == ""
    ensures ActiveFiltersCount(keys, values) == 0
    decreases |keys|
  {
    if keys != [] {
      ClearedCountIsZero(keys[1..], values);
    }
  }

  /** The filters state: the values, and the order of the keys as the object
      holds them (search first). */
  class FilterHook {
    var keys: seq<string>
    var values: Filters

    ghost predicate Valid()
      reads this
    {
      Distinct(keys) && (forall k :: k in values <==> k in keys)
    }

    /** `{ search: '', ...initialFilters }` */
    constructor (initialKeys: seq<string>, initialValues: Filters)
      requires Distinct(initialKeys) && forall k :: k in initialValues <==> k in initialKeys
      ensures Valid()
      ensures values == map[SearchKey := ""] + initialValues
      ensures keys == [SearchKey] + Filter(initialKeys, k => k != SearchKey)
    {
      var rest := Filter(initialKeys, k => k != SearchKey);
      FilterDistinct(initialKeys, k => k != SearchKey);
      FilterMembers(initialKeys, k => k != SearchKey);
      var ks := [SearchKey] + rest;
      var vs := map[SearchKey := ""] + initialValues;
      forall k | k in vs ensures k in ks {
        if k != SearchKey {
          var j :| 0 <= j < |initialKeys| && initialKeys[j] == k;
        }
      }
      keys := ks;
      values := vs;
    }

    /** updateFilter: the named key gets the value (a new key goes last);
        every other filter keeps its value. */
    method UpdateFilter(key: string, value: string)
      requires Valid()
      modifies this
      ensures Valid()
      ensures values == old(values)[key := value]
      ensures key in old(values) ==> keys == old(keys)
      ensures key !in old(values) ==> keys == old(keys) + [key]
    {
      if key !in values {
        keys := keys + [key];
      }
      values := values[key := value];
    }

    /** clearAllFilters: every key keeps its place and gets ''. */
    method ClearAllFilters()
      requires Valid()
      modifies this
      ensures Valid()
      ensures keys == old(keys)
      ensures values.Keys == old(values).Keys
      ensures forall k :: k in values ==> values[k] == ""
    {
      var acc: Filters := map[];
      for i := 0 to |keys|
        invariant acc.Keys == set j | 0 <= j < i :: keys[j]
        invariant forall k :: k in acc ==> acc[k] == ""
      {
        acc := acc[keys[i] := ""];
      }
      values := acc;
    }
  }

  /** After clearAllFilters the list shows every item and no filter is active. */
  lemma ClearedFiltersShowAll(data: seq<Record>, keys: seq<string>, values: Filters)
    requires forall k :: k in values ==> values[k] == ""
    ensures Filter(data, item => Matches(item, values)) == data
    ensures ActiveFiltersCount(keys, values) == 0
  {
    EmptyFiltersKeepAll(data, values);
    ClearedCountIsZero(keys, values);
  }

  // ---------------------------------------------------------------------
  // getNestedValue

  /** `keys.reduce((current, key) => current?.[key], v)` */
  function NestedGet(v: Value, keys: seq<string>): Value
    decreases |keys|
  {
    if keys == [] then v else NestedGet(Member(v, keys[0]), keys[1..])
  }

  /** getNestedValue(obj, path) */
  function GetNestedValue(obj: Value, path: string): Value
  {
    NestedGet(obj, Split(path, '.'))
  }

  lemma {:induction false} NestedGetAppend(v: Value, k1: seq<string>, k2: seq<string>)
    ensures NestedGet(v, k1 + k2) == NestedGet(NestedGet(v, k1), k2)
    decreases |k1|
  {
    if k1 == [] {
      assert k1 + k2 == k2;
    } else {
      assert (k1 + k2)[1..] == k1[1..] + k2;
      NestedGetAppend(Member(v, k1[0]), k1[1..], k2);
    }
  }

  /** A path without dots reads one property: for a row, the plain field. */
  lemma GetNestedPlain(row: Record, key: string)
    requires forall i :: 0 <= i < |key| ==> key[i] != '.'
    ensures GetNestedValue(Obj(row), key) == Get(row, key)
  {
    SplitNoSep(key, '.');
    assert NestedGet(Obj(row), [key]) == NestedGet(Member(Obj(row), key), []);
  }

  /** A dotted path reads step by step: `a.b` is b of the value at a. */
  lemma GetNestedCompose(obj: Value, p1: string, p2: string)
    ensures GetNestedValue(obj, p1 + "." + p2) == GetNestedValue(GetNestedValue(obj, p1), p2)
  {
    SplitJoin(p1, p2, '.');
    NestedGetAppend(obj, Split(p1, '.'), Split(p2, '.'));
  }

  /** The walk stops at null and undefined: any path from them reads undefined. */
  lemma GetNestedFromNullish(v: Value, path: string)
    requires Nullish(v)
    ensures GetNestedValue(v, path) == Undefined
  {
    var keys := Split(path, '.');
    NestedGetUndefined(keys[1..]);
  }

  lemma {:induction false} NestedGetUndefined(keys: seq<string>)
    ensures NestedGet(Undefined, keys) == Undefined
    decreases |keys|
  {
    if keys != [] { NestedGetUndefined(keys[1..]); }
  }

  // ---------------------------------------------------------------------
  // Sorting (useAdminTable)

  datatype Direction = Asc | Desc

  /** `{ key, direction }`; the key starts as null. */
  datatype SortConfig = SortConfig(key: Option<string>, direction: Direction)

  /** `a < b` on the values the sort compares: numbers by value, strings
      lexicographically; values of other or mixed kinds are not ordered. */
  predicate LessValue(a: Value, b: Value)
  {
    (a.Num? && b.Num? && a.n < b.n) || (a.Str? && b.Str? && StrLess(a.s, b.s))
  }

  /** The order the comparator puts rows in: ascending or descending in the
      value at the key's path. */
  function RowLess(key: string, dir: Direction): (Record, Record) -> bool
  {
    (a: Record, b: Record) =>
      var va := GetNestedValue(Obj(a), key);
      var vb := GetNestedValue(Obj(b), key);
      if dir == Asc then LessValue(va, vb) else LessValue(vb, va)
  }

  /** sortedData */
  function SortedData(filtered: seq<Record>, config: SortConfig): seq<Record>
  {
    if config.key.None? || config.key.value == "" then filtered
    else Sort(filtered, RowLess(config.key.value, config.direction))
  }

  lemma LessValueStrictOrder()
    ensures forall a :: !LessValue(a, a)
    ensures forall a, b, c :: LessValue(a, b) && LessValue(b, c) ==> LessValue(a, c)
  {
    forall a ensures !LessValue(a, a) {
      if a.Str? { StrLessIrreflexive(a.s); }
    }
    forall a, b, c | LessValue(a, b) && LessValue(b, c) ensures LessValue(a, c) {
      if a.Str? { StrLessTransitive(a.s, b.s, c.s); }
    }
  }

  lemma RowLessStrictOrder(key: string, dir: Direction)
    ensures StrictOrder(RowLess(key, dir))
  {
    LessValueStrictOrder();
  }

  /** The sorted rows are the filtered rows rearranged; with a key they are in
      order of the key's value in the chosen direction (rows whose values are
      not ordered keep their relative order); without a key nothing moves. */
  lemma SortedDataSpec(filtered: seq<Record>, config: SortConfig)
    ensures multiset(SortedData(filtered, config)) == multiset(filtered)
    ensures config.key.Some? && config.key.value != "" ==>
              SortedBy(SortedData(filtered, config), RowLess(config.key.value, config.direction))
    ensures config.key.None? || config.key.value == "" ==> SortedData(filtered, config) == filtered
  {
    if config.key.Some? && config.key.value != "" {
      SortPermutes(filtered, RowLess(config.key.value, config.direction));
      RowLessStrictOrder(config.key.value, config.direction);
      SortSorted(filtered, RowLess(config.key.value, config.direction));
    }
  }

  /** The sort state of a table. */
  class TableState {
    var sortConfig: SortConfig

    constructor ()
      ensures sortConfig == SortConfig(None, Asc)
    {
      sortConfig := SortConfig(None, Asc);
    }

    /** handleSort: sort by the key; descending only when the table was
        already sorted ascending by that same key. */
    method HandleSort(key: string)
      modifies this
      ensures sortConfig.key == Some(key)
      ensures sortConfig.direction == Desc <==> old(sortConfig) == SortConfig(Some(key), Asc)
    {
      var direction := if sortConfig.key == Some(key) && sortConfig.direction == Asc then Desc else Asc;
      sortConfig := SortConfig(Some(key), direction);
    }
  }

  // ---------------------------------------------------------------------
  // useAdminForm

  /** The data and the per-field errors of a form built on useAdminForm. */
  class AdminForm {
    var data: Record
    var errors: map<string, Value>

    constructor (initialData: Record)
      ensures data == initialData && errors == map[]
    {
      data := initialData;
      errors := map[];
    }

    /** updateData: sets the field, and clears (to null) the field's error
        when it has one; other errors are untouched. */
    method UpdateData(key: string, value: Value)
      modifies this
      ensures data == old(data)[key := value]
      ensures Truthy(Get(old(errors), key)) ==> errors == old(errors)[key := Null]
      ensures !Truthy(Get(old(errors), key)) ==> errors == old(errors)
      ensures !Truthy(Get(errors, key))
    {
      data := data[key := value];
      if Truthy(Get(errors, key)) {
        errors := errors[key := Null];
      }
    }
  }
}
