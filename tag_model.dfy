/** The Tag model: the slug its creating and updating hooks fill in, and its
    active and popular query scopes. Str::slug is a parameter (`slugOf`). */
module TagModel {
  import opened Common
  import opened Sorting

  /** A row of the tags table. */
  datatype TagRow = TagRow(
    id: nat, name: string, slug: Option<string>, color: string,
    description: string, usageCount: int, isActive: bool)

  /** PHP's empty() on a slug: null, '' and '0' are all empty. */
  predicate PhpEmpty(slug: Option<string>)
  {
    slug.None? || slug.value == "" || slug.value == "0"
  }

  /** The slug after the creating hook. */
  function CreatingSlug(name: string, slug: Option<string>, slugOf: string -> string): Option<string>
  {
    if PhpEmpty(slug) then Some(slugOf(name)) else slug
  }

  /** The slug after the updating hook: re-derived only when the name was
      changed and the slug is empty. */
  function UpdatingSlug(name: string, nameDirty: bool, slug: Option<string>, slugOf: string -> string): Option<string>
  {
    if nameDirty && PhpEmpty(slug) then Some(slugOf(name)) else slug
  }

  /** A supplied slug survives creation unless PHP counts it as empty (so a
      slug of '0' is replaced); an empty one becomes Str::slug(name). */
  lemma CreatingSlugSpec(name: string, slug: Option<string>, slugOf: string -> string)
    ensures slug.Some? && slug.value != "" && slug.value != "0" ==> CreatingSlug(name, slug, slugOf) == slug
    ensures slug == Some("0") ==> CreatingSlug(name, slug, slugOf) == Some(slugOf(name))
    ensures PhpEmpty(slug) ==> CreatingSlug(name, slug, slugOf) == Some(slugOf(name))
    ensures !PhpEmpty(Some(slugOf(name))) || !PhpEmpty(slug) ==> !PhpEmpty(CreatingSlug(name, slug, slugOf))
  {
  }

  /** Renaming a tag that has a slug keeps the slug; an unchanged name never
      touches it. */
  lemma UpdatingSlugSpec(name: string, nameDirty: bool, slug: Option<string>, slugOf: string -> string)
    ensures !PhpEmpty(slug) ==> UpdatingSlug(name, nameDirty, slug, slugOf) == slug
    ensures !nameDirty ==> UpdatingSlug(name, nameDirty, slug, slugOf) == slug
    ensures nameDirty && PhpEmpty(slug) ==> UpdatingSlug(name, nameDirty, slug, slugOf) == Some(slugOf(name))
  {
  }

  /** A Tag model instance: its name and slug, and the name it was loaded
      with (none for a model not yet saved). */
  class Tag {
    var name: string
    var slug: Option<string>
    const originalName: Option<string>

    /** `new Tag([...])` */
    constructor (name: string, slug: Option<string>)
      ensures this.name == name && this.slug == slug && originalName == None
    {
      this.name := name;
      this.slug := slug;
      originalName := None;
    }

    /** A tag read from the table. */
    constructor Loaded(row: TagRow)
      ensures name == row.name && slug == row.slug && originalName == Some(row.name)
    {
      name := row.name;
      slug := row.slug;
      originalName := Some(row.name);
    }

    /** `isDirty('name')` */
    predicate NameDirty()
      reads this
    {
      originalName != Some(name)
    }

    method SetName(newName: string)
      modifies this
      ensures name == newName && slug == old(slug)
    {
      name := newName;
    }

    /** The creating hook. */
    method Creating(slugOf: string -> string)
      modifies this
      ensures name == old(name)
      ensures slug == CreatingSlug(name, old(slug), slugOf)
    {
      if PhpEmpty(slug) {
        slug := Some(slugOf(name));
      }
    }

    /** The updating hook. */
    method Updating(slugOf: string -> string)
      modifies this
      ensures name == old(name)
      ensures slug == UpdatingSlug(name, NameDirty(), old(slug), slugOf)
    {
      if NameDirty() && PhpEmpty(slug) {
        slug := Some(slugOf(name));
      }
    }
  }

  /** Renaming a stored tag that has a slug and saving it keeps the slug. */
  method RenameKeepsSlug(tag: Tag, newName: string, slugOf: string -> string)
    requires !PhpEmpty(tag.slug)
    modifies tag
    ensures tag.name == newName && tag.slug == old(tag.slug)
  {
    tag.SetName(newName);
    tag.Updating(slugOf);
  }

  // ---------------------------------------------------------------------
  // Scopes

  function IsActiveFn(): TagRow -> bool
  {
    (t: TagRow) => t.isActive
  }

  /** scopeActive: `where('is_active', true)` */
  function ScopeActive(tags: seq<TagRow>): seq<TagRow>
  {
    Filter(tags, IsActiveFn())
  }

  /** The active scope keeps exactly the active tags, in table order. */
  lemma ScopeActiveSpec(tags: seq<TagRow>)
    ensures IsSubseq(ScopeActive(tags), tags)
    ensures forall t :: t in ScopeActive(tags) <==> t in tags && t.isActive
  {
    FilterIsSubseq(tags, IsActiveFn());
    FilterMembers(tags, IsActiveFn());
  }

  const DefaultPopularLimit: int := 10

  /** `orderBy('usage_count', 'desc')` */
  function MoreUsed(): (TagRow, TagRow) -> bool
  {
    (a: TagRow, b: TagRow) => a.usageCount > b.usageCount
  }

  /** scopePopular: order by usage, most used first, then `limit(n)`; a
      negative limit is ignored by the query builder. Ties keep table order
      here; the database may return them in another. */
  function ScopePopular(tags: seq<TagRow>, limit: int): seq<TagRow>
  {
    var sorted := Sort(tags, MoreUsed());
    if 0 <= limit < |sorted| then sorted[..limit] else sorted
  }

  lemma MoreUsedStrictOrder()
    ensures StrictOrder(MoreUsed())
  {
  }

  /** The popular scope gives at most `limit` tags (all of them for a
      negative limit), each one a tag of the table, ordered by usage from
      most to least used, and none left out is more used than one given. */
  lemma ScopePopularSpec(tags: seq<TagRow>, limit: int)
    ensures var r := ScopePopular(tags, limit);
            && (limit >= 0 ==> |r| == if limit < |tags| then limit else |tags|)
            && (limit < 0 ==> |r| == |tags|)
            && multiset(r) <= multiset(tags)
            && (forall i, j :: 0 <= i < j < |r| ==> r[i].usageCount >= r[j].usageCount)
            && (forall t :: t in multiset(tags) - multiset(r) ==>
                  forall i :: 0 <= i < |r| ==> r[i].usageCount >= t.usageCount)
  {
    var sorted := Sort(tags, MoreUsed());
    SortPermutes(tags, MoreUsed());
    MoreUsedStrictOrder();
    SortSorted(tags, MoreUsed());
    assert |sorted| == |tags| by {
      assert |multiset(sorted)| == |multiset(tags)|;
    }
    if 0 <= limit < |sorted| {
      var r := sorted[..limit];
      assert sorted == r + sorted[limit..];
      assert multiset(sorted) == multiset(r) + multiset(sorted[limit..]);
      forall t | t in multiset(tags) - multiset(r)
        ensures forall i :: 0 <= i < |r| ==> r[i].usageCount >= t.usageCount
      {
        assert t in multiset(sorted[limit..]);
        var k :| 0 <= k < |sorted[limit..]| && sorted[limit..][k] == t;
        assert sorted[limit + k] == t;
      }
    }
  }

  /** With the default limit, at most ten tags. */
  lemma DefaultPopularAtMostTen(tags: seq<TagRow>)
    ensures |ScopePopular(tags, DefaultPopularLimit)| <= 10
  {
    ScopePopularSpec(tags, DefaultPopularLimit);
  }
}
