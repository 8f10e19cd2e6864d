/** The tag picker: resolving the selected ids to tags, the suggestion list,
    and the add, remove and keyboard handlers. The picker does not hold the
    selection itself: it receives the selected ids and emits new lists
    through onChange, which the model returns as an optional result. */
module TagsInput {
  import opened Common
  import opened Strings
  import opened Js

  // ---------------------------------------------------------------------
  // Resolving the selection

  /** `` `${v}` `` for the values a tag id can be. An array's text (its
      elements joined by commas) is not modelled and reads as ''. */
  function TemplateString(v: Value): string
  {
    match v
    case Undefined => "undefined"
    case Null => "null"
    case Bool(b) => if b then "true" else "false"
    case Num(n) => IntToString(n)
    case Str(s) => s
    case Arr(_) => ""
    case Obj(_) => "[object Object]"
  }

  /** `availableTags.find(t => t.id === id)` */
  function FindById(available: seq<Record>, id: Value): (r: Option<Record>)
    ensures r.Some? ==> r.value in available && Get(r.value, "id") == id
    ensures r.None? ==> forall t :: t in available ==> Get(t, "id") != id
    ensures r.Some? ==> exists k :: 0 <= k < |available| && available[k] == r.value
                          && forall j :: 0 <= j < k ==> Get(available[j], "id") != id
  {
    if available == [] then None
    else if Get(available[0], "id") == id then Some(available[0])
    else FindById(available[1..], id)
  }

  /** The tag the picker shows for an entry of `tags`: an object with a
      truthy id is used as it is; anything else is an id looked up among the
      available tags, with a grey 'Tag <id>' placeholder when none has it.
      (A null entry would make the source throw.) */
  function ResolveTag(tag: Value, available: seq<Record>): (r: Value)
    requires tag != Null
    ensures r.Obj?
  {
    if tag.Obj? && Truthy(Member(tag, "id")) then tag
    else match FindById(available, tag)
      case Some(t) => Obj(t)
      case None => Obj(map["id" := tag, "name" := Str("Tag " + TemplateString(tag)), "color" := Str("#gray")])
  }

  predicate NoNull(tags: seq<Value>)
  {
    forall i :: 0 <= i < |tags| ==> tags[i] != Null
  }

  /** selectedTags */
  function SelectedTags(tags: seq<Value>, available: seq<Record>): (r: seq<Value>)
    requires NoNull(tags)
    ensures |r| == |tags|
  {
    seq(|tags|, i requires 0 <= i < |tags| => ResolveTag(tags[i], available))
  }

  /** An id that no available tag has resolves to the placeholder named
      'Tag <id>'; an id that one has resolves to the first such tag. */
  lemma ResolveTagSpec(tag: Value, available: seq<Record>)
    requires tag != Null && !tag.Obj?
    ensures (forall t :: t in available ==> Get(t, "id") != tag) ==>
              ResolveTag(tag, available) ==
                Obj(map["id" := tag, "name" := Str("Tag " + TemplateString(tag)), "color" := Str("#gray")])
    ensures (exists t :: t in available && Get(t, "id") == tag) ==>
              ResolveTag(tag, available).fields in available
              && Get(ResolveTag(tag, available).fields, "id") == tag
    ensures (exists t :: t in available && Get(t, "id") == tag) ==>
              exists k :: 0 <= k < |available| && available[k] == ResolveTag(tag, available).fields
                && forall j :: 0 <= j < k ==> Get(available[j], "id") != tag
    ensures Member(ResolveTag(tag, available), "id") == tag
  {
  }

  /** The placeholder's name spells out a numeric id. */
  lemma PlaceholderName(id: int, available: seq<Record>)
    requires forall t :: t in available ==> Get(t, "id") != Num(id)
    ensures Member(ResolveTag(Num(id), available), "name") == Str("Tag " + IntToString(id))
  {
  }

  /** `selectedTags.map(t => t.id)` */
  function Ids(selected: seq<Value>): (ids: seq<Value>)
    ensures |ids| == |selected|
  {
    seq(|selected|, i requires 0 <= i < |selected| => Member(selected[i], "id"))
  }

  // ---------------------------------------------------------------------
  // Suggestions

  /** Not selected, and the lower-cased name contains the lower-cased input
      (a name that is not text never matches). */
  predicate Suggestible(tag: Record, selectedIds: seq<Value>, input: string)
  {
    Get(tag, "id") !in selectedIds
    && Get(tag, "name").Str? && Contains(Lower(Get(tag, "name").s), Lower(input))
  }

  function SuggestibleFn(selectedIds: seq<Value>, input: string): Record -> bool
  {
    t => Suggestible(t, selectedIds, input)
  }

  /** The suggestion effect's list: nothing for a blank input, otherwise the
      suggestible available tags in their order. */
  function Suggestions(input: string, selected: seq<Value>, available: seq<Record>): seq<Record>
  {
    if Trim(input) == "" then [] else Filter(available, SuggestibleFn(Ids(selected), input))
  }

  /** A suggestion is never already selected; for a non-blank input the list
      is exactly the matching unselected available tags, in order; a blank
      input suggests nothing. The untrimmed input is what is searched for. */
  lemma SuggestionsSpec(input: string, selected: seq<Value>, available: seq<Record>)
    ensures forall t :: t in Suggestions(input, selected, available) ==>
              t in available && Member(Obj(t), "id") !in Ids(selected)
    ensures Trim(input) == "" ==> Suggestions(input, selected, available) == []
    ensures Trim(input) != "" ==>
              IsSubseq(Suggestions(input, selected, available), available)
              && forall t :: t in available ==>
                   (t in Suggestions(input, selected, available) <==> Suggestible(t, Ids(selected), input))
  {
    if Trim(input) != "" {
      FilterIsSubseq(available, SuggestibleFn(Ids(selected), input));
      FilterMembers(available, SuggestibleFn(Ids(selected), input));
    }
  }

  // ---------------------------------------------------------------------
  // Adding and removing

  /** addTag's test: a tag was given and no selected tag has its id. */
  predicate CanAdd(selected: seq<Value>, tag: Value)
  {
    Truthy(tag) && Member(tag, "id") !in Ids(selected)
  }

  /** The ids addTag emits, if it emits. */
  function AddedIds(selected: seq<Value>, tag: Value): Option<seq<Value>>
  {
    if CanAdd(selected, tag) then Some(Ids(selected) + [Member(tag, "id")]) else None
  }

  /** `tag.id !== id` */
  function NotId(id: Value): Value -> bool
  {
    t => Member(t, "id") != id
  }

  function NotEqual(id: Value): Value -> bool
  {
    x => x != id
  }

  /** The ids removeTag emits: the selected tags without the removed one's
      id, as ids. */
  function RemovedIds(selected: seq<Value>, tagToRemove: Value): seq<Value>
  {
    Ids(Filter(selected, NotId(Member(tagToRemove, "id"))))
  }

  /** Adding appends the new id at the end when it is not selected yet, and
      emits nothing otherwise; a selection without repeated ids stays so. */
  lemma AddedIdsSpec(selected: seq<Value>, tag: Value)
    ensures Truthy(tag) && Member(tag, "id") !in Ids(selected) ==>
              AddedIds(selected, tag) == Some(Ids(selected) + [Member(tag, "id")])
    ensures Member(tag, "id") in Ids(selected) || !Truthy(tag) ==> AddedIds(selected, tag).None?
    ensures Distinct(Ids(selected)) && AddedIds(selected, tag).Some? ==> Distinct(AddedIds(selected, tag).value)
  {
  }

  lemma IdsAppend(a: seq<Value>, b: seq<Value>)
    ensures Ids(a + b) == Ids(a) + Ids(b)
  {
  }

  /** Removing by filtering the tags and then taking the ids is the same as
      taking the ids and dropping every copy of the removed id. */
  lemma {:induction false} RemovedIdsSpec(selected: seq<Value>, id: Value)
    ensures Ids(Filter(selected, NotId(id))) == Filter(Ids(selected), NotEqual(id))
    decreases |selected|
  {
    if selected != [] {
      var head := selected[0];
      var kept := if NotId(id)(head) then [head] else [];
      var ids := Ids(selected);
      RemovedIdsSpec(selected[1..], id);
      IdsCons(selected);
      assert Filter(selected, NotId(id)) == kept + Filter(selected[1..], NotId(id));
      IdsAppend(kept, Filter(selected[1..], NotId(id)));
      assert Ids(kept) == (if NotEqual(id)(ids[0]) then [ids[0]] else []);
      assert Filter(ids, NotEqual(id)) == (if NotEqual(id)(ids[0]) then [ids[0]] else []) + Filter(ids[1..], NotEqual(id));
    }
  }

  lemma IdsCons(selected: seq<Value>)
    requires selected != []
    ensures Ids(selected)[0] == Member(selected[0], "id")
    ensures Ids(selected)[1..] == Ids(selected[1..])
  {
  }

  /** After a removal the removed id is gone, every other selected id stays,
      in order. */
  lemma RemoveSpec(selected: seq<Value>, tagToRemove: Value)
    ensures var id := Member(tagToRemove, "id");
            && id !in RemovedIds(selected, tagToRemove)
            && IsSubseq(RemovedIds(selected, tagToRemove), Ids(selected))
            && forall x :: x != id ==> (x in RemovedIds(selected, tagToRemove) <==> x in Ids(selected))
  {
    var id := Member(tagToRemove, "id");
    RemovedIdsSpec(selected, id);
    FilterIsSubseq(Ids(selected), NotEqual(id));
    FilterMembers(Ids(selected), NotEqual(id));
  }

  /** Adding a new tag and then removing it gives back the selected ids,
      when no id was selected twice. */
  lemma AddThenRemove(selected: seq<Value>, tag: Value)
    requires CanAdd(selected, tag)
    ensures var id := Member(tag, "id");
            Filter(AddedIds(selected, tag).value, NotEqual(id)) == Ids(selected)
  {
    var id := Member(tag, "id");
    FilterAppend(Ids(selected), [id], NotEqual(id));
    FilterMembers(Ids(selected), NotEqual(id));
    FilterKeepsAll(Ids(selected), NotEqual(id));
    assert Filter([id], NotEqual(id)) == [] by {
      assert [id][1..] == [];
    }
  }

  // ---------------------------------------------------------------------
  // The component's state

  /** The keys handleKeyDown tells apart. */
  datatype Key = Enter | Backspace | Escape | OtherKey

  class TagsInputState {
    var inputValue: string
    var showSuggestions: bool
    var filteredSuggestions: seq<Record>

    constructor ()
      ensures inputValue == "" && !showSuggestions && filteredSuggestions == []
    {
      inputValue := "";
      showSuggestions := false;
      filteredSuggestions := [];
    }

    /** The input's onChange. */
    method SetInput(text: string)
      modifies this
      ensures inputValue == text
      ensures showSuggestions == old(showSuggestions) && filteredSuggestions == old(filteredSuggestions)
    {
      inputValue := text;
    }

    /** The suggestion effect: recompute the list and show it when it is
      non-empty. */
    method SuggestionEffect(selected: seq<Value>, available: seq<Record>)
      modifies this
      ensures inputValue == old(inputValue)
      ensures filteredSuggestions == Suggestions(inputValue, selected, available)
      ensures showSuggestions <==> |filteredSuggestions| > 0
    {
      if Trim(inputValue) != "" {
        var filtered := Filter(available, SuggestibleFn(Ids(selected), inputValue));
        filteredSuggestions := filtered;
        showSuggestions := |filtered| > 0;
      } else {
        filteredSuggestions := [];
        showSuggestions := false;
      }
    }

    /** The input's onFocus: show the list again when there is one. */
    method Focus()
      modifies this
      ensures inputValue == old(inputValue) && filteredSuggestions == old(filteredSuggestions)
      ensures showSuggestions == (old(showSuggestions) || (Trim(inputValue) != "" && |filteredSuggestions| > 0))
    {
      if Trim(inputValue) != "" && |filteredSuggestions| > 0 {
        showSuggestions := true;
      }
    }

    /** addTag: emit the ids with the new one when it is not selected yet;
      always clear the input and hide the list. */
    method AddTag(selected: seq<Value>, tag: Value) returns (emitted: Option<seq<Value>>)
      modifies this
      ensures emitted == AddedIds(selected, tag)
      ensures inputValue == "" && !showSuggestions
      ensures filteredSuggestions == old(filteredSuggestions)
    {
      emitted := None;
      if Truthy(tag) && Member(tag, "id") !in Ids(selected) {
        emitted := Some(Ids(selected) + [Member(tag, "id")]);
      }
      inputValue := "";
      showSuggestions := false;
    }

    /** handleKeyDown: Enter adds the first suggestion, if any; Backspace in
      an empty input removes the last selected tag, if any; Escape clears the
      input and hides the list; other keys do nothing. */
    method HandleKeyDown(key: Key, selected: seq<Value>) returns (emitted: Option<seq<Value>>)
      modifies this
      ensures key == Enter && |old(filteredSuggestions)| > 0 ==>
                emitted == AddedIds(selected, Obj(old(filteredSuggestions)[0]))
                && inputValue == "" && !showSuggestions
      ensures key == Backspace && old(inputValue) == "" && |selected| > 0 ==>
                emitted == Some(RemovedIds(selected, selected[|selected| - 1]))
                && unchanged(this)
      ensures key == Escape ==>
                emitted.None? && inputValue == "" && !showSuggestions
                && filteredSuggestions == old(filteredSuggestions)
      ensures (key == Enter && |old(filteredSuggestions)| == 0)
              || (key == Backspace && (old(inputValue) != "" || |selected| == 0))
              || key == OtherKey ==>
                emitted.None? && unchanged(this)
    {
      emitted := None;
      if key == Enter {
        if |filteredSuggestions| > 0 {
          emitted := AddTag(selected, Obj(filteredSuggestions[0]));
        }
      } else if key == Backspace && inputValue == "" && |selected| > 0 {
        emitted := Some(RemovedIds(selected, selected[|selected| - 1]));
      } else if key == Escape {
        showSuggestions := false;
        inputValue := "";
      }
    }
  }

  /** Enter on a suggestion list never emits an id that was already selected. */
  lemma EnterNeverDuplicates(selected: seq<Value>, input: string, available: seq<Record>)
    requires Suggestions(input, selected, available) != []
    requires Distinct(Ids(selected))
    ensures var first := Obj(Suggestions(input, selected, available)[0]);
            AddedIds(selected, first).Some? && Distinct(AddedIds(selected, first).value)
  {
    var s := Suggestions(input, selected, available);
    SuggestionNotSelected(input, selected, available, s[0]);
    var first := Obj(s[0]);
    assert Truthy(first);
    AddedIdsSpec(selected, first);
  }

  /** One suggestion is not already selected. */
  lemma SuggestionNotSelected(input: string, selected: seq<Value>, available: seq<Record>, t: Record)
    requires t in Suggestions(input, selected, available)
    ensures Member(Obj(t), "id") !in Ids(selected)
  {
    SuggestionsSpec(input, selected, available);
  }
}
