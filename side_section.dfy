/** The community sidebar's tag click: the selected tags live in the page's
  * `tags` search parameter as a comma separated list; clicking a tag
  * selects or deselects it and sends the list back to page 1. */
module SideSection {
  import opened Common
  import Strings
  import Lists

  const TAGS_PARAM: string := "tags"
  const PAGE_PARAM: string := "page"
  const FIRST_PAGE: string := "1"

  /** `prev.get('tags')?.split(',') || []`: a split array is never empty, so
    * only a missing parameter gives `[]`; an empty one gives `[""]`. */
  function CurrentTags(param: Option<string>): (r: seq<string>)
    ensures param.None? ==> r == []
    ensures param.Some? ==> |r| >= 1 && Strings.Join(r, ",") == param.value
  {
    if param.None? then []
    else
      Strings.JoinSplit(param.value, ',');
      Strings.Split(param.value, ',')
  }

  /** The list the click produces: a present tag leaves with all its
    * occurrences, the others keeping their order; an absent one joins at the end. */
  function NewTags(current: seq<string>, tag: string): (r: seq<string>)
    ensures tag in current ==> r == Lists.RemoveAll(current, tag)
    ensures tag !in current ==> r == current + [tag]
    ensures tag in r <==> tag !in current
  {
    Lists.Toggle(current, tag)
  }

  /** The `tags` parameter after clicking `tag`, as written. */
  function TagsAfterClick(param: Option<string>, tag: string): string
  {
    Strings.Join(NewTags(CurrentTags(param), tag), ",")
  }

  /** The page's search parameters, which the click updates in place. */
  class SearchParams {
    var entries: map<string, string>

    constructor (entries: map<string, string>)
      ensures this.entries == entries
    {
      this.entries := entries;
    }

    /** `URLSearchParams.set`. */
    method Set(key: string, value: string)
      modifies this
      ensures entries == old(entries)[key := value]
    {
      entries := entries[key := value];
    }

    /** `onTagClick(tag)`: the `tags` parameter becomes the comma-join of the
      * new list and `page` is reset to `1`; every other parameter stays. */
    method OnTagClick(tag: string)
      modifies this
      ensures var before := if TAGS_PARAM in old(entries) then Some(old(entries)[TAGS_PARAM]) else None;
        entries == old(entries)[TAGS_PARAM := TagsAfterClick(before, tag)][PAGE_PARAM := FIRST_PAGE]
    {
      var current := CurrentTags(if TAGS_PARAM in entries then Some(entries[TAGS_PARAM]) else None);
      var next := NewTags(current, tag);
      Set(TAGS_PARAM, Strings.Join(next, ","));
      Set(PAGE_PARAM, FIRST_PAGE);
    }
  }

  /** Deselecting the only selected tag leaves an empty (not a missing)
    * parameter; the next click then reads it as one blank tag and writes a
    * list with a leading comma, which splits back into a blank tag and the
    * clicked one. */
  lemma BlankTagAfterLastDeselected()
    ensures TagsAfterClick(Some("a"), "a") == ""
    ensures TagsAfterClick(Some(""), "b") == ",b"
    ensures CurrentTags(Some(",b")) == ["", "b"]
  {
    assert TagsAfterClick(Some("a"), "a") == "" by {
      assert Lists.IndexOf("a", ',') == -1;
      assert CurrentTags(Some("a")) == ["a"];
      assert Lists.RemoveAll(["a"], "a") == [] by {
        assert ["a"][1..] == [];
      }
    }
    assert TagsAfterClick(Some(""), "b") == ",b" by {
      assert Lists.IndexOf("", ',') == -1;
      assert CurrentTags(Some("")) == [""];
      assert "b" !in [""];
      assert NewTags([""], "b") == ["", "b"];
    }
    assert CurrentTags(Some(",b")) == ["", "b"] by {
      assert Lists.IndexOf(",b", ',') == 0;
      assert ",b"[1..] == "b";
      assert Lists.IndexOf("b", ',') == -1;
    }
  }

  /** The intended reading of the parameter: missing or empty means no tags. */
  function IntendedTags(param: Option<string>): (r: seq<string>)
    ensures param.None? || param == Some("") ==> r == []
    ensures param.Some? && param.value != "" ==> r == CurrentTags(param)
  {
    if param.None? || param.value == "" then [] else Strings.Split(param.value, ',')
  }

  /** The `tags` parameter after a click under the intended reading. */
  function IntendedTagsAfterClick(param: Option<string>, tag: string): string
  {
    Strings.Join(NewTags(IntendedTags(param), tag), ",")
  }

  /** Tags that can be listed in the parameter: non-empty and comma free. */
  predicate Listable(tags: seq<string>)
  {
    forall k :: 0 <= k < |tags| ==> tags[k] != "" && ',' !in tags[k]
  }

  /** Under the intended reading the parameter round-trips every listable
    * list, the empty one included, so each click acts on the list the
    * previous click wrote. */
  lemma {:induction false} IntendedRoundTrip(tags: seq<string>)
    requires Listable(tags)
    ensures IntendedTags(Some(Strings.Join(tags, ","))) == tags
  {
    if tags != [] {
      Strings.SplitJoin(tags, ',');
      assert Strings.Join(tags, ",") != "" by {
        JoinNonEmpty(tags);
      }
    }
  }

  /** A join of a list whose first entry is non-empty is non-empty. */
  lemma JoinNonEmpty(tags: seq<string>)
    requires |tags| >= 1 && tags[0] != ""
    ensures |Strings.Join(tags, ",")| >= |tags[0]|
  {
  }

  /** A click keeps a listable list listable when the clicked tag is. */
  lemma ClickKeepsListable(tags: seq<string>, tag: string)
    requires Listable(tags) && tag != "" && ',' !in tag
    ensures Listable(NewTags(tags, tag))
  {
    var r := NewTags(tags, tag);
    forall k | 0 <= k < |r| ensures r[k] != "" && ',' !in r[k] {
      assert r[k] in r;
      if r[k] != tag {
        var j :| 0 <= j < |tags| && tags[j] == r[k];
      }
    }
  }

  /** Under the intended reading a click reads back exactly the list it was
    * given and writes the toggled list. */
  lemma IntendedClick(tags: seq<string>, tag: string)
    requires Listable(tags) && tag != "" && ',' !in tag
    ensures IntendedTagsAfterClick(Some(Strings.Join(tags, ",")), tag) == Strings.Join(NewTags(tags, tag), ",")
    ensures IntendedTags(Some(IntendedTagsAfterClick(Some(Strings.Join(tags, ",")), tag))) == NewTags(tags, tag)
  {
    IntendedRoundTrip(tags);
    ClickKeepsListable(tags, tag);
    IntendedRoundTrip(NewTags(tags, tag));
  }
}
