/** `useFilter`: the problem list's filter state (a status and two sets of
  * selected tags and categories) and the setters that update it. Sets are
  * values here, so every update builds a new set and no earlier set is
  * touched. */
module UseFilter {

  /** `PROBLEM_STATUSES`. */
  datatype Status = All | Solved | Unsolved

  /** The category that stands for "every category". */
  const ALL_CATEGORIES: string := "전체"

  /** The set after `has(x) ? delete(x) : add(x)` on a copy. */
  function Flip(s: set<string>, x: string): (r: set<string>)
    ensures x in r <==> x !in s
    ensures forall y :: y != x ==> (y in r <==> y in s)
  {
    if x in s then s - {x} else s + {x}
  }

  /** Flipping the same value twice gives the set back. */
  lemma FlipTwice(s: set<string>, x: string)
    ensures Flip(Flip(s, x), x) == s
  {
  }

  /** Flipping two different values commutes. */
  lemma FlipCommutes(s: set<string>, x: string, y: string)
    ensures Flip(Flip(s, x), y) == Flip(Flip(s, y), x)
  {
  }

  /** The selection `setSingleCategory(category)` leaves. */
  function SingleCategory(category: string): (r: set<string>)
    ensures category == ALL_CATEGORIES ==> r == {}
    ensures category != ALL_CATEGORIES ==> r == {category}
  {
    if category == ALL_CATEGORIES then {} else {category}
  }

  class Filter {
    var status: Status
    var tags: set<string>
    var categories: set<string>

    /** Status `all`, nothing selected. */
    constructor ()
      ensures status == All && tags == {} && categories == {}
    {
      status, tags, categories := All, {}, {};
    }

    method SetStatus(s: Status)
      modifies this
      ensures status == s && tags == old(tags) && categories == old(categories)
    {
      status := s;
    }

    /** `toggleTag`: the tag flips, every other tag and the rest of the state stay. */
    method ToggleTag(tag: string)
      modifies this
      ensures tags == Flip(old(tags), tag)
      ensures status == old(status) && categories == old(categories)
    {
      var copy := tags;
      if tag in copy {
        copy := copy - {tag};
      } else {
        copy := copy + {tag};
      }
      tags := copy;
    }

    /** `toggleCategory`: the category flips, everything else stays. */
    method ToggleCategory(category: string)
      modifies this
      ensures categories == Flip(old(categories), category)
      ensures status == old(status) && tags == old(tags)
    {
      var copy := categories;
      if category in copy {
        copy := copy - {category};
      } else {
        copy := copy + {category};
      }
      categories := copy;
    }

    /** `setSingleCategory`: exactly one category, or none for "all". */
    method SetSingleCategory(category: string)
      modifies this
      ensures categories == SingleCategory(category)
      ensures status == old(status) && tags == old(tags)
    {
      if category == ALL_CATEGORIES {
        categories := {};
      } else {
        categories := {category};
      }
    }
  }

  /** Toggling a tag twice on a filter restores its state. */
  method ToggleTagTwice(f: Filter, tag: string)
    modifies f
    ensures f.tags == old(f.tags) && f.categories == old(f.categories) && f.status == old(f.status)
  {
    f.ToggleTag(tag);
    f.ToggleTag(tag);
    FlipTwice(old(f.tags), tag);
  }
}
