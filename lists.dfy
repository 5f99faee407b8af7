/** The JavaScript array operations the controllers build on: `filter`
  * against one value, `includes` followed by filter-or-push, `findIndex`
  * and `splice(i, 1)`. */
module Lists {

  /** No value occurs twice. */
  predicate NoDuplicates<T(==)>(s: seq<T>)
  {
    forall i, j :: 0 <= i < j < |s| ==> s[i] != s[j]
  }

  /** `s.filter(y => y !== x)`: every occurrence of `x` goes, the rest keep their order. */
  function RemoveAll<T(==)>(s: seq<T>, x: T): (r: seq<T>)
    ensures forall y :: y in r ==> y in s && y != x
    ensures forall y :: y in s && y != x ==> y in r
    ensures multiset(r) == multiset(s)[x := 0]
  {
    if s == [] then []
    else
      assert s == [s[0]] + s[1..];
      (if s[0] == x then [] else [s[0]]) + RemoveAll(s[1..], x)
  }

  /** Removing a value that is absent changes nothing. */
  lemma {:induction false} RemoveAllAbsent<T>(s: seq<T>, x: T)
    requires x !in s
    ensures RemoveAll(s, x) == s
  {
    if s != [] {
      RemoveAllAbsent(s[1..], x);
    }
  }

  /** Removing distributes over concatenation. */
  lemma {:induction false} RemoveAllAppend<T>(s: seq<T>, t: seq<T>, x: T)
    ensures RemoveAll(s + t, x) == RemoveAll(s, x) + RemoveAll(t, x)
  {
    if s == [] {
      assert s + t == t;
    } else {
      assert (s + t)[1..] == s[1..] + t;
      RemoveAllAppend(s[1..], t, x);
    }
  }

  /** Removing keeps a duplicate-free list duplicate-free. */
  lemma {:induction false} RemoveAllNoDuplicates<T>(s: seq<T>, x: T)
    requires NoDuplicates(s)
    ensures NoDuplicates(RemoveAll(s, x))
  {
    if s != [] {
      var tail := s[1..];
      assert NoDuplicates(tail) by {
        forall i, j | 0 <= i < j < |tail| ensures tail[i] != tail[j] {
          assert tail[i] == s[i + 1] && tail[j] == s[j + 1];
        }
      }
      RemoveAllNoDuplicates(tail, x);
      var rest := RemoveAll(tail, x);
      if s[0] != x {
        assert s[0] !in tail by {
          forall j | 0 <= j < |tail| ensures tail[j] != s[0] {
            assert tail[j] == s[j + 1];
          }
        }
        assert s[0] !in rest;
        var r := [s[0]] + rest;
        forall i, j | 0 <= i < j < |r| ensures r[i] != r[j] {
          if i == 0 {
            assert r[j] == rest[j - 1];
            assert r[j] in rest;
          } else {
            assert r[i] == rest[i - 1] && r[j] == rest[j - 1];
          }
        }
      }
    }
  }

  /** Removing the only occurrence of `x` from `a + [x] + b`. */
  lemma RemoveAllSplit<T>(a: seq<T>, x: T, b: seq<T>)
    requires x !in a && x !in b
    ensures RemoveAll(a + [x] + b, x) == a + b
  {
    var ax := a + [x];
    assert RemoveAll([x], x) == [] by {
      assert [x][1..] == [];
    }
    RemoveAllAppend(a, [x], x);
    RemoveAllAbsent(a, x);
    assert RemoveAll(ax, x) == a;
    RemoveAllAppend(ax, b, x);
    RemoveAllAbsent(b, x);
  }

  /** The like toggle: `includes(x) ? filter(y => y !== x) : push(x)`. */
  function Toggle<T(==)>(s: seq<T>, x: T): (r: seq<T>)
    ensures x in r <==> x !in s
    ensures forall y :: y in r && y != x ==> y in s
    ensures forall y :: y in s && y != x ==> y in r
  {
    if x in s then RemoveAll(s, x) else s + [x]
  }

  /** Toggling twice from "absent" restores the list exactly. */
  lemma ToggleTwiceAbsent<T>(s: seq<T>, x: T)
    requires x !in s
    ensures Toggle(Toggle(s, x), x) == s
  {
    RemoveAllAppend(s, [x], x);
    RemoveAllAbsent(s, x);
    assert RemoveAll([x], x) == [];
  }

  /** Toggling twice from "present" restores membership; on a
    * duplicate-free list it also keeps the relative order of the others. */
  lemma ToggleTwicePresent<T>(s: seq<T>, x: T)
    requires x in s
    ensures forall y :: y in Toggle(Toggle(s, x), x) ==> y in s
    ensures forall y :: y in s ==> y in Toggle(Toggle(s, x), x)
    ensures Toggle(Toggle(s, x), x) == RemoveAll(s, x) + [x]
  {
  }

  /** Toggling keeps a list of user ids duplicate-free, and moves its length by exactly one. */
  lemma ToggleCount<T>(s: seq<T>, x: T)
    requires NoDuplicates(s)
    ensures NoDuplicates(Toggle(s, x))
    ensures |Toggle(s, x)| == if x in s then |s| - 1 else |s| + 1
  {
    if x in s {
      RemoveAllNoDuplicates(s, x);
      var i :| 0 <= i < |s| && s[i] == x;
      SplitAtOnlyOccurrence(s, i);
      RemoveAllSplit(s[..i], x, s[i+1..]);
    }
  }

  /** In a duplicate-free list the value at `i` occurs nowhere else. */
  lemma SplitAtOnlyOccurrence<T>(s: seq<T>, i: nat)
    requires NoDuplicates(s) && i < |s|
    ensures s == s[..i] + [s[i]] + s[i+1..]
    ensures s[i] !in s[..i] && s[i] !in s[i+1..]
  {
    assert s == s[..i] + [s[i]] + s[i+1..];
    forall j | 0 <= j < i ensures s[..i][j] != s[i] { }
    var rest := s[i+1..];
    forall j | 0 <= j < |rest| ensures rest[j] != s[i] {
      assert rest[j] == s[i + 1 + j];
    }
  }

  /** `s.filter(y => keys.has(y))`: the values in `keys`, in their order. */
  function Keep<T(==)>(s: seq<T>, keys: set<T>): (r: seq<T>)
    ensures forall y :: y in r ==> y in s && y in keys
    ensures forall y :: y in s && y in keys ==> y in r
    ensures |r| <= |s|
  {
    if s == [] then []
    else (if s[0] in keys then [s[0]] else []) + Keep(s[1..], keys)
  }

  /** Filtering a duplicate-free list leaves it duplicate-free. */
  lemma {:induction false} KeepNoDuplicates<T>(s: seq<T>, keys: set<T>)
    requires NoDuplicates(s)
    ensures NoDuplicates(Keep(s, keys))
  {
    if s != [] {
      assert NoDuplicates(s[1..]) by {
        forall i, j | 0 <= i < j < |s[1..]| ensures s[1..][i] != s[1..][j] {
          assert s[1..][i] == s[i + 1] && s[1..][j] == s[j + 1];
        }
      }
      KeepNoDuplicates(s[1..], keys);
      assert s[0] !in s[1..] by {
        forall k | 0 <= k < |s[1..]| ensures s[1..][k] != s[0] {
          assert s[1..][k] == s[k + 1];
        }
      }
    }
  }

  /** `findIndex(y => y === x)`: -1 when absent, otherwise the first position of `x`. */
  function IndexOf<T(==)>(s: seq<T>, x: T): (i: int)
    ensures -1 <= i < |s|
    ensures i == -1 <==> x !in s
    ensures 0 <= i ==> s[i] == x && x !in s[..i]
  {
    if s == [] then -1
    else if s[0] == x then 0
    else
      var j := IndexOf(s[1..], x);
      assert j >= 0 ==> s[1..][..j] == s[1..j+1];
      if j == -1 then -1 else j + 1
  }

  /** `splice(i, 1)`: the element at `i` goes, the others keep their order. */
  function RemoveAt<T>(s: seq<T>, i: nat): (r: seq<T>)
    requires i < |s|
    ensures |r| == |s| - 1
    ensures forall j :: 0 <= j < i ==> r[j] == s[j]
    ensures forall j :: i <= j < |r| ==> r[j] == s[j + 1]
    ensures multiset(r) == multiset(s) - multiset{s[i]}
  {
    assert s == s[..i] + [s[i]] + s[i+1..];
    s[..i] + s[i+1..]
  }

  /** Splicing out the first occurrence of a value in a duplicate-free list removes it entirely. */
  lemma RemoveFirstOccurrence<T>(s: seq<T>, x: T)
    requires NoDuplicates(s) && x in s
    ensures RemoveAt(s, IndexOf(s, x)) == RemoveAll(s, x)
    ensures x !in RemoveAt(s, IndexOf(s, x))
  {
    var i := IndexOf(s, x);
    SplitAtOnlyOccurrence(s, i);
    RemoveAllSplit(s[..i], x, s[i+1..]);
  }
}
