/** The array operations the screens use on their local lists: `find`, `filter`, `map`,
    and removal by id, which every manager does with `filter(x => x.id !== id)`. */
module Seqs {
  import opened Common

  /** `s.findIndex(p)`, with "not found" (-1) read as `|s|`. */
  function FirstIndex<T>(s: seq<T>, p: T -> bool): (i: nat)
    ensures i <= |s|
    ensures i < |s| ==> p(s[i])
    ensures forall j :: 0 <= j < i ==> !p(s[j])
  {
    if |s| == 0 then 0
    else if p(s[0]) then 0
    else 1 + FirstIndex(s[1..], p)
  }

  /** `s.find(p)`: the first element, in list order, that satisfies `p`. */
  function Find<T>(s: seq<T>, p: T -> bool): (r: Option<T>)
    ensures r.None? <==> forall j :: 0 <= j < |s| ==> !p(s[j])
    ensures r.Some? ==> exists i :: 0 <= i < |s| && s[i] == r.value && p(s[i]) &&
                                    forall j :: 0 <= j < i ==> !p(s[j])
  {
    var i := FirstIndex(s, p);
    if i < |s| then Some(s[i]) else None
  }

  /** `s.filter(p)`. */
  function Filter<T(!new)>(s: seq<T>, p: T -> bool): (r: seq<T>)
    ensures |r| <= |s|
    ensures forall x :: x in r <==> x in s && p(x)
  {
    if |s| == 0 then []
    else (if p(s[0]) then [s[0]] else []) + Filter(s[1..], p)
  }

  /** `filter` keeps every passing element as often as it occurs and drops every other one. */
  lemma {:induction false} FilterCounts<T(!new)>(s: seq<T>, p: T -> bool, x: T)
    ensures multiset(Filter(s, p))[x] == if p(x) then multiset(s)[x] else 0
  {
    if s != [] {
      assert s == [s[0]] + s[1..];
      FilterCounts(s[1..], p, x);
    }
  }

  /** Filtering a concatenation filters each part: the kept elements stay in their original order. */
  lemma {:induction false} FilterAppend<T(!new)>(a: seq<T>, b: seq<T>, p: T -> bool)
    ensures Filter(a + b, p) == Filter(a, p) + Filter(b, p)
  {
    if a != [] {
      assert (a + b)[1..] == a[1..] + b;
      FilterAppend(a[1..], b, p);
    } else {
      assert a + b == b;
    }
  }

  lemma TakeSnoc<T>(s: seq<T>, i: nat)
    requires i < |s|
    ensures s[..i + 1] == s[..i] + [s[i]]
  {
  }

  /** A filter that rejects nothing returns its input. */
  lemma {:induction false} FilterKeepsAll<T(!new)>(s: seq<T>, p: T -> bool)
    requires forall j :: 0 <= j < |s| ==> p(s[j])
    ensures Filter(s, p) == s
  {
    if s != [] {
      FilterKeepsAll(s[1..], p);
    }
  }

  /** `s.filter(keep).map(f)`: the records a snapshot query returns, projected to what the screen keeps. */
  function Select<A(!new), B(!new)>(s: seq<A>, keep: A -> bool, f: A -> B): (r: seq<B>)
    ensures |r| <= |s|
    ensures |r| == |Filter(s, keep)| && forall i :: 0 <= i < |r| ==> r[i] == f(Filter(s, keep)[i])
    ensures forall y :: y in r <==> exists x :: x in s && keep(x) && f(x) == y
  {
    if |s| == 0 then []
    else
      var rest := Select(s[1..], keep, f);
      assert forall x :: x in s[1..] ==> x in s;
      assert forall x :: x in s ==> x == s[0] || x in s[1..];
      (if keep(s[0]) then [f(s[0])] else []) + rest
  }

  /** The predicate `x => key(x) !== id`. */
  function KeyDiffers<T>(key: T -> string, id: string): T -> bool
  {
    (x: T) => key(x) != id
  }

  /** `s.filter(x => key(x) !== id)`: the list after deleting the record with that id. */
  function RemoveByKey<T(!new)>(s: seq<T>, key: T -> string, id: string): (r: seq<T>)
    ensures |r| <= |s|
    ensures forall x :: x in r <==> x in s && key(x) != id
  {
    Filter(s, KeyDiffers(key, id))
  }

  /** No two records of the list share an id (what the backend's document ids give a loaded list). */
  predicate UniqueKeys<T>(s: seq<T>, key: T -> string)
  {
    forall i, j :: 0 <= i < j < |s| ==> key(s[i]) != key(s[j])
  }

  predicate HasKey<T>(s: seq<T>, key: T -> string, id: string)
  {
    exists i :: 0 <= i < |s| && key(s[i]) == id
  }

  /** Deleting an id no record has leaves the list as it was. */
  lemma RemoveAbsentKey<T(!new)>(s: seq<T>, key: T -> string, id: string)
    requires !HasKey(s, key, id)
    ensures RemoveByKey(s, key, id) == s
  {
    FilterKeepsAll(s, KeyDiffers(key, id));
  }

  /** Filtering out one rejected element between two runs of kept ones leaves the two runs. */
  lemma {:induction false} FilterDropOne<T(!new)>(a: seq<T>, x: T, b: seq<T>, p: T -> bool)
    requires forall j :: 0 <= j < |a| ==> p(a[j])
    requires forall j :: 0 <= j < |b| ==> p(b[j])
    requires !p(x)
    ensures Filter(a + ([x] + b), p) == a + b
  {
    FilterAppend(a, [x] + b, p);
    FilterAppend([x], b, p);
    FilterKeepsAll(a, p);
    FilterKeepsAll(b, p);
    assert Filter([x], p) == [] by {
      assert [x][1..] == [];
    }
    assert Filter([x] + b, p) == b;
  }

  /** With unique ids, deleting the id of the record at index `k` removes exactly that record
      and keeps every other one in its original order. */
  lemma RemoveUniqueKey<T(!new)>(s: seq<T>, key: T -> string, k: nat)
    requires UniqueKeys(s, key)
    requires k < |s|
    ensures RemoveByKey(s, key, key(s[k])) == s[..k] + s[k + 1..]
  {
    var id := key(s[k]);
    var p := KeyDiffers(key, id);
    var a, b := s[..k], s[k + 1..];
    forall j | 0 <= j < |a| ensures p(a[j]) {
      assert a[j] == s[j];
      assert key(s[j]) != id;
    }
    forall j | 0 <= j < |b| ensures p(b[j]) {
      assert b[j] == s[k + 1 + j];
      assert key(s[k + 1 + j]) != id;
    }
    assert s == a + ([s[k]] + b);
    FilterDropOne(a, s[k], b, p);
  }

  /** Filtering keeps ids unique. */
  lemma {:induction false} FilterKeepsUnique<T(!new)>(s: seq<T>, key: T -> string, p: T -> bool)
    requires UniqueKeys(s, key)
    ensures UniqueKeys(Filter(s, p), key)
  {
    if s != [] {
      FilterKeepsUnique(s[1..], key, p);
      var rest := Filter(s[1..], p);
      forall x | x in rest
        ensures key(x) != key(s[0])
      {
        var j :| 0 <= j < |s[1..]| && s[1..][j] == x;
        assert s[j + 1] == x;
      }
    }
  }

  /** Removing by id keeps ids unique. */
  lemma RemoveKeepsUnique<T(!new)>(s: seq<T>, key: T -> string, id: string)
    requires UniqueKeys(s, key)
    ensures UniqueKeys(RemoveByKey(s, key, id), key)
  {
    FilterKeepsUnique(s, key, KeyDiffers(key, id));
  }

  /** Appending a record whose id is fresh keeps ids unique. */
  lemma AppendFreshKeepsUnique<T>(s: seq<T>, key: T -> string, x: T)
    requires UniqueKeys(s, key)
    requires !HasKey(s, key, key(x))
    ensures UniqueKeys(s + [x], key)
  {
  }
}
