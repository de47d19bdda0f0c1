/** The array operations the components use to replace a list: `filter`
    (removal by id, removal by position, search), `map` with a conditional
    replacement (update by id) and spread-append (`[...prev, x]`, written
    `xs + [x]` where it is used). */
module Collections {

  /** `xs.filter(keep)`: the elements that satisfy `keep`, in their order. */
  function Filter<T>(xs: seq<T>, keep: T -> bool): (r: seq<T>)
    ensures |r| <= |xs|
  {
    if xs == [] then []
    else (if keep(xs[0]) then [xs[0]] else []) + Filter(xs[1..], keep)
  }

  /** `r` is `xs` with some elements deleted and the rest in their order. */
  ghost predicate IsSubsequence<T>(r: seq<T>, xs: seq<T>)
  {
    if xs == [] then r == []
    else IsSubsequence(r, xs[1..]) || (r != [] && r[0] == xs[0] && IsSubsequence(r[1..], xs[1..]))
  }

  /** The filter keeps the order of the kept elements and keeps every copy
      of an element that satisfies `keep` and no copy of one that does not:
      together these determine its result. */
  lemma {:induction false} FilterSpec<T>(xs: seq<T>, keep: T -> bool)
    ensures IsSubsequence(Filter(xs, keep), xs)
    ensures forall x :: multiset(Filter(xs, keep))[x] == if keep(x) then multiset(xs)[x] else 0
  {
    if xs != [] {
      FilterSpec(xs[1..], keep);
      var r := Filter(xs, keep);
      var rest := Filter(xs[1..], keep);
      assert xs == [xs[0]] + xs[1..];
      assert multiset(xs) == multiset{xs[0]} + multiset(xs[1..]);
      if keep(xs[0]) {
        assert r == [xs[0]] + rest && r[1..] == rest;
        assert multiset(r) == multiset{xs[0]} + multiset(rest);
      } else {
        assert r == rest;
      }
    }
  }

  /** Membership form of FilterSpec. */
  lemma FilterMembers<T>(xs: seq<T>, keep: T -> bool)
    ensures forall x :: x in Filter(xs, keep) ==> x in xs && keep(x)
    ensures forall x :: x in xs && keep(x) ==> x in Filter(xs, keep)
  {
    FilterSpec(xs, keep);
    forall x ensures x in Filter(xs, keep) <==> x in xs && keep(x) {
      assert x in Filter(xs, keep) <==> multiset(Filter(xs, keep))[x] > 0;
      assert x in xs <==> multiset(xs)[x] > 0;
    }
  }

  /** Filtering a concatenation filters each part. */
  lemma {:induction false} FilterAppend<T>(xs: seq<T>, ys: seq<T>, keep: T -> bool)
    ensures Filter(xs + ys, keep) == Filter(xs, keep) + Filter(ys, keep)
  {
    if xs == [] {
      assert xs + ys == ys;
    } else {
      var head := if keep(xs[0]) then [xs[0]] else [];
      assert (xs + ys)[0] == xs[0] && (xs + ys)[1..] == xs[1..] + ys;
      assert Filter(xs + ys, keep) == head + Filter(xs[1..] + ys, keep);
      FilterAppend(xs[1..], ys, keep);
      assert Filter(xs, keep) == head + Filter(xs[1..], keep);
    }
  }

  /** A filter that keeps every element returns the list as it was. */
  lemma {:induction false} FilterKeepsAll<T>(xs: seq<T>, keep: T -> bool)
    requires forall x :: x in xs ==> keep(x)
    ensures Filter(xs, keep) == xs
  {
    if xs != [] {
      assert forall x :: x in xs[1..] ==> x in xs;
      FilterKeepsAll(xs[1..], keep);
    }
  }

  /** Two predicates that agree on the elements of `xs` filter it alike. */
  lemma {:induction false} FilterAgree<T>(xs: seq<T>, f: T -> bool, g: T -> bool)
    requires forall x :: x in xs ==> f(x) == g(x)
    ensures Filter(xs, f) == Filter(xs, g)
  {
    if xs != [] {
      assert forall x :: x in xs[1..] ==> x in xs;
      FilterAgree(xs[1..], f, g);
    }
  }

  /** Filtering twice with the same predicate equals filtering once. */
  lemma FilterTwice<T>(xs: seq<T>, keep: T -> bool)
    ensures Filter(Filter(xs, keep), keep) == Filter(xs, keep)
  {
    FilterMembers(xs, keep);
    FilterKeepsAll(Filter(xs, keep), keep);
  }

  /** The predicate of `xs.filter(x => key(x) !== id)`. */
  function KeyIsNot<T>(key: T -> string, id: string): T -> bool
  {
    x => key(x) != id
  }

  /** `xs.filter(x => key(x) !== id)`: deletion by id. */
  function WithoutId<T>(xs: seq<T>, key: T -> string, id: string): seq<T>
  {
    Filter(xs, KeyIsNot(key, id))
  }

  /** Deletion removes every element carrying the id, keeps every copy of
      every other element, and keeps the order of what remains. */
  lemma WithoutIdSpec<T>(xs: seq<T>, key: T -> string, id: string)
    ensures IsSubsequence(WithoutId(xs, key, id), xs)
    ensures forall x :: multiset(WithoutId(xs, key, id))[x] == if key(x) == id then 0 else multiset(xs)[x]
    ensures forall x :: x in WithoutId(xs, key, id) <==> x in xs && key(x) != id
  {
    FilterSpec(xs, KeyIsNot(key, id));
    FilterMembers(xs, KeyIsNot(key, id));
  }

  /** Deleting the same id twice equals deleting it once. */
  lemma WithoutIdTwice<T>(xs: seq<T>, key: T -> string, id: string)
    ensures WithoutId(WithoutId(xs, key, id), key, id) == WithoutId(xs, key, id)
  {
    FilterTwice(xs, KeyIsNot(key, id));
  }

  /** Deleting an id that no element carries changes nothing. */
  lemma WithoutAbsentId<T>(xs: seq<T>, key: T -> string, id: string)
    requires forall x :: x in xs ==> key(x) != id
    ensures WithoutId(xs, key, id) == xs
  {
    FilterKeepsAll(xs, KeyIsNot(key, id));
  }

  /** Appending an element whose id is fresh and then deleting that id
      restores the list. */
  lemma AppendThenRemove<T>(xs: seq<T>, x: T, key: T -> string)
    requires forall y :: y in xs ==> key(y) != key(x)
    ensures WithoutId(xs + [x], key, key(x)) == xs
  {
    var keep := KeyIsNot(key, key(x));
    FilterAppend(xs, [x], keep);
    FilterKeepsAll(xs, keep);
    assert Filter([x], keep) == [];
  }

  /** `xs.map(x => key(x) === id ? f(x) : x)`: every element carrying the id
      is replaced by its image under `f`; the others stay where they are. */
  function UpdateWhere<T>(xs: seq<T>, key: T -> string, id: string, f: T -> T): (r: seq<T>)
    ensures |r| == |xs|
    ensures forall i :: 0 <= i < |xs| ==> r[i] == if key(xs[i]) == id then f(xs[i]) else xs[i]
  {
    if xs == [] then []
    else [if key(xs[0]) == id then f(xs[0]) else xs[0]] + UpdateWhere(xs[1..], key, id, f)
  }

  /** Updating an id that no element carries changes nothing. */
  lemma UpdateAbsentId<T>(xs: seq<T>, key: T -> string, id: string, f: T -> T)
    requires forall x :: x in xs ==> key(x) != id
    ensures UpdateWhere(xs, key, id, f) == xs
  {
    var r := UpdateWhere(xs, key, id, f);
    forall i | 0 <= i < |xs| ensures r[i] == xs[i] {
      assert xs[i] in xs;
    }
  }

  /** Updating twice with an idempotent replacement equals updating once,
      even when the replacement changes the id. */
  lemma UpdateTwice<T>(xs: seq<T>, key: T -> string, id: string, f: T -> T)
    requires forall x :: f(f(x)) == f(x)
    ensures UpdateWhere(UpdateWhere(xs, key, id, f), key, id, f) == UpdateWhere(xs, key, id, f)
  {
    var once := UpdateWhere(xs, key, id, f);
    var twice := UpdateWhere(once, key, id, f);
    forall i | 0 <= i < |xs| ensures twice[i] == once[i] {
      if key(xs[i]) == id {
        assert f(f(xs[i])) == f(xs[i]);
      }
    }
  }

  /** `xs.filter((_, i) => i !== index)`: deletion by position. */
  function WithoutIndex<T>(xs: seq<T>, index: int): seq<T>
  {
    if xs == [] then []
    else (if index == 0 then [] else [xs[0]]) + WithoutIndex(xs[1..], index - 1)
  }

  /** Deletion by position removes exactly the element at an index in
      range, keeping the others in order, and leaves the list unchanged
      for an index out of range. */
  lemma {:induction false} WithoutIndexSpec<T>(xs: seq<T>, index: int)
    ensures 0 <= index < |xs| ==> WithoutIndex(xs, index) == xs[..index] + xs[index + 1..]
    ensures !(0 <= index < |xs|) ==> WithoutIndex(xs, index) == xs
  {
    if xs != [] {
      WithoutIndexSpec(xs[1..], index - 1);
      if 0 < index < |xs| {
        assert xs[..index] == [xs[0]] + xs[1..][..index - 1];
        assert xs[index + 1..] == xs[1..][index..];
      } else if index != 0 {
        assert xs == [xs[0]] + xs[1..];
      }
    }
  }
}
