/**
 * The user-defined lists (custom gradients, card styles and fonts) are edited the
 * same way: append one element, or `prev.filter(x => x.id !== id)`. This module holds
 * that filter, generic in the element type and in the field it compares.
 */
module Registry {
  import opened Wrappers

  /** `xs.find(x => key(x) === v)`: the first element with that key. */
  function Find<T>(xs: seq<T>, key: T -> string, v: string): (r: Option<T>)
    ensures r.Some? ==> key(r.value) == v && exists i :: 0 <= i < |xs| && xs[i] == r.value
    ensures r.None? <==> forall i :: 0 <= i < |xs| ==> key(xs[i]) != v
    decreases |xs|
  {
    if |xs| == 0 then None
    else if key(xs[0]) == v then Some(xs[0])
    else
      var r := Find(xs[1..], key, v);
      assert forall i :: 1 <= i < |xs| ==> xs[i] == xs[1..][i - 1];
      r
  }

  /** The element found is the first one with the key: none before it has it. */
  lemma {:induction false} FindFirst<T>(xs: seq<T>, key: T -> string, v: string)
    requires Find(xs, key, v).Some?
    ensures exists i :: 0 <= i < |xs| && xs[i] == Find(xs, key, v).value &&
                        forall j :: 0 <= j < i ==> key(xs[j]) != v
    decreases |xs|
  {
    if key(xs[0]) != v {
      var tail := xs[1..];
      FindFirst(tail, key, v);
      var i :| 0 <= i < |tail| && tail[i] == Find(tail, key, v).value &&
               forall j :: 0 <= j < i ==> key(tail[j]) != v;
      assert xs[i + 1] == tail[i];
      assert forall j :: 1 <= j < i + 1 ==> xs[j] == tail[j - 1];
    } else {
      assert xs[0] == Find(xs, key, v).value;
    }
  }

  /** `xs.filter(x => key(x) !== id)`. */
  function Without<T(==,!new)>(xs: seq<T>, key: T -> string, id: string): (r: seq<T>)
    ensures |r| <= |xs|
    ensures forall x :: x in r <==> x in xs && key(x) != id
    decreases |xs|
  {
    if |xs| == 0 then []
    else
      var rest := Without(xs[1..], key, id);
      assert forall x :: x in xs <==> x == xs[0] || x in xs[1..];
      if key(xs[0]) != id then [xs[0]] + rest else rest
  }

  /** The filter works element by element: filtering a concatenation filters each part,
      so the kept elements stay in their order. */
  lemma {:induction false} WithoutConcat<T(!new)>(a: seq<T>, b: seq<T>, key: T -> string, id: string)
    ensures Without(a + b, key, id) == Without(a, key, id) + Without(b, key, id)
    decreases |a|
  {
    if |a| > 0 {
      assert (a + b)[1..] == a[1..] + b;
      WithoutConcat(a[1..], b, key, id);
    } else {
      assert a + b == b;
    }
  }

  /** A list none of whose elements has the id is left as it is. */
  lemma {:induction false} WithoutAbsent<T(!new)>(xs: seq<T>, key: T -> string, id: string)
    requires forall i :: 0 <= i < |xs| ==> key(xs[i]) != id
    ensures Without(xs, key, id) == xs
    decreases |xs|
  {
    if |xs| > 0 {
      WithoutAbsent(xs[1..], key, id);
      assert [xs[0]] + xs[1..] == xs;
    }
  }

  /** Removing twice is removing once. */
  lemma WithoutIdempotent<T(!new)>(xs: seq<T>, key: T -> string, id: string)
    ensures Without(Without(xs, key, id), key, id) == Without(xs, key, id)
  {
    var r := Without(xs, key, id);
    assert forall i :: 0 <= i < |r| ==> r[i] in r;
    WithoutAbsent(r, key, id);
  }

  /** Removing the id of an element just appended, when no earlier element had it,
      gives back the list as it was before the append. */
  lemma WithoutUndoesAppend<T(!new)>(xs: seq<T>, x: T, key: T -> string)
    requires forall i :: 0 <= i < |xs| ==> key(xs[i]) != key(x)
    ensures Without(xs + [x], key, key(x)) == xs
  {
    WithoutConcat(xs, [x], key, key(x));
    WithoutAbsent(xs, key, key(x));
    assert Without([x], key, key(x)) == [] by {
      assert [x][1..] == [];
    }
  }

  /** No two elements share a key. */
  predicate Distinct<T>(xs: seq<T>, key: T -> string) {
    forall i, j :: 0 <= i < j < |xs| ==> key(xs[i]) != key(xs[j])
  }

  /** Filtering keeps a sublist, so keys that were pairwise distinct stay so, whatever
      field the filter compares. */
  lemma {:induction false} WithoutKeepsDistinct<T(!new)>(xs: seq<T>, key: T -> string, id: string, name: T -> string)
    requires Distinct(xs, name)
    ensures Distinct(Without(xs, key, id), name)
    decreases |xs|
  {
    if |xs| > 0 {
      var tail := xs[1..];
      assert Distinct(tail, name) by {
        forall i, j | 0 <= i < j < |tail| ensures name(tail[i]) != name(tail[j]) {
          assert tail[i] == xs[i + 1] && tail[j] == xs[j + 1];
        }
      }
      WithoutKeepsDistinct(tail, key, id, name);
      var rest := Without(tail, key, id);
      if key(xs[0]) != id {
        var r := [xs[0]] + rest;
        forall i, j | 0 <= i < j < |r| ensures name(r[i]) != name(r[j]) {
          if i == 0 {
            assert r[j] in tail;
            var k :| 0 <= k < |tail| && tail[k] == r[j];
            assert xs[k + 1] == r[j];
          } else {
            assert r[i] == rest[i - 1] && r[j] == rest[j - 1];
          }
        }
      }
    }
  }

  /** `xs.some(x => key(x) === v)`. */
  predicate Has<T>(xs: seq<T>, key: T -> string, v: string) {
    exists i :: 0 <= i < |xs| && key(xs[i]) == v
  }

  /** Appending an element whose key no element has keeps the keys distinct. */
  lemma AppendKeepsDistinct<T(!new)>(xs: seq<T>, x: T, key: T -> string)
    requires Distinct(xs, key) && !Has(xs, key, key(x))
    ensures Distinct(xs + [x], key)
  {
    var r := xs + [x];
    forall i, j | 0 <= i < j < |r| ensures key(r[i]) != key(r[j]) {
      assert r[i] == xs[i];
      if j < |xs| { assert r[j] == xs[j]; }
    }
  }
}
