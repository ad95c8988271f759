/** A stable sort by an integer key, standing for Go's `sort.SliceStable`. */
module Sorting {

  /** Puts `x` before every element that does not come strictly earlier. */
  function Insert<T>(x: T, xs: seq<T>, key: T -> int): seq<T> {
    if xs == [] || key(x) <= key(xs[0]) then [x] + xs
    else [xs[0]] + Insert(x, xs[1..], key)
  }

  function StableSort<T>(xs: seq<T>, key: T -> int): seq<T> {
    if xs == [] then [] else Insert(xs[0], StableSort(xs[1..], key), key)
  }

  lemma SortOne<T>(x: T, key: T -> int)
    ensures StableSort([x], key) == [x]
  {
    assert [x][1..] == [];
    assert StableSort<T>([], key) == [];
    assert Insert(x, [], key) == [x];
  }

  ghost predicate Sorted<T>(xs: seq<T>, key: T -> int) {
    forall i, j | 0 <= i <= j < |xs| :: key(xs[i]) <= key(xs[j])
  }

  /** The elements with one key, in order. */
  function WithKey<T>(xs: seq<T>, key: T -> int, k: int): seq<T> {
    if xs == [] then []
    else if key(xs[0]) == k then [xs[0]] + WithKey(xs[1..], key, k)
    else WithKey(xs[1..], key, k)
  }

  /** Sorted, the same elements as often, and equal keys in their old order. */
  ghost predicate IsStableSortOf<T(!new)>(ys: seq<T>, xs: seq<T>, key: T -> int) {
    && Sorted(ys, key)
    && (forall k :: WithKey(ys, key, k) == WithKey(xs, key, k))
  }

  lemma {:induction false} InsertMember<T>(x: T, xs: seq<T>, key: T -> int, y: T)
    ensures y in Insert(x, xs, key) <==> y == x || y in xs
  {
    if xs != [] && key(x) > key(xs[0]) {
      InsertMember(x, xs[1..], key, y);
      assert xs == [xs[0]] + xs[1..];
    }
  }

  lemma {:induction false} InsertSorted<T>(x: T, xs: seq<T>, key: T -> int)
    requires Sorted(xs, key)
    ensures Sorted(Insert(x, xs, key), key)
  {
    if xs != [] && key(x) > key(xs[0]) {
      InsertSorted(x, xs[1..], key);
      var rest := Insert(x, xs[1..], key);
      forall i | 0 <= i < |rest| ensures key(xs[0]) <= key(rest[i]) {
        InsertMember(x, xs[1..], key, rest[i]);
      }
    }
  }

  lemma {:induction false} InsertWithKey<T>(x: T, xs: seq<T>, key: T -> int, k: int)
    requires Sorted(xs, key)
    ensures WithKey(Insert(x, xs, key), key, k) == WithKey([x] + xs, key, k)
  {
    assert ([x] + xs)[1..] == xs;
    if xs != [] && key(x) > key(xs[0]) {
      var rest := xs[1..];
      InsertWithKey(x, rest, key, k);
      assert ([x] + rest)[1..] == rest;
      var ys := Insert(x, xs, key);
      assert ys[0] == xs[0] && ys[1..] == Insert(x, rest, key);
    }
  }

  lemma {:induction false} StableSortMeaning<T(!new)>(xs: seq<T>, key: T -> int)
    ensures IsStableSortOf(StableSort(xs, key), xs, key)
    ensures forall y :: y in StableSort(xs, key) <==> y in xs
  {
    if xs != [] {
      var rest := StableSort(xs[1..], key);
      StableSortMeaning(xs[1..], key);
      InsertSorted(xs[0], rest, key);
      assert xs == [xs[0]] + xs[1..];
      forall y ensures y in StableSort(xs, key) <==> y in xs {
        InsertMember(xs[0], rest, key, y);
      }
      forall k ensures WithKey(StableSort(xs, key), key, k) == WithKey(xs, key, k) {
        InsertWithKey(xs[0], rest, key, k);
        assert ([xs[0]] + rest)[1..] == rest;
      }
    }
  }

  lemma {:induction false} WithKeyMembers<T>(xs: seq<T>, key: T -> int, k: int)
    ensures forall x :: x in WithKey(xs, key, k) <==> x in xs && key(x) == k
  {
    if xs != [] {
      WithKeyMembers(xs[1..], key, k);
      assert xs == [xs[0]] + xs[1..];
    }
  }

  lemma HasKey<T>(zs: seq<T>, key: T -> int)
    ensures zs != [] ==> exists k :: WithKey(zs, key, k) != []
  {
    if zs != [] {
      assert WithKey(zs, key, key(zs[0])) != [];
    }
  }

  lemma SameHead<T(!new)>(ys: seq<T>, zs: seq<T>, key: T -> int)
    requires ys != [] && Sorted(ys, key) && Sorted(zs, key)
    requires forall k :: WithKey(ys, key, k) == WithKey(zs, key, k)
    ensures zs != [] && zs[0] == ys[0]
  {
    var k := key(ys[0]);
    WithKeyMembers(ys, key, k);
    WithKeyMembers(zs, key, k);
    assert ys[0] in WithKey(zs, key, k);
    assert zs != [];
    WithKeyMembers(ys, key, key(zs[0]));
    WithKeyMembers(zs, key, key(zs[0]));
    assert zs[0] in WithKey(ys, key, key(zs[0]));
    assert WithKey(ys, key, k)[0] == ys[0] && WithKey(zs, key, k)[0] == zs[0];
  }

  /** There is only one stable sort. */
  lemma {:induction false} StableSortUnique<T(!new)>(ys: seq<T>, zs: seq<T>, key: T -> int)
    requires Sorted(ys, key) && Sorted(zs, key)
    requires forall k :: WithKey(ys, key, k) == WithKey(zs, key, k)
    ensures ys == zs
  {
    if ys == [] {
      HasKey(zs, key);
    } else {
      SameHead(ys, zs, key);
      forall j ensures WithKey(ys[1..], key, j) == WithKey(zs[1..], key, j) {
        var y, z := WithKey(ys, key, j), WithKey(zs, key, j);
        assert y == z;
        if j == key(ys[0]) {
          assert y[1..] == WithKey(ys[1..], key, j) && z[1..] == WithKey(zs[1..], key, j);
        }
      }
      StableSortUnique(ys[1..], zs[1..], key);
      assert ys == [ys[0]] + ys[1..] && zs == [zs[0]] + zs[1..];
    }
  }
}
