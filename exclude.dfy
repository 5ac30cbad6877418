/** `ExcludeAll::exclude` of src/main.rs: remove from a vector, one after the
    other, the first occurrence of each listed item; a missing item makes
    the source's `unwrap` panic, which here is `None`. */
module Exclusion {
  import opened Wrappers

  /** `position`: the index of the first occurrence of `x`, if any. */
  function Position<T(==)>(s: seq<T>, x: T): (r: Option<nat>)
    ensures r.None? <==> x !in s
    ensures r.Some? ==> r.value < |s| && s[r.value] == x && forall j :: 0 <= j < r.value ==> s[j] != x
  {
    if s == [] then None
    else if s[0] == x then Some(0)
    else
      match Position(s[1..], x)
      case None => None
      case Some(i) => Some(i + 1)
  }

  /** Reference definition: `s` with, for every value `v`, its first
      `quota[v]` occurrences dropped and everything else kept in order. */
  function Without<T(==)>(s: seq<T>, quota: multiset<T>): seq<T> {
    if s == [] then []
    else if s[0] in quota then Without(s[1..], quota - multiset{s[0]})
    else [s[0]] + Without(s[1..], quota)
  }

  /** `r` is `s` with some elements left out, the rest in their order. */
  predicate IsSubsequence<T(==)>(r: seq<T>, s: seq<T>) {
    if r == [] then true
    else if s == [] then false
    else (r[0] == s[0] && IsSubsequence(r[1..], s[1..])) || IsSubsequence(r, s[1..])
  }

  /** `Without` keeps the order of what it keeps. */
  lemma {:induction false} WithoutIsSubsequence<T>(s: seq<T>, quota: multiset<T>)
    ensures IsSubsequence(Without(s, quota), s)
  {
    if s != [] {
      if s[0] in quota {
        WithoutIsSubsequence(s[1..], quota - multiset{s[0]});
        var w := Without(s[1..], quota - multiset{s[0]});
        assert w != [] ==> IsSubsequence(w, s[1..]);
      } else {
        WithoutIsSubsequence(s[1..], quota);
      }
    }
  }

  /** `Without` takes away exactly the quota, as far as `s` has it. */
  lemma {:induction false} WithoutMultiset<T>(s: seq<T>, quota: multiset<T>)
    ensures multiset(Without(s, quota)) == multiset(s) - quota
  {
    if s != [] {
      assert s == [s[0]] + s[1..];
      if s[0] in quota {
        WithoutMultiset(s[1..], quota - multiset{s[0]});
      } else {
        WithoutMultiset(s[1..], quota);
      }
    }
  }

  /** Without a quota nothing is dropped. */
  lemma {:induction false} WithoutNothing<T>(s: seq<T>)
    ensures Without(s, multiset{}) == s
  {
    if s != [] {
      WithoutNothing(s[1..]);
    }
  }

  /** When the quota is available in `s`, `Without` shortens `s` by its size. */
  lemma WithoutLength<T>(s: seq<T>, quota: multiset<T>)
    requires quota <= multiset(s)
    ensures |Without(s, quota)| == |s| - |quota|
  {
    WithoutMultiset(s, quota);
    assert |multiset(s) - quota| == |multiset(s)| - |quota| by {
      assert (multiset(s) - quota) + quota == multiset(s);
    }
  }

  /** Removing the first occurrence of `x` from `Without(s, quota)` is the
      same as dropping one more `x` from `s`. */
  lemma {:induction false} RemoveFirstFromWithout<T>(s: seq<T>, quota: multiset<T>, i: nat)
    requires i < |Without(s, quota)|
    requires forall j :: 0 <= j < i ==> Without(s, quota)[j] != Without(s, quota)[i]
    ensures var w := Without(s, quota);
      w[..i] + w[i + 1..] == Without(s, quota + multiset{w[i]})
  {
    var w := Without(s, quota);
    var x := w[i];
    if s[0] in quota {
      RemoveFirstFromWithout(s[1..], quota - multiset{s[0]}, i);
      assert quota - multiset{s[0]} + multiset{x} == quota + multiset{x} - multiset{s[0]};
    } else if s[0] == x {
      assert w == [x] + Without(s[1..], quota);
      assert w[0] == x;
      assert i == 0;
      assert quota + multiset{x} - multiset{x} == quota;
    } else {
      var w' := Without(s[1..], quota);
      assert w == [s[0]] + w';
      assert i > 0;
      assert w'[i - 1] == x;
      assert w[..i] == [s[0]] + w'[..i - 1];
      forall j | 0 <= j < i - 1
        ensures w'[j] != x
      {
        assert w'[j] == w[j + 1];
      }
      RemoveFirstFromWithout(s[1..], quota, i - 1);
      assert w[..i] + w[i + 1..] == [s[0]] + (w'[..i - 1] + w'[i..]);
    }
  }

  /** One more `item` can be dropped exactly when `item` is still present. */
  lemma CanDropOneMore<T>(s: seq<T>, quota: multiset<T>, item: T)
    requires quota <= multiset(s)
    ensures item in Without(s, quota) <==> quota + multiset{item} <= multiset(s)
  {
    WithoutMultiset(s, quota);
    var w := Without(s, quota);
    assert item in w <==> multiset(w)[item] > 0;
    assert multiset(w)[item] == multiset(s)[item] - quota[item];
  }

  /** The loop of `Exclude` stops at a missing item exactly when the list
      asks for more copies of it than `s` has. */
  lemma ExcludeMissing<T>(s: seq<T>, items: seq<T>, i: nat)
    requires i < |items| && multiset(items[..i]) <= multiset(s)
    requires items[i] !in Without(s, multiset(items[..i]))
    ensures !(multiset(items) <= multiset(s))
  {
    var next := multiset(items[..i + 1]);
    assert next == multiset(items[..i]) + multiset{items[i]} by {
      assert items[..i + 1] == items[..i] + [items[i]];
    }
    CanDropOneMore(s, multiset(items[..i]), items[i]);
    assert next <= multiset(items) by {
      assert items == items[..i + 1] + items[i + 1..];
    }
  }

  /** One round of the loop of `Exclude` keeps its invariant. */
  lemma ExcludeRemove<T>(s: seq<T>, items: seq<T>, i: nat, index: nat)
    requires i < |items| && multiset(items[..i]) <= multiset(s)
    requires var res := Without(s, multiset(items[..i]));
      index < |res| && res[index] == items[i] && forall j :: 0 <= j < index ==> res[j] != items[i]
    ensures multiset(items[..i + 1]) <= multiset(s)
    ensures var res := Without(s, multiset(items[..i]));
      res[..index] + res[index + 1..] == Without(s, multiset(items[..i + 1]))
  {
    assert multiset(items[..i + 1]) == multiset(items[..i]) + multiset{items[i]} by {
      assert items[..i + 1] == items[..i] + [items[i]];
    }
    CanDropOneMore(s, multiset(items[..i]), items[i]);
    RemoveFirstFromWithout(s, multiset(items[..i]), index);
  }

  /** `exclude`: succeeds exactly when every listed item can be matched by
      its own occurrence in `s`, and then drops the first such occurrences. */
  method Exclude<T(==)>(s: seq<T>, itemsToExclude: seq<T>) returns (r: Option<seq<T>>)
    ensures r.Some? <==> multiset(itemsToExclude) <= multiset(s)
    ensures r.Some? ==> r.value == Without(s, multiset(itemsToExclude))
  {
    var res := s;
    WithoutNothing(s);
    for i := 0 to |itemsToExclude|
      invariant multiset(itemsToExclude[..i]) <= multiset(s)
      invariant res == Without(s, multiset(itemsToExclude[..i]))
    {
      var item := itemsToExclude[i];
      var indexToRemove := Position(res, item);
      if indexToRemove.None? {
        ExcludeMissing(s, itemsToExclude, i);
        return None;
      }
      ExcludeRemove(s, itemsToExclude, i, indexToRemove.value);
      res := res[..indexToRemove.value] + res[indexToRemove.value + 1..];
    }
    assert itemsToExclude[..|itemsToExclude|] == itemsToExclude;
    return Some(res);
  }

  /** The example of the source's unit test: excluding 0, 2, 3, 6 and 9 from
      the ten digits leaves 1, 4, 5, 7, 8 (and succeeds, by
      `ExampleItemsPresent`). */
  lemma ExcludeDigitsExample()
    ensures Without([0, 1, 2, 3, 4, 5, 6, 7, 8, 9], multiset{0, 2, 3, 6, 9}) == [1, 4, 5, 7, 8]
  {
    ExampleFromTwo();
    assert multiset{0, 2, 3, 6, 9} - multiset{0} == multiset{2, 3, 6, 9};
  }

  /** Every item of the example occurs among the ten digits. */
  lemma ExampleItemsPresent()
    ensures multiset{0, 2, 3, 6, 9} <= multiset([0, 1, 2, 3, 4, 5, 6, 7, 8, 9])
  {
  }

  /** The source's unit test, stated of the loop of `Exclude` itself. */
  method ExcludeDigitsTest() returns (r: Option<seq<int>>)
    ensures r == Some([1, 4, 5, 7, 8])
  {
    r := Exclude([0, 1, 2, 3, 4, 5, 6, 7, 8, 9], [0, 2, 3, 6, 9]);
    ExampleItemsPresent();
    ExcludeDigitsExample();
    assert multiset([0, 2, 3, 6, 9]) == multiset{0, 2, 3, 6, 9};
  }

  /** `ExcludeDigitsExample` from the digit 2 on. */
  lemma ExampleFromTwo()
    ensures Without([2, 3, 4, 5, 6, 7, 8, 9], multiset{2, 3, 6, 9}) == [4, 5, 7, 8]
  {
    ExampleFromFour();
    assert multiset{3, 6, 9} - multiset{3} == multiset{6, 9};
    assert multiset{2, 3, 6, 9} - multiset{2} == multiset{3, 6, 9};
  }

  /** `ExcludeDigitsExample` from the digit 4 on. */
  lemma ExampleFromFour()
    ensures Without([4, 5, 6, 7, 8, 9], multiset{6, 9}) == [4, 5, 7, 8]
  {
    assert Without([8, 9], multiset{9}) == [8];
    assert Without([7, 8, 9], multiset{9}) == [7, 8];
    assert multiset{6, 9} - multiset{6} == multiset{9};
    assert Without([6, 7, 8, 9], multiset{6, 9}) == [7, 8];
    assert Without([5, 6, 7, 8, 9], multiset{6, 9}) == [5, 7, 8];
  }
}
