/** A list without all occurrences of one item. */
module Lists {

  function Without<T(==)>(list: seq<T>, e: T): seq<T> {
    if list == [] then []
    else (if list[0] == e then [] else [list[0]]) + Without(list[1..], e)
  }

  lemma Associate<T>(a: seq<T>, b: seq<T>, c: seq<T>)
    ensures a + b + c == a + (b + c)
  {
  }

  lemma {:induction false} WithoutSplits<T>(a: seq<T>, b: seq<T>, e: T)
    ensures Without(a + b, e) == Without(a, e) + Without(b, e)
    decreases |a|
  {
    if a == [] {
      assert a + b == b;
    } else {
      WithoutSplits(a[1..], b, e);
      assert (a + b)[1..] == a[1..] + b;
      Associate(if a[0] == e then [] else [a[0]], Without(a[1..], e), Without(b, e));
    }
  }

  /** Cutting out one occurrence makes no difference. */
  lemma WithoutOne<T>(a: seq<T>, e: T, b: seq<T>)
    ensures Without(a + [e] + b, e) == Without(a + b, e)
  {
    WithoutSplits(a, b, e);
    WithoutSplits(a + [e], b, e);
    WithoutSplits(a, [e], e);
  }

  lemma {:induction false} WithoutAbsent<T>(list: seq<T>, e: T)
    requires e !in list
    ensures Without(list, e) == list
    decreases |list|
  {
    if list != [] {
      WithoutAbsent(list[1..], e);
    }
  }

  /** Every occurrence is gone, and nothing else. */
  lemma {:induction false} WithoutMembers<T>(list: seq<T>, e: T)
    ensures forall x :: x in Without(list, e) <==> x in list && x != e
    decreases |list|
  {
    if list != [] {
      WithoutMembers(list[1..], e);
    }
  }
}
