/** Sorting nodes into document order without compareDocumentPosition, and dropping duplicates. */
module DocumentOrder {
  import opened Dom
  import Lists

  /** The sign of "a minus b" in document order. */
  function Order(a: int, b: int): int {
    if a < b then -1 else if a > b then 1 else 0
  }

  /** siblingCheck; -1 stands for a missing node. */
  method SiblingCheck(t: Tree, a: int, b: int) returns (r: int)
    requires Valid(t) && -1 <= a < |t| && -1 <= b < |t| && (a != -1 || b != -1)
    requires a > 0 && b > 0 ==> a != b && t[a].parent == t[b].parent
    requires a != 0 && b != 0
    ensures a == -1 ==> r == -1
    ensures b == -1 ==> r == 1
    ensures a != -1 && b != -1 ==> r == Order(a, b)
  {
    var cur := if b != -1 then a else -1;
    if cur != -1 {
      assert Linked(t, cur);
      cur := t[cur].next;
      while cur != -1
        invariant cur == -1 || (a < cur < |t| && t[cur].parent == t[a].parent)
        invariant forall k :: a < k < |t| && (cur != -1 ==> k < cur) && t[k].parent == t[a].parent ==> k != b
        decreases if cur == -1 then 0 else |t| - cur
      {
        if cur == b {
          return -1;
        }
        assert Linked(t, cur);
        cur := t[cur].next;
      }
    }
    r := if a != -1 then 1 else -1;
  }

  /** p leads from the document down to its last node, child by child. */
  ghost predicate IsPath(t: Tree, p: seq<nat>) {
    && |p| > 0 && p[0] == 0 && p[|p| - 1] < |t|
    && forall k :: 0 <= k < |p| - 1 ==> ChildLink(t, p, k)
  }

  ghost predicate ChildLink(t: Tree, p: seq<nat>, k: nat)
    requires k + 1 < |p|
  {
    p[k + 1] < |t| && t[p[k + 1]].parent == p[k]
  }

  /** The list of ancestors, outermost first, ending with the node. */
  method Ancestors(t: Tree, a: nat) returns (ap: seq<nat>)
    requires Valid(t) && a < |t|
    ensures IsPath(t, ap) && ap[|ap| - 1] == a
  {
    ap := [a];
    var cur := t[a].parent;
    while cur != -1
      invariant |ap| > 0 && ap[|ap| - 1] == a && ap[0] < |t| && cur == t[ap[0]].parent
      invariant forall k :: 0 <= k < |ap| - 1 ==> ChildLink(t, ap, k)
      decreases cur + 1
    {
      ghost var before := ap;
      ap := [cur] + ap;
      forall k | 0 <= k < |ap| - 1 ensures ChildLink(t, ap, k) {
        if k > 0 { assert ChildLink(t, before, k - 1); }
      }
      cur := t[cur].parent;
    }
  }

  /** Every node on the path is the end of it or an ancestor of the end. */
  lemma {:induction false} PathIsAncestors(t: Tree, p: seq<nat>, k: nat)
    requires Valid(t) && IsPath(t, p) && k < |p|
    ensures k < |p| - 1 ==> Below(t, p[k], p[|p| - 1])
    ensures p[k] < |t| && (k > 0 ==> p[k] > 0)
    decreases |p| - k
  {
    if k < |p| - 1 {
      assert ChildLink(t, p, k);
      PathIsAncestors(t, p, k + 1);
      if k + 1 < |p| - 1 {
        assert Below(t, p[k], p[k + 1]);
        BelowTransitive(t, p[k], p[k + 1], p[|p| - 1]);
      }
    }
    if k > 0 { assert ChildLink(t, p, k - 1); }
  }

  /** Where two paths part, the order of the nodes there is the order of their ends. */
  lemma PartingDecides(t: Tree, ap: seq<nat>, bp: seq<nat>, i: nat)
    requires Valid(t) && IsPath(t, ap) && IsPath(t, bp) && 0 < i <= |ap| && i <= |bp|
    requires ap[..i] == bp[..i] && (i < |ap| || i < |bp|) && (i < |ap| && i < |bp| ==> ap[i] != bp[i])
    ensures i == |ap| ==> ap[|ap| - 1] < bp[|bp| - 1]
    ensures i == |bp| ==> bp[|bp| - 1] < ap[|ap| - 1]
    ensures (i < |ap| ==> 0 < ap[i] < |t|) && (i < |bp| ==> 0 < bp[i] < |t|)
    ensures i < |ap| && i < |bp| ==> t[ap[i]].parent == t[bp[i]].parent
    ensures i < |ap| && i < |bp| ==> Order(ap[i], bp[i]) == Order(ap[|ap| - 1], bp[|bp| - 1])
  {
    var a, b := ap[|ap| - 1], bp[|bp| - 1];
    assert ap[i - 1] == ap[..i][i - 1] == bp[..i][i - 1] == bp[i - 1];
    PathIsAncestors(t, ap, i - 1);
    PathIsAncestors(t, bp, i - 1);
    if i < |ap| { PathIsAncestors(t, ap, i); }
    if i < |bp| { PathIsAncestors(t, bp, i); }
    if i == |ap| {
      BelowIsLater(t, a, b);
    } else if i == |bp| {
      BelowIsLater(t, b, a);
    } else {
      assert ChildLink(t, ap, i - 1) && ChildLink(t, bp, i - 1);
      if ap[i] < bp[i] {
        SubtreesOfSiblingsAreOrdered(t, ap[i], bp[i], a);
        if b != bp[i] { BelowIsLater(t, bp[i], b); }
      } else {
        SubtreesOfSiblingsAreOrdered(t, bp[i], ap[i], b);
        if a != ap[i] { BelowIsLater(t, ap[i], a); }
      }
    }
  }

  /** Reading past the end of an array gives undefined, here -1. */
  function At(p: seq<nat>, i: nat): int {
    if i < |p| then p[i] else -1
  }

  /** Paths to different nodes cannot both be exhausted without a difference. */
  lemma PathsPart(ap: seq<nat>, bp: seq<nat>, i: nat)
    requires |ap| > 0 && |bp| > 0 && ap[|ap| - 1] != bp[|bp| - 1]
    requires i <= |ap| && i <= |bp| && ap[..i] == bp[..i]
    ensures i < |ap| || i < |bp|
  {
    assert i > 0 ==> ap[i - 1] == ap[..i][i - 1] == bp[..i][i - 1] == bp[i - 1];
  }

  /** The comparator and the flag it sets when it meets a node twice. */
  class Sorter {
    const t: Tree
    var hasDuplicate: bool

    constructor (t: Tree)
      ensures this.t == t && !hasDuplicate
    {
      this.t, hasDuplicate := t, false;
    }

    /** sortOrder agrees with document order. */
    method SortOrder(a: nat, b: nat) returns (r: int)
      requires Valid(t) && a < |t| && b < |t|
      modifies this
      ensures r == Order(a, b)
      ensures hasDuplicate == (old(hasDuplicate) || a == b)
    {
      if a == b {
        hasDuplicate := true;
        return 0;
      }
      var aup, bup := t[a].parent, t[b].parent;
      if aup == -1 || bup == -1 {
        return if a == 0 then -1 else if b == 0 then 1 else if aup != -1 then -1 else if bup != -1 then 1 else 0;
      } else if aup == bup {
        r := SiblingCheck(t, a, b);
        return;
      }
      var ap := Ancestors(t, a);
      var bp := Ancestors(t, b);
      var i := 0;
      while At(ap, i) == At(bp, i)
        invariant i <= |ap| && i <= |bp| && ap[..i] == bp[..i]
        invariant hasDuplicate == old(hasDuplicate)
        decreases |ap| - i
      {
        PathsPart(ap, bp, i);
        i := i + 1;
      }
      PathsPart(ap, bp, i);
      PartingDecides(t, ap, bp, i);
      r := SiblingCheck(t, At(ap, i), At(bp, i));
    }

    /** uniqueSort. What the native sort contributes are the calls it makes of the comparator and the order it
        arrives at: to be sure of that order it must have compared all neighbours in it. Duplicates are collected by
        index and spliced out from the back, unless the comparator has met none. */
    method UniqueSort(results: seq<nat>, comparisons: seq<(nat, nat)>, sorted: seq<nat>, detectDuplicates: bool)
      returns (r: seq<nat>)
      requires Valid(t) && forall k :: 0 <= k < |comparisons| ==> comparisons[k].0 < |t| && comparisons[k].1 < |t|
      requires multiset(sorted) == multiset(results)
      requires forall i, j :: 0 <= i < j < |sorted| ==> Order(sorted[i], sorted[j]) <= 0
      requires forall i :: 0 < i < |sorted| ==> Compared(comparisons, sorted[i - 1], sorted[i])
      modifies this
      ensures forall i, j :: 0 <= i < j < |r| ==> r[i] < r[j]
      ensures forall x :: x in r <==> x in results
    {
      hasDuplicate := !detectDuplicates;
      for k := 0 to |comparisons|
        invariant hasDuplicate <==> !detectDuplicates || exists j :: 0 <= j < k && comparisons[j].0 == comparisons[j].1
      {
        var _ := SortOrder(comparisons[k].0, comparisons[k].1);
      }
      r := sorted;
      if hasDuplicate {
        var duplicates := Duplicates(r);
        r := SpliceOut(r, duplicates);
      } else {
        NoRepeats(sorted, 0, |sorted|);
      }
      assert r == Firsts(sorted, 0);
      FirstsAscend(sorted, 0);
      MembersOfPermutation(sorted, results);
    }
  }

  /** The comparator was called with the two, one way round or the other. */
  predicate Compared(comparisons: seq<(nat, nat)>, x: nat, y: nat) {
    (x, y) in comparisons || (y, x) in comparisons
  }

  /** The indices of elements that repeat the one before, ascending. */
  method Duplicates(s: seq<nat>) returns (duplicates: seq<nat>)
    ensures AreRepeats(s, duplicates)
    ensures forall d :: 0 < d < |s| ==> (s[d] == s[d - 1] <==> d in duplicates)
  {
    duplicates := [];
    var i := 0;
    while i < |s|
      invariant 0 <= i <= |s| && AreRepeats(s, duplicates)
      invariant forall k :: 0 <= k < |duplicates| ==> duplicates[k] <= i && s[duplicates[k]] == s[duplicates[k] - 1]
      invariant forall d :: 0 < d <= i && d < |s| && s[d] == s[d - 1] ==> d in duplicates
    {
      var elem := s[i];
      i := i + 1;
      if i < |s| && elem == s[i] {
        duplicates := duplicates + [i];
      }
    }
  }

  ghost predicate AreRepeats(s: seq<nat>, duplicates: seq<nat>) {
    && (forall k :: 0 <= k < |duplicates| ==> 0 < duplicates[k] < |s|)
    && (forall k, l :: 0 <= k < l < |duplicates| ==> duplicates[k] < duplicates[l])
  }

  /** Remove the given positions, last one first. */
  method SpliceOut(s: seq<nat>, duplicates: seq<nat>) returns (r: seq<nat>)
    requires AreRepeats(s, duplicates)
    requires forall d :: 0 < d < |s| ==> (s[d] == s[d - 1] <==> d in duplicates)
    ensures r == Firsts(s, 0)
  {
    r := s;
    var j := |duplicates|;
    assert s[..|s|] + Firsts(s, |s|) == s;
    while j > 0
      invariant 0 <= j <= |duplicates| && r == DoneFrom(s, Cut(s, duplicates, j))
    {
      GapHasNoRepeats(s, duplicates, j);
      SpliceStep(s, duplicates[j - 1], Cut(s, duplicates, j));
      j := j - 1;
      r := r[..duplicates[j]] + r[duplicates[j] + 1..];
    }
    GapHasNoRepeats(s, duplicates, 0);
    NoRepeats(s, 0, Cut(s, duplicates, 0));
  }

  /** The list finished from position m on. */
  function DoneFrom(s: seq<nat>, m: nat): seq<nat>
    requires m <= |s|
  {
    s[..m] + Firsts(s, m)
  }

  /** The position before which nothing has been removed yet when j indices are left. */
  function Cut(s: seq<nat>, duplicates: seq<nat>, j: nat): (m: nat)
    requires j <= |duplicates| && AreRepeats(s, duplicates)
    ensures m <= |s|
  {
    if j < |duplicates| then duplicates[j] else |s|
  }

  lemma GapHasNoRepeats(s: seq<nat>, duplicates: seq<nat>, j: nat)
    requires j <= |duplicates| && AreRepeats(s, duplicates)
    requires forall d :: 0 < d < |s| ==> (s[d] == s[d - 1] <==> d in duplicates)
    ensures forall d :: 0 < d < Cut(s, duplicates, j) && (j > 0 ==> duplicates[j - 1] < d) ==> s[d] != s[d - 1]
    ensures j > 0 ==> s[duplicates[j - 1]] == s[duplicates[j - 1] - 1]
  {
    assert j > 0 ==> duplicates[j - 1] in duplicates;
  }

  /** Splicing the last repeat before m out of a list that is finished from m on. */
  lemma SpliceStep(s: seq<nat>, d: nat, m: nat)
    requires 0 < d < m <= |s| && s[d] == s[d - 1] && forall k :: d < k < m ==> s[k] != s[k - 1]
    ensures d < |DoneFrom(s, m)| && DoneFrom(s, m)[..d] + DoneFrom(s, m)[d + 1..] == DoneFrom(s, d)
  {
    NoRepeats(s, d + 1, m);
    SliceOut(s, m, d, Firsts(s, m));
  }

  lemma SliceOut(s: seq<nat>, m: nat, d: nat, tail: seq<nat>)
    requires d < m <= |s|
    ensures (s[..m] + tail)[..d] == s[..d] && (s[..m] + tail)[d + 1..] == s[d + 1..m] + tail
  {
  }

  /** From position k on, the elements that differ from the one before. */
  function Firsts(s: seq<nat>, k: nat): seq<nat>
    requires k <= |s|
    decreases |s| - k
  {
    if k == |s| then []
    else (if k > 0 && s[k] == s[k - 1] then [] else [s[k]]) + Firsts(s, k + 1)
  }

  lemma {:induction false} NoRepeats(s: seq<nat>, lo: nat, hi: nat)
    requires lo <= hi <= |s| && forall d :: lo <= d < hi && 0 < d ==> s[d] != s[d - 1]
    ensures Firsts(s, lo) == s[lo..hi] + Firsts(s, hi)
    decreases hi - lo
  {
    if lo < hi {
      NoRepeats(s, lo + 1, hi);
      SliceFirst(s, lo, hi);
      Lists.Associate([s[lo]], s[lo + 1..hi], Firsts(s, hi));
    }
  }

  lemma SliceFirst(s: seq<nat>, lo: nat, hi: nat)
    requires lo < hi <= |s|
    ensures s[lo..hi] == [s[lo]] + s[lo + 1..hi]
  {
  }

  /** In a sorted list the firsts ascend strictly and no value is lost. */
  lemma {:induction false} FirstsAscend(s: seq<nat>, k: nat)
    requires k <= |s| && forall i, j :: 0 <= i < j < |s| ==> s[i] <= s[j]
    ensures forall i, j :: 0 <= i < j < |Firsts(s, k)| ==> Firsts(s, k)[i] < Firsts(s, k)[j]
    ensures forall x :: x in Firsts(s, k) ==> x in s[k..] && (k > 0 ==> s[k - 1] < x)
    ensures forall x :: x in s[k..] ==> x in Firsts(s, k) || (k > 0 && s[k - 1] == x)
    decreases |s| - k
  {
    if k < |s| {
      FirstsAscend(s, k + 1);
      assert s[k..] == [s[k]] + s[k + 1..];
      var tail := Firsts(s, k + 1);
      forall i | 0 <= i < |tail| ensures s[k] < tail[i] {
        assert tail[i] in tail;
      }
    }
  }

  lemma MembersOfPermutation(a: seq<nat>, b: seq<nat>)
    requires multiset(a) == multiset(b)
    ensures forall x :: x in a <==> x in b
  {
    assert forall x :: x in a <==> x in multiset(a);
    assert forall x :: x in b <==> x in multiset(b);
  }
}
