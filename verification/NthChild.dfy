/** :nth-child and its relatives: finding an element's 1-based index among its siblings, with the caches that
    the forward search keeps on the parent and the backward search keeps on every element it passes. */
module NthChild {
  import opened Optional

  /** A child node as the search sees it; name is the lower-case nodeName. */
  datatype Child = Child(isElement: bool, name: string)

  type Children = seq<Child>

  /** Without ofType every element counts, with it every node of that name. */
  predicate Counts(c: Child, ofType: Option<string>) {
    match ofType
    case None => c.isElement
    case Some(name) => c.name == name
  }

  /** The number of nodes that count. */
  function Count(nodes: Children, ofType: Option<string>): nat {
    if nodes == [] then 0
    else Count(nodes[..|nodes| - 1], ofType) + if Counts(nodes[|nodes| - 1], ofType) then 1 else 0
  }

  lemma {:induction false} CountSplits(nodes: Children, ofType: Option<string>, i: nat)
    requires i <= |nodes|
    ensures Count(nodes, ofType) == Count(nodes[..i], ofType) + Count(nodes[i..], ofType)
    decreases |nodes|
  {
    if i == |nodes| {
      assert nodes[..i] == nodes;
    } else {
      var n := |nodes| - 1;
      CountSplits(nodes[..n], ofType, i);
      assert nodes[..n][..i] == nodes[..i] && nodes[..n][i..] == nodes[i..][..n - i];
    }
  }

  /** Going forwards: one more node at the back. */
  lemma CountBack(nodes: Children, ofType: Option<string>, i: nat)
    requires i < |nodes|
    ensures Count(nodes[..i + 1], ofType) == Count(nodes[..i], ofType) + if Counts(nodes[i], ofType) then 1 else 0
  {
    assert nodes[..i + 1][..i] == nodes[..i];
  }

  /** Going backwards: one more node at the front. */
  lemma CountFront(nodes: Children, ofType: Option<string>, i: nat, j: nat)
    requires i < j <= |nodes|
    ensures Count(nodes[i..j], ofType) == Count(nodes[i + 1..j], ofType) + if Counts(nodes[i], ofType) then 1 else 0
  {
    var s := nodes[i..j];
    CountSplits(s, ofType, 1);
    assert s[..1] == [nodes[i]] && s[1..] == nodes[i + 1..j];
    assert [nodes[i]][..0] == [];
  }

  /** The 1-based position that :nth-child and :nth-of-type speak of. */
  function Index(nodes: Children, ofType: Option<string>, e: nat): nat
    requires e < |nodes|
  {
    Count(nodes[..e + 1], ofType)
  }

  /** The position counted from the end, for :nth-last-child and :nth-last-of-type. */
  function LastIndex(nodes: Children, ofType: Option<string>, e: nat): nat
    requires e < |nodes|
  {
    Count(nodes[e..], ofType)
  }

  /** Counting a stretch of children gives the size of a set of indices: of the elements, or of the nodes of a name. */
  lemma {:induction false} ElementsAreSize(nodes: Children, from: nat, end: nat)
    requires from <= end <= |nodes|
    ensures Count(nodes[from..end], None) == |set j | from <= j < end && nodes[j].isElement|
    decreases end
  {
    if from < end {
      var n := end - 1;
      ElementsAreSize(nodes, from, n);
      assert nodes[from..end][..n - from] == nodes[from..n];
      assert (set j | from <= j < end && nodes[j].isElement)
        == (set j | from <= j < n && nodes[j].isElement) + if nodes[n].isElement then {n} else {};
    } else {
      assert nodes[from..end] == [];
    }
  }

  lemma {:induction false} NamesAreSize(nodes: Children, name: string, from: nat, end: nat)
    requires from <= end <= |nodes|
    ensures Count(nodes[from..end], Some(name)) == |set j | from <= j < end && nodes[j].name == name|
    decreases end
  {
    if from < end {
      var n := end - 1;
      NamesAreSize(nodes, name, from, n);
      assert nodes[from..end][..n - from] == nodes[from..n];
      assert (set j | from <= j < end && nodes[j].name == name)
        == (set j | from <= j < n && nodes[j].name == name) + if nodes[n].name == name then {n} else {};
    } else {
      assert nodes[from..end] == [];
    }
  }

  /** The positions count elements, or nodes of a name, up to the child or from it on. */
  lemma PositionsAreSizes(nodes: Children, e: nat)
    requires e < |nodes|
    ensures Index(nodes, None, e) == |set j | 0 <= j <= e && nodes[j].isElement|
    ensures LastIndex(nodes, None, e) == |set j | e <= j < |nodes| && nodes[j].isElement|
    ensures forall name :: Index(nodes, Some(name), e) == |set j | 0 <= j <= e && nodes[j].name == name|
    ensures forall name :: LastIndex(nodes, Some(name), e) == |set j | e <= j < |nodes| && nodes[j].name == name|
  {
    assert nodes[0..e + 1] == nodes[..e + 1] && nodes[e..|nodes|] == nodes[e..];
    assert (set j | 0 <= j < e + 1 && nodes[j].isElement) == (set j | 0 <= j <= e && nodes[j].isElement);
    ElementsAreSize(nodes, 0, e + 1);
    ElementsAreSize(nodes, e, |nodes|);
    forall name
      ensures Index(nodes, Some(name), e) == |set j | 0 <= j <= e && nodes[j].name == name|
      ensures LastIndex(nodes, Some(name), e) == |set j | e <= j < |nodes| && nodes[j].name == name|
    {
      NamesAreSize(nodes, name, 0, e + 1);
      NamesAreSize(nodes, name, e, |nodes|);
      assert (set j | 0 <= j < e + 1 && nodes[j].name == name) == (set j | 0 <= j <= e && nodes[j].name == name);
    }
  }

  datatype Found = Found(run: nat, nodeIndex: nat, diff: nat)

  datatype Seen = Seen(run: nat, diff: nat)

  /** What the backward search answers for element e when the first element asked about in this run was p. */
  function LastAnswer(nodes: Children, p: nat, e: nat): nat
    requires p < |nodes| && e < |nodes|
  {
    if e >= p then LastIndex(nodes, None, e) else Count(nodes[e..p], None)
  }

  /** Moving one node to the left adds one if that node is an element. */
  lemma LastAnswerStep(nodes: Children, p: nat, e: nat)
    requires p < |nodes| && e < |nodes|
    ensures LastAnswer(nodes, p, e) ==
      (if e + 1 == p || e + 1 == |nodes| then 0 else LastAnswer(nodes, p, e + 1)) + if nodes[e].isElement then 1 else 0
  {
    var end := if e < p then p else |nodes|;
    CountFront(nodes, None, e, end);
    assert nodes[e..|nodes|] == nodes[e..] && nodes[e + 1..|nodes|] == nodes[e + 1..];
    assert nodes[end..end] == [];
  }

  /** The elements in a range carry the answers of a search of this run that was first asked about p. */
  ghost predicate Left(nodes: Children, onChild: map<nat, Seen>, run: nat, from: nat, to: nat, p: nat)
    requires to <= |nodes| && p < |nodes|
  {
    forall e: nat :: from <= e < to && nodes[e].isElement ==> HasAnswer(nodes, onChild, run, p, e)
  }

  ghost predicate HasAnswer(nodes: Children, onChild: map<nat, Seen>, run: nat, p: nat, e: nat)
    requires p < |nodes| && e < |nodes|
  {
    e in onChild && onChild[e] == Seen(run, LastAnswer(nodes, p, e))
  }

  /** One more element is given its answer. */
  lemma LeftOneMore(nodes: Children, onChild: map<nat, Seen>, run: nat, node: nat, to: nat, p: nat, diff: nat)
    requires node < to <= |nodes| && p < |nodes| && Left(nodes, onChild, run, node + 1, to, p)
    requires nodes[node].isElement ==> diff == LastAnswer(nodes, p, node)
    ensures if nodes[node].isElement then Left(nodes, onChild[node := Seen(run, diff)], run, node, to, p)
      else Left(nodes, onChild, run, node, to, p)
  {
  }

  lemma LeftElsewhere(nodes: Children, onChild: map<nat, Seen>, run: nat, to: nat, p: nat, node: nat, seen: Seen)
    requires to <= node < |nodes| && p < |nodes| && Left(nodes, onChild, run, 0, to, p)
    ensures Left(nodes, onChild[node := seen], run, 0, to, p)
  {
  }

  lemma LeftEverywhere(nodes: Children, onChild: map<nat, Seen>, run: nat, p: nat)
    requires p < |nodes| && Left(nodes, onChild, run, 0, p, p) && Left(nodes, onChild, run, p, |nodes|, p)
    ensures Left(nodes, onChild, run, 0, |nodes|, p)
  {
  }

  /** The children of one parent with the cached positions of the current run. */
  class Siblings {
    var nodes: Children
    var dirruns: nat
    var onParent: Option<Found>       // uniqueCache["nth"] of the parent
    var onChild: map<nat, Seen>       // uniqueCache["nth-last"] of each child
    ghost var firstAsked: Option<nat> // the first child the backward search was asked about in this run

    constructor (nodes: Children)
      ensures Valid() && this.nodes == nodes && firstAsked == None
    {
      this.nodes, dirruns, onParent, onChild, firstAsked := nodes, 0, None, map[], None;
    }

    ghost predicate Valid()
      reads this
    {
      ParentCacheValid() && ChildCachesValid()
    }

    ghost predicate ParentCacheValid()
      reads this`nodes, this`dirruns, this`onParent
    {
      onParent.Some? ==>
        var c := onParent.value;
        c.run <= dirruns && (c.run == dirruns ==> c.nodeIndex < |nodes| && c.diff == Index(nodes, None, c.nodeIndex))
    }

    ghost predicate ChildCachesValid()
      reads this`nodes, this`dirruns, this`onChild, this`firstAsked
    {
      && (forall e :: e in onChild ==> onChild[e].run <= dirruns)
      && if firstAsked.None? then forall e :: e in onChild ==> onChild[e].run < dirruns
         else AnswersFrom(firstAsked.value)
    }

    ghost predicate AnswersFrom(p: nat)
      reads this`nodes, this`dirruns, this`onChild
    {
      p < |nodes| && nodes[p].isElement && Left(nodes, onChild, dirruns, 0, |nodes|, p)
    }

    /** A new outermost run; the children may have changed in between. */
    method NewRun(current: Children)
      requires Valid()
      modifies this
      ensures Valid() && nodes == current && firstAsked == None
    {
      nodes, dirruns, firstAsked := current, dirruns + 1, None;
    }

    /** :nth-child(...): seek elem from the position found last, wrapping around to the first child. */
    method Forward(elem: nat) returns (diff: nat)
      requires ParentCacheValid() && elem < |nodes| && nodes[elem].isElement
      modifies this`onParent
      ensures ParentCacheValid() && diff == Index(nodes, None, elem)
      ensures diff == |set j | 0 <= j <= elem && nodes[j].isElement|
    {
      var node, nodeIndex := -1, 0;
      var start := true;  // the list [ parent.firstChild ] has not been used up
      diff := 0;
      if onParent.Some? && onParent.value.run == dirruns && onParent.value.nodeIndex != 0 {
        nodeIndex, diff, node := onParent.value.nodeIndex, onParent.value.diff, onParent.value.nodeIndex;
      }
      while true
        invariant -1 <= node < |nodes| && (node == -1 ==> start)
        invariant node != -1 ==> nodeIndex == node && diff == Index(nodes, None, node)
        invariant !start ==> node < elem
        decreases start, |nodes| - node
      {
        nodeIndex := nodeIndex + 1;
        node := if node != -1 && node + 1 < |nodes| then node + 1 else -1;
        if node == -1 {
          diff, nodeIndex, node, start := 0, 0, 0, false;
          assert nodes[..0] == [];
        }
        CountBack(nodes, None, node);
        if nodes[node].isElement {
          diff := diff + 1;
          if node == elem {
            onParent := Some(Found(dirruns, nodeIndex, diff));
            PositionsAreSizes(nodes, elem);
            return;
          }
        }
      }
    }

    /** :nth-last-child(...): the search starts at elem's own previous sibling and only then at the last child;
        every element passed is given the count reached. */
    method Backward(elem: nat) returns (diff: nat)
      requires ChildCachesValid() && elem < |nodes| && nodes[elem].isElement
      modifies this`onChild, this`firstAsked
      ensures ChildCachesValid() && firstAsked == (if old(firstAsked).None? then Some(elem) else old(firstAsked))
      ensures diff == LastAnswer(nodes, firstAsked.value, elem)
    {
      if elem in onChild && onChild[elem].run == dirruns {
        assert firstAsked.Some? && HasAnswer(nodes, onChild, dirruns, firstAsked.value, elem);
        diff := onChild[elem].diff;
        return;
      }
      var node, start := elem, true;
      diff := 0;
      while true
        invariant 0 <= node < |nodes| && if start then node <= elem else elem < node
        invariant diff == if node == elem then 0 else LastAnswer(nodes, elem, node)
        invariant forall e :: e in onChild ==> onChild[e].run <= dirruns
        invariant Left(nodes, onChild, dirruns, node, if start then elem else |nodes|, elem)
        invariant !start ==> Left(nodes, onChild, dirruns, 0, elem, elem)
        decreases start, node
      {
        if node > 0 {
          node := node - 1;
        } else {
          diff, node, start := 0, |nodes| - 1, false;
        }
        LastAnswerStep(nodes, elem, node);
        LeftOneMore(nodes, onChild, dirruns, node, if start then elem else |nodes|, elem, diff + 1);
        if nodes[node].isElement {
          diff := diff + 1;
          if !start {
            LeftElsewhere(nodes, onChild, dirruns, elem, elem, node, Seen(dirruns, diff));
          }
          onChild := onChild[node := Seen(dirruns, diff)];
          if node == elem {
            LeftEverywhere(nodes, onChild, dirruns, elem);
            firstAsked := Some(elem);
            return;
          }
        }
      }
    }

    /** The of-type forms keep no cache and count from the end they name. */
    method OfType(elem: nat, forward: bool) returns (diff: nat)
      requires elem < |nodes|
      ensures var what := Some(nodes[elem].name);
        diff == if forward then Index(nodes, what, elem) else LastIndex(nodes, what, elem)
      ensures var name := nodes[elem].name;
        if forward then diff == |set j | 0 <= j <= elem && nodes[j].name == name|
        else diff == |set j | elem <= j < |nodes| && nodes[j].name == name|
    {
      var what := Some(nodes[elem].name);
      var node := if forward then 0 else |nodes| - 1;
      diff := 0;
      assert nodes[..0] == [] && nodes[|nodes|..] == [];
      while true
        invariant 0 <= node < |nodes| && if forward then node <= elem else elem <= node
        invariant diff == Count(if forward then nodes[..node] else nodes[node + 1..], what)
        decreases if forward then elem - node else node - elem
      {
        if forward {
          CountBack(nodes, what, node);
        } else {
          CountFront(nodes, what, node, |nodes|);
          assert nodes[node..|nodes|] == nodes[node..] && nodes[node + 1..|nodes|] == nodes[node + 1..];
        }
        if Counts(nodes[node], what) {
          diff := diff + 1;
          if node == elem {
            PositionsAreSizes(nodes, elem);
            return;
          }
        }
        node := if forward then node + 1 else node - 1;
      }
    }
  }

  // ----- when the backward search is right

  /** The backward search answers correctly exactly for elements not before the first one it was asked about. */
  lemma BackwardIsRightFromFirstAsked(nodes: Children, p: nat, e: nat)
    requires p < |nodes| && e < |nodes| && nodes[p].isElement && nodes[e].isElement
    ensures LastAnswer(nodes, p, e) == LastIndex(nodes, None, e) <==> p <= e
  {
    if e < p {
      // the element first asked about is left out of the wrong count
      CountSplits(nodes[e..], None, p - e);
      assert nodes[e..][..p - e] == nodes[e..p] && nodes[e..][p - e..] == nodes[p..];
      CountFront(nodes, None, p, |nodes|);
      assert nodes[p..|nodes|] == nodes[p..];
    }
  }

  /** Among the children b, b and p the second is asked about first, as it is by "b:nth-last-child(3) ~ p", which
      looks at the siblings before p from the nearest on. The first child, the third from the end, then gets the
      answer 1. */
  lemma ThirdFromEndIsLost()
    ensures var e, p := Child(true, "b"), Child(true, "p");
      LastAnswer([e, e, p], 1, 0) == 1 && LastIndex([e, e, p], None, 0) == 3
  {
    var e, p := Child(true, "b"), Child(true, "p");
    var nodes := [e, e, p];
    assert nodes[0..] == nodes && nodes[..1] == [e] && nodes[0..1] == [e] && nodes[1..] == [e, p];
    CountSplits([e, e, p], None, 1);
    CountSplits([e, p], None, 1);
    assert [e, p][..1] == [e] && [e, p][1..] == [p];
  }

  // ----- the final test

  /** The number reached, less the offset, is compared with the cycle size; JavaScript's remainder by zero is NaN
      and never equals 0. */
  predicate NthTest(index: int, first: int, last: int) {
    var diff := index - last;
    diff == first || (first != 0 && diff % first == 0 && (diff as real) / (first as real) >= 0.0)
  }

  /** an+b matches index i iff i = a*n + b for some n >= 0 (Selectors Level 3, section 6.6.5.2). */
  ghost predicate InCycle(index: int, first: int, last: int) {
    exists n: nat :: Cycle(first, n, last) == index
  }

  function Cycle(first: int, n: nat, last: int): int {
    first * n + last
  }

  lemma NthTestIsCycle(index: int, first: int, last: int)
    ensures NthTest(index, first, last) <==> InCycle(index, first, last)
  {
    if n: nat :| Cycle(first, n, last) == index {
      CyclePasses(first, n, last);
    }
    if NthTest(index, first, last) {
      PassingIsInCycle(index, first, last);
    }
  }

  lemma CyclePasses(first: int, n: nat, last: int)
    ensures NthTest(Cycle(first, n, last), first, last)
  {
    if first != 0 {
      QuotientOf(first, n);
    }
  }

  lemma PassingIsInCycle(index: int, first: int, last: int)
    requires NthTest(index, first, last)
    ensures InCycle(index, first, last)
  {
    var diff := index - last;
    if diff == first {
      assert Cycle(first, 1, last) == index;
    } else {
      var n := diff / first;
      assert diff == first * n;
      QuotientOf(first, n);
      assert n >= 0;
      assert Cycle(first, n, last) == index;
    }
  }

  lemma QuotientOf(first: int, n: int)
    requires first != 0
    ensures first * n % first == 0 && ((first * n) as real) / (first as real) == n as real
  {
    assert (first * n) as real == (first as real) * (n as real);
    Divides(first, n);
  }

  lemma Divides(first: int, n: int)
    requires first != 0
    ensures first * n % first == 0
  {
    var q, r := first * n / first, first * n % first;
    assert r == first * (n - q);
    if n - q >= 1 {
      AtLeastOne(first, n - q);
    } else if n - q <= -1 {
      AtLeastOne(first, q - n);
    }
  }

  lemma AtLeastOne(first: int, d: int)
    requires first != 0 && d >= 1
    ensures if first > 0 then first * d >= first else first * d <= first
  {
  }
}
