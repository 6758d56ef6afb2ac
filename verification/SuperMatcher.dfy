/** superMatcher with a seed and set matchers: elements accepted by an element matcher go to the results at once,
    the rest is offered to the positional matchers, and popping puts the former back at their own places. */
module SuperMatcher {
  import opened Optional
  import opened SetMatcher

  /** Some element matcher accepts elem. */
  predicate ByElement(filters: seq<Filter>, elem: nat) {
    exists j :: 0 <= j < |filters| && filters[j](elem)
  }

  /** What the set matchers are offered: the elements no element matcher accepted, at their own places. */
  function Offered(filters: seq<Filter>, seed: seq<nat>): (u: seq<Slot>)
    ensures |u| == |seed|
  {
    seq(|seed|, i requires 0 <= i < |seed| => if ByElement(filters, seed[i]) then Gone else Item(seed[i]))
  }

  /** Elements of the seed whose flag is set, in seed order. */
  function Flagged(seed: seq<nat>, flags: seq<bool>): seq<nat>
    requires |flags| == |seed|
  {
    if seed == [] then []
    else
      var n := |seed| - 1;
      Flagged(seed[..n], flags[..n]) + if flags[n] then [seed[n]] else []
  }

  /** Each cell's element is in exactly one of the two arrays. */
  ghost predicate Split(u0: seq<Slot>, u: seq<Slot>, m: seq<Slot>) {
    && |u| == |m| == |u0|
    && forall i :: 0 <= i < |u0| ==> (u[i] == u0[i] && m[i] == Gone) || (u[i] == Gone && m[i] == u0[i])
  }

  /** The arrays between the set matchers: each one's outcome is the next one's input. */
  ghost predicate IsRun(ms: seq<Matcher>, us: seq<seq<Slot>>, rs: seq<seq<Slot>>) {
    && |us| == |rs| == |ms| + 1
    && forall k :: 0 <= k < |ms| ==> Outcome(ms[k], us[k], rs[k], us[k + 1], rs[k + 1])
  }

  lemma OutcomeKeepsSplit(m: Matcher, u0: seq<Slot>, s: seq<Slot>, r: seq<Slot>, s': seq<Slot>, r': seq<Slot>)
    requires Split(u0, s, r) && Outcome(m, s, r, s', r')
    ensures Split(u0, s', r')
  {
    forall i | 0 <= i < |u0|
      ensures (s'[i] == u0[i] && r'[i] == Gone) || (s'[i] == Gone && r'[i] == u0[i])
    {
      assert CellOutcome(m, s, r, s'[i], r'[i], i);
      if Kept(m, s, r, i) {
        KeptHasElement(m, s, r, i);
      }
    }
  }

  /** Only a cell that holds an element can be kept. */
  lemma KeptHasElement(m: Matcher, s: seq<Slot>, r: seq<Slot>, i: nat)
    requires |r| == |s| && i < |s| && Kept(m, s, r, i)
    ensures s[i].Item? || (m.Around? && m.pre.None? && r[i].Item?)
  {
    if m.Around? && m.pre.Some? {
      assert Only(s, m.pre.value)[i].Item?;
    }
  }

  /** The set matchers of all groups, one after the other on the same two arrays. */
  method RunAll(ms: seq<Matcher>, unmatched: array<Slot>, setMatched: array<Slot>)
    returns (ghost us: seq<seq<Slot>>, ghost rs: seq<seq<Slot>>)
    requires unmatched != setMatched && Split(unmatched[..], unmatched[..], setMatched[..])
    modifies unmatched, setMatched
    ensures IsRun(ms, us, rs) && us[0] == old(unmatched[..]) && rs[0] == old(setMatched[..])
    ensures us[|ms|] == unmatched[..] && rs[|ms|] == setMatched[..]
    ensures Split(us[0], unmatched[..], setMatched[..])
  {
    ghost var u0 := unmatched[..];
    us, rs := [unmatched[..]], [setMatched[..]];
    var j := 0;
    while j < |ms|
      invariant 0 <= j <= |ms| && IsRun(ms[..j], us, rs)
      invariant us[0] == u0 && rs[0] == old(setMatched[..])
      invariant us[j] == unmatched[..] && rs[j] == setMatched[..] && Split(u0, unmatched[..], setMatched[..])
    {
      Run(ms[j], unmatched, setMatched);
      OutcomeKeepsSplit(ms[j], u0, us[j], rs[j], unmatched[..], setMatched[..]);
      us, rs := us + [unmatched[..]], rs + [setMatched[..]];
      j := j + 1;
    }
    assert ms[..j] == ms;
  }

  /** Flags of the elements that end up selected. */
  ghost function Selected(filters: seq<Filter>, seed: seq<nat>, m: seq<Slot>): (flags: seq<bool>)
    requires |m| == |seed|
    ensures |flags| == |seed|
  {
    seq(|seed|, i requires 0 <= i < |seed| => ByElement(filters, seed[i]) || m[i].Item?)
  }

  method MatchedByElement(filters: seq<Filter>, elem: nat) returns (matched: bool)
    ensures matched == ByElement(filters, elem)
  {
    var j := 0;
    while j < |filters|
      invariant 0 <= j <= |filters| && forall k :: 0 <= k < j ==> !filters[k](elem)
    {
      if filters[j](elem) {
        return true;
      }
      j := j + 1;
    }
    matched := false;
  }

  /** The cells of setMatched after popping: what set matchers found, and what element matchers found. */
  function Restored(filters: seq<Filter>, seed: seq<nat>, m: seq<Slot>): (r: seq<Slot>)
    requires |m| == |seed|
    ensures |r| == |seed|
  {
    seq(|seed|, i requires 0 <= i < |seed| => if ByElement(filters, seed[i]) then Item(seed[i]) else m[i])
  }

  function ByElementFlags(filters: seq<Filter>, seed: seq<nat>): (flags: seq<bool>)
    ensures |flags| == |seed|
  {
    seq(|seed|, i requires 0 <= i < |seed| => ByElement(filters, seed[i]))
  }

  /** The elements of a list without gaps. */
  method Elems(list: array<Slot>) returns (elems: seq<nat>)
    requires forall k :: 0 <= k < list.Length ==> list[k].Item?
    ensures |elems| == list.Length && forall k :: 0 <= k < list.Length ==> list[k] == Item(elems[k])
  {
    elems := [];
    for k := 0 to list.Length
      invariant |elems| == k && forall l :: 0 <= l < k ==> list[l] == Item(elems[l])
    {
      elems := elems + [list[k].elem];
    }
  }

  lemma OneMore(filters: seq<Filter>, seed: seq<nat>, i: nat)
    requires i < |seed|
    ensures var flags := ByElementFlags(filters, seed);
      Flagged(seed[..i + 1], flags[..i + 1])
        == Flagged(seed[..i], flags[..i]) + if ByElement(filters, seed[i]) then [seed[i]] else []
  {
    var flags := ByElementFlags(filters, seed);
    assert seed[..i + 1][..i] == seed[..i] && flags[..i + 1][..i] == flags[..i];
  }

  /** Put the element matches back into seed order, so that no sort is needed: every free cell takes the last result. */
  method PopBack(filters: seq<Filter>, seed: seq<nat>, before: seq<nat>, results: seq<nat>, matchedCount: nat,
                 unmatched: array<Slot>, setMatched: array<Slot>) returns (rest: seq<nat>)
    requires unmatched != setMatched && Split(Offered(filters, seed), unmatched[..], setMatched[..])
    requires results == before + Flagged(seed, ByElementFlags(filters, seed))
    requires matchedCount == |Flagged(seed, ByElementFlags(filters, seed))|
    modifies setMatched
    ensures rest == before && setMatched[..] == Restored(filters, seed, old(setMatched[..]))
  {
    ghost var flags := ByElementFlags(filters, seed);
    ghost var m := setMatched[..];
    rest := results;
    if matchedCount > 0 {
      var i := |seed|;
      assert seed[..i] == seed && flags[..i] == flags;
      while i > 0
        invariant 0 <= i <= |seed|
        invariant rest == before + Flagged(seed[..i], flags[..i])
        invariant forall k :: 0 <= k < i ==> setMatched[k] == m[k]
        invariant forall k :: i <= k < |seed| ==> setMatched[k] == Restored(filters, seed, m)[k]
      {
        i := i - 1;
        OneMore(filters, seed, i);
        assert unmatched[i].Item? || setMatched[i].Item? <==> !ByElement(filters, seed[i]);
        if !(unmatched[i].Item? || setMatched[i].Item?) {
          setMatched[i] := Item(rest[|rest| - 1]);
          rest := rest[..|rest| - 1];
        }
      }
    } else {
      NothingToPop(filters, seed, m);
    }
  }

  lemma NothingToPop(filters: seq<Filter>, seed: seq<nat>, m: seq<Slot>)
    requires |m| == |seed| && Flagged(seed, ByElementFlags(filters, seed)) == []
    ensures Restored(filters, seed, m) == m
  {
    var flags := ByElementFlags(filters, seed);
    NoneFlagged(seed, flags);
    forall i | 0 <= i < |seed| ensures Restored(filters, seed, m)[i] == m[i] {
      assert flags[i] == ByElement(filters, seed[i]);
    }
  }

  lemma {:induction false} NoneFlagged(seed: seq<nat>, flags: seq<bool>)
    requires |flags| == |seed| && Flagged(seed, flags) == []
    ensures forall i :: 0 <= i < |flags| ==> !flags[i]
    decreases |seed|
  {
    if seed != [] {
      NoneFlagged(seed[..|seed| - 1], flags[..|seed| - 1]);
    }
  }

  /** Pop, discard the placeholders, and add the matches to the results. */
  method Reintegrate(filters: seq<Filter>, seed: seq<nat>, before: seq<nat>, results: seq<nat>, matchedCount: nat,
                     unmatched: array<Slot>, setMatched: array<Slot>) returns (all: seq<nat>)
    requires unmatched != setMatched && Split(Offered(filters, seed), unmatched[..], setMatched[..])
    requires results == before + Flagged(seed, ByElementFlags(filters, seed))
    requires matchedCount == |Flagged(seed, ByElementFlags(filters, seed))|
    modifies setMatched
    ensures all == before + Flagged(seed, Selected(filters, seed, old(setMatched[..])))
  {
    ghost var m := setMatched[..];
    all := PopBack(filters, seed, before, results, matchedCount, unmatched, setMatched);
    ghost var restored := setMatched[..];
    var list, places := Condense(setMatched, None);
    var elems := Elems(list);
    ghost var flags := Selected(filters, seed, m);
    forall i | 0 <= i < |seed| ensures restored[i] == if flags[i] then Item(seed[i]) else Gone {
      assert m[i] == Gone || m[i] == Offered(filters, seed)[i];
    }
    CondensedElems(restored, elems);
    ElemsAreFlagged(seed, restored, flags);
    all := all + elems;
  }

  /** The elements of s in order. */
  function ElemsOf(s: seq<Slot>): seq<nat> {
    if s == [] then []
    else
      var n := |s| - 1;
      ElemsOf(s[..n]) + if s[n].Item? then [s[n].elem] else []
  }

  lemma {:induction false} CondensedElems(s: seq<Slot>, elems: seq<nat>)
    requires |elems| == |Places(s)| && forall k :: 0 <= k < |elems| ==> s[Places(s)[k]].elem == elems[k]
    ensures elems == ElemsOf(s)
    decreases |s|
  {
    if s != [] {
      var n := |s| - 1;
      var p := Places(s[..n]);
      forall k | 0 <= k < |p| ensures s[..n][p[k]].elem == elems[..|p|][k] {
        assert Places(s)[k] == p[k];
      }
      CondensedElems(s[..n], elems[..|p|]);
      if s[n].Item? {
        assert Places(s)[|p|] == n && elems == elems[..|p|] + [elems[|p|]];
      } else {
        assert elems == elems[..|p|];
      }
    }
  }

  lemma {:induction false} ElemsAreFlagged(seed: seq<nat>, cells: seq<Slot>, flags: seq<bool>)
    requires |cells| == |flags| == |seed|
    requires forall i :: 0 <= i < |cells| ==> cells[i] == if flags[i] then Item(seed[i]) else Gone
    ensures ElemsOf(cells) == Flagged(seed, flags)
    decreases |seed|
  {
    if seed != [] {
      var n := |seed| - 1;
      ElemsAreFlagged(seed[..n], cells[..n], flags[..n]);
    }
  }

  lemma {:induction false} AllFlagged(seed: seq<nat>, flags: seq<bool>)
    requires |flags| == |seed|
    ensures |Flagged(seed, flags)| <= |seed|
    ensures |Flagged(seed, flags)| == |seed| ==> forall i :: 0 <= i < |flags| ==> flags[i]
    decreases |seed|
  {
    if seed != [] {
      AllFlagged(seed[..|seed| - 1], flags[..|seed| - 1]);
    }
  }

  /** When every element has been accepted already, the set matchers would find nothing. */
  lemma NothingToDo(m: Matcher, n: nat)
    ensures Outcome(m, Blank(n), Blank(n), Blank(n), Blank(n))
  {
    forall i | 0 <= i < n ensures !Kept(m, Blank(n), Blank(n), i) {
      if Kept(m, Blank(n), Blank(n), i) {
        KeptHasElement(m, Blank(n), Blank(n), i);
      }
    }
  }

  /** The loop over the seed: what the element matchers accept goes to the results, the rest is left for the set
      matchers. */
  method Visit(filters: seq<Filter>, seed: seq<nat>, before: seq<nat>, unmatched: array<Slot>)
    returns (results: seq<nat>, matchedCount: int)
    requires unmatched[..] == Blank(|seed|)
    modifies unmatched
    ensures unmatched[..] == Offered(filters, seed)
    ensures results == before + Flagged(seed, ByElementFlags(filters, seed))
    ensures matchedCount == |Flagged(seed, ByElementFlags(filters, seed))|
  {
    matchedCount := 0;
    results := before;
    ghost var flags := ByElementFlags(filters, seed);
    var i := 0;
    while i < |seed|
      invariant 0 <= i <= |seed|
      invariant forall k :: 0 <= k < |seed| ==> unmatched[k] == if k < i then Offered(filters, seed)[k] else Gone
      invariant results == before + Flagged(seed[..i], flags[..i])
      invariant matchedCount + i == |Flagged(seed[..i], flags[..i])|
    {
      var elem := seed[i];
      var matched := MatchedByElement(filters, elem);
      OneMore(filters, seed, i);
      if matched {
        results := results + [elem];
      } else {
        matchedCount := matchedCount - 1;
        unmatched[i] := Item(elem);
      }
      i := i + 1;
    }
    matchedCount := matchedCount + i;
    assert seed[..i] == seed && flags[..i] == flags;
  }

  /** superMatcher appends to the results the selected elements, each once and in seed order. */
  method Filter(filters: seq<Filter>, ms: seq<Matcher>, seed: seq<nat>, before: seq<nat>)
    returns (results: seq<nat>, ghost us: seq<seq<Slot>>, ghost rs: seq<seq<Slot>>)
    requires |ms| > 0
    ensures IsRun(ms, us, rs) && us[0] == Offered(filters, seed) && rs[0] == Blank(|seed|)
    ensures Split(us[0], us[|ms|], rs[|ms|])
    ensures results == before + Flagged(seed, Selected(filters, seed, rs[|ms|]))
  {
    var unmatched := new Slot[|seed|](_ => Gone);
    var setMatched := new Slot[|seed|](_ => Gone);
    var matchedCount;
    results, matchedCount := Visit(filters, seed, before, unmatched);
    // with an empty seed i is still the string "0", which differs from the "00" in matchedCount
    if |seed| != matchedCount || |seed| == 0 {
      us, rs := RunAll(ms, unmatched, setMatched);
      results := Reintegrate(filters, seed, before, results, matchedCount, unmatched, setMatched);
    } else {
      us, rs := AllByElement(filters, ms, seed);
    }
  }

  /** Then the set matchers need not run. */
  lemma AllByElement(filters: seq<Filter>, ms: seq<Matcher>, seed: seq<nat>) returns (us: seq<seq<Slot>>,
      rs: seq<seq<Slot>>)
    requires |Flagged(seed, ByElementFlags(filters, seed))| == |seed| && |ms| > 0
    ensures IsRun(ms, us, rs) && us[0] == Offered(filters, seed) && rs[0] == Blank(|seed|)
    ensures Split(us[0], us[|ms|], rs[|ms|]) && Selected(filters, seed, rs[|ms|]) == ByElementFlags(filters, seed)
  {
    var byElement := ByElementFlags(filters, seed);
    AllFlagged(seed, byElement);
    assert forall k :: 0 <= k < |seed| ==> byElement[k] && Offered(filters, seed)[k] == Gone;
    assert Offered(filters, seed) == Blank(|seed|);
    us, rs := seq(|ms| + 1, _ => Blank(|seed|)), seq(|ms| + 1, _ => Blank(|seed|));
    forall k | 0 <= k < |ms| ensures Outcome(ms[k], us[k], rs[k], us[k + 1], rs[k + 1]) {
      NothingToDo(ms[k], |seed|);
    }
    assert Selected(filters, seed, rs[|ms|]) == byElement;
  }

  // ----- which elements that is

  /** A set matcher that keeps what earlier ones have found. */
  predicate Keeps(m: Matcher) {
    m.Wrapped? || m.pre.Some? || m.post.None?
  }

  /** If every set matcher keeps earlier finds, an element is selected exactly if an element matcher accepts it or
      some set matcher, at its turn, keeps it. */
  lemma {:induction false} SelectedBySome(ms: seq<Matcher>, us: seq<seq<Slot>>, rs: seq<seq<Slot>>, i: nat)
    requires IsRun(ms, us, rs) && i < |us[0]| == |rs[0]| && rs[0][i] == Gone && Split(us[0], us[0], rs[0])
    requires forall k :: 0 <= k < |ms| ==> Keeps(ms[k])
    ensures Split(us[0], us[|ms|], rs[|ms|])
    ensures rs[|ms|][i].Item? <==>
      exists k :: 0 <= k < |ms| && |rs[k]| == |us[k]| == |us[0]| && Kept(ms[k], us[k], rs[k], i)
    decreases |ms|
  {
    if ms != [] {
      var n := |ms| - 1;
      assert IsRun(ms[..n], us[..|ms|], rs[..|ms|]);
      SelectedBySome(ms[..n], us[..|ms|], rs[..|ms|], i);
      OutcomeKeepsSplit(ms[n], us[0], us[n], rs[n], us[n + 1], rs[n + 1]);
      assert CellOutcome(ms[n], us[n], rs[n], us[n + 1][i], rs[n + 1][i], i);
      if Kept(ms[n], us[n], rs[n], i) {
        KeptHasElement(ms[n], us[n], rs[n], i);
      } else if rs[n][i].Item? {
        StillKept(ms[n], us[n], rs[n], i);
      }
    }
  }

  lemma StillKept(m: Matcher, s: seq<Slot>, r: seq<Slot>, i: nat)
    requires |s| == |r| && i < |s| && r[i].Item? && Keeps(m)
    ensures m.Around? && m.pre.None? ==> Kept(m, s, r, i)
  {
  }

  /** ":first.a, :last" on two elements of which only the first has the class. The groups' matchers run from the last
      to the first: ":last" takes the second element, and ":first.a" throws it out again. */
  lemma LastIsLost(hasA: Filter, us: seq<seq<Slot>>, rs: seq<seq<Slot>>)
    requires hasA(0) && !hasA(1)
    requires IsRun([Around(None, Last, None), Around(None, First, Some(Wrapped(hasA)))], us, rs)
    requires us[0] == [Item(0), Item(1)] && rs[0] == [Gone, Gone]
    ensures rs[1] == [Gone, Item(1)] && rs[2] == [Item(0), Gone] && us[2] == [Gone, Item(1)]
  {
    assert Blank(2) == [Gone, Gone];
    SplitsSeed(None, Last, None, us[0], us[1], rs[1], 0);
    SplitsSeed(None, Last, None, us[0], us[1], rs[1], 1);
    assert us[1] == [Item(0), Gone] && rs[1] == [Gone, Item(1)];
    FirstDropsLast(hasA, us[2], rs[2]);
  }
}
