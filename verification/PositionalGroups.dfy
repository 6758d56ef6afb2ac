/** A selector list given to superMatcher with a seed, its positional groups seen against the whole seed: when what is
    selected is what some group, read alone, selects. Groups that have taken elements away shift the positions that
    the next one counts. */
module PositionalGroups {
  import opened Optional
  import opened SetMatcher
  import opened SuperMatcher

  /** A positional group without its position: what stands before the positional pseudo, and what behind it. */
  datatype Shape = Shape(pre: Option<Filter>, post: Option<Filter>)

  function MatcherOf(g: Shape, pos: Positional): Matcher {
    Around(g.pre, pos, PostOf(g.post))
  }

  /** The set matchers in the order in which they run. */
  function MatchersOf(shapes: seq<Shape>, positions: seq<Positional>): (ms: seq<Matcher>)
    requires |positions| == |shapes|
    ensures |ms| == |shapes|
  {
    seq(|shapes|, k requires 0 <= k < |shapes| => MatcherOf(shapes[k], positions[k]))
  }

  function Whole(seed: seq<nat>): (s: seq<Slot>)
    ensures |s| == |seed|
  {
    seq(|seed|, i requires 0 <= i < |seed| => Item(seed[i]))
  }

  /** Flags of the elements that some group, applied to the whole seed, selects. */
  ghost function InSomeGroup(filters: seq<Filter>, ms: seq<Matcher>, seed: seq<nat>): (flags: seq<bool>)
    ensures |flags| == |seed|
  {
    seq(|seed|, i requires 0 <= i < |seed| => ByElement(filters, seed[i]) || PickedBySome(ms, seed, i))
  }

  ghost predicate PickedBySome(ms: seq<Matcher>, seed: seq<nat>, i: nat) {
    exists k :: 0 <= k < |ms| && Picked(ms[k], Whole(seed), i)
  }

  /** A run such as Filter makes. */
  ghost predicate IsRunOver(filters: seq<Filter>, ms: seq<Matcher>, seed: seq<nat>, us: seq<seq<Slot>>,
      rs: seq<seq<Slot>>) {
    IsRun(ms, us, rs) && us[0] == Offered(filters, seed) && rs[0] == Blank(|seed|)
  }

  /** What is selected is what some group selects, wherever the positions are. */
  ghost predicate IsUnion(filters: seq<Filter>, shapes: seq<Shape>, seed: seq<nat>) {
    forall positions, us, rs :: |positions| == |shapes| ==> IsUnionAt(filters, shapes, seed, positions, us, rs)
  }

  ghost predicate IsUnionAt(filters: seq<Filter>, shapes: seq<Shape>, seed: seq<nat>, positions: seq<Positional>,
      us: seq<seq<Slot>>, rs: seq<seq<Slot>>)
    requires |positions| == |shapes|
  {
    IsRunOver(filters, MatchersOf(shapes, positions), seed, us, rs) && |rs[|shapes|]| == |seed| ==>
      Selected(filters, seed, rs[|shapes|]) == InSomeGroup(filters, MatchersOf(shapes, positions), seed)
  }

  // ----- the condition

  /** No element matcher takes elem, and with some position the group would. */
  predicate Takes(filters: seq<Filter>, g: Shape, elem: nat) {
    !ByElement(filters, elem) && Tested(g.pre, elem) && Tested(g.post, elem)
  }

  /** elem may be gone when matcher k has its turn. */
  predicate MayBeGone(filters: seq<Filter>, shapes: seq<Shape>, k: nat, elem: nat)
    requires k <= |shapes|
  {
    ByElement(filters, elem) || TakenBefore(filters, shapes, k, elem)
  }

  predicate TakenBefore(filters: seq<Filter>, shapes: seq<Shape>, k: nat, elem: nat)
    requires k <= |shapes|
  {
    exists j :: 0 <= j < k && Takes(filters, shapes[j], elem)
  }

  /** With a preFilter: an element that may be gone passes it only if it is all that the group could take. Without:
      everything that may have been found before passes the post filter, which is asked about it again. */
  predicate Undisturbed(filters: seq<Filter>, shapes: seq<Shape>, seed: seq<nat>, k: nat)
    requires k < |shapes|
  {
    if shapes[k].pre.Some? then
      forall x, i :: 0 <= x < |seed| && 0 <= i < |seed| ==> !Disturbs(filters, shapes, seed, k, x, i)
    else
      forall x :: 0 <= x < |seed| && TakenBefore(filters, shapes, k, seed[x]) ==> Tested(shapes[k].post, seed[x])
  }

  /** Element x, gone before matcher k has its turn, would shift the position of element i. */
  predicate Disturbs(filters: seq<Filter>, shapes: seq<Shape>, seed: seq<nat>, k: nat, x: nat, i: nat)
    requires k < |shapes| && x < |seed| && i < |seed|
  {
    x != i && Tested(shapes[k].pre, seed[x]) && MayBeGone(filters, shapes, k, seed[x])
    && Takes(filters, shapes[k], seed[i])
  }

  predicate AllUndisturbed(filters: seq<Filter>, shapes: seq<Shape>, seed: seq<nat>) {
    forall k :: 0 <= k < |shapes| ==> Undisturbed(filters, shapes, seed, k)
  }

  // ----- positions among what is left

  /** u is u0 with some cells blanked. */
  ghost predicate LeftOf(u: seq<Slot>, u0: seq<Slot>) {
    |u| == |u0| && forall i :: 0 <= i < |u| ==> u[i] == u0[i] || u[i] == Gone
  }

  /** How many elements there are. */
  function Count(s: seq<Slot>): nat {
    if s == [] then 0 else Count(s[..|s| - 1]) + if s[|s| - 1].Item? then 1 else 0
  }

  lemma {:induction false} CountIsPlaces(s: seq<Slot>)
    ensures Count(s) == |Places(s)|
    decreases |s|
  {
    if s != [] {
      CountIsPlaces(s[..|s| - 1]);
    }
  }

  lemma {:induction false} CountSplit(a: seq<Slot>, b: seq<Slot>)
    ensures Count(a + b) == Count(a) + Count(b)
    decreases |b|
  {
    if b == [] {
      assert a + b == a;
    } else {
      var n := |b| - 1;
      assert (a + b)[..|a + b| - 1] == a + b[..n];
      CountSplit(a, b[..n]);
    }
  }

  lemma {:induction false} CountLeft(a: seq<Slot>, b: seq<Slot>)
    requires LeftOf(a, b)
    ensures Count(a) <= Count(b)
    decreases |a|
  {
    if a != [] {
      CountLeft(a[..|a| - 1], b[..|b| - 1]);
    }
  }

  /** Blanking an element leaves fewer. */
  lemma CountLess(a: seq<Slot>, b: seq<Slot>, x: nat)
    requires LeftOf(a, b) && x < |a| && a[x].Gone? && b[x].Item?
    ensures Count(a) < Count(b)
  {
    CountLeft(a[..x], b[..x]);
    CountLeft(a[x + 1..], b[x + 1..]);
    CountOne(a, x);
    CountOne(b, x);
  }

  lemma CountOne(s: seq<Slot>, x: nat)
    requires x < |s|
    ensures Count(s) == Count(s[..x]) + (if s[x].Item? then 1 else 0) + Count(s[x + 1..])
  {
    assert s == s[..x + 1] + s[x + 1..];
    CountSplit(s[..x + 1], s[x + 1..]);
    assert s[..x + 1][..x] == s[..x];
  }

  /** Counted from one end or the other, an element that is left stands elsewhere in the whole. */
  lemma CountShifts(a: seq<Slot>, b: seq<Slot>, x: nat, i: nat)
    requires LeftOf(a, b) && x < |a| && a[x].Gone? && b[x].Item? && i < |a| && a[i].Item?
    ensures if x < i then Count(a[..i]) < Count(b[..i]) else Count(a) - Count(a[..i]) < Count(b) - Count(b[..i])
  {
    if x < i {
      CountLess(a[..i], b[..i], x);
    } else {
      assert a == a[..i] + a[i..] && b == b[..i] + b[i..];
      CountSplit(a[..i], a[i..]);
      CountSplit(b[..i], b[i..]);
      CountLess(a[i..], b[i..], x - i);
    }
  }

  /** If something was taken, an element that is left is told apart by a position. */
  lemma PositionShifts(a: seq<Slot>, b: seq<Slot>, x: nat, i: nat) returns (pos: Positional)
    requires LeftOf(a, b) && x < |a| && a[x].Gone? && b[x].Item? && i < |a| && a[i].Item?
    ensures Chosen(pos, |Places(a)|, Rank(a, i)) && !Chosen(pos, |Places(b)|, Rank(b, i))
  {
    CountIsPlaces(a);
    CountIsPlaces(b);
    CountIsPlaces(a[..i]);
    CountIsPlaces(b[..i]);
    CountShifts(a, b, x, i);
    PlaceOfRank(a, i);
    pos := if x < i then Eq(Rank(a, i)) else Eq(Rank(a, i) - |Places(a)|);
  }

  /** When a preFilter group sees the same positions among what is left as in the whole: exactly if nothing that was
      taken passes its preFilter, or nothing that is left does. */
  lemma PositionsStay(pre: Filter, u: seq<Slot>, u0: seq<Slot>)
    requires LeftOf(u, u0)
    ensures SamePositions(pre, u, u0) <==> NonePasses(pre, u0, u) || NoneLeft(pre, u)
  {
    if !NonePasses(pre, u0, u) && !NoneLeft(pre, u) {
      var x :| 0 <= x < |u| && u[x].Gone? && u0[x].Item? && pre(u0[x].elem);
      var i :| 0 <= i < |u| && u[i].Item? && pre(u[i].elem);
      var pos := ShiftShows(pre, u, u0, x, i);
    } else {
      forall pos, i: nat | i < |u| && u[i].Item? ensures SamePosition(pre, u, u0, pos, i) {
        StaysWhere(pre, u, u0, pos, i);
      }
    }
  }

  lemma ShiftShows(pre: Filter, u: seq<Slot>, u0: seq<Slot>, x: nat, i: nat) returns (pos: Positional)
    requires LeftOf(u, u0) && x < |u| && u[x].Gone? && u0[x].Item? && pre(u0[x].elem)
    requires i < |u| && u[i].Item? && pre(u[i].elem)
    ensures !SamePosition(pre, u, u0, pos, i) && Picked(Around(Some(pre), pos, None), u, i)
  {
    pos := PositionShifts(Only(u, pre), Only(u0, pre), x, i);
    KeptByPosition(pre, pos, u, i);
    KeptByPosition(pre, pos, u0, i);
  }

  lemma OnlyStays(pre: Filter, u: seq<Slot>, u0: seq<Slot>)
    requires LeftOf(u, u0) && NonePasses(pre, u0, u)
    ensures Only(u, pre) == Only(u0, pre)
  {
  }

  lemma StaysWhere(pre: Filter, u: seq<Slot>, u0: seq<Slot>, pos: Positional, i: nat)
    requires LeftOf(u, u0) && i < |u| && u[i].Item? && (NonePasses(pre, u0, u) || NoneLeft(pre, u))
    ensures SamePosition(pre, u, u0, pos, i)
  {
    KeptByPosition(pre, pos, u, i);
    KeptByPosition(pre, pos, u0, i);
    if pre(u[i].elem) {
      OnlyStays(pre, u, u0);
    }
  }

  /** No element that is left passes. */
  ghost predicate NoneLeft(pre: Filter, u: seq<Slot>) {
    forall i :: 0 <= i < |u| && u[i].Item? ==> !pre(u[i].elem)
  }

  ghost predicate SamePositions(pre: Filter, u: seq<Slot>, u0: seq<Slot>) {
    forall pos, i: nat :: i < |u| && u[i].Item? ==> SamePosition(pre, u, u0, pos, i)
  }

  ghost predicate SamePosition(pre: Filter, u: seq<Slot>, u0: seq<Slot>, pos: Positional, i: nat) {
    Picked(Around(Some(pre), pos, None), u, i) <==> Picked(Around(Some(pre), pos, None), u0, i)
  }

  /** No element of s that u lacks passes. */
  ghost predicate NonePasses(pre: Filter, s: seq<Slot>, u: seq<Slot>)
    requires |u| == |s|
  {
    forall x :: 0 <= x < |s| && u[x].Gone? && s[x].Item? ==> !pre(s[x].elem)
  }

  lemma KeptByPosition(pre: Filter, pos: Positional, s: seq<Slot>, i: nat)
    requires i < |s|
    ensures Picked(Around(Some(pre), pos, None), s, i) <==>
      Only(s, pre)[i].Item? && Chosen(pos, |Places(Only(s, pre))|, Rank(Only(s, pre), i))
  {
    KeptCell(Shape(Some(pre), None), pos, s, Blank(|s|), i);
  }

  /** What a matcher with element filters does in a cell. */
  lemma KeptCell(g: Shape, pos: Positional, s: seq<Slot>, r: seq<Slot>, i: nat)
    requires |r| == |s| && i < |s|
    ensures g.pre.Some? ==> (Kept(MatcherOf(g, pos), s, r, i) <==>
      Only(s, g.pre.value)[i].Item? && Tested(g.post, s[i].elem)
      && Chosen(pos, |Places(Only(s, g.pre.value))|, Rank(Only(s, g.pre.value), i)))
    ensures g.pre.None? && r[i].Item? ==> (Kept(MatcherOf(g, pos), s, r, i) <==> Tested(g.post, r[i].elem))
    ensures g.pre.None? && r[i].Gone? ==> (Kept(MatcherOf(g, pos), s, r, i) <==>
      s[i].Item? && Tested(g.post, s[i].elem) && Chosen(pos, |s|, i))
  {
    if g.pre.Some? {
      var only := Only(s, g.pre.value);
      if only[i].Item? {
        PlaceOfRank(only, i);
        PostTests(pos, g.post, Condensed(only), Rank(only, i));
      }
    } else {
      var c := Candidates(pos, s, r);
      if c[i].Item? {
        WrappedPicks(g.post, c, i);
      }
    }
  }

  /** What a group can pick in the whole seed, it can take. */
  lemma PickedPasses(g: Shape, pos: Positional, seed: seq<nat>, i: nat)
    requires Picked(MatcherOf(g, pos), Whole(seed), i)
    ensures i < |seed| && Tested(g.pre, seed[i]) && Tested(g.post, seed[i])
  {
    KeptCell(g, pos, Whole(seed), Blank(|seed|), i);
  }

  // ----- under the condition the groups do not interfere

  /** Each cell's find so far is that of the groups that have run, read alone. */
  ghost predicate FoundSoFar(filters: seq<Filter>, ms: seq<Matcher>, seed: seq<nat>, r: seq<Slot>) {
    && |r| == |seed|
    && forall i :: 0 <= i < |seed| ==> (r[i].Item? <==> !ByElement(filters, seed[i]) && PickedBySome(ms, seed, i))
  }

  /** What has been found may have been taken. */
  lemma FoundWasTaken(filters: seq<Filter>, shapes: seq<Shape>, positions: seq<Positional>, seed: seq<nat>,
      k: nat, i: nat)
    requires |positions| == |shapes| && k <= |shapes| && i < |seed| && !ByElement(filters, seed[i])
    requires PickedBySome(MatchersOf(shapes, positions)[..k], seed, i)
    ensures TakenBefore(filters, shapes, k, seed[i])
  {
    var ms := MatchersOf(shapes, positions);
    var j :| 0 <= j < k && Picked(ms[..k][j], Whole(seed), i);
    PickedPasses(shapes[j], positions[j], seed, i);
    assert Takes(filters, shapes[j], seed[i]);
  }

  /** An element that is left is kept at its turn exactly if its group picks it in the whole seed. */
  lemma LeftIsPicked(filters: seq<Filter>, shapes: seq<Shape>, seed: seq<nat>, k: nat, pos: Positional,
      u: seq<Slot>, r: seq<Slot>, i: nat)
    requires k < |shapes| && Undisturbed(filters, shapes, seed, k)
    requires i < |seed| == |r| && LeftOf(u, Whole(seed)) && u[i].Item? && r[i].Gone? && !ByElement(filters, seed[i])
    requires forall x :: 0 <= x < |seed| && u[x].Gone? ==> MayBeGone(filters, shapes, k, seed[x])
    ensures Kept(MatcherOf(shapes[k], pos), u, r, i) <==> Picked(MatcherOf(shapes[k], pos), Whole(seed), i)
  {
    var g := shapes[k];
    KeptCell(g, pos, u, r, i);
    KeptCell(g, pos, Whole(seed), Blank(|seed|), i);
    if g.pre.Some? && Takes(filters, g, seed[i]) {
      forall x | 0 <= x < |seed| && u[x].Gone? ensures !g.pre.value(seed[x]) {
        assert !Disturbs(filters, shapes, seed, k, x, i);
      }
      OnlyStays(g.pre.value, u, Whole(seed));
    }
  }

  lemma SomeMore(ms: seq<Matcher>, seed: seq<nat>, k: nat, i: nat)
    requires k < |ms|
    ensures PickedBySome(ms[..k + 1], seed, i) <==> PickedBySome(ms[..k], seed, i) || Picked(ms[k], Whole(seed), i)
  {
    if Picked(ms[k], Whole(seed), i) {
      assert ms[..k + 1][k] == ms[k];
    }
    if PickedBySome(ms[..k], seed, i) {
      var j :| 0 <= j < k && Picked(ms[..k][j], Whole(seed), i);
      assert ms[..k + 1][j] == ms[..k][j];
    }
    if PickedBySome(ms[..k + 1], seed, i) {
      var j :| 0 <= j < |ms[..k + 1]| && Picked(ms[..k + 1][j], Whole(seed), i);
      assert j < k ==> ms[..k][j] == ms[..k + 1][j];
    }
  }

  /** One more matcher runs. */
  lemma UnionCell(filters: seq<Filter>, shapes: seq<Shape>, positions: seq<Positional>, seed: seq<nat>, k: nat,
      u: seq<Slot>, r: seq<Slot>, u': seq<Slot>, r': seq<Slot>, i: nat)
    requires |positions| == |shapes| && k < |shapes| && Undisturbed(filters, shapes, seed, k) && i < |seed|
    requires Split(Offered(filters, seed), u, r)
    requires FoundSoFar(filters, MatchersOf(shapes, positions)[..k], seed, r)
    requires Outcome(MatcherOf(shapes[k], positions[k]), u, r, u', r')
    ensures var ms := MatchersOf(shapes, positions);
      r'[i].Item? <==> !ByElement(filters, seed[i]) && PickedBySome(ms[..k + 1], seed, i)
  {
    var ms, m := MatchersOf(shapes, positions), MatcherOf(shapes[k], positions[k]);
    assert CellOutcome(m, u, r, u'[i], r'[i], i);
    SomeMore(ms, seed, k, i);
    if Kept(m, u, r, i) {
      KeptHasElement(m, u, r, i);
    }
    if r[i].Item? {
      FoundWasTaken(filters, shapes, positions, seed, k, i);
      KeptCell(shapes[k], positions[k], u, r, i);
    } else if u[i].Item? {
      forall x | 0 <= x < |seed| && u[x].Gone? ensures MayBeGone(filters, shapes, k, seed[x]) {
        if r[x].Item? {
          FoundWasTaken(filters, shapes, positions, seed, k, x);
        }
      }
      LeftIsPicked(filters, shapes, seed, k, positions[k], u, r, i);
    }
  }

  lemma {:induction false} UnionSoFar(filters: seq<Filter>, shapes: seq<Shape>, positions: seq<Positional>,
      seed: seq<nat>, us: seq<seq<Slot>>, rs: seq<seq<Slot>>, k: nat)
    requires |positions| == |shapes| && AllUndisturbed(filters, shapes, seed) && k <= |shapes|
    requires IsRunOver(filters, MatchersOf(shapes, positions), seed, us, rs)
    ensures Split(Offered(filters, seed), us[k], rs[k])
    ensures FoundSoFar(filters, MatchersOf(shapes, positions)[..k], seed, rs[k])
    decreases k
  {
    if k > 0 {
      UnionSoFar(filters, shapes, positions, seed, us, rs, k - 1);
      var m := MatcherOf(shapes[k - 1], positions[k - 1]);
      assert Outcome(MatchersOf(shapes, positions)[k - 1], us[k - 1], rs[k - 1], us[k], rs[k]);
      OutcomeKeepsSplit(m, Offered(filters, seed), us[k - 1], rs[k - 1], us[k], rs[k]);
      forall i | 0 <= i < |seed|
        ensures rs[k][i].Item? <==>
          !ByElement(filters, seed[i]) && PickedBySome(MatchersOf(shapes, positions)[..k], seed, i)
      {
        UnionCell(filters, shapes, positions, seed, k - 1, us[k - 1], rs[k - 1], us[k], rs[k], i);
      }
    }
  }

  /** Undisturbed groups: selected is what an element matcher accepts or some group, read alone, picks. */
  lemma UndisturbedIsUnion(filters: seq<Filter>, shapes: seq<Shape>, positions: seq<Positional>, seed: seq<nat>,
      us: seq<seq<Slot>>, rs: seq<seq<Slot>>)
    requires |positions| == |shapes| && AllUndisturbed(filters, shapes, seed)
    requires IsRunOver(filters, MatchersOf(shapes, positions), seed, us, rs)
    ensures |rs[|shapes|]| == |seed|
    ensures Selected(filters, seed, rs[|shapes|]) == InSomeGroup(filters, MatchersOf(shapes, positions), seed)
  {
    UnionSoFar(filters, shapes, positions, seed, us, rs, |shapes|);
    var ms := MatchersOf(shapes, positions);
    assert ms[..|shapes|] == ms;
  }

  // ----- runs that show a disturbance

  lemma {:induction false} RunExists(ms: seq<Matcher>, s: seq<Slot>, r: seq<Slot>)
    returns (us: seq<seq<Slot>>, rs: seq<seq<Slot>>)
    requires |r| == |s|
    ensures IsRun(ms, us, rs) && us[0] == s && rs[0] == r && |us[|ms|]| == |rs[|ms|]| == |s|
    decreases |ms|
  {
    if ms == [] {
      us, rs := [s], [r];
    } else {
      var n := |ms| - 1;
      us, rs := RunExists(ms[..n], s, r);
      var u', r' := Stepped(ms[n], us[n], rs[n]);
      us, rs := us + [u'], rs + [r'];
      assert forall k :: 0 <= k < n ==> ms[..n][k] == ms[k];
    }
  }

  lemma Stepped(m: Matcher, s: seq<Slot>, r: seq<Slot>) returns (s': seq<Slot>, r': seq<Slot>)
    requires |r| == |s|
    ensures Outcome(m, s, r, s', r')
  {
    s' := seq(|s|, i requires 0 <= i < |s| =>
      if Kept(m, s, r, i) then Gone else if m.Around? && m.pre.None? && r[i].Item? then r[i] else s[i]);
    r' := seq(|s|, i requires 0 <= i < |s| =>
      if m.Around? && m.pre.None? && r[i].Item? then if Kept(m, s, r, i) then r[i] else Gone
      else if Kept(m, s, r, i) then s[i] else r[i]);
  }

  lemma {:induction false} RunSplits(ms: seq<Matcher>, us: seq<seq<Slot>>, rs: seq<seq<Slot>>, k: nat)
    requires IsRun(ms, us, rs) && k <= |ms| && Split(us[0], us[0], rs[0])
    ensures Split(us[0], us[k], rs[k])
    decreases k
  {
    if k > 0 {
      RunSplits(ms, us, rs, k - 1);
      OutcomeKeepsSplit(ms[k - 1], us[0], us[k - 1], rs[k - 1], us[k], rs[k]);
    }
  }

  /** A position off the end, at which a group finds nothing. */
  function Nowhere(seed: seq<nat>): Positional {
    Eq(|seed|)
  }

  lemma NowherePicks(g: Shape, seed: seq<nat>, i: nat)
    ensures !Picked(MatcherOf(g, Nowhere(seed)), Whole(seed), i)
  {
    if i < |seed| {
      KeptCell(g, Nowhere(seed), Whole(seed), Blank(|seed|), i);
    }
  }

  /** A cell from matcher a to matcher b, none of which finds anything new. */
  lemma {:induction false} IdleRun(shapes: seq<Shape>, positions: seq<Positional>, seed: seq<nat>,
      us: seq<seq<Slot>>, rs: seq<seq<Slot>>, a: nat, b: nat, i: nat)
    requires |positions| == |shapes| && a <= b <= |shapes| && IsRun(MatchersOf(shapes, positions), us, rs)
    requires |us[0]| == |seed| && Split(us[0], us[0], rs[0]) && i < |seed|
    requires forall k :: a <= k < b ==> positions[k] == Nowhere(seed)
    ensures |us[a]| == |us[b]| == |rs[a]| == |rs[b]| == |seed|
    ensures rs[a][i].Gone? ==> rs[b][i] == Gone && us[b][i] == us[a][i]
    ensures rs[a][i].Item? && Survives(shapes, a, b, rs[a][i].elem) ==> rs[b][i] == rs[a][i] && us[b][i] == us[a][i]
    ensures rs[a][i].Item? && !Survives(shapes, a, b, rs[a][i].elem) ==> rs[b][i] == Gone
    decreases b
  {
    RunSplits(MatchersOf(shapes, positions), us, rs, a);
    if a < b {
      var k := b - 1;
      IdleRun(shapes, positions, seed, us, rs, a, k, i);
      RunSplits(MatchersOf(shapes, positions), us, rs, k);
      var m := MatchersOf(shapes, positions)[k];
      assert Outcome(m, us[k], rs[k], us[b], rs[b]) && CellOutcome(m, us[k], rs[k], us[b][i], rs[b][i], i);
      KeptCell(shapes[k], positions[k], us[k], rs[k], i);
      if rs[a][i].Item? {
        SurvivesOneMore(shapes, a, k, rs[a][i].elem);
      }
    }
  }

  /** Elements found before matcher a are still there before matcher b, if no more are found. */
  predicate Survives(shapes: seq<Shape>, a: nat, b: nat, elem: nat)
    requires b <= |shapes|
  {
    forall k :: a <= k < b && shapes[k].pre.None? ==> Tested(shapes[k].post, elem)
  }

  lemma SurvivesOneMore(shapes: seq<Shape>, a: nat, k: nat, elem: nat)
    requires a <= k < |shapes|
    ensures Survives(shapes, a, k + 1, elem) <==>
      Survives(shapes, a, k, elem) && (shapes[k].pre.None? ==> Tested(shapes[k].post, elem))
  {
  }

  /** The position that element x has for a group. */
  function PositionIn(g: Shape, s: seq<Slot>, x: nat): Positional
    requires x < |s|
  {
    if g.pre.None? then Eq(x) else Eq(Rank(Only(s, g.pre.value), x))
  }

  /** It is that of no other. */
  lemma PositionPicksOne(g: Shape, s: seq<Slot>, x: nat, i: nat)
    requires x < |s| && s[x].Item? && Tested(g.pre, s[x].elem) && Tested(g.post, s[x].elem) && i < |s|
    ensures Kept(MatcherOf(g, PositionIn(g, s, x)), s, Blank(|s|), i) <==> i == x
  {
    KeptCell(g, PositionIn(g, s, x), s, Blank(|s|), i);
    if g.pre.Some? {
      var only := Only(s, g.pre.value);
      PlaceOfRank(only, x);
      if only[i].Item? {
        PlaceOfRank(only, i);
      }
    }
  }

  lemma IsSplitAtStart(filters: seq<Filter>, seed: seq<nat>)
    ensures Split(Offered(filters, seed), Offered(filters, seed), Blank(|seed|))
  {
  }

  /** Matchers j and k look somewhere, all others nowhere. */
  function OnlyTwo(shapes: seq<Shape>, seed: seq<nat>, j: nat, pj: Positional, k: nat, pk: Positional):
      (positions: seq<Positional>)
    ensures |positions| == |shapes|
  {
    seq(|shapes|, n => if n == k then pk else if n == j then pj else Nowhere(seed))
  }

  /** What an assumed union says of one element of one run. */
  lemma UnionTells(filters: seq<Filter>, shapes: seq<Shape>, seed: seq<nat>, positions: seq<Positional>,
      us: seq<seq<Slot>>, rs: seq<seq<Slot>>, i: nat)
    requires IsUnion(filters, shapes, seed) && |positions| == |shapes| && i < |seed|
    requires IsRunOver(filters, MatchersOf(shapes, positions), seed, us, rs) && !ByElement(filters, seed[i])
    ensures |rs[|shapes|]| == |seed|
    ensures rs[|shapes|][i].Item? <==> PickedBySome(MatchersOf(shapes, positions), seed, i)
  {
    var ms := MatchersOf(shapes, positions);
    IsSplitAtStart(filters, seed);
    RunSplits(ms, us, rs, |shapes|);
    assert IsUnionAt(filters, shapes, seed, positions, us, rs);
    assert Selected(filters, seed, rs[|shapes|])[i] == InSomeGroup(filters, ms, seed)[i];
  }

  /** If the result is always the union, whatever an earlier group can find passes the post filters that it meets. */
  lemma UnionSurvives(filters: seq<Filter>, shapes: seq<Shape>, seed: seq<nat>, j: nat, x: nat)
    requires IsUnion(filters, shapes, seed) && j < |shapes| && x < |seed| && Takes(filters, shapes[j], seed[x])
    ensures Survives(shapes, j + 1, |shapes|, seed[x])
  {
    if !Survives(shapes, j + 1, |shapes|, seed[x]) {
      var pos := PositionIn(shapes[j], Whole(seed), x);
      var positions := OnlyTwo(shapes, seed, j, pos, j, pos);
      var ms := MatchersOf(shapes, positions);
      IsSplitAtStart(filters, seed);
      var us, rs := RunExists(ms, Offered(filters, seed), Blank(|seed|));
      RunSplits(ms, us, rs, j + 1);
      IdleRun(shapes, positions, seed, us, rs, j + 1, |shapes|, x);
      PositionPicksOne(shapes[j], Whole(seed), x, x);
      assert Picked(ms[j], Whole(seed), x);
      UnionTells(filters, shapes, seed, positions, us, rs, x);
    }
  }

  /** In such a run, an element that matcher k, the last to find anything, picks is one that some group picks. */
  lemma LastFindIsPicked(filters: seq<Filter>, shapes: seq<Shape>, seed: seq<nat>, positions: seq<Positional>,
      us: seq<seq<Slot>>, rs: seq<seq<Slot>>, k: nat, i: nat)
    requires IsUnion(filters, shapes, seed) && |positions| == |shapes| && k < |shapes| && i < |seed|
    requires IsRunOver(filters, MatchersOf(shapes, positions), seed, us, rs)
    requires forall n :: k < n < |shapes| ==> positions[n] == Nowhere(seed)
    requires shapes[k].pre.Some? && Takes(filters, shapes[k], seed[i])
    requires |us[k]| == |seed| && us[k][i].Item? && Picked(MatcherOf(shapes[k], positions[k]), us[k], i)
    ensures PickedBySome(MatchersOf(shapes, positions), seed, i)
  {
    var ms := MatchersOf(shapes, positions);
    IsSplitAtStart(filters, seed);
    RunSplits(ms, us, rs, k);
    assert Outcome(ms[k], us[k], rs[k], us[k + 1], rs[k + 1]);
    assert CellOutcome(ms[k], us[k], rs[k], us[k + 1][i], rs[k + 1][i], i);
    KeptCell(shapes[k], positions[k], us[k], rs[k], i);
    KeptCell(shapes[k], positions[k], us[k], Blank(|us[k]|), i);
    UnionSurvives(filters, shapes, seed, k, i);
    IdleRun(shapes, positions, seed, us, rs, k + 1, |shapes|, i);
    UnionTells(filters, shapes, seed, positions, us, rs, i);
  }

  /** A position at which a group picks i among what is left, but not in the whole. */
  lemma PickedOnlyAmongLeft(filters: seq<Filter>, g: Shape, seed: seq<nat>, u: seq<Slot>, x: nat, i: nat)
    returns (pos: Positional)
    requires g.pre.Some? && LeftOf(u, Whole(seed)) && x < |seed| && u[x].Gone? && Tested(g.pre, seed[x])
    requires i < |seed| && u[i].Item? && Takes(filters, g, seed[i])
    ensures Picked(MatcherOf(g, pos), u, i) && !Picked(MatcherOf(g, pos), Whole(seed), i)
  {
    pos := ShiftShows(g.pre.value, u, Whole(seed), x, i);
    KeptByPosition(g.pre.value, pos, u, i);
    KeptByPosition(g.pre.value, pos, Whole(seed), i);
    KeptCell(g, pos, u, Blank(|u|), i);
    KeptCell(g, pos, Whole(seed), Blank(|seed|), i);
  }

  /** If the result is always the union, elements that an element matcher takes do not disturb. */
  lemma ElementDoesNotDisturb(filters: seq<Filter>, shapes: seq<Shape>, seed: seq<nat>, k: nat, x: nat, i: nat)
    requires IsUnion(filters, shapes, seed) && k < |shapes| && shapes[k].pre.Some? && x < |seed| && i < |seed|
    requires Tested(shapes[k].pre, seed[x]) && Takes(filters, shapes[k], seed[i])
    ensures !ByElement(filters, seed[x])
  {
    if ByElement(filters, seed[x]) {
      var u := Offered(filters, seed);
      var pos := PickedOnlyAmongLeft(filters, shapes[k], seed, u, x, i);
      var positions := OnlyTwo(shapes, seed, k, pos, k, pos);
      var ms := MatchersOf(shapes, positions);
      IsSplitAtStart(filters, seed);
      var us, rs := RunExists(ms, u, Blank(|seed|));
      forall c | 0 <= c < |seed| ensures |us[k]| == |seed| && us[k][c] == u[c] {
        IdleRun(shapes, positions, seed, us, rs, 0, k, c);
      }
      assert us[k] == u;
      LastFindIsPicked(filters, shapes, seed, positions, us, rs, k, i);
      PickedByNoOther(shapes, seed, k, pos, k, pos, i);
    }
  }

  /** Only the two that look somewhere can pick. */
  lemma PickedByNoOther(shapes: seq<Shape>, seed: seq<nat>, j: nat, pj: Positional, k: nat, pk: Positional, i: nat)
    requires j < |shapes| && k < |shapes|
    requires PickedBySome(MatchersOf(shapes, OnlyTwo(shapes, seed, j, pj, k, pk)), seed, i)
    ensures Picked(MatcherOf(shapes[k], pk), Whole(seed), i)
      || (j != k && Picked(MatcherOf(shapes[j], pj), Whole(seed), i))
  {
    var ms := MatchersOf(shapes, OnlyTwo(shapes, seed, j, pj, k, pk));
    var n :| 0 <= n < |ms| && Picked(ms[n], Whole(seed), i);
    NowherePicks(shapes[n], seed, i);
  }

  /** A group that is first to find anything finds just the one element that its position means in the whole. */
  lemma FindsOne(filters: seq<Filter>, shapes: seq<Shape>, seed: seq<nat>, j: nat, x: nat, i: nat)
    requires IsUnion(filters, shapes, seed) && j < |shapes| && x < |seed| && Takes(filters, shapes[j], seed[x])
    requires i < |seed|
    ensures var m := MatcherOf(shapes[j], PositionIn(shapes[j], Whole(seed), x));
      Kept(m, Offered(filters, seed), Blank(|seed|), i) <==> i == x
    ensures Picked(MatcherOf(shapes[j], PositionIn(shapes[j], Whole(seed), x)), Whole(seed), i) <==> i == x
  {
    PositionPicksOne(shapes[j], Whole(seed), x, i);
    PositionPicksOne(shapes[j], Offered(filters, seed), x, i);
    if shapes[j].pre.Some? {
      forall y | 0 <= y < |seed| && Tested(shapes[j].pre, seed[y]) ensures !ByElement(filters, seed[y]) {
        ElementDoesNotDisturb(filters, shapes, seed, j, y, x);
      }
      assert Only(Whole(seed), shapes[j].pre.value) == Only(Offered(filters, seed), shapes[j].pre.value);
    }
  }

  /** The arrays when matcher k has its turn, if matcher j alone has found something. */
  lemma TakenOut(filters: seq<Filter>, shapes: seq<Shape>, seed: seq<nat>, j: nat, x: nat, k: nat, pk: Positional,
      us: seq<seq<Slot>>, rs: seq<seq<Slot>>)
    requires IsUnion(filters, shapes, seed) && j < k < |shapes| && x < |seed| && Takes(filters, shapes[j], seed[x])
    requires var positions := OnlyTwo(shapes, seed, j, PositionIn(shapes[j], Whole(seed), x), k, pk);
      IsRunOver(filters, MatchersOf(shapes, positions), seed, us, rs)
    ensures us[k] == Offered(filters, seed)[x := Gone]
  {
    var u := Offered(filters, seed);
    var positions := OnlyTwo(shapes, seed, j, PositionIn(shapes[j], Whole(seed), x), k, pk);
    var ms := MatchersOf(shapes, positions);
    IsSplitAtStart(filters, seed);
    RunSplits(ms, us, rs, k);
    UnionSurvives(filters, shapes, seed, j, x);
    forall c | 0 <= c < |seed| ensures us[k][c] == if c == x then Gone else u[c] {
      CellBeforeTurn(filters, shapes, seed, j, x, positions, us, rs, k, c);
    }
  }

  lemma CellBeforeTurn(filters: seq<Filter>, shapes: seq<Shape>, seed: seq<nat>, j: nat, x: nat,
      positions: seq<Positional>, us: seq<seq<Slot>>, rs: seq<seq<Slot>>, k: nat, c: nat)
    requires IsUnion(filters, shapes, seed) && j < k < |shapes| && x < |seed| && Takes(filters, shapes[j], seed[x])
    requires |positions| == |shapes| && positions[j] == PositionIn(shapes[j], Whole(seed), x) && c < |seed|
    requires forall n :: 0 <= n < k && n != j ==> positions[n] == Nowhere(seed)
    requires IsRunOver(filters, MatchersOf(shapes, positions), seed, us, rs)
    requires Survives(shapes, j + 1, |shapes|, seed[x])
    ensures |us[k]| == |seed| && us[k][c] == if c == x then Gone else Offered(filters, seed)[c]
  {
    var ms := MatchersOf(shapes, positions);
    IsSplitAtStart(filters, seed);
    IdleUpTo(shapes, positions, seed, us, rs, j);
    FindsOne(filters, shapes, seed, j, x, c);
    assert Outcome(ms[j], us[j], rs[j], us[j + 1], rs[j + 1]);
    assert CellOutcome(ms[j], us[j], rs[j], us[j + 1][c], rs[j + 1][c], c);
    IdleRun(shapes, positions, seed, us, rs, j + 1, k, c);
  }

  lemma IdleUpTo(shapes: seq<Shape>, positions: seq<Positional>, seed: seq<nat>, us: seq<seq<Slot>>,
      rs: seq<seq<Slot>>, j: nat)
    requires |positions| == |shapes| && j <= |shapes| && IsRun(MatchersOf(shapes, positions), us, rs)
    requires |us[0]| == |seed| && Split(us[0], us[0], rs[0]) && rs[0] == Blank(|seed|)
    requires forall n :: 0 <= n < j ==> positions[n] == Nowhere(seed)
    ensures us[j] == us[0] && rs[j] == rs[0]
  {
    RunSplits(MatchersOf(shapes, positions), us, rs, j);
    forall c | 0 <= c < |seed| ensures us[j][c] == us[0][c] && rs[j][c] == rs[0][c] {
      IdleRun(shapes, positions, seed, us, rs, 0, j, c);
    }
  }

  /** If the result is always the union, elements that an earlier group can find do not disturb. */
  lemma FindDoesNotDisturb(filters: seq<Filter>, shapes: seq<Shape>, seed: seq<nat>, j: nat, k: nat, x: nat, i: nat)
    requires IsUnion(filters, shapes, seed) && j < k < |shapes| && shapes[k].pre.Some? && x < |seed| && i < |seed|
    requires Tested(shapes[k].pre, seed[x]) && Takes(filters, shapes[k], seed[i]) && Takes(filters, shapes[j], seed[x])
    ensures x == i
  {
    if x != i {
      var u, pj := Offered(filters, seed)[x := Gone], PositionIn(shapes[j], Whole(seed), x);
      var pk := PickedOnlyAmongLeft(filters, shapes[k], seed, u, x, i);
      var positions := OnlyTwo(shapes, seed, j, pj, k, pk);
      var us, rs := RunExists(MatchersOf(shapes, positions), Offered(filters, seed), Blank(|seed|));
      TakenOut(filters, shapes, seed, j, x, k, pk, us, rs);
      FindsOne(filters, shapes, seed, j, x, i);
      LastFindIsPicked(filters, shapes, seed, positions, us, rs, k, i);
      PickedByNoOther(shapes, seed, j, pj, k, pk, i);
    }
  }

  /** When the result is what some group, read alone, selects, for all positions: exactly if no group can disturb
      another. */
  lemma UnionIfUndisturbed(filters: seq<Filter>, shapes: seq<Shape>, seed: seq<nat>)
    ensures IsUnion(filters, shapes, seed) <==> AllUndisturbed(filters, shapes, seed)
  {
    if AllUndisturbed(filters, shapes, seed) {
      forall positions, us, rs | |positions| == |shapes| ensures IsUnionAt(filters, shapes, seed, positions, us, rs) {
        if IsRunOver(filters, MatchersOf(shapes, positions), seed, us, rs) {
          UndisturbedIsUnion(filters, shapes, positions, seed, us, rs);
        }
      }
    }
    if IsUnion(filters, shapes, seed) {
      forall k | 0 <= k < |shapes| ensures Undisturbed(filters, shapes, seed, k) {
        UnionIsUndisturbed(filters, shapes, seed, k);
      }
    }
  }

  lemma UnionIsUndisturbed(filters: seq<Filter>, shapes: seq<Shape>, seed: seq<nat>, k: nat)
    requires IsUnion(filters, shapes, seed) && k < |shapes|
    ensures Undisturbed(filters, shapes, seed, k)
  {
    if shapes[k].pre.Some? {
      forall x, i | 0 <= x < |seed| && 0 <= i < |seed| ensures !Disturbs(filters, shapes, seed, k, x, i) {
        if Disturbs(filters, shapes, seed, k, x, i) {
          ElementDoesNotDisturb(filters, shapes, seed, k, x, i);
          var j :| 0 <= j < k && Takes(filters, shapes[j], seed[x]);
          FindDoesNotDisturb(filters, shapes, seed, j, k, x, i);
        }
      }
    } else {
      forall x | 0 <= x < |seed| && TakenBefore(filters, shapes, k, seed[x]) ensures Tested(shapes[k].post, seed[x]) {
        var j :| 0 <= j < k && Takes(filters, shapes[j], seed[x]);
        UnionSurvives(filters, shapes, seed, j, x);
      }
    }
  }

  // ----- examples

  /** The first of what is left is the second, where the first is not chosen for being second. */
  lemma FirstDiv(isDiv: Filter)
    requires isDiv(0) && isDiv(1)
    ensures Picked(MatcherOf(Shape(Some(isDiv), None), First), [Gone, Item(1)], 1)
    ensures !Picked(MatcherOf(Shape(Some(isDiv), None), First), Whole([0, 1]), 1)
  {
    var g, left, whole := Shape(Some(isDiv), None), [Gone, Item(1)], Whole([0, 1]);
    assert Only(left, isDiv) == left && Only(whole, isDiv) == whole;
    assert left[..1] == [Gone] && whole[..1] == [Item(0)];
    assert Places([Gone]) == [] && |Places([Item(0)])| == 1 && |Places(left)| == 1;
    KeptCell(g, First, left, Blank(2), 1);
    KeptCell(g, First, whole, Blank(2), 1);
  }

  /** ":first" runs when the first div is gone. */
  lemma SecondIsKept(isDiv: Filter, us: seq<seq<Slot>>, rs: seq<seq<Slot>>)
    requires isDiv(0) && isDiv(1) && IsRun([MatcherOf(Shape(Some(isDiv), None), First)], us, rs)
    requires us[0] == [Gone, Item(1)] && rs[0] == Blank(2)
    ensures |rs[1]| == 2 && rs[1][1].Item?
  {
    var m := MatcherOf(Shape(Some(isDiv), None), First);
    FirstDiv(isDiv);
    assert Outcome([m][0], us[0], rs[0], us[1], rs[1]);
    assert CellOutcome(m, us[0], rs[0], us[1][1], rs[1][1], 1);
  }

  lemma FirstDivDisturbs(hasA: Filter, isDiv: Filter)
    requires hasA(0) && !hasA(1) && isDiv(0) && isDiv(1)
    ensures !AllUndisturbed([hasA], [Shape(Some(isDiv), None)], [0, 1])
  {
    ByOne(hasA, 0);
    ByOne(hasA, 1);
    var shapes, seed := [Shape(Some(isDiv), None)], [0, 1];
    assert Disturbs([hasA], shapes, seed, 0, 0, 1);
    assert !Undisturbed([hasA], shapes, seed, 0);
  }

  lemma ByOne(filter: Filter, elem: nat)
    ensures ByElement([filter], elem) <==> filter(elem)
  {
    assert [filter][0] == filter;
  }

  /** ".a, div:first" on two divs of which the first has the class: the class takes the first one, so that ":first"
      picks the second among the divs that are left. Neither group selects it. */
  lemma SecondIsFirst(hasA: Filter, isDiv: Filter, us: seq<seq<Slot>>, rs: seq<seq<Slot>>)
    requires hasA(0) && !hasA(1) && isDiv(0) && isDiv(1)
    requires IsRunOver([hasA], [MatcherOf(Shape(Some(isDiv), None), First)], [0, 1], us, rs)
    ensures |rs[1]| == 2 && Selected([hasA], [0, 1], rs[1]) == [true, true]
    ensures InSomeGroup([hasA], [MatcherOf(Shape(Some(isDiv), None), First)], [0, 1]) == [true, false]
    ensures !AllUndisturbed([hasA], [Shape(Some(isDiv), None)], [0, 1])
  {
    ByOne(hasA, 0);
    ByOne(hasA, 1);
    assert us[0] == [Gone, Item(1)];
    SecondIsKept(isDiv, us, rs);
    FirstDiv(isDiv);
    FirstDivDisturbs(hasA, isDiv);
  }
}
