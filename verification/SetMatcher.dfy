/** Positional matchers. With a seed they move matched elements from seed[i] to results[i] in place, through
    condensed copies, index maps and arrays that may be the same array under two names. */
module SetMatcher {
  import opened Optional

  /** An array cell: an element, or a false or undefined placeholder. */
  datatype Slot = Gone | Item(elem: nat)

  type Filter = nat -> bool

  datatype Positional = First | Last | Eq(n: int) | Even | Odd | Lt(n: int) | Gt(n: int)

  /** What setMatcher builds: a wrapped element filter, or a positional matcher between two filters. */
  datatype Matcher =
    | Wrapped(filter: Filter)
    | Around(pre: Option<Filter>, pos: Positional, post: Option<Matcher>)

  // ----- what the matchers mean

  /** Does the pseudo choose position j of a collection of the given length? A negative argument counts from the end. */
  predicate Chosen(pos: Positional, length: nat, j: int) {
    0 <= j < length &&
    match pos
    case First => j == 0
    case Last => j == length - 1
    case Eq(n) => j == FromEnd(n, length)
    case Even => j % 2 == 0
    case Odd => j % 2 == 1
    case Lt(n) => j < FromEnd(n, length)
    case Gt(n) => j > FromEnd(n, length)
  }

  function FromEnd(n: int, length: nat): int {
    if n < 0 then n + length else n
  }

  /** s with everything but the accepted elements blanked out. */
  function Only(s: seq<Slot>, filter: Filter): (r: seq<Slot>)
    ensures |r| == |s|
  {
    seq(|s|, i requires 0 <= i < |s| => if s[i].Item? && filter(s[i].elem) then s[i] else Gone)
  }

  /** The indices of the elements of s. */
  function Places(s: seq<Slot>): (r: seq<nat>)
    ensures |r| <= |s|
    ensures forall k :: 0 <= k < |r| ==> r[k] < |s| && s[r[k]].Item?
    ensures forall k, l :: 0 <= k < l < |r| ==> r[k] < r[l]
    ensures forall i :: 0 <= i < |s| && s[i].Item? ==> i in r
  {
    if s == [] then []
    else
      var n := |s| - 1;
      Places(s[..n]) + if s[n].Item? then [n] else []
  }

  /** The elements of s without the gaps. */
  function Condensed(s: seq<Slot>): (r: seq<Slot>)
    ensures |r| == |Places(s)| && forall k :: 0 <= k < |r| ==> r[k] == s[Places(s)[k]]
  {
    var places := Places(s);
    seq(|places|, k requires 0 <= k < |places| => s[places[k]])
  }

  /** The position of index i in the condensed list. */
  function Rank(s: seq<Slot>, i: nat): nat
    requires i <= |s|
  {
    |Places(s[..i])|
  }

  /** The elements matched after the positional step: those chosen now, and those that were in the results before. */
  function Candidates(pos: Positional, s: seq<Slot>, r: seq<Slot>): (c: seq<Slot>)
    requires |r| == |s|
    ensures |c| == |s|
  {
    seq(|s|, i requires 0 <= i < |s| =>
      if r[i].Item? then r[i] else if Chosen(pos, |s|, i) then s[i] else Gone)
  }

  /** Without preFilter: is cell i among the candidates, and does it pass postFilter? */
  predicate KeptHere(pos: Positional, post: Option<Matcher>, s: seq<Slot>, r: seq<Slot>, i: nat)
    requires |r| == |s| && i < |s|
    decreases post, 0
  {
    var c := Candidates(pos, s, r);
    c[i].Item? && (post.Some? ==> Picked(post.value, Condensed(c), Rank(c, i)))
  }

  /** Does m, applied to seed s and results r, leave the element of cell i matched? With a preFilter the
      positions are those in the list of elements that pass it, and earlier results are not looked at. */
  predicate Kept(m: Matcher, s: seq<Slot>, r: seq<Slot>, i: nat)
    requires |r| == |s| && i < |s|
    decreases m, 0
  {
    match m
    case Wrapped(filter) => s[i].Item? && filter(s[i].elem)
    case Around(None, pos, post) => KeptHere(pos, post, s, r, i)
    case Around(Some(filter), pos, post) =>
      var only := Only(s, filter);
      var list := Condensed(only);
      only[i].Item? && Rank(only, i) < |list| && KeptHere(pos, post, list, Blank(|list|), Rank(only, i))
  }

  /** Kept with no earlier results; positions off the end are never picked. */
  predicate Picked(m: Matcher, s: seq<Slot>, i: nat)
    decreases m, 1
  {
    i < |s| && Kept(m, s, Blank(|s|), i)
  }

  function Blank(n: nat): (r: seq<Slot>)
    ensures |r| == n
  {
    seq(n, _ => Gone)
  }

  lemma {:induction false} RankOfPlace(s: seq<Slot>, k: nat)
    requires k < |Places(s)|
    ensures Rank(s, Places(s)[k]) == k
    decreases |s|
  {
    var n := |s| - 1;
    var i := Places(s)[k];
    assert forall j :: 0 <= j < |Places(s[..n])| ==> Places(s[..n])[j] < n;
    if i == n {
      assert s[..n] == s[..i];
    } else {
      RankOfPlace(s[..n], k);
      assert s[..n][..i] == s[..i];
    }
  }

  // ----- the algorithm

  /** condense: the elements that pass the filter, and where they came from. */
  method Condense(unmatched: array<Slot>, filter: Option<Filter>) returns (newUnmatched: array<Slot>, places: seq<nat>)
    ensures fresh(newUnmatched)
    ensures var only := Passing(unmatched[..], filter);
      places == Places(only) && newUnmatched[..] == Condensed(only)
  {
    var list: seq<Slot> := [];
    places := [];
    ghost var only := Passing(unmatched[..], filter);
    var i := 0;
    while i < unmatched.Length
      invariant 0 <= i <= unmatched.Length
      invariant places == Places(only[..i])
      invariant |list| == |places| && forall k :: 0 <= k < |places| ==> places[k] < i && list[k] == only[places[k]]
    {
      assert only[..i + 1][..i] == only[..i];
      if unmatched[i].Item? && (filter.Some? ==> filter.value(unmatched[i].elem)) {
        list := list + [unmatched[i]];
        places := places + [i];
      }
      i := i + 1;
    }
    assert only[..i] == only;
    newUnmatched := new Slot[|list|](k requires 0 <= k < |list| => list[k]);
  }

  /** No filter lets every element pass. */
  function Passing(s: seq<Slot>, filter: Option<Filter>): (r: seq<Slot>)
    ensures |r| == |s|
  {
    if filter.Some? then Only(s, filter.value) else s
  }

  /** The index function handed to createPositionalPseudo; some indices may lie outside the collection. */
  method MatchIndexes(pos: Positional, length: nat) returns (indexes: seq<int>)
    ensures forall j :: 0 <= j < length ==> (j in indexes <==> Chosen(pos, length, j))
  {
    match pos {
      case First => indexes := [0];
      case Last => indexes := [length - 1];
      case Eq(n) => indexes := [FromEnd(n, length)];
      case Even => indexes := EveryOther(0, length);
      case Odd => indexes := EveryOther(1, length);
      case Lt(n) =>
        indexes := [];
        var i := FromEnd(n, length) - 1;
        while i >= 0
          invariant i < FromEnd(n, length)
          invariant forall j :: 0 <= j < length ==> (j in indexes <==> i < j < FromEnd(n, length))
          decreases i
        {
          indexes := indexes + [i];
          i := i - 1;
        }
      case Gt(n) =>
        indexes := [];
        var i := FromEnd(n, length) + 1;
        while i < length
          invariant i > FromEnd(n, length)
          invariant forall j :: 0 <= j < length ==> (j in indexes <==> FromEnd(n, length) < j < i)
        {
          indexes := indexes + [i];
          i := i + 1;
        }
    }
  }

  method EveryOther(from: nat, length: nat) returns (indexes: seq<int>)
    requires from < 2
    ensures forall j :: 0 <= j < length ==> (j in indexes <==> j % 2 == from)
  {
    indexes := [];
    var i: nat := from;
    while i < length
      invariant i % 2 == from
      invariant forall j :: 0 <= j < length ==> (j in indexes <==> j % 2 == from && j < i)
    {
      indexes := indexes + [i];
      i := i + 2;
    }
  }

  /** createPositionalPseudo: move the elements at the chosen indices, last index first. */
  method Position(pos: Positional, seed: array<Slot>, matches: array<Slot>)
    requires seed != matches && seed.Length == matches.Length
    modifies seed, matches
    ensures forall j :: 0 <= j < seed.Length ==>
      if old(seed[j]).Item? && Chosen(pos, seed.Length, j)
      then seed[j] == Gone && matches[j] == old(seed[j])
      else seed[j] == old(seed[j]) && matches[j] == old(matches[j])
  {
    var indexes := MatchIndexes(pos, seed.Length);
    var i := |indexes|;
    while i > 0
      invariant 0 <= i <= |indexes|
      invariant forall j :: 0 <= j < seed.Length ==>
        if old(seed[j]).Item? && j in indexes[i..]
        then seed[j] == Gone && matches[j] == old(seed[j])
        else seed[j] == old(seed[j]) && matches[j] == old(matches[j])
    {
      i := i - 1;
      var j := indexes[i];
      assert indexes[i..] == [j] + indexes[i + 1..];
      if 0 <= j < seed.Length && seed[j].Item? {
        matches[j] := seed[j];
        seed[j] := Gone;
      }
    }
  }

  /** Cells where both arrays hold an element do not occur. */
  ghost predicate Apart(s: seq<Slot>, r: seq<Slot>) {
    |s| == |r| && forall i :: 0 <= i < |s| ==> s[i].Gone? || r[i].Gone?
  }

  /** The two arrays after matcher m. */
  ghost predicate Outcome(m: Matcher, s: seq<Slot>, r: seq<Slot>, s': seq<Slot>, r': seq<Slot>) {
    && |r| == |s| == |s'| == |r'|
    && forall i :: 0 <= i < |s| ==> CellOutcome(m, s, r, s'[i], r'[i], i)
  }

  ghost predicate CellOutcome(m: Matcher, s: seq<Slot>, r: seq<Slot>, seed: Slot, result: Slot, i: nat)
    requires |r| == |s| && i < |s|
  {
    var shared := m.Around? && m.pre.None? && r[i].Item?;
    var elem := if shared then r[i] else s[i];
    if Kept(m, s, r, i) then seed == Gone && result == elem
    else if shared then seed == elem && result == Gone
    else seed == elem && result == r[i]
  }

  /** A matcher run on a seed: moves exactly the kept elements from seed to results, and what earlier results it
      rejects back to the seed. */
  method Run(m: Matcher, seed: array<Slot>, results: array<Slot>)
    requires seed != results && Apart(seed[..], results[..])
    modifies seed, results
    ensures Outcome(m, old(seed[..]), old(results[..]), seed[..], results[..])
    decreases m, 0
  {
    match m
    case Wrapped(filter) =>
      RunWrapped(filter, seed, results);
    case Around(None, pos, post) =>
      // matcherIn is seed itself, matcherOut is results itself
      RunHere(pos, post, seed, results);
    case Around(Some(filter), pos, post) =>
      RunFiltered(filter, pos, post, seed, results);
  }

  /** setMatcher(filter): matcherIn and matcherOut are one array. */
  method RunWrapped(filter: Filter, seed: array<Slot>, results: array<Slot>)
    requires seed != results && Apart(seed[..], results[..])
    modifies seed, results
    ensures Outcome(Wrapped(filter), old(seed[..]), old(results[..]), seed[..], results[..])
  {
    ghost var s, r := seed[..], results[..];
    ghost var only := Only(s, filter);
    var matcherIn, preMap := Condense(seed, Some(filter));
    MoveAcross(matcherIn, preMap, only, seed, results);
    forall i | 0 <= i < |s|
      ensures CellOutcome(Wrapped(filter), s, r, seed[i], results[i], i)
    {
      assert Moves(matcherIn[..], only, s, r, seed[i], results[i], i);
      if only[i].Item? {
        PlaceOfRank(only, i);
      }
    }
  }

  /** With a preFilter the work is done on a condensed copy and carried over afterwards. */
  method RunFiltered(filter: Filter, pos: Positional, post: Option<Matcher>, seed: array<Slot>, results: array<Slot>)
    requires seed != results && Apart(seed[..], results[..])
    modifies seed, results
    ensures Outcome(Around(Some(filter), pos, post), old(seed[..]), old(results[..]), seed[..], results[..])
    decreases post, 2
  {
    ghost var s, r := seed[..], results[..];
    ghost var only := Only(s, filter);
    var matcherIn, preMap := Condense(seed, Some(filter));
    var matcherOut := new Slot[matcherIn.Length](_ => Gone);
    ghost var list := matcherIn[..];
    assert matcherOut[..] == Blank(|list|);
    RunHere(pos, post, matcherIn, matcherOut);
    ghost var out := matcherOut[..];
    assert forall k :: 0 <= k < |list| ==> HereOutcome(pos, post, list, Blank(|list|), matcherIn[k], out[k], k);
    assert forall k :: 0 <= k < |list| ==>
      out[k] == if KeptHere(pos, post, list, Blank(|list|), k) then list[k] else Gone;
    MoveAcross(matcherOut, preMap, only, seed, results);
    forall i | 0 <= i < |s|
      ensures CellOutcome(Around(Some(filter), pos, post), s, r, seed[i], results[i], i)
    {
      CarriedOver(filter, pos, post, s, r, out, seed[i], results[i], i);
    }
  }

  /** A cell whose element was kept in the condensed copy has it moved, and no other cell has. */
  lemma CarriedOver(filter: Filter, pos: Positional, post: Option<Matcher>, s: seq<Slot>, r: seq<Slot>, out: seq<Slot>,
                    seed: Slot, result: Slot, i: nat)
    requires |s| == |r| && i < |s|
    requires var list := Condensed(Only(s, filter));
      |out| == |list| && forall k :: 0 <= k < |list| ==>
        out[k] == if KeptHere(pos, post, list, Blank(|list|), k) then list[k] else Gone
    requires Moves(out, Only(s, filter), s, r, seed, result, i)
    ensures CellOutcome(Around(Some(filter), pos, post), s, r, seed, result, i)
  {
    if Only(s, filter)[i].Item? {
      PlaceOfRank(Only(s, filter), i);
    }
  }

  /** Find primary matches, then un-match those failing postFilter. */
  method RunHere(pos: Positional, post: Option<Matcher>, matcherIn: array<Slot>, matcherOut: array<Slot>)
    requires matcherIn != matcherOut && Apart(matcherIn[..], matcherOut[..])
    modifies matcherIn, matcherOut
    ensures forall i :: 0 <= i < matcherIn.Length ==>
      HereOutcome(pos, post, old(matcherIn[..]), old(matcherOut[..]), matcherIn[i], matcherOut[i], i)
    decreases post, 1
  {
    Position(pos, matcherIn, matcherOut);
    assert matcherOut[..] == Candidates(pos, old(matcherIn[..]), old(matcherOut[..]));
    if post.Some? {
      PostFilter(post.value, matcherIn, matcherOut);
    }
  }

  ghost predicate HereOutcome(pos: Positional, post: Option<Matcher>, s: seq<Slot>, r: seq<Slot>, seed: Slot,
      result: Slot, i: nat)
    requires |r| == |s| && i < |s|
  {
    var elem := if r[i].Item? then r[i] else s[i];
    if KeptHere(pos, post, s, r, i) then seed == Gone && result == elem
    else seed == elem && result == Gone
  }

  /** Move elements that fail the filter from matcherOut back to matcherIn. */
  method PostFilter(q: Matcher, matcherIn: array<Slot>, matcherOut: array<Slot>)
    requires matcherIn != matcherOut && matcherIn.Length == matcherOut.Length
    modifies matcherIn, matcherOut
    ensures var c := old(matcherOut[..]);
      forall i :: 0 <= i < |c| ==>
        if c[i].Item? && !Picked(q, Condensed(c), Rank(c, i)) then matcherIn[i] == c[i] && matcherOut[i] == Gone
        else matcherIn[i] == old(matcherIn[i]) && matcherOut[i] == c[i]
    decreases q, 1
  {
    ghost var c := matcherOut[..];
    var temp, postMap := Condense(matcherOut, None);
    var discarded := new Slot[temp.Length](_ => Gone);
    ghost var list := temp[..];
    assert discarded[..] == Blank(|list|);
    Run(q, temp, discarded);
    ghost var left := temp[..];
    assert forall k :: 0 <= k < |list| ==> CellOutcome(q, list, Blank(|list|), left[k], discarded[k], k);
    assert forall k :: 0 <= k < |list| ==> left[k] == if Picked(q, list, k) then Gone else list[k];
    forall i | 0 <= i < |c| && c[i].Item? ensures Rank(c, i) < |list| && list[Rank(c, i)] == c[i] {
      PlaceOfRank(c, i);
    }
    MoveAcross(temp, postMap, c, matcherOut, matcherIn);
  }

  lemma PlaceOfRank(s: seq<Slot>, i: nat)
    requires i < |s| && s[i].Item?
    ensures Rank(s, i) < |Places(s)| && Places(s)[Rank(s, i)] == i
  {
    var k :| 0 <= k < |Places(s)| && Places(s)[k] == i;
    RankOfPlace(s, k);
  }

  /** The elements left in a condensed list are moved at their places: from[place] = !(to[place] = elem). */
  method MoveAcross(list: array<Slot>, places: seq<nat>, ghost source: seq<Slot>, from: array<Slot>, to: array<Slot>)
    requires from != to && list != from && list != to && from.Length == to.Length == |source|
    requires places == Places(source) && |places| == list.Length
    modifies from, to
    ensures forall i :: 0 <= i < |source| ==> Moves(list[..], source, old(from[..]), old(to[..]), from[i], to[i], i)
  {
    ghost var f, t := from[..], to[..];
    MovePlaces(list, places, from, to);
    forall i | 0 <= i < |source|
      ensures Moves(list[..], source, f, t, from[i], to[i], i)
    {
      if source[i].Item? {
        PlaceOfRank(source, i);
      }
    }
  }

  method MovePlaces(list: array<Slot>, places: seq<nat>, from: array<Slot>, to: array<Slot>)
    requires from != to && list != from && list != to && from.Length == to.Length
    requires |places| == list.Length && forall k :: 0 <= k < |places| ==> places[k] < from.Length
    requires forall k, l :: 0 <= k < l < |places| ==> places[k] < places[l]
    modifies from, to
    ensures forall k :: 0 <= k < |places| && list[k].Item? ==> from[places[k]] == Gone && to[places[k]] == list[k]
    ensures forall j :: 0 <= j < from.Length && (forall k :: 0 <= k < |places| && list[k].Item? ==> places[k] != j) ==>
      from[j] == old(from[j]) && to[j] == old(to[j])
  {
    var i := list.Length;
    while i > 0
      invariant 0 <= i <= list.Length
      invariant forall k :: i <= k < |places| && list[k].Item? ==> from[places[k]] == Gone && to[places[k]] == list[k]
      invariant forall j ::
        0 <= j < from.Length && (forall k :: i <= k < |places| && list[k].Item? ==> places[k] != j) ==>
        from[j] == old(from[j]) && to[j] == old(to[j])
    {
      i := i - 1;
      if list[i].Item? {
        to[places[i]] := list[i];
        from[places[i]] := Gone;
      }
    }
  }

  /** What happens to cell i. */
  ghost predicate Moves(list: seq<Slot>, source: seq<Slot>, from: seq<Slot>, to: seq<Slot>, f: Slot, t: Slot, i: nat)
    requires |list| == |Places(source)| && |source| == |from| == |to| && i < |source|
  {
    var k := Rank(source, i);
    if source[i].Item? && k < |list| && list[k].Item? then f == Gone && t == list[k]
    else f == from[i] && t == to[i]
  }

  // ----- the promises

  function Tested(filter: Option<Filter>, elem: nat): bool {
    filter.Some? ==> filter.value(elem)
  }

  /** A post filter on elements, as matcherFromTokens passes it. */
  function PostOf(filter: Option<Filter>): Option<Matcher> {
    if filter.Some? then Some(Wrapped(filter.value)) else None
  }

  /** Started with no results, a positional matcher splits the seed in place: every cell keeps its element in one
      of the two arrays, in the results exactly if the element passes preFilter, is chosen among those that pass,
      and passes postFilter. */
  lemma SplitsSeed(pre: Option<Filter>, pos: Positional, post: Option<Filter>, s: seq<Slot>, s': seq<Slot>,
      r': seq<Slot>, i: nat)
    requires Outcome(Around(pre, pos, PostOf(post)), s, Blank(|s|), s', r') && i < |s|
    ensures (s'[i] == s[i] && r'[i] == Gone) || (s'[i] == Gone && r'[i] == s[i])
    ensures r'[i].Item? <==>
      s[i].Item? && Tested(pre, s[i].elem) && Tested(post, s[i].elem)
      && (pre.None? ==> Chosen(pos, |s|, i))
      && (pre.Some? ==> Chosen(pos, |Places(Only(s, pre.value))|, Rank(Only(s, pre.value), i)))
  {
    var m := Around(pre, pos, PostOf(post));
    assert CellOutcome(m, s, Blank(|s|), s'[i], r'[i], i);
    if pre.Some? && Only(s, pre.value)[i].Item? {
      var only := Only(s, pre.value);
      PlaceOfRank(only, i);
      PostTests(pos, post, Condensed(only), Rank(only, i));
    } else if pre.None? {
      PostTests(pos, post, s, i);
    }
  }

  /** Which elements each positional pseudo takes from a list. */
  lemma PseudosTake(s: seq<Slot>, pos: Positional, s': seq<Slot>, r': seq<Slot>, i: nat)
    requires Outcome(Around(None, pos, None), s, Blank(|s|), s', r') && i < |s| && s[i].Item?
    ensures pos.First? ==> (r'[i].Item? <==> i == 0)
    ensures pos.Last? ==> (r'[i].Item? <==> i == |s| - 1)
    ensures pos.Even? ==> (r'[i].Item? <==> i % 2 == 0)
    ensures pos.Odd? ==> (r'[i].Item? <==> i % 2 == 1)
    ensures pos.Eq? ==> (r'[i].Item? <==> i == pos.n || i == |s| + pos.n)
    ensures pos.Lt? ==> (r'[i].Item? <==> if pos.n >= 0 then i < pos.n else i < |s| + pos.n)
    ensures pos.Gt? ==> (r'[i].Item? <==> if pos.n >= 0 then i > pos.n else i > |s| + pos.n)
  {
    SplitsSeed(None, pos, None, s, s', r', i);
  }

  lemma PostTests(pos: Positional, post: Option<Filter>, s: seq<Slot>, i: nat)
    requires i < |s|
    ensures KeptHere(pos, PostOf(post), s, Blank(|s|), i) <==>
      s[i].Item? && Chosen(pos, |s|, i) && Tested(post, s[i].elem)
  {
    var c := Candidates(pos, s, Blank(|s|));
    if c[i].Item? {
      WrappedPicks(post, c, i);
    }
  }

  lemma WrappedPicks(post: Option<Filter>, c: seq<Slot>, i: nat)
    requires i < |c| && c[i].Item?
    ensures post.Some? ==> (Picked(Wrapped(post.value), Condensed(c), Rank(c, i)) <==> post.value(c[i].elem))
  {
    PlaceOfRank(c, i);
    assert Condensed(c)[Rank(c, i)] == c[i];
  }

  /** A result that an earlier positional group left in the array survives the next one exactly if that one has a
      preFilter, or its postFilter, asked about the shared array, accepts the element too. */
  lemma EarlierResultSurvives(pre: Option<Filter>, pos: Positional, post: Option<Filter>, s: seq<Slot>, r: seq<Slot>,
                              s': seq<Slot>, r': seq<Slot>, i: nat)
    requires Apart(s, r) && Outcome(Around(pre, pos, PostOf(post)), s, r, s', r') && i < |s| && r[i].Item?
    ensures r'[i] == r[i] <==> pre.Some? || Tested(post, r[i].elem)
    ensures r'[i] != r[i] ==> r'[i] == Gone && s'[i] == r[i]
  {
    var m := Around(pre, pos, PostOf(post));
    assert CellOutcome(m, s, r, s'[i], r'[i], i);
    if pre.Some? {
      assert Only(s, pre.value)[i].Gone?;
    } else {
      var c := Candidates(pos, s, r);
      assert c[i] == r[i];
      WrappedPicks(post, c, i);
      assert KeptHere(pos, PostOf(post), s, r, i) <==> Tested(post, r[i].elem);
    }
  }

  /** A result taken by ":last" does not survive ":first.a" if it has not the class. */
  lemma FirstDropsLast(hasA: Filter, s': seq<Slot>, r': seq<Slot>)
    requires hasA(0) && !hasA(1)
    requires Outcome(Around(None, First, Some(Wrapped(hasA))), [Item(0), Gone], [Gone, Item(1)], s', r')
    ensures r' == [Item(0), Gone] && s' == [Gone, Item(1)]
  {
    var s, r := [Item(0), Gone], [Gone, Item(1)];
    EarlierResultSurvives(None, First, Some(hasA), s, r, s', r', 1);
    assert CellOutcome(Around(None, First, Some(Wrapped(hasA))), s, r, s'[0], r'[0], 0);
    var c := Candidates(First, s, r);
    assert c[0] == Item(0);
    WrappedPicks(Some(hasA), c, 0);
    assert KeptHere(First, Some(Wrapped(hasA)), s, r, 0);
  }
}
