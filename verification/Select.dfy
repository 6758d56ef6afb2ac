/** Sizzle.select without a caller's seed: hoist a leading ID into the context, fetch a seed from the rightmost
    compound, drop the token it stands for, compile the rest, and filter. */
module Select {
  import opened Dom
  import opened Selectors
  import opened Matchers
  import opened Engine

  // ----- the reference answer

  /** The elements numbered below n that the selector list selects, in document order. */
  ghost function Selected(t: Tree, groups: seq<Group>, ctx: nat, n: nat): seq<nat>
    requires n <= |t|
  {
    if n == 0 then []
    else
      Selected(t, groups, ctx, n - 1) + if IsElement(t, n - 1) && MatchesAny(t, groups, ctx, n - 1) then [n - 1] else []
  }

  ghost predicate Ascending(xs: seq<nat>) {
    forall i, j :: 0 <= i < j < |xs| ==> xs[i] < xs[j]
  }

  predicate Names(token: Token, t: Tree, x: int) {
    token.Filter? && token.f.Id? && IsElement(t, x) && t[x].id == token.f.name
  }

  /** A leading compound selector that is an ID, with a combinator after it and something after that. */
  predicate Hoistable(g: Tokens) {
    |g| > 2 && g[0].Filter? && g[0].f.Id? && g[1].Relative?
  }

  predicate LeadingNonDescendant(g: Tokens) {
    Leading(g) && g[0].rel != Descendant
  }

  /** There is an Expr.find for the filter. */
  predicate Findable(f: Simple) {
    f.Id? || f.Tag? || f.Class?
  }

  /** The last token of the rightmost compound for which there is an Expr.find. */
  predicate SeedToken(g: Tokens, k: nat)
    requires k < |g|
  {
    g[k].Filter? && Findable(g[k].f) && forall j :: k < j < |g| ==> g[j].Filter? && !Findable(g[j].f)
  }

  /** No element is a child or a later sibling of x. */
  ghost predicate Barren(t: Tree, x: nat)
    requires x < |t|
  {
    forall y :: IsElement(t, y) ==> t[y].parent != x && !(t[y].parent == t[x].parent && x < y)
  }

  /** Of the elements that the token names, all but the first are barren. */
  ghost predicate OnlyFirstBears(t: Tree, token: Token) {
    forall x, y :: Names(token, t, x) && Names(token, t, y) && x < y ==> Barren(t, y)
  }

  /** The token names at most one element. */
  ghost predicate NamesOne(t: Tree, token: Token) {
    forall x, y :: Names(token, t, x) && Names(token, t, y) ==> x == y
  }

  ghost predicate SeedNamesOne(t: Tree, g: Tokens) {
    forall k :: 0 <= k < |g| && SeedToken(g, k) ==> NamesOne(t, g[k])
  }

  /** Where the engine looks up an ID in the document, and takes the first element that has it, that one stands
      for all. It looks up one ID at most: a leading one to hoist, or else one that is the seed's token. */
  ghost predicate LookupsDecide(t: Tree, g: Tokens, context: nat, positionalText: bool) {
    && (context == 0 && Hoistable(g) ==> OnlyFirstBears(t, g[0]))
    && (context == 0 && !Hoistable(g) && !positionalText && !LeadingNonDescendant(g) ==> SeedNamesOne(t, g))
  }

  // ----- what the document offers for finding elements

  /** Elements below scope, in document order, that pass the test. */
  function ElementsBelow(t: Tree, scope: nat, f: Simple, n: nat): (r: seq<nat>)
    requires n <= |t| && !f.Not?
    ensures Ascending(r) && forall i :: 0 <= i < |r| ==> r[i] < n
    ensures forall x :: x in r <==> x < n && IsElement(t, x) && Below(t, scope, x) && BasicTest(t, f, x)
  {
    if n == 0 then []
    else
      var x := n - 1;
      ElementsBelow(t, scope, f, x) + if IsElement(t, x) && Below(t, scope, x) && BasicTest(t, f, x) then [x] else []
  }

  ghost predicate IsFirst(t: Tree, id: string, e: int) {
    IsElement(t, e) && t[e].id == id && forall x :: IsElement(t, x) && x < e ==> t[x].id != id
  }

  /** getElementById: the first element with that id, none for the empty id. */
  method GetElementById(t: Tree, id: string) returns (e: int)
    ensures e == -1 ==> id == "" || forall x :: IsElement(t, x) ==> t[x].id != id
    ensures e != -1 ==> id != "" && IsFirst(t, id, e)
  {
    if id == "" {
      return -1;
    }
    e := 0;
    while e < |t|
      invariant 0 <= e <= |t|
      invariant forall x :: IsElement(t, x) && x < e ==> t[x].id != id
    {
      if IsElement(t, e) && t[e].id == id {
        return;
      }
      e := e + 1;
    }
    e := -1;
  }

  datatype Found = Undefined | Nodes(elems: seq<nat>)

  /** What a find for the filter gives: the first element with the ID, all elements in scope of the tag or class. */
  ghost predicate FoundFor(t: Tree, f: Simple, scope: nat, elems: seq<nat>)
    requires Findable(f)
  {
    if !f.Id? then elems == ElementsBelow(t, scope, f, |t|)
    else if elems == [] then f.name == "" || forall x :: IsElement(t, x) ==> t[x].id != f.name
    else |elems| == 1 && f.name != "" && IsFirst(t, f.name, elems[0])
  }

  /** Expr.find[type]: there is one for ID (documents only), CLASS and TAG. */
  method Find(t: Tree, f: Simple, scope: nat) returns (r: Found)
    requires IsContext(t, scope)
    ensures r.Undefined? <==> !Findable(f) || (f.Id? && t[scope].kind != DocumentNode)
    ensures r.Nodes? ==> FoundFor(t, f, scope, r.elems)
  {
    match f
    case Id(name) =>
      if t[scope].kind == DocumentNode {
        var e := GetElementById(t, name);
        r := Nodes(if e == -1 then [] else [e]);
      } else {
        r := Undefined;
      }
    case Tag(_) => r := Nodes(ElementsBelow(t, scope, f, |t|));
    case Class(_) => r := Nodes(ElementsBelow(t, scope, f, |t|));
    case _ => r := Undefined;
  }

  // ----- tests on the selector text

  predicate IsSiblingRel(rel: Rel) {
    rel == Adjacent || rel == Sibling
  }

  predicate TextMentionsSibling(s: string) {
    '+' in s || '~' in s
  }

  /** rsibling on the text of a filter */
  predicate FilterMentionsSibling(f: Simple) {
    match f
    case Not(groups) => exists i :: 0 <= i < |groups| && TokensMentionSibling(groups[i].tokens)
    case _ => TextMentionsSibling(f.name)
  }

  /** rsibling on the text of a token list */
  predicate TokensMentionSibling(g: Tokens) {
    exists k :: 0 <= k < |g| && TokenMentionsSibling(g[k])
  }

  predicate TokenMentionsSibling(token: Token) {
    match token
    case Relative(rel) => IsSiblingRel(rel)
    case Filter(f) => FilterMentionsSibling(f)
  }

  predicate MentionsSibling(groups: seq<Group>) {
    exists i :: 0 <= i < |groups| && TokensMentionSibling(groups[i].tokens)
  }

  /** The scope whose elements are candidates: siblings of the context lie below its parent. */
  function Outermost(t: Tree, ctx: nat, siblings: bool): (r: nat)
    requires Valid(t) && IsContext(t, ctx)
    ensures r < |t|
  {
    if siblings && ctx != 0 then t[ctx].parent else ctx
  }

  // ----- the algorithm

  predicate Proper(groups: seq<Group>) {
    forall i :: 0 <= i < |groups| ==> ProperTokens(groups[i].tokens)
  }

  /** What the tokenizer produces: no empty group, no empty identifier. */
  predicate ProperTokens(g: Tokens) {
    g != [] && forall k :: 0 <= k < |g| && g[k].Filter? && g[k].f.Id? ==> g[k].f.name != ""
  }

  /** The selector as it stands after hoisting and seeding. */
  datatype Plan = Done(results: seq<nat>) | Filtering(seed: Found, groups: seq<Group>, context: nat)

  /** Whatever the plan still filters out, it computes the answer for the original selector. */
  ghost predicate PlanFor(t: Tree, plan: Plan, groups: seq<Group>, ctx: nat)
    requires Valid(t)
  {
    match plan
    case Done(results) => Ascending(results)
      && forall x: nat :: x in results <==> IsElement(t, x) && MatchesAny(t, groups, ctx, x)
    case Filtering(seed, rest, context) =>
      && IsContext(t, context)
      && (seed.Nodes? ==> Ascending(seed.elems) && forall x :: x in seed.elems ==> IsElement(t, x))
      && forall x: nat :: IsElement(t, x) ==>
        (MatchesAny(t, groups, ctx, x) <==> MatchesAny(t, rest, context, x) && (seed.Nodes? ==> x in seed.elems))
  }

  // ----- hoisting a leading ID

  /** With an element of that ID as context, the rest of the group selects the same elements, provided that the
      other elements of that ID are barren. */
  lemma HoistKeepsMeaning(t: Tree, g: Tokens, e: nat, x: nat)
    requires Valid(t) && |g| > 1 && g[0].Filter? && g[0].f.Id? && g[1].Relative?
    requires IsElement(t, e) && t[e].id == g[0].f.name != ""
    requires OthersAreBarren(t, e)
    ensures Matches(t, g, 0, x) <==> Matches(t, g[1..], e, x)
  {
    var h := g[1..];
    if Matches(t, g, 0, x) {
      var p :| IsTrace(t, g, 0, p) && p[|g|] == x;
      StepOf(t, g, 0, p, 0);
      StepOf(t, g, 0, p, 1);
      BarrenRelatesToNothing(t, e, g[1].rel, p[0], p[2]);
      forall k | 0 <= k < |h|
        ensures TraceStep(t, h, p[1..], k)
      {
        assert h[k] == g[k + 1];
        StepOf(t, g, 0, p, k + 1);
      }
      assert IsTrace(t, h, e, p[1..]);
    }
    if Matches(t, h, e, x) {
      var q :| IsTrace(t, h, e, q) && q[|h|] == x;
      PutIdBack(t, g, e, q);
    }
  }

  /** A trace from e is a trace from the document with e in front. */
  lemma PutIdBack(t: Tree, g: Tokens, e: nat, q: seq<nat>)
    requires Valid(t) && |g| > 1 && g[0].Filter? && g[0].f.Id? && g[1].Relative?
    requires IsElement(t, e) && t[e].id == g[0].f.name && IsTrace(t, g[1..], e, q)
    ensures Matches(t, g, 0, q[|g| - 1])
  {
    var h, p := g[1..], [e] + q;
    AllBelowDocument(t, e);
    forall k | 0 <= k < |g|
      ensures TraceStep(t, g, p, k)
    {
      if k > 0 {
        assert h[k - 1] == g[k];
        StepOf(t, h, e, q, k - 1);
      }
    }
    assert IsTrace(t, g, 0, p) && p[|g|] == q[|g| - 1];
  }

  ghost predicate OthersAreBarren(t: Tree, e: nat)
    requires IsElement(t, e)
  {
    forall other: nat :: IsElement(t, other) && t[other].id == t[e].id && other != e ==> Barren(t, other)
  }

  /** Elements in a combinator's relation to an element that shares e's id are in that relation to e. */
  lemma BarrenRelatesToNothing(t: Tree, e: nat, rel: Rel, x: nat, y: nat)
    requires Valid(t) && IsElement(t, e) && OthersAreBarren(t, e)
    requires IsElement(t, x) && t[x].id == t[e].id && IsElement(t, y) && Related(t, rel, x, y)
    ensures x == e
  {
    if x != e && rel == Descendant {
      NothingBelowBarren(t, x, y);
    }
  }

  lemma {:induction false} NothingBelowBarren(t: Tree, x: nat, y: nat)
    requires Valid(t) && IsElement(t, x) && Barren(t, x) && IsElement(t, y)
    ensures !Below(t, x, y)
    decreases y
  {
    if Below(t, x, y) {
      var p := t[y].parent;
      BelowIsLater(t, x, p);
      assert Linked(t, y);
      NothingBelowBarren(t, x, p);
    }
  }

  /** For every group that starts with e's ID, the context can be moved to e. */
  ghost predicate HoistIsRight(t: Tree, e: nat)
    requires e < |t|
  {
    forall g: Tokens, x: nat :: Hoistable(g) && g[0].f.name == t[e].id ==>
      (Matches(t, g, 0, x) <==> Matches(t, g[1..], e, x))
  }

  /** When hoisting is right: exactly if every other element with the id has neither a child element nor an element
      after it among its siblings. */
  lemma HoistIsRightIfOthersBarren(t: Tree, e: nat)
    requires Valid(t) && IsElement(t, e) && t[e].id != ""
    ensures HoistIsRight(t, e) <==> OthersAreBarren(t, e)
  {
    if OthersAreBarren(t, e) {
      forall g: Tokens, x: nat | Hoistable(g) && g[0].f.name == t[e].id
        ensures Matches(t, g, 0, x) <==> Matches(t, g[1..], e, x)
      {
        HoistKeepsMeaning(t, g, e, x);
      }
    }
    if HoistIsRight(t, e) {
      forall other: nat | IsElement(t, other) && t[other].id == t[e].id && other != e
        ensures Barren(t, other)
      {
        forall y | IsElement(t, y)
          ensures t[y].parent != other && !(t[y].parent == t[other].parent && other < y)
        {
          if t[y].parent == other {
            HoistCarriesOver(t, e, other, Child, y);
          } else if t[y].parent == t[other].parent && other < y {
            var z := NextElement(t, other, y);
            HoistCarriesOver(t, e, other, Adjacent, z);
          }
        }
      }
    }
  }

  /** The first element among the later siblings, given one of them. */
  lemma {:induction false} NextElement(t: Tree, x: nat, y: nat) returns (z: nat)
    requires IsElement(t, y) && x < y && t[y].parent == t[x].parent
    ensures IsElement(t, z) && x < z && Related(t, Adjacent, x, z)
    decreases y
  {
    if w: nat :| x < w < y && t[w].parent == t[y].parent && IsElement(t, w) {
      z := NextElement(t, x, w);
    } else {
      z := y;
    }
  }

  function Star(id: string, rel: Rel): Tokens {
    [Filter(Id(id)), Relative(rel), Filter(Tag("*"))]
  }

  /** `#id rel *` selects what is in the relation to an element of the id. */
  lemma StarMatches(t: Tree, x: nat, rel: Rel, y: nat)
    requires Valid(t) && IsElement(t, x) && IsElement(t, y) && Related(t, rel, x, y)
    ensures Matches(t, Star(t[x].id, rel), 0, y)
  {
    var g := Star(t[x].id, rel);
    AllBelowDocument(t, x);
    var p := [x, x, y, y];
    assert TraceStep(t, g, p, 0) && TraceStep(t, g, p, 1) && TraceStep(t, g, p, 2);
    assert IsTrace(t, g, 0, p) && p[|g|] == y;
  }

  /** Hoisted to e, it selects only what is in the relation to e. */
  lemma StarMatchesFrom(t: Tree, e: nat, rel: Rel, y: nat)
    requires IsElement(t, e) && y < |t| && Matches(t, Star(t[e].id, rel)[1..], e, y)
    ensures Related(t, rel, e, y)
  {
    var h := Star(t[e].id, rel)[1..];
    assert h[0] == Relative(rel) && h[1] == Filter(Tag("*"));
    var q :| IsTrace(t, h, e, q) && q[|h|] == y;
    StepOf(t, h, e, q, 0);
    StepOf(t, h, e, q, 1);
  }

  /** If e may stand for its id, it is in every relation in which another element of its id is. */
  lemma HoistCarriesOver(t: Tree, e: nat, other: nat, rel: Rel, y: nat)
    requires Valid(t) && IsElement(t, e) && HoistIsRight(t, e)
    requires IsElement(t, other) && t[other].id == t[e].id && IsElement(t, y) && Related(t, rel, other, y)
    ensures Related(t, rel, e, y)
  {
    StarMatches(t, other, rel, y);
    assert Hoistable(Star(t[e].id, rel));
    StarMatchesFrom(t, e, rel, y);
  }

  /** Without such an element nothing is selected. */
  lemma HoistFindsNothing(t: Tree, g: Tokens, x: nat)
    requires g != [] && g[0].Filter? && g[0].f.Id? && forall y :: IsElement(t, y) ==> t[y].id != g[0].f.name
    ensures !Matches(t, g, 0, x)
  {
    if Matches(t, g, 0, x) {
      var p :| IsTrace(t, g, 0, p) && p[|g|] == x;
      StepOf(t, g, 0, p, 0);
    }
  }

  // ----- taking the seed's token out

  /** tokens.splice(i, 1) */
  function Spliced(g: Tokens, i: nat): Tokens
    requires i < |g|
  {
    g[..i] + g[i + 1..]
  }

  /** A filter of the rightmost compound can be tested apart from the rest. */
  lemma SeedKeepsMeaning(t: Tree, g: Tokens, i: nat, ctx: nat, x: nat)
    requires i < |g| && IsElement(t, x) && forall k :: i <= k < |g| ==> g[k].Filter?
    ensures Matches(t, g, ctx, x) <==> Matches(t, Spliced(g, i), ctx, x) && Satisfies(t, g[i].f, x)
  {
    if Matches(t, g, ctx, x) {
      var p :| IsTrace(t, g, ctx, p) && p[|g|] == x;
      TakeOut(t, g, i, ctx, p);
    }
    var h := Spliced(g, i);
    if Matches(t, h, ctx, x) && Satisfies(t, g[i].f, x) {
      var q :| IsTrace(t, h, ctx, q) && q[|h|] == x;
      PutIn(t, g, i, ctx, q);
    }
  }

  lemma TakeOut(t: Tree, g: Tokens, i: nat, ctx: nat, p: seq<nat>)
    requires i < |g| && IsTrace(t, g, ctx, p) && forall k :: i <= k < |g| ==> g[k].Filter?
    ensures Matches(t, Spliced(g, i), ctx, p[|g|]) && p[|g|] < |t| && Satisfies(t, g[i].f, p[|g|])
  {
    var h := Spliced(g, i);
    TailStays(t, g, i, ctx, p);
    StepOf(t, g, ctx, p, i);
    var q := p[..i] + p[i + 1..];
    forall k | 0 <= k < |h|
      ensures TraceStep(t, h, q, k)
    {
      var from := if k < i then k else k + 1;
      assert h[k] == g[from];
      StepOf(t, g, ctx, p, from);
    }
    assert IsTrace(t, h, ctx, q) && q[|h|] == p[|g|];
  }

  lemma PutIn(t: Tree, g: Tokens, i: nat, ctx: nat, q: seq<nat>)
    requires i < |g| && IsTrace(t, Spliced(g, i), ctx, q) && forall k :: i <= k < |g| ==> g[k].Filter?
    requires IsElement(t, q[|g| - 1]) && Satisfies(t, g[i].f, q[|g| - 1])
    ensures Matches(t, g, ctx, q[|g| - 1])
  {
    var h := Spliced(g, i);
    forall k | i <= k < |h| ensures h[k].Filter? {
      assert h[k] == g[k + 1];
    }
    TailStays(t, h, i, ctx, q);
    var p := q[..i] + [q[|h|]] + q[i..];
    forall k | 0 <= k < |g|
      ensures TraceStep(t, g, p, k)
    {
      if k != i {
        var from := if k < i then k else k - 1;
        assert h[from] == g[k];
        StepOf(t, h, ctx, q, from);
      }
    }
    assert IsTrace(t, g, ctx, p) && p[|g|] == q[|h|];
  }

  /** Filters do not move. */
  lemma {:induction false} TailStays(t: Tree, g: Tokens, i: nat, ctx: nat, p: seq<nat>)
    requires IsTrace(t, g, ctx, p) && i <= |g| && forall k :: i <= k < |g| ==> g[k].Filter?
    ensures forall k :: i <= k <= |g| ==> p[k] == p[|g|]
    decreases |g| - i
  {
    if i < |g| {
      TailStays(t, g, i + 1, ctx, p);
      StepOf(t, g, ctx, p, i);
    }
  }

  // ----- everything selected lies in the searched scope

  /** Unless the group starts with a sibling combinator, it selects only descendants of the context. */
  lemma {:induction false} TraceStaysBelow(t: Tree, g: Tokens, ctx: nat, p: seq<nat>, top: nat, k: nat)
    requires Valid(t) && IsContext(t, ctx) && IsTrace(t, g, ctx, p) && k <= |g|
    requires if Leading(g) && IsSiblingRel(g[0].rel) then ctx != 0 && top == t[ctx].parent else top == ctx
    ensures (Leading(g) ==> k > 0) ==> Below(t, top, p[k])
  {
    if k > 0 && !(k == 1 && Leading(g)) {
      TraceStaysBelow(t, g, ctx, p, top, k - 1);
      StepOf(t, g, ctx, p, k - 1);
      RelatedStaysBelow(t, g[k - 1], top, p[k - 1], p[k]);
    } else if k == 1 {
      StepOf(t, g, ctx, p, 0);
    }
  }

  lemma RelatedStaysBelow(t: Tree, token: Token, top: nat, x: nat, y: nat)
    requires Valid(t) && x < |t| && y < |t| && Below(t, top, x) && TokenHolds(t, token, x, y)
    ensures Below(t, top, y)
  {
    if token.Relative? && token.rel == Descendant {
      BelowTransitive(t, top, x, y);
    }
  }

  lemma SelectedAreInScope(t: Tree, groups: seq<Group>, ctx: nat, x: nat)
    requires Valid(t) && IsContext(t, ctx) && Proper(groups) && MatchesAny(t, groups, ctx, x)
    ensures Below(t, Outermost(t, ctx, MentionsSibling(groups)), x)
  {
    var i :| 0 <= i < |groups| && Matches(t, groups[i].tokens, ctx, x);
    var g := groups[i].tokens;
    var p :| IsTrace(t, g, ctx, p) && p[|g|] == x;
    if Leading(g) && IsSiblingRel(g[0].rel) {
      StepOf(t, g, ctx, p, 0);
      assert TokenMentionsSibling(g[0]);
      TraceStaysBelow(t, g, ctx, p, t[ctx].parent, |g|);
    } else {
      TraceStaysBelow(t, g, ctx, p, ctx, |g|);
      if MentionsSibling(groups) && ctx != 0 {
        BelowTransitive(t, t[ctx].parent, ctx, x);
      }
    }
  }

  // ----- putting it together

  /** An ID that leads the group becomes the context. */
  method Hoist(t: Tree, g: Tokens, context: nat) returns (plan: Plan)
    requires Valid(t) && IsContext(t, context) && ProperTokens(g)
    requires context == 0 && Hoistable(g) ==> OnlyFirstBears(t, g[0])
    ensures PlanFor(t, plan, [Group(g)], context)
    ensures context == 0 && Hoistable(g) && plan.Filtering? ==>
      plan == Filtering(Undefined, [Group(g[1..])], plan.context) && IsFirst(t, g[0].f.name, plan.context)
    ensures !(context == 0 && Hoistable(g)) ==> plan == Filtering(Undefined, [Group(g)], context)
  {
    if |g| > 2 && g[0].Filter? && g[0].f.Id? && t[context].kind == DocumentNode && g[1].Relative? {
      var e := GetElementById(t, g[0].f.name);
      if e != -1 {
        FirstBears(t, g[0], e);
      }
      forall x | IsElement(t, x)
        ensures MatchesAny(t, [Group(g)], context, x) <==>
          e != -1 && MatchesAny(t, [Group(g[1..])], e, x)
      {
        SingleGroup(t, g, context, x);
        if e == -1 {
          HoistFindsNothing(t, g, x);
        } else {
          HoistKeepsMeaning(t, g, e, x);
          SingleGroup(t, g[1..], e, x);
        }
      }
      if e == -1 {
        plan := Done([]);
        NothingElse(t, [Group(g)], context);
      } else {
        plan := Filtering(Undefined, [Group(g[1..])], e);
      }
    } else {
      plan := Filtering(Undefined, [Group(g)], context);
    }
  }

  lemma FirstBears(t: Tree, token: Token, e: nat)
    requires token.Filter? && token.f.Id? && OnlyFirstBears(t, token) && IsFirst(t, token.f.name, e)
    ensures OthersAreBarren(t, e)
  {
    forall other: nat | IsElement(t, other) && t[other].id == t[e].id && other != e ensures Barren(t, other) {
      assert Names(token, t, e) && Names(token, t, other);
    }
  }

  lemma SingleGroup(t: Tree, g: Tokens, ctx: nat, x: nat)
    ensures MatchesAny(t, [Group(g)], ctx, x) <==> Matches(t, g, ctx, x)
  {
    assert [Group(g)][0].tokens == g;
  }

  lemma OnlyElementsMatch(t: Tree, g: Tokens, ctx: nat, x: nat)
    requires g != [] && Matches(t, g, ctx, x)
    ensures IsElement(t, x)
  {
    var p :| IsTrace(t, g, ctx, p) && p[|g|] == x;
    StepOf(t, g, ctx, p, |g| - 1);
  }

  /** Only elements are selected. */
  lemma NothingElse(t: Tree, groups: seq<Group>, ctx: nat)
    requires Proper(groups)
    ensures forall x: nat :: MatchesAny(t, groups, ctx, x) ==> IsElement(t, x)
  {
    forall x: nat | MatchesAny(t, groups, ctx, x) ensures IsElement(t, x) {
      var i :| 0 <= i < |groups| && Matches(t, groups[i].tokens, ctx, x);
      OnlyElementsMatch(t, groups[i].tokens, ctx, x);
    }
  }

  /** Look for the candidates by one token of the rightmost compound. positionalText says whether the text of the
      selector looks positional, which like a leading >, + or ~ rules seeding out. */
  method FetchSeed(t: Tree, g: Tokens, context: nat, positionalText: bool) returns (plan: Plan)
    requires Valid(t) && IsContext(t, context) && ProperTokens(g)
    requires context == 0 && !positionalText && !LeadingNonDescendant(g) ==> SeedNamesOne(t, g)
    ensures PlanFor(t, plan, [Group(g)], context)
    ensures plan.Filtering? && plan.seed.Undefined? ==> plan.groups == [Group(g)] && plan.context == context
  {
    var i := if positionalText || LeadingNonDescendant(g) then 0 else |g|;
    while i > 0
      invariant 0 <= i <= |g|
      invariant i > 0 ==> !positionalText && !LeadingNonDescendant(g) && PassedOver(g, context, i)
    {
      i := i - 1;
      if g[i].Relative? {
        break;
      }
      var found := Find(t, g[i].f, context);
      if found.Nodes? {
        SeedIsDecisive(t, g, context, i);
        plan := UseSeed(t, g, i, context, found);
        return;
      }
    }
    plan := Filtering(Undefined, [Group(g)], context);
  }

  /** From i on there are only filters, and none that a document could find. */
  predicate PassedOver(g: Tokens, context: nat, i: nat) {
    forall k :: i <= k < |g| ==> g[k].Filter? && (context == 0 ==> !Findable(g[k].f))
  }

  lemma SeedIsDecisive(t: Tree, g: Tokens, context: nat, i: nat)
    requires i < |g| && g[i].Filter? && Findable(g[i].f) && PassedOver(g, context, i + 1)
    requires context == 0 ==> SeedNamesOne(t, g)
    ensures context == 0 ==> NamesOne(t, g[i])
  {
    if context == 0 {
      assert SeedToken(g, i);
    }
  }

  /** With no candidates, or no other tokens, they are the answer; otherwise the other tokens filter them. */
  method UseSeed(t: Tree, g: Tokens, i: nat, context: nat, seed: Found) returns (plan: Plan)
    requires Valid(t) && IsContext(t, context) && ProperTokens(g)
    requires !LeadingNonDescendant(g) && i < |g| && forall k :: i <= k < |g| ==> g[k].Filter?
    requires seed.Nodes? && Findable(g[i].f) && FoundFor(t, g[i].f, context, seed.elems)
    requires g[i].f.Id? ==> context == 0 && NamesOne(t, g[i])
    ensures PlanFor(t, plan, [Group(g)], context)
    ensures plan.Filtering? ==> plan.seed.Nodes?
  {
    var rest := Spliced(g, i);
    forall x: nat | IsElement(t, x)
      ensures MatchesAny(t, [Group(g)], context, x) <==> MatchesAny(t, [Group(rest)], context, x) && x in seed.elems
    {
      SingleGroup(t, g, context, x);
      SingleGroup(t, rest, context, x);
      SeedDecides(t, g, i, context, seed.elems, x);
    }
    NothingElse(t, [Group(g)], context);
    if seed.elems == [] || rest == [] {
      forall x: nat | rest == [] && x in seed.elems ensures MatchesAny(t, [Group(g)], context, x) {
        if context == 0 { AllBelowDocument(t, x); }
        SingleGroup(t, rest, context, x);
        assert IsTrace(t, rest, context, [x]);
      }
      plan := Done(seed.elems);
    } else {
      plan := Filtering(seed, [Group(rest)], context);
    }
  }

  /** For elements that the rest selects, being in the seed is having passed its token. */
  lemma SeedDecides(t: Tree, g: Tokens, i: nat, ctx: nat, seed: seq<nat>, x: nat)
    requires Valid(t) && IsContext(t, ctx) && ProperTokens(g) && IsElement(t, x)
    requires !LeadingNonDescendant(g) && i < |g| && forall k :: i <= k < |g| ==> g[k].Filter?
    requires Findable(g[i].f) && FoundFor(t, g[i].f, ctx, seed)
    requires g[i].f.Id? ==> ctx == 0 && NamesOne(t, g[i])
    ensures Matches(t, g, ctx, x) <==> Matches(t, Spliced(g, i), ctx, x) && x in seed
  {
    SeedKeepsMeaning(t, g, i, ctx, x);
    if g[i].f.Id? {
      assert seed != [] ==> Names(g[i], t, seed[0]);
      assert Satisfies(t, g[i].f, x) ==> Names(g[i], t, x);
    } else if Matches(t, g, ctx, x) {
      SelectsBelow(t, g, ctx, x);
    }
  }

  lemma SelectsBelow(t: Tree, g: Tokens, ctx: nat, x: nat)
    requires Valid(t) && IsContext(t, ctx) && g != [] && !LeadingNonDescendant(g) && Matches(t, g, ctx, x)
    ensures Below(t, ctx, x)
  {
    var p :| IsTrace(t, g, ctx, p) && p[|g|] == x;
    TraceStaysBelow(t, g, ctx, p, ctx, |g|);
  }

  /** For a list of one group, both of these. */
  method Prepare(t: Tree, groups: seq<Group>, context: nat, positionalText: bool) returns (plan: Plan)
    requires Valid(t) && IsContext(t, context) && Proper(groups)
    requires |groups| == 1 ==> LookupsDecide(t, groups[0].tokens, context, positionalText)
    ensures PlanFor(t, plan, groups, context)
    ensures plan.Filtering? && plan.seed.Undefined? ==> Proper(plan.groups)
  {
    if |groups| != 1 {
      return Filtering(Undefined, groups, context);
    }
    assert groups == [Group(groups[0].tokens)];
    plan := Hoist(t, groups[0].tokens, context);
    if plan.Filtering? {
      plan := FetchSeed(t, plan.groups[0].tokens, plan.context, positionalText);
    }
  }

  /** Sizzle.select: the selected elements, in document order, each once. */
  method Select(s: Sizzle, groups: seq<Group>, context: nat, positionalText: bool) returns (results: seq<nat>)
    requires Valid(s.t) && s.WellFormed() && IsContext(s.t, context) && Proper(groups)
    requires |groups| == 1 ==> LookupsDecide(s.t, groups[0].tokens, context, positionalText)
    modifies s
    ensures s.WellFormed()
    ensures results == Selected(s.t, groups, context, |s.t|)
  {
    var t := s.t;
    var plan := Prepare(t, groups, context, positionalText);
    if plan.Done? {
      results := plan.results;
    } else {
      var elems := if plan.seed.Nodes? then plan.seed.elems
        else ElementsBelow(t, Outermost(t, plan.context, MentionsSibling(plan.groups)), Tag("*"), |t|);
      ghost var compiled := CompileGroups(plan.groups, plan.context, s.done);
      GroupsWellNamed(plan.groups, plan.context, s.done);
      AcceptedAreSelected(t, plan, groups, context, elems, s.done);
      var matchers := s.Compile(plan.groups, plan.context);
      results := s.SuperMatcher(matchers, elems, compiled.done, compiled.names);
    }
    SelectedIsUnique(t, groups, context, results);
  }

  /** Filtering the candidates with the compiled selector leaves exactly the selected elements. */
  lemma AcceptedAreSelected(t: Tree, plan: Plan, groups: seq<Group>, ctx: nat, elems: seq<nat>, done: nat)
    requires Valid(t) && PlanFor(t, plan, groups, ctx) && Proper(groups) && plan.Filtering?
    requires plan.seed.Nodes? ==> elems == plan.seed.elems
    requires plan.seed.Undefined? ==> Proper(plan.groups)
    requires plan.seed.Undefined? ==>
      elems == ElementsBelow(t, Outermost(t, plan.context, MentionsSibling(plan.groups)), Tag("*"), |t|)
    ensures NodesOf(t, elems)
    ensures var r := Accepted(t, CompileGroups(plan.groups, plan.context, done).out, elems);
      Ascending(r) && forall x: nat :: x in r <==> IsElement(t, x) && MatchesAny(t, groups, ctx, x)
  {
    assert forall i :: 0 <= i < |elems| ==> elems[i] in elems;
    var ms := CompileGroups(plan.groups, plan.context, done).out;
    AcceptedFilters(t, ms, elems);
    NothingElse(t, groups, ctx);
    forall x: nat | IsElement(t, x)
      ensures x in elems && SomeEval(t, ms, x) <==> MatchesAny(t, groups, ctx, x)
    {
      GroupsCorrect(t, plan.groups, plan.context, done, x);
      if MatchesAny(t, groups, ctx, x) && plan.seed.Undefined? {
        SelectedAreInScope(t, plan.groups, plan.context, x);
      }
    }
  }

  lemma {:induction false} AcceptedFilters(t: Tree, ms: seq<Matcher>, elems: seq<nat>)
    requires Valid(t) && NodesOf(t, elems) && Ascending(elems)
    ensures var r := Accepted(t, ms, elems);
      Ascending(r) && forall x: nat :: x in r <==> x in elems && SomeEval(t, ms, x)
  {
    if elems != [] {
      var n := |elems| - 1;
      AcceptedFilters(t, ms, elems[..n]);
      AscendingSnoc(Accepted(t, ms, elems[..n]), elems[..n], elems[n]);
      assert elems == elems[..n] + [elems[n]];
    }
  }

  lemma AscendingSnoc(r: seq<nat>, within: seq<nat>, x: nat)
    requires Ascending(r) && forall y: nat :: y in r ==> y in within
    requires forall i :: 0 <= i < |within| ==> within[i] < x
    ensures Ascending(r + [x])
  {
    forall i | 0 <= i < |r| ensures r[i] < x {
      assert r[i] in within;
    }
  }

  lemma {:induction false} SelectedMembers(t: Tree, groups: seq<Group>, ctx: nat, n: nat)
    requires n <= |t|
    ensures Ascending(Selected(t, groups, ctx, n))
    ensures forall x :: x in Selected(t, groups, ctx, n) <==> x < n && IsElement(t, x) && MatchesAny(t, groups, ctx, x)
  {
    if n > 0 {
      SelectedMembers(t, groups, ctx, n - 1);
      var r := Selected(t, groups, ctx, n - 1);
      forall i | 0 <= i < |r| ensures r[i] < n - 1 {
        assert r[i] in r;
      }
    }
  }

  /** Two ascending lists with the same members are the same list. */
  lemma {:induction false} AscendingUnique(a: seq<nat>, b: seq<nat>)
    requires Ascending(a) && Ascending(b) && forall x :: x in a <==> x in b
    ensures a == b
    decreases |a|
  {
    assert b == [] || b[0] in b;
    if a != [] {
      assert a[0] in b && b[0] in a;
      assert a[0] == b[0];
      assert forall x :: x in a <==> x == a[0] || x in a[1..];
      assert forall x :: x in b <==> x == b[0] || x in b[1..];
      AscendingUnique(a[1..], b[1..]);
    }
  }

  lemma SelectedIsUnique(t: Tree, groups: seq<Group>, ctx: nat, results: seq<nat>)
    requires Ascending(results)
    requires forall x: nat :: x in results <==> IsElement(t, x) && MatchesAny(t, groups, ctx, x)
    ensures results == Selected(t, groups, ctx, |t|)
  {
    SelectedMembers(t, groups, ctx, |t|);
    AscendingUnique(results, Selected(t, groups, ctx, |t|));
  }

  // ----- what shared ids do

  /** For every group that ends with e's ID, e can be taken as the seed and the ID dropped. */
  ghost predicate IdSeedIsRight(t: Tree, e: nat)
    requires e < |t|
  {
    forall g: Tokens, x: nat :: EndsWithId(g, t[e].id) ==> SeedAgrees(t, g, e, x)
  }

  ghost predicate SeedAgrees(t: Tree, g: Tokens, e: nat, x: nat)
    requires g != []
  {
    Matches(t, g, 0, x) <==> Matches(t, Spliced(g, |g| - 1), 0, x) && x == e
  }

  predicate EndsWithId(g: Tokens, id: string) {
    g != [] && g[|g| - 1] == Filter(Id(id))
  }

  ghost predicate HasIdAlone(t: Tree, e: nat)
    requires IsElement(t, e)
  {
    forall y: nat :: IsElement(t, y) && t[y].id == t[e].id ==> y == e
  }

  lemma {:induction false} LoneIdMatches(t: Tree, y: nat)
    requires Valid(t) && IsElement(t, y)
    ensures Matches(t, [Filter(Id(t[y].id))], 0, y)
  {
    var g, p: seq<nat> := [Filter(Id(t[y].id))], [y, y];
    AllBelowDocument(t, y);
    assert TraceStep(t, g, p, 0);
    assert IsTrace(t, g, 0, p) && p[|g|] == y;
  }

  /** When an ID may be the seed's token: exactly if no other element has the id. */
  lemma IdSeedIsRightIfUnique(t: Tree, e: nat)
    requires Valid(t) && IsElement(t, e)
    ensures IdSeedIsRight(t, e) <==> HasIdAlone(t, e)
  {
    if IdSeedIsRight(t, e) {
      var g := [Filter(Id(t[e].id))];
      forall y: nat | IsElement(t, y) && t[y].id == t[e].id ensures y == e {
        LoneIdMatches(t, y);
        assert EndsWithId(g, t[e].id) && SeedAgrees(t, g, e, y);
      }
    }
    if HasIdAlone(t, e) {
      forall g: Tokens, x: nat | EndsWithId(g, t[e].id)
        ensures SeedAgrees(t, g, e, x)
      {
        if IsElement(t, x) {
          SeedKeepsMeaning(t, g, |g| - 1, 0, x);
        } else if Matches(t, g, 0, x) {
          OnlyElementsMatch(t, g, 0, x);
        }
      }
    }
  }

  /** A document with two paragraphs of id "a" and an element inside the second. */
  function TwoParagraphs(): (t: Tree)
    ensures Valid(t)
  {
    var doc := [
      Node(DocumentNode, "", "", {}, {}, -1, -1, -1),
      Node(ElementNode, "p", "a", {}, {}, 0, -1, 2),
      Node(ElementNode, "p", "a", {}, {}, 0, 1, -1),
      Node(ElementNode, "b", "", {}, {}, 2, -1, -1)];
    assert Linked(doc, 1) && Linked(doc, 2) && Linked(doc, 3);
    doc
  }

  /** Hoisting looks below the first element with the id only; the second holds something, so hoisting is wrong
      there, and "#a > *" loses what it holds. */
  lemma HoistLosesMatch()
    ensures var t, g := TwoParagraphs(), Star("a", Child);
      IsFirst(t, "a", 1) && !HoistIsRight(t, 1) && Matches(t, g, 0, 3) && !Matches(t, g[1..], 1, 3)
  {
    var t := TwoParagraphs();
    assert IsElement(t, 3) && t[3].parent == 2;
    assert !Barren(t, 2);
    HoistIsRightIfOthersBarren(t, 1);
    StarMatches(t, 2, Child, 3);
    if Matches(t, Star("a", Child)[1..], 1, 3) {
      StarMatchesFrom(t, 1, Child, 3);
    }
  }

  /** For "#a" alone the seed holds the first of the two only. */
  lemma IdSeedLosesMatch()
    ensures var t, g := TwoParagraphs(), [Filter(Id("a"))];
      IsFirst(t, "a", 1) && !IdSeedIsRight(t, 1) && Matches(t, g, 0, 2)
  {
    var t, g := TwoParagraphs(), [Filter(Id("a"))];
    IdSeedIsRightIfUnique(t, 1);
    assert IsElement(t, 2) && t[2].id == t[1].id;
    LoneIdMatches(t, 2);
  }

  // ----- what simple selectors select

  /** A single filter selects the elements below the context that pass it. */
  lemma LoneFilter(t: Tree, f: Simple, ctx: nat, x: nat)
    ensures Matches(t, [Filter(f)], ctx, x) <==> IsElement(t, x) && Below(t, ctx, x) && Satisfies(t, f, x)
  {
    var g := [Filter(f)];
    if Matches(t, g, ctx, x) {
      var p :| IsTrace(t, g, ctx, p) && p[|g|] == x;
      StepOf(t, g, ctx, p, 0);
    }
    if IsElement(t, x) && Below(t, ctx, x) && Satisfies(t, f, x) {
      var p: seq<nat> := [x, x];
      assert TraceStep(t, g, p, 0);
      assert IsTrace(t, g, ctx, p) && p[|g|] == x;
    }
  }

  /** A class, a tag, `*`, an id, another filter and the absence of a class. */
  lemma SimpleSelectors(t: Tree, name: string, ctx: nat, x: nat)
    requires Valid(t) && x < |t|
    ensures Matches(t, [Filter(Class(name))], ctx, x) <==>
      IsElement(t, x) && Below(t, ctx, x) && name in t[x].classes
    ensures name != "*" ==> (Matches(t, [Filter(Tag(name))], ctx, x) <==>
      IsElement(t, x) && Below(t, ctx, x) && t[x].tag == name)
    ensures Matches(t, [Filter(Tag("*"))], ctx, x) <==> IsElement(t, x) && Below(t, ctx, x)
    ensures Matches(t, [Filter(Id(name))], ctx, x) <==> IsElement(t, x) && Below(t, ctx, x) && t[x].id == name
    ensures Matches(t, [Filter(Trait(name))], ctx, x) <==>
      IsElement(t, x) && Below(t, ctx, x) && name in t[x].traits
    ensures Matches(t, [Filter(Not([Group([Filter(Class(name))])]))], ctx, x) <==>
      IsElement(t, x) && Below(t, ctx, x) && name !in t[x].classes
  {
    LoneFilter(t, Class(name), ctx, x);
    LoneFilter(t, Tag(name), ctx, x);
    LoneFilter(t, Tag("*"), ctx, x);
    LoneFilter(t, Id(name), ctx, x);
    LoneFilter(t, Trait(name), ctx, x);
    LoneFilter(t, Not([Group([Filter(Class(name))])]), ctx, x);
    LoneFilter(t, Class(name), 0, x);
    SingleGroup(t, [Filter(Class(name))], 0, x);
    if IsElement(t, x) {
      AllBelowDocument(t, x);
    }
  }

  /** What stands before the last filter of a compound must hold of the same element. */
  lemma CompoundSelects(t: Tree, g: Tokens, f: Simple, ctx: nat, x: nat)
    requires g != [] && x < |t|
    ensures Matches(t, g + [Filter(f)], ctx, x) <==> Matches(t, g, ctx, x) && Satisfies(t, f, x)
  {
    MatchesSnoc(t, g, Filter(f), ctx, x);
    if Matches(t, g, ctx, x) {
      OnlyElementsMatch(t, g, ctx, x);
    }
  }

  /** x and y are siblings and no element stands between them. */
  ghost predicate NextElementSibling(t: Tree, y: nat, x: nat)
    requires x < |t| && y < |t|
  {
    t[y].parent == t[x].parent && y < x && forall z :: y < z < x && IsElement(t, z) ==> t[z].parent != t[x].parent
  }

  /** Behind a combinator stand the children, descendants, next or later siblings of what stands before it. */
  lemma CombinatorSelects(t: Tree, g: Tokens, rel: Rel, f: Simple, ctx: nat, x: nat)
    requires g != [] && x < |t|
    ensures rel == Child ==> (Matches(t, g + [Relative(rel), Filter(f)], ctx, x) <==>
      IsElement(t, x) && Satisfies(t, f, x) && exists y: nat :: Matches(t, g, ctx, y) && t[x].parent == y)
    ensures rel == Descendant ==> (Matches(t, g + [Relative(rel), Filter(f)], ctx, x) <==>
      IsElement(t, x) && Satisfies(t, f, x) && exists y: nat :: Matches(t, g, ctx, y) && Below(t, y, x))
    ensures rel == Adjacent ==> (Matches(t, g + [Relative(rel), Filter(f)], ctx, x) <==>
      IsElement(t, x) && Satisfies(t, f, x)
      && exists y: nat :: y < |t| && Matches(t, g, ctx, y) && NextElementSibling(t, y, x))
    ensures rel == Sibling ==> (Matches(t, g + [Relative(rel), Filter(f)], ctx, x) <==>
      IsElement(t, x) && Satisfies(t, f, x)
      && exists y: nat :: y < x && Matches(t, g, ctx, y) && t[y].parent == t[x].parent)
  {
    var h := g + [Relative(rel)];
    assert g + [Relative(rel), Filter(f)] == h + [Filter(f)];
    CompoundSelects(t, h, f, ctx, x);
    MatchesSnoc(t, g, Relative(rel), ctx, x);
    forall y: nat | Matches(t, g, ctx, y) ensures IsElement(t, y) {
      OnlyElementsMatch(t, g, ctx, y);
    }
  }
}
