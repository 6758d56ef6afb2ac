/** Compiled matchers. A matcher is the term form of the closures that matcherFromTokens nests;
    Eval is the uncached answer of such a closure for one node. */
module Matchers {
  import opened Dom
  import opened Selectors

  datatype Matcher =
    | Test(f: Simple)
    | NoneOf(ms: seq<Matcher>)                       // :not(...) over the groups of its argument
    | All(ms: seq<Matcher>)                          // elementMatcher
    | IsNode(node: nat)                              // elem === checkContext
    | Anywhere                                       // the foundational matcher when the context is the document
    | Comb(rel: Rel, arg: Matcher, base: bool, doneName: nat)  // addCombinator

  function DirOf(rel: Rel): Dir {
    if rel == Descendant || rel == Child then ParentNode else PreviousSibling
  }

  predicate IsFirst(rel: Rel) {
    rel == Child || rel == Adjacent
  }

  /** Nodes a combinator looks at: elements, and for the outermost parentNode combinator any node. */
  predicate Checks(t: Tree, c: Matcher, y: nat)
    requires c.Comb? && y < |t|
  {
    IsElement(t, y) || (c.base && DirOf(c.rel) == ParentNode)
  }

  lemma StepGoesUp(t: Tree, dir: Dir, x: nat)
    requires Valid(t) && x < |t|
    ensures -1 <= Step(t, dir, x) < x
  {
    if x > 0 {
      assert Linked(t, x);
    }
  }

  ghost predicate Eval(t: Tree, m: Matcher, x: nat)
    requires Valid(t) && x < |t|
    decreases m, x, 1
  {
    match m
    case Test(f) => !f.Not? && BasicTest(t, f, x)
    case NoneOf(ms) => forall i :: 0 <= i < |ms| ==> !Eval(t, ms[i], x)
    case All(ms) => forall i :: 0 <= i < |ms| ==> Eval(t, ms[i], x)
    case IsNode(node) => x == node
    case Anywhere => true
    case Comb(_, _, _, _) => Walk(t, m, x)
  }

  /** Does the combinator find a match strictly further along its direction from x? */
  ghost predicate Walk(t: Tree, c: Matcher, x: nat)
    requires Valid(t) && x < |t| && c.Comb?
    decreases c, x, 0
  {
    StepGoesUp(t, DirOf(c.rel), x);
    var y := Step(t, DirOf(c.rel), x);
    if y < 0 then false
    else if !Checks(t, c, y) then Walk(t, c, y)
    else if IsFirst(c.rel) then Eval(t, c.arg, y)
    else Eval(t, c.arg, y) || Walk(t, c, y)
  }

  // ----- compilation

  /** The state of matcherFromTokens: matchers collected so far, the next doneName, and for the proof
      which combinator owns each name handed out. */
  datatype Compiled<T> = Compiled(out: T, done: nat, names: map<nat, Matcher>)

  function ElementMatcher(ms: seq<Matcher>): Matcher {
    if |ms| == 1 then ms[0] else All(ms)
  }

  function LeadRel(g: Tokens): Rel {
    if Leading(g) then g[0].rel else Descendant
  }

  /** The foundational matcher: reachable from the context. Two names are taken, one for matchContext
      and one for matchAnyContext, which a single context node never uses. */
  function Foundation(g: Tokens, ctx: nat, done: nat): Compiled<seq<Matcher>> {
    var c := Comb(LeadRel(g), IsNode(ctx), true, done);
    Compiled([if !Leading(g) && ctx == 0 then Anywhere else c], done + 2, map[done := c])
  }

  /** Tokens g[..k] compiled; a leading combinator is part of the foundation. */
  function Prefix(g: Tokens, k: nat, ctx: nat, done: nat): (r: Compiled<seq<Matcher>>)
    requires k <= |g|
    ensures |r.out| > 0
    decreases g, k
  {
    if k == 0 || (k == 1 && Leading(g)) then Foundation(g, ctx, done)
    else
      var p := Prefix(g, k - 1, ctx, done);
      var token := g[k - 1];
      match token
      case Relative(rel) =>
        var c := Comb(rel, ElementMatcher(p.out), false, p.done);
        Compiled([c], p.done + 1, p.names[p.done := c])
      case Filter(f) =>
        assert f < token;
        var m := CompileFilter(f, p.done);
        Compiled(p.out + [m.out], m.done, p.names + m.names)
  }

  function CompileFilter(f: Simple, done: nat): Compiled<Matcher>
    decreases f
  {
    match f
    case Not(groups) =>
      var r := CompileGroups(groups, 0, done);
      Compiled(NoneOf(r.out), r.done, r.names)
    case _ => Compiled(Test(f), done, map[])
  }

  /** compile: the groups are compiled from the last to the first. */
  function CompileGroups(groups: seq<Group>, ctx: nat, done: nat): (r: Compiled<seq<Matcher>>)
    ensures |r.out| == |groups|
    decreases groups
  {
    if groups == [] then Compiled([], done, map[])
    else
      var last := |groups| - 1;
      var m := MatcherFromTokens(groups[last].tokens, ctx, done);
      var rest := CompileGroups(groups[..last], ctx, m.done);
      Compiled([m.out] + rest.out, rest.done, m.names + rest.names)
  }

  function MatcherFromTokens(g: Tokens, ctx: nat, done: nat): Compiled<Matcher>
    decreases g, |g| + 1
  {
    var p := Prefix(g, |g|, ctx, done);
    Compiled(ElementMatcher(p.out), p.done, p.names)
  }

  // ----- compiled matchers mean what the tokens mean

  /** The walk of a combinator visits exactly the nodes in its relation. */
  lemma {:induction false} WalkIsRelation(t: Tree, c: Matcher, x: nat)
    requires Valid(t) && x < |t| && c.Comb?
    ensures Walk(t, c, x) <==>
      exists y: nat :: y < |t| && Related(t, c.rel, y, x) && Checks(t, c, y) && Eval(t, c.arg, y)
    decreases x
  {
    StepGoesUp(t, DirOf(c.rel), x);
    var y := Step(t, DirOf(c.rel), x);
    if x > 0 {
      assert Linked(t, x);
    }
    if y >= 0 {
      WalkIsRelation(t, c, y);
      StepRelates(t, c, x, y);
    }
  }

  /** One step of a walk: the nodes related to x are the next node and, unless the search ends there,
      those related to the next node. */
  lemma StepRelates(t: Tree, c: Matcher, x: nat, y: nat)
    requires Valid(t) && 0 <= y < x < |t| && c.Comb? && y == Step(t, DirOf(c.rel), x)
    ensures Checks(t, c, y) ==> Related(t, c.rel, y, x)
    ensures forall z: nat :: z < |t| && z != y && Checks(t, c, z) ==>
      (Related(t, c.rel, z, x) <==> Related(t, c.rel, z, y) && !(IsFirst(c.rel) && Checks(t, c, y)))
  {
    assert Linked(t, x);
    forall z: nat | z < |t| && z != y && Checks(t, c, z)
      ensures Related(t, c.rel, z, x) <==> Related(t, c.rel, z, y) && !(IsFirst(c.rel) && Checks(t, c, y))
    {
    }
  }

  ghost predicate IsContext(t: Tree, ctx: nat) {
    |t| > 0 && (ctx == 0 || IsElement(t, ctx))
  }

  /** Reading one more token: some node reached before it leads over it to x. */
  lemma MatchesSnoc(t: Tree, j: Tokens, token: Token, ctx: nat, x: nat)
    requires x < |t| && (j == [] ==> token.Filter?)
    ensures Matches(t, j + [token], ctx, x) <==>
      IsElement(t, x) && exists y: nat :: IsElement(t, y) && Matches(t, j, ctx, y) && TokenHolds(t, token, y, x)
  {
    var h, n := j + [token], |j|;
    assert Leading(h) <==> Leading(j);
    if Matches(t, h, ctx, x) {
      var p :| IsTrace(t, h, ctx, p) && p[|h|] == x;
      TraceShortens(t, j, token, ctx, p);
      assert h[n] == token;
      StepOf(t, h, ctx, p, n);
      assert IsTrace(t, j, ctx, p[..n + 1]) && p[..n + 1][n] == p[n];
      if n > 0 { StepOf(t, h, ctx, p, n - 1); }
    }
    if IsElement(t, x) {
      forall y: nat | y < |t| && IsElement(t, y) && Matches(t, j, ctx, y) && TokenHolds(t, token, y, x)
        ensures Matches(t, h, ctx, x)
      {
        var q :| IsTrace(t, j, ctx, q) && q[|j|] == y;
        TraceExtends(t, j, ctx, q, token, x);
      }
    }
  }

  lemma TraceShortens(t: Tree, j: Tokens, token: Token, ctx: nat, p: seq<nat>)
    requires IsTrace(t, j + [token], ctx, p) && (j == [] ==> token.Filter?)
    ensures IsTrace(t, j, ctx, p[..|j| + 1])
  {
    var q := p[..|j| + 1];
    assert Leading(j) <==> Leading(j + [token]);
    forall k | 0 <= k < |j|
      ensures TraceStep(t, j, q, k)
    {
      assert j[k] == (j + [token])[k];
      StepOf(t, j + [token], ctx, p, k);
    }
    assert IsTrace(t, j, ctx, q);
  }

  lemma TraceExtends(t: Tree, j: Tokens, ctx: nat, q: seq<nat>, token: Token, x: nat)
    requires IsTrace(t, j, ctx, q) && q[|j|] < |t| && x < |t| && (j == [] ==> token.Filter?)
    requires IsElement(t, x) && TokenHolds(t, token, q[|j|], x)
    ensures Matches(t, j + [token], ctx, x)
  {
    var h, p := j + [token], q + [x];
    forall k | 0 <= k < |h|
      ensures TraceStep(t, h, p, k)
    {
      if k < |j| {
        assert h[k] == j[k];
        StepOf(t, j, ctx, q, k);
      }
    }
    assert IsTrace(t, h, ctx, p) && p[|h|] == x;
  }

  /** The matchers built from g[..k] all accept x exactly when g[..k] selects x. */
  lemma {:induction false} PrefixCorrect(t: Tree, g: Tokens, k: nat, ctx: nat, done: nat, x: nat)
    requires Valid(t) && IsContext(t, ctx) && IsElement(t, x)
    requires k <= |g| && (Leading(g) ==> k > 0)
    ensures Eval(t, All(Prefix(g, k, ctx, done).out), x) <==> Matches(t, g[..k], ctx, x)
    decreases g, k
  {
    if k == 0 || (k == 1 && Leading(g)) {
      FoundationCorrect(t, g, k, ctx, done, x);
    } else {
      var token := g[k - 1];
      match token
      case Relative(rel) =>
        forall y: nat | y < |t| && IsElement(t, y)
          ensures Eval(t, All(Prefix(g, k - 1, ctx, done).out), y) <==> Matches(t, g[..k - 1], ctx, y)
        {
          PrefixCorrect(t, g, k - 1, ctx, done, y);
        }
        RelativeCorrect(t, g, k, ctx, done, x);
      case Filter(f) =>
        assert f < token;
        PrefixCorrect(t, g, k - 1, ctx, done, x);
        FilterCorrect(t, f, Prefix(g, k - 1, ctx, done).done, x);
        FilterAdded(t, g, k, ctx, done, x);
    }
  }

  /** A combinator token, given that the matchers before it are right. */
  lemma RelativeCorrect(t: Tree, g: Tokens, k: nat, ctx: nat, done: nat, x: nat)
    requires Valid(t) && IsElement(t, x) && 0 < k <= |g| && g[k - 1].Relative? && (Leading(g) ==> k > 1)
    requires forall y: nat :: y < |t| && IsElement(t, y) ==>
      (Eval(t, All(Prefix(g, k - 1, ctx, done).out), y) <==> Matches(t, g[..k - 1], ctx, y))
    ensures Eval(t, All(Prefix(g, k, ctx, done).out), x) <==> Matches(t, g[..k], ctx, x)
  {
    var p := Prefix(g, k - 1, ctx, done);
    var token := g[k - 1];
    var c := Comb(token.rel, ElementMatcher(p.out), false, p.done);
    assert Prefix(g, k, ctx, done).out == [c];
    assert Eval(t, All([c]), x) <==> Walk(t, c, x) by { assert [c][0] == c; }
    WalkIsRelation(t, c, x);
    forall y: nat | y < |t|
      ensures Eval(t, c.arg, y) <==> Eval(t, All(p.out), y)
    {
      if |p.out| == 1 { assert p.out[0] == c.arg; }
    }
    assert g[..k] == g[..k - 1] + [token];
    MatchesSnoc(t, g[..k - 1], token, ctx, x);
    assert forall y: nat :: y < |t| ==> (TokenHolds(t, token, y, x) <==> Related(t, token.rel, y, x));
  }

  /** A filter token, given that the filter is right. */
  lemma FilterAdded(t: Tree, g: Tokens, k: nat, ctx: nat, done: nat, x: nat)
    requires Valid(t) && IsElement(t, x) && 0 < k <= |g| && g[k - 1].Filter? && (Leading(g) ==> k > 1)
    requires Eval(t, All(Prefix(g, k - 1, ctx, done).out), x) <==> Matches(t, g[..k - 1], ctx, x)
    requires var m := CompileFilter(g[k - 1].f, Prefix(g, k - 1, ctx, done).done).out;
      Eval(t, m, x) <==> Satisfies(t, g[k - 1].f, x)
    ensures Eval(t, All(Prefix(g, k, ctx, done).out), x) <==> Matches(t, g[..k], ctx, x)
  {
    var p := Prefix(g, k - 1, ctx, done);
    var token := g[k - 1];
    var m := CompileFilter(token.f, p.done).out;
    assert Prefix(g, k, ctx, done).out == p.out + [m];
    AllSnoc(t, p.out, m, x);
    assert g[..k] == g[..k - 1] + [token];
    MatchesSnoc(t, g[..k - 1], token, ctx, x);
  }

  lemma AllSnoc(t: Tree, ms: seq<Matcher>, m: Matcher, x: nat)
    requires Valid(t) && x < |t|
    ensures Eval(t, All(ms + [m]), x) <==> Eval(t, All(ms), x) && Eval(t, m, x)
  {
    var out := ms + [m];
    assert out[|ms|] == m && forall i :: 0 <= i < |ms| ==> out[i] == ms[i];
  }

  lemma FoundationCorrect(t: Tree, g: Tokens, k: nat, ctx: nat, done: nat, x: nat)
    requires Valid(t) && IsContext(t, ctx) && IsElement(t, x)
    requires if Leading(g) then k == 1 else k == 0
    ensures Eval(t, All(Foundation(g, ctx, done).out), x) <==> Matches(t, g[..k], ctx, x)
  {
    var f := Foundation(g, ctx, done).out[0];
    assert Eval(t, All([f]), x) <==> Eval(t, f, x) by { assert [f][0] == f; }
    FoundationMatches(t, g, k, ctx, x);
    if f.Comb? {
      WalkIsRelation(t, f, x);
      if Related(t, f.rel, ctx, x) { assert Checks(t, f, ctx); }
    } else {
      AllBelowDocument(t, x);
    }
  }

  lemma FoundationMatches(t: Tree, g: Tokens, k: nat, ctx: nat, x: nat)
    requires Valid(t) && IsContext(t, ctx) && IsElement(t, x)
    requires if Leading(g) then k == 1 else k == 0
    ensures Matches(t, g[..k], ctx, x) <==> Related(t, LeadRel(g), ctx, x)
  {
    var h := g[..k];
    if Leading(g) {
      assert h == [g[0]];
      if Related(t, g[0].rel, ctx, x) {
        var p: seq<nat> := [ctx, x];
        assert IsTrace(t, h, ctx, p) && p[|h|] == x;
      }
      if Matches(t, h, ctx, x) {
        var p :| IsTrace(t, h, ctx, p) && p[|h|] == x;
        StepOf(t, h, ctx, p, 0);
      }
    } else if Below(t, ctx, x) {
      var p: seq<nat> := [x];
      assert IsTrace(t, h, ctx, p) && p[|h|] == x;
    }
  }

  lemma {:induction false} FilterCorrect(t: Tree, f: Simple, done: nat, x: nat)
    requires Valid(t) && IsElement(t, x)
    ensures Eval(t, CompileFilter(f, done).out, x) <==> Satisfies(t, f, x)
    decreases f
  {
    if f.Not? {
      GroupsCorrect(t, f.groups, 0, done, x);
      var ms := CompileGroups(f.groups, 0, done).out;
      assert Eval(t, NoneOf(ms), x) <==> !SomeEval(t, ms, x);
    }
  }

  /** One of the matchers accepts x. */
  ghost predicate SomeEval(t: Tree, ms: seq<Matcher>, x: nat)
    requires Valid(t) && x < |t|
  {
    exists i :: 0 <= i < |ms| && Eval(t, ms[i], x)
  }

  /** A compiled selector list accepts x exactly when some group selects it. */
  lemma {:induction false} GroupsCorrect(t: Tree, groups: seq<Group>, ctx: nat, done: nat, x: nat)
    requires Valid(t) && IsContext(t, ctx) && IsElement(t, x)
    ensures SomeEval(t, CompileGroups(groups, ctx, done).out, x) <==> MatchesAny(t, groups, ctx, x)
    decreases groups
  {
    if groups != [] {
      var last := |groups| - 1;
      var g := groups[last].tokens;
      var m := MatcherFromTokens(g, ctx, done);
      TokensCorrect(t, g, ctx, done, x);
      GroupsCorrect(t, groups[..last], ctx, m.done, x);
      var rest := CompileGroups(groups[..last], ctx, m.done).out;
      SomeEvalCons(t, m.out, rest, x);
      MatchesAnySnoc(t, groups[..last], groups[last], ctx, x);
      assert groups == groups[..last] + [groups[last]];
      assert CompileGroups(groups, ctx, done).out == [m.out] + rest;
    }
  }

  lemma SomeEvalCons(t: Tree, m: Matcher, rest: seq<Matcher>, x: nat)
    requires Valid(t) && x < |t|
    ensures SomeEval(t, [m] + rest, x) <==> Eval(t, m, x) || SomeEval(t, rest, x)
  {
    var ms := [m] + rest;
    assert ms[0] == m && forall i :: 0 <= i < |rest| ==> ms[i + 1] == rest[i];
  }

  lemma MatchesAnySnoc(t: Tree, groups: seq<Group>, g: Group, ctx: nat, x: nat)
    ensures MatchesAny(t, groups + [g], ctx, x) <==> MatchesAny(t, groups, ctx, x) || Matches(t, g.tokens, ctx, x)
  {
    var all := groups + [g];
    assert all[|groups|] == g && forall i :: 0 <= i < |groups| ==> all[i] == groups[i];
  }

  lemma {:induction false} TokensCorrect(t: Tree, g: Tokens, ctx: nat, done: nat, x: nat)
    requires Valid(t) && IsContext(t, ctx) && IsElement(t, x)
    ensures Eval(t, MatcherFromTokens(g, ctx, done).out, x) <==> Matches(t, g, ctx, x)
    decreases g, |g| + 1
  {
    PrefixCorrect(t, g, |g|, ctx, done, x);
    assert g[..|g|] == g;
  }

  // ----- names

  /** Combinators inside a combinator carry smaller names than it, and all names are below hi. */
  ghost predicate Named(m: Matcher, hi: nat) {
    match m
    case Comb(_, arg, _, doneName) => doneName < hi && Named(arg, doneName)
    case All(ms) => forall i :: 0 <= i < |ms| ==> Named(ms[i], hi)
    case NoneOf(ms) => forall i :: 0 <= i < |ms| ==> Named(ms[i], hi)
    case _ => true
  }

  /** names knows every combinator in m by its name. */
  ghost predicate Registered(m: Matcher, names: map<nat, Matcher>) {
    match m
    case Comb(_, arg, _, doneName) => doneName in names && names[doneName] == m && Registered(arg, names)
    case All(ms) => forall i :: 0 <= i < |ms| ==> Registered(ms[i], names)
    case NoneOf(ms) => forall i :: 0 <= i < |ms| ==> Registered(ms[i], names)
    case _ => true
  }

  ghost predicate WellNamed(m: Matcher, hi: nat, names: map<nat, Matcher>) {
    Named(m, hi) && Registered(m, names)
  }

  ghost predicate NamesWithin(names: map<nat, Matcher>, lo: nat, hi: nat) {
    lo <= hi && forall d :: d in names ==> lo <= d < hi && names[d].Comb?
  }

  lemma {:induction false} WellNamedGrows(m: Matcher, lo: nat, hi: nat, small: map<nat, Matcher>,
      large: map<nat, Matcher>)
    requires WellNamed(m, lo, small) && lo <= hi
    requires forall d :: d in small ==> d in large && large[d] == small[d]
    ensures WellNamed(m, hi, large)
    decreases m
  {
    match m
    case Comb(_, arg, _, doneName) => WellNamedGrows(arg, doneName, doneName, small, large);
    case All(ms) => forall i | 0 <= i < |ms| { WellNamedGrows(ms[i], lo, hi, small, large); }
    case NoneOf(ms) => forall i | 0 <= i < |ms| { WellNamedGrows(ms[i], lo, hi, small, large); }
    case _ =>
  }

  lemma AllWellNamedGrow(ms: seq<Matcher>, lo: nat, hi: nat, small: map<nat, Matcher>, large: map<nat, Matcher>)
    requires forall i :: 0 <= i < |ms| ==> WellNamed(ms[i], lo, small)
    requires lo <= hi && forall d :: d in small ==> d in large && large[d] == small[d]
    ensures forall i :: 0 <= i < |ms| ==> WellNamed(ms[i], hi, large)
  {
    forall i | 0 <= i < |ms| { WellNamedGrows(ms[i], lo, hi, small, large); }
  }

  /** Compilation hands out fresh names, inner combinators first. */
  lemma {:induction false} PrefixWellNamed(g: Tokens, k: nat, ctx: nat, done: nat)
    requires k <= |g|
    ensures var r := Prefix(g, k, ctx, done);
      NamesWithin(r.names, done, r.done) && forall i :: 0 <= i < |r.out| ==> WellNamed(r.out[i], r.done, r.names)
    decreases g, k
  {
    if k == 0 || (k == 1 && Leading(g)) {
      var f := Foundation(g, ctx, done);
      assert WellNamed(f.out[0], f.done, f.names) && |f.out| == 1;
    } else {
      var p, r := Prefix(g, k - 1, ctx, done), Prefix(g, k, ctx, done);
      PrefixWellNamed(g, k - 1, ctx, done);
      var token := g[k - 1];
      match token
      case Relative(rel) =>
        AllWellNamedGrow(p.out, p.done, p.done, p.names, r.names);
        assert WellNamed(ElementMatcher(p.out), p.done, r.names);
        assert WellNamed(r.out[0], r.done, r.names);
      case Filter(f) =>
        assert f < token;
        var m := CompileFilter(f, p.done);
        FilterWellNamed(f, p.done);
        AllWellNamedGrow(p.out, p.done, r.done, p.names, r.names);
        WellNamedGrows(m.out, m.done, r.done, m.names, r.names);
    }
  }

  lemma {:induction false} FilterWellNamed(f: Simple, done: nat)
    ensures var r := CompileFilter(f, done);
      NamesWithin(r.names, done, r.done) && WellNamed(r.out, r.done, r.names)
    decreases f
  {
    if f.Not? { GroupsWellNamed(f.groups, 0, done); }
  }

  lemma {:induction false} GroupsWellNamed(groups: seq<Group>, ctx: nat, done: nat)
    ensures var r := CompileGroups(groups, ctx, done);
      NamesWithin(r.names, done, r.done) && forall i :: 0 <= i < |r.out| ==> WellNamed(r.out[i], r.done, r.names)
    decreases groups
  {
    if groups != [] {
      var last := |groups| - 1;
      var m := MatcherFromTokens(groups[last].tokens, ctx, done);
      var rest, r := CompileGroups(groups[..last], ctx, m.done), CompileGroups(groups, ctx, done);
      PrefixWellNamed(groups[last].tokens, |groups[last].tokens|, ctx, done);
      GroupsWellNamed(groups[..last], ctx, m.done);
      WellNamedGrows(m.out, m.done, r.done, m.names, r.names);
      AllWellNamedGrow(rest.out, rest.done, r.done, rest.names, r.names);
    }
  }
}
