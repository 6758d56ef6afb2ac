/** Selector token lists and what they mean: a group of tokens selects an element when some sequence of nodes,
    one before each token and one after the last, leads from the context to that element. */
module Selectors {
  import opened Dom

  datatype Rel = Descendant | Child | Adjacent | Sibling  // " ", ">", "+", "~"

  datatype Simple =
    | Tag(name: string)
    | Class(name: string)
    | Id(name: string)
    | Trait(name: string)  // any other filter whose answer is the document's alone; name is its text
    | Not(groups: seq<Group>)

  datatype Token = Relative(rel: Rel) | Filter(f: Simple)

  type Tokens = seq<Token>

  /** One comma-separated part of a selector. */
  datatype Group = Group(tokens: Tokens)

  predicate Leading(g: Tokens) {
    g != [] && g[0].Relative?
  }

  /** x and y are in the relation that the combinator between them names. */
  ghost predicate Related(t: Tree, rel: Rel, x: nat, y: nat)
    requires x < |t| && y < |t|
  {
    match rel
    case Descendant => Below(t, x, y)
    case Child => t[y].parent == x
    case Adjacent => t[x].parent == t[y].parent && x < y
      && forall z :: x < z < y && t[z].parent == t[y].parent ==> !IsElement(t, z)
    case Sibling => t[x].parent == t[y].parent && x < y
  }

  predicate BasicTest(t: Tree, f: Simple, x: nat)
    requires x < |t| && !f.Not?
  {
    match f
    case Tag(name) => name == "*" || t[x].tag == name
    case Class(name) => name in t[x].classes
    case Id(name) => t[x].id == name
    case Trait(name) => name in t[x].traits
  }

  ghost predicate Satisfies(t: Tree, f: Simple, x: nat)
    requires x < |t|
    decreases f
  {
    match f
    case Not(groups) => !MatchesAny(t, groups, 0, x)
    case _ => BasicTest(t, f, x)
  }

  ghost predicate TokenHolds(t: Tree, tok: Token, x: nat, y: nat)
    requires x < |t| && y < |t|
    decreases tok
  {
    match tok
    case Relative(rel) => Related(t, rel, x, y)
    case Filter(f) => x == y && Satisfies(t, f, x)
  }

  ghost predicate Starts(t: Tree, g: Tokens, ctx: nat, x: nat)
    requires x < |t|
  {
    if Leading(g) then x == ctx else Below(t, ctx, x) && IsElement(t, x)
  }

  /** p[k] is the node reached after k tokens. */
  ghost predicate IsTrace(t: Tree, g: Tokens, ctx: nat, p: seq<nat>)
    decreases g, 1
  {
    && |p| == |g| + 1
    && p[0] < |t| && Starts(t, g, ctx, p[0])
    && forall k :: 0 <= k < |g| ==> TraceStep(t, g, p, k)
  }

  ghost predicate TraceStep(t: Tree, g: Tokens, p: seq<nat>, k: nat)
    requires k < |g| && |p| == |g| + 1
    decreases g, 0
  {
    p[k] < |t| && IsElement(t, p[k + 1]) && TokenHolds(t, g[k], p[k], p[k + 1])
  }

  /** Group g, read from context ctx, selects x. */
  ghost predicate Matches(t: Tree, g: Tokens, ctx: nat, x: nat)
    decreases g, 2
  {
    exists p :: IsTrace(t, g, ctx, p) && p[|g|] == x
  }

  /** Some group of the comma-separated list selects x. */
  ghost predicate MatchesAny(t: Tree, groups: seq<Group>, ctx: nat, x: nat)
    decreases groups, 3
  {
    exists i :: 0 <= i < |groups| && Matches(t, groups[i].tokens, ctx, x)
  }

  lemma StepOf(t: Tree, g: Tokens, ctx: nat, p: seq<nat>, k: nat)
    requires IsTrace(t, g, ctx, p) && k < |g|
    ensures p[k] < |t| && IsElement(t, p[k + 1]) && TokenHolds(t, g[k], p[k], p[k + 1])
  {
    assert TraceStep(t, g, p, k);
  }
}
