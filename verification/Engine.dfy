/** The matcher engine with its mutable state: the global dirruns counter and the [dirruns, doneName, result]
    arrays that combinators leave on the nodes they visit. */
module Engine {
  import opened Dom
  import opened Selectors
  import opened Matchers

  /** The array called newCache: shared by all the nodes one walk has visited. */
  class CacheEntry {
    const run: nat
    const doneName: nat
    var found: bool

    constructor (run: nat, doneName: nat)
      ensures this.run == run && this.doneName == doneName && !found
    {
      this.run, this.doneName, found := run, doneName, false;
    }
  }

  /** Node y, or one further along the combinator's direction, matches. */
  ghost predicate HereOrFurther(t: Tree, c: Matcher, y: nat)
    requires Valid(t) && y < |t| && c.Comb?
  {
    Eval(t, c.arg, y) || Walk(t, c, y)
  }

  class Sizzle {
    const t: Tree
    var dirruns: nat
    var lastRun: nat    // the largest value dirruns has had; a nested run takes a new one
    var done: nat
    var slots: map<(nat, Dir), CacheEntry>  // uniqueCache[key] of each node

    constructor (t: Tree)
      ensures this.t == t && WellFormed()
    {
      this.t, dirruns, lastRun, done, slots := t, 0, 0, 0, map[];
    }

    ghost predicate WellFormed()
      reads this
    {
      && dirruns <= lastRun
      && forall s :: s in slots ==> s.0 < |t| && slots[s].run <= lastRun
    }

    /** Every entry written since the outermost run began, except those still being computed, holds the
        uncached answer for the node it sits on. */
    ghost predicate Sound(names: map<nat, Matcher>, since: nat, pending: set<CacheEntry>)
      reads this, slots.Values
      requires Valid(t)
    {
      && WellFormed()
      && since <= dirruns
      && forall s :: s in slots && slots[s] !in pending && since <= slots[s].run ==>
        && slots[s].doneName in names && names[slots[s].doneName].Comb?
        && slots[s].found == HereOrFurther(t, names[slots[s].doneName], s.0)
    }

    ghost predicate Usable(m: Matcher, hi: nat, names: map<nat, Matcher>, pending: set<CacheEntry>)
      reads pending
    {
      WellNamed(m, hi, names) && forall e :: e in pending ==> hi <= e.doneName
    }

    /** Slots are only ever overwritten with entries created by the call. */
    twostate predicate OnlyNewEntries()
      reads this
    {
      && old(lastRun) <= lastRun
      && forall s :: s in slots ==> (s in old(slots) && slots[s] == old(slots)[s]) || fresh(slots[s])
    }

    /** A compiled matcher called on a node answers as if there were no caches. */
    method Match(m: Matcher, x: nat, ghost hi: nat, ghost names: map<nat, Matcher>, ghost since: nat,
                 ghost pending: set<CacheEntry>) returns (b: bool)
      requires Valid(t) && x < |t|
      requires Sound(names, since, pending) && Usable(m, hi, names, pending)
      modifies this`dirruns, this`lastRun, this`slots
      ensures Sound(names, since, pending) && OnlyNewEntries()
      ensures b == Eval(t, m, x)
      decreases m, 2
    {
      match m
      case Test(f) =>
        b := !f.Not? && BasicTest(t, f, x);
      case IsNode(node) =>
        b := x == node;
      case Anywhere =>
        b := true;
      case All(ms) =>
        var i := |ms|;
        while i > 0
          invariant 0 <= i <= |ms|
          invariant Sound(names, since, pending) && OnlyNewEntries()
          invariant forall j :: i <= j < |ms| ==> Eval(t, ms[j], x)
        {
          i := i - 1;
          var matched := Match(ms[i], x, hi, names, since, pending);
          if !matched {
            return false;
          }
        }
        b := true;
      case NoneOf(ms) =>
        b := NoGroupMatches(ms, m, x, hi, names, since, pending);
      case Comb(rel, arg, base, doneName) =>
        if IsFirst(rel) {
          b := Closest(m, x, hi, names, since, pending);
        } else {
          b := Search(m, x, hi, names, since, pending);
        }
    }

    /** :not(...), a nested superMatcher run: dirruns moves on and is not restored here. */
    method NoGroupMatches(ms: seq<Matcher>, ghost m: Matcher, x: nat, ghost hi: nat, ghost names: map<nat, Matcher>,
                          ghost since: nat, ghost pending: set<CacheEntry>) returns (b: bool)
      requires Valid(t) && x < |t| && m == NoneOf(ms)
      requires Sound(names, since, pending) && Usable(m, hi, names, pending)
      modifies this`dirruns, this`lastRun, this`slots
      ensures Sound(names, since, pending) && OnlyNewEntries()
      ensures b == Eval(t, m, x)
      decreases m, 1
    {
      lastRun := lastRun + 1;
      dirruns := lastRun;
      var i := 0;
      while i < |ms|
        invariant 0 <= i <= |ms|
        invariant Sound(names, since, pending) && OnlyNewEntries()
        invariant forall j :: 0 <= j < i ==> !Eval(t, ms[j], x)
      {
        var matched := Match(ms[i], x, hi, names, since, pending);
        if matched {
          return false;
        }
        i := i + 1;
      }
      b := true;
    }

    /** addCombinator with `first`: only the closest node counts. */
    method Closest(c: Matcher, x: nat, ghost hi: nat, ghost names: map<nat, Matcher>, ghost since: nat,
                   ghost pending: set<CacheEntry>) returns (b: bool)
      requires Valid(t) && x < |t| && c.Comb? && IsFirst(c.rel)
      requires Sound(names, since, pending) && Usable(c, hi, names, pending)
      modifies this`dirruns, this`lastRun, this`slots
      ensures Sound(names, since, pending) && OnlyNewEntries()
      ensures b == Walk(t, c, x)
      decreases c, 0
    {
      var elem: nat := x;
      while true
        invariant elem <= x && Walk(t, c, x) == Walk(t, c, elem)
        invariant Sound(names, since, pending) && OnlyNewEntries()
        decreases elem
      {
        StepGoesUp(t, DirOf(c.rel), elem);
        var next := Step(t, DirOf(c.rel), elem);
        if next < 0 {
          return false;
        }
        elem := next;
        if Checks(t, c, elem) {
          b := Match(c.arg, elem, c.doneName, names, since, pending);
          return;
        }
      }
    }

    /** The nodes that share newCache are at elem or were passed before it, and for all of them the answer is v. */
    ghost predicate Shared(newCache: CacheEntry, c: Matcher, elem: nat, v: bool)
      reads this
      requires Valid(t) && WellFormed() && c.Comb?
    {
      && newCache.run <= lastRun && newCache.doneName == c.doneName
      && forall s :: s in slots && slots[s] == newCache ==> elem <= s.0 && HereOrFurther(t, c, s.0) == v
    }

    /** Once its result is final, newCache is as good as any other entry. */
    lemma Publish(newCache: CacheEntry, c: Matcher, names: map<nat, Matcher>, since: nat, pending: set<CacheEntry>)
      requires Valid(t) && c.Comb? && newCache.doneName in names && names[newCache.doneName] == c
      requires Sound(names, since, pending + {newCache}) && Shared(newCache, c, 0, newCache.found)
      ensures Sound(names, since, pending)
    {
    }

    /** addCombinator without `first`: all nodes along the way, with memoisation. */
    method Search(c: Matcher, x: nat, ghost hi: nat, ghost names: map<nat, Matcher>, ghost since: nat,
                  ghost pending: set<CacheEntry>) returns (b: bool)
      requires Valid(t) && x < |t| && c.Comb? && !IsFirst(c.rel)
      requires Sound(names, since, pending) && Usable(c, hi, names, pending)
      modifies this`dirruns, this`lastRun, this`slots
      ensures Sound(names, since, pending) && OnlyNewEntries()
      ensures b == Walk(t, c, x)
      decreases c, 1
    {
      var key := DirOf(c.rel);
      var newCache := new CacheEntry(dirruns, c.doneName);
      ghost var open := pending + {newCache};
      var elem: nat := x;
      while true
        invariant elem <= x && Walk(t, c, x) == Walk(t, c, elem)
        invariant Sound(names, since, open) && OnlyNewEntries()
        invariant !newCache.found && Shared(newCache, c, elem, Walk(t, c, elem))
        decreases elem
      {
        StepGoesUp(t, key, elem);
        var next := Step(t, key, elem);
        if next < 0 {
          Publish(newCache, c, names, since, pending);
          return false;
        }
        elem := next;
        if Checks(t, c, elem) {
          var hit := Recall(c, elem, newCache, hi, names, since, pending);
          if hit {
            Publish(newCache, c, names, since, pending);
            return newCache.found;
          }
          var matched := Visit(c, elem, newCache, hi, names, since, pending);
          if matched {
            Publish(newCache, c, names, since, pending);
            return true;
          }
        }
      }
    }

    /** Take over the result of an entry of the current run, if the node has one by this combinator. */
    method Recall(c: Matcher, elem: nat, newCache: CacheEntry, ghost hi: nat, ghost names: map<nat, Matcher>,
                  ghost since: nat, ghost pending: set<CacheEntry>) returns (hit: bool)
      requires Valid(t) && elem < |t| && c.Comb?
      requires Sound(names, since, pending + {newCache}) && Usable(c, hi, names, pending)
      requires (elem, DirOf(c.rel)) !in slots || slots[(elem, DirOf(c.rel))] != newCache
      modifies newCache
      ensures hit ==> newCache.found == HereOrFurther(t, c, elem)
      ensures !hit ==> newCache.found == old(newCache.found)
    {
      var key := DirOf(c.rel);
      hit := (elem, key) in slots && slots[(elem, key)].run == dirruns && slots[(elem, key)].doneName == c.doneName;
      if hit {
        assert slots[(elem, key)] !in pending + {newCache};
        newCache.found := slots[(elem, key)].found;
      }
    }

    /** Leave newCache on a node, ask the inner matcher about it, and record the answer in newCache. */
    method Visit(c: Matcher, elem: nat, newCache: CacheEntry, ghost hi: nat, ghost names: map<nat, Matcher>,
                 ghost since: nat, ghost pending: set<CacheEntry>) returns (matched: bool)
      requires Valid(t) && elem < |t| && c.Comb? && !IsFirst(c.rel)
      requires Sound(names, since, pending + {newCache}) && Usable(c, hi, names, pending)
      requires Shared(newCache, c, elem + 1, HereOrFurther(t, c, elem))
      modifies this`dirruns, this`lastRun, this`slots, newCache
      ensures Sound(names, since, pending + {newCache})
      ensures old(lastRun) <= lastRun && forall s :: s in slots ==>
        (s in old(slots) && slots[s] == old(slots)[s]) || slots[s] == newCache || fresh(slots[s])
      ensures matched == Eval(t, c.arg, elem) && newCache.found == matched
      ensures Shared(newCache, c, elem, HereOrFurther(t, c, elem))
      decreases c, 0
    {
      slots := slots[(elem, DirOf(c.rel)) := newCache];
      matched := Match(c.arg, elem, c.doneName, names, since, pending + {newCache});
      newCache.found := matched;
    }

    /** matcherFromTokens: the closures built in one pass over the tokens, from the left. */
    method MatcherFromTokens(g: Tokens, ctx: nat) returns (m: Matcher)
      modifies this`done
      ensures var r := Matchers.MatcherFromTokens(g, ctx, old(done)); m == r.out && done == r.done
      decreases g, 1
    {
      var foundation := Foundation(g, ctx, done);
      var matchers := foundation.out;
      done := foundation.done;
      var i := if Leading(g) then 1 else 0;
      while i < |g|
        invariant i <= |g| && (Leading(g) ==> i > 0)
        invariant var p := Prefix(g, i, ctx, old(done)); matchers == p.out && done == p.done
      {
        var token := g[i];
        match token {
          case Relative(rel) =>
            matchers := [Comb(rel, ElementMatcher(matchers), false, done)];
            done := done + 1;
          case Filter(f) =>
            assert f < token;
            var matcher := CompiledFilter(f);
            matchers := matchers + [matcher];
        }
        i := i + 1;
      }
      m := ElementMatcher(matchers);
    }

    /** Expr.filter[type] applied to the token's captures. */
    method CompiledFilter(f: Simple) returns (m: Matcher)
      modifies this`done
      ensures var r := CompileFilter(f, old(done)); m == r.out && done == r.done
      decreases f
    {
      if f.Not? {
        var ms := Compile(f.groups, 0);
        m := NoneOf(ms);
      } else {
        m := Test(f);
      }
    }

    /** compile, for a selector that is not in the compiler cache. */
    method Compile(groups: seq<Group>, ctx: nat) returns (ms: seq<Matcher>)
      modifies this`done
      ensures var r := CompileGroups(groups, ctx, old(done)); ms == r.out && done == r.done
      decreases groups
    {
      if groups == [] {
        ms := [];
      } else {
        var last := |groups| - 1;
        var m := MatcherFromTokens(groups[last].tokens, ctx);
        var rest := Compile(groups[..last], ctx);
        ms := [m] + rest;
      }
    }

    /** The inner loop of superMatcher: stop at the first group that matches. */
    method AnyMatches(ms: seq<Matcher>, elem: nat, ghost hi: nat, ghost names: map<nat, Matcher>, ghost since: nat)
      returns (matched: bool)
      requires Valid(t) && elem < |t| && Sound(names, since, {})
      requires forall i :: 0 <= i < |ms| ==> WellNamed(ms[i], hi, names)
      modifies this`dirruns, this`lastRun, this`slots
      ensures Sound(names, since, {})
      ensures matched == SomeEval(t, ms, elem)
    {
      var j := 0;
      while j < |ms|
        invariant 0 <= j <= |ms| && Sound(names, since, {})
        invariant forall k :: 0 <= k < j ==> !Eval(t, ms[k], elem)
      {
        matched := Match(ms[j], elem, hi, names, since, {});
        if matched {
          return;
        }
        j := j + 1;
      }
      matched := false;
    }

    /** superMatcher without set matchers: keeps the elements that some matcher accepts, in the given order. */
    method SuperMatcher(ms: seq<Matcher>, elems: seq<nat>, ghost hi: nat, ghost names: map<nat, Matcher>)
      returns (results: seq<nat>)
      requires Valid(t) && WellFormed() && NodesOf(t, elems)
      requires forall i :: 0 <= i < |ms| ==> WellNamed(ms[i], hi, names)
      modifies this`dirruns, this`lastRun, this`slots
      ensures WellFormed() && results == Accepted(t, ms, elems)
    {
      lastRun := lastRun + 1;
      dirruns := lastRun;
      var dirrunsUnique := dirruns;
      results := [];
      var i := 0;
      while i < |elems|
        invariant 0 <= i <= |elems| && Sound(names, dirrunsUnique, {})
        invariant results == Accepted(t, ms, elems[..i])
      {
        var elem := elems[i];
        var matched := AnyMatches(ms, elem, hi, names, dirrunsUnique);
        assert elems[..i + 1] == elems[..i] + [elem];
        if matched {
          results := results + [elem];
        }
        dirruns := dirrunsUnique;
        i := i + 1;
      }
      assert elems[..i] == elems;
      dirruns := dirrunsUnique;
    }
  }

  ghost predicate NodesOf(t: Tree, elems: seq<nat>) {
    forall i :: 0 <= i < |elems| ==> elems[i] < |t|
  }

  /** The elements of a list that some matcher accepts. */
  ghost function Accepted(t: Tree, ms: seq<Matcher>, elems: seq<nat>): (r: seq<nat>)
    requires Valid(t) && NodesOf(t, elems)
  {
    if elems == [] then []
    else
      var n := |elems| - 1;
      Accepted(t, ms, elems[..n]) + (if SomeEval(t, ms, elems[n]) then [elems[n]] else [])
  }
}
