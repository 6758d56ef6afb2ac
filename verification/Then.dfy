/** Deferred.then: adoption of what the handlers return. The depth counter that then() keeps is proved to decide
    like the flags of the promise resolution procedure, section 2.3 of Promises/A+. */
module Then {
  import opened Optional

  datatype Reason = Thrown(id: nat) | SelfResolution

  /** What a handler may return: the derived promise itself, a thenable, or anything else. A thenable's then method
      is a script: it calls resolvers, at once, and may throw in the end. */
  datatype Value = Plain(id: nat) | Self | Thenable(calls: seq<Call>, thrown: Option<Reason>)

  /** A handler's completion. Calling resolve is Identity returning the value, calling reject is Thrower throwing it. */
  datatype Completion = Returns(value: Value) | Throws(reason: Reason)

  /** A call of one of the two resolvers handed out at a level: levels count the thenables adopted so far. */
  datatype Call = Call(level: nat, completion: Completion)

  datatype Outcome = Resolved(id: nat) | Rejected(reason: Reason)

  // ----- the promise resolution procedure

  /** For each thenable adopted, whether one of its resolvers has been called. */
  datatype Promise = Promise(called: seq<bool>, outcome: Option<Outcome>)

  function Settled(p: Promise, o: Outcome): Promise {
    p.(outcome := Some(o))
  }

  /** Resolve the promise with a handler's completion. */
  function Resolve(p: Promise, c: Completion): Promise
    decreases c
  {
    match c
    case Throws(e) => Settled(p, Rejected(e))
    case Returns(v) =>
      match v
      case Plain(id) => Settled(p, Resolved(id))
      case Self => Settled(p, Rejected(SelfResolution))
      case Thenable(_, thrown) =>
        AfterThen(CallThen(p.(called := p.called + [false]), v, |v.calls|), |p.called|, thrown)
  }

  /** A throw counts only if neither resolver of that thenable has been called. */
  function AfterThen(p: Promise, i: nat, thrown: Option<Reason>): Promise {
    if thrown.Some? && i < |p.called| && !p.called[i]
    then Settled(p.(called := p.called[i := true]), Rejected(thrown.value)) else p
  }

  /** The first n calls of the thenable's script. */
  function CallThen(p: Promise, v: Value, n: nat): Promise
    requires v.Thenable? && n <= |v.calls|
    decreases v, n
  {
    if n == 0 then p else CallResolver(CallThen(p, v, n - 1), v.calls[n - 1])
  }

  /** Only the first call of a resolver at each level counts. */
  function CallResolver(p: Promise, call: Call): Promise
    decreases call
  {
    if Ignored(p, call.level) then p
    else Resolve(p.(called := p.called[call.level - 1 := true]), call.completion)
  }

  predicate Ignored(p: Promise, level: nat) {
    !(1 <= level <= |p.called|) || p.called[level - 1]
  }

  /** The handler completes, and later resolvers are called. */
  function Run(first: Completion, later: seq<Call>): Promise
    decreases |later|
  {
    if later == [] then Resolve(Promise([], None), first)
    else CallResolver(Run(first, later[..|later| - 1]), later[|later| - 1])
  }

  // ----- then()

  /** Every level's resolvers have been called. */
  predicate AllCalled(p: Promise) {
    forall i :: 0 <= i < |p.called| ==> p.called[i]
  }

  /** Unsettled, waiting for the resolvers of the last thenable and for no others. */
  predicate Waiting(p: Promise) {
    && p.outcome == None && p.called != [] && !p.called[|p.called| - 1]
    && forall i :: 0 <= i < |p.called| - 1 ==> p.called[i]
  }

  /** The procedure's promise p and what then() keeps of it. */
  predicate Agree(maxDepth: nat, outcome: Option<Outcome>, p: Promise) {
    && outcome == p.outcome
    && if outcome == None then maxDepth == |p.called| && Waiting(p) else AllCalled(p) && |p.called| <= maxDepth
  }

  /** All levels called, and about to resolve with what the last call, or the handler, completed with. */
  function Reached(depth: nat): Promise {
    Promise(seq(depth, _ => true), None)
  }

  /** A call that counts is one at the last level. */
  lemma CallCounts(maxDepth: nat, p: Promise, level: nat)
    requires Agree(maxDepth, None, p)
    ensures Ignored(p, level) <==> level != maxDepth
    ensures p.(called := p.called[maxDepth - 1 := true]) == Reached(maxDepth)
  {
  }

  class Derived {
    var maxDepth: nat
    var outcome: Option<Outcome>

    constructor ()
      ensures maxDepth == 0 && outcome == None
    {
      maxDepth, outcome := 0, None;
    }

    /** resolveWith and rejectWith of the derived Deferred, which settles once. */
    method SettleWith(o: Outcome)
      modifies this`outcome
      ensures outcome == if old(outcome) == None then Some(o) else old(outcome)
    {
      if outcome == None {
        outcome := Some(o);
      }
    }

    /** mightThrow; the result is the exception that leaves it. */
    method MightThrow(depth: nat, c: Completion) returns (thrown: Option<Reason>)
      requires depth <= maxDepth
      modifies this
      ensures maxDepth >= old(maxDepth)
      ensures old(outcome) != None ==> outcome == old(outcome)
      ensures depth < old(maxDepth) ==> maxDepth == old(maxDepth) && outcome == old(outcome) && thrown == None
      ensures old(outcome) == None && depth == old(maxDepth) ==>
        var rejects := thrown.Some? && outcome == None && depth + 1 >= maxDepth;
        Agree(maxDepth, if rejects then Some(Rejected(thrown.value)) else outcome, Resolve(Reached(depth), c))
      decreases c, 0
    {
      thrown := None;
      if depth < maxDepth {
        return;
      }
      if c.Throws? {
        return Some(c.reason);
      }
      match c.value
      case Self => thrown := Some(SelfResolution);
      case Plain(id) => SettleWith(Resolved(id));
      case Thenable(calls, throws) =>
        maxDepth := maxDepth + 1;
        ghost var p := Promise(Reached(depth).called + [false], None);
        var i := 0;
        while i < |calls|
          invariant 0 <= i <= |calls| && maxDepth > old(maxDepth)
          invariant old(outcome) != None ==> outcome == old(outcome)
          invariant old(outcome) == None ==> Agree(maxDepth, outcome, CallThen(p, c.value, i))
        {
          CallLater(calls[i], CallThen(p, c.value, i));
          i := i + 1;
        }
        thrown := throws;
    }

    /** process: an exception rejects, unless the derived Deferred already depends on something deeper. */
    method Process(depth: nat, c: Completion)
      requires depth <= maxDepth
      modifies this
      ensures maxDepth >= old(maxDepth)
      ensures old(outcome) != None ==> outcome == old(outcome)
      ensures depth < old(maxDepth) ==> maxDepth == old(maxDepth) && outcome == old(outcome)
      ensures old(outcome) == None && depth == old(maxDepth) ==> Agree(maxDepth, outcome, Resolve(Reached(depth), c))
      decreases c, 1
    {
      var thrown := MightThrow(depth, c);
      if thrown.Some? {
        if depth + 1 >= maxDepth {
          SettleWith(Rejected(thrown.value));
        }
      }
    }

    /** A call of a resolver, at once or later; one that was never handed out cannot be called. */
    method CallLater(call: Call, ghost p: Promise)
      requires outcome == None ==> Agree(maxDepth, None, p)
      modifies this
      ensures maxDepth >= old(maxDepth)
      ensures old(outcome) != None ==> outcome == old(outcome)
      ensures old(Agree(maxDepth, outcome, p)) ==> Agree(maxDepth, outcome, CallResolver(p, call))
      ensures call.level < old(maxDepth) ==> maxDepth == old(maxDepth) && outcome == old(outcome)
      decreases call
    {
      if outcome == None {
        CallCounts(maxDepth, p, call.level);
      }
      if 1 <= call.level <= maxDepth {
        Process(call.level, call.completion);
      }
    }

    /** The handler runs, and whoever has got hold of resolvers calls them later: the outcome is the procedure's. */
    method Chain(first: Completion, later: seq<Call>)
      requires maxDepth == 0 && outcome == None
      modifies this
      ensures Agree(maxDepth, outcome, Run(first, later))
      ensures forall id :: first == Returns(Plain(id)) ==> outcome == Some(Resolved(id))
      ensures forall e :: first == Throws(e) ==> outcome == Some(Rejected(e))
      ensures first == Returns(Self) ==> outcome == Some(Rejected(SelfResolution))
    {
      HandlerSettles(first, later);
      Process(0, first);
      var i := 0;
      while i < |later|
        invariant 0 <= i <= |later| && Agree(maxDepth, outcome, Run(first, later[..i]))
      {
        assert later[..i + 1][..i] == later[..i];
        CallLater(later[i], Run(first, later[..i]));
        i := i + 1;
      }
      assert later[..i] == later;
    }
  }

  // ----- what the procedure promises

  /** A promise in either of the two states that a run goes through. */
  predicate Sound(p: Promise) {
    if p.outcome == None then Waiting(p) else AllCalled(p)
  }

  /** No level disappears, and a called one stays called. */
  predicate Extends(p: Promise, q: Promise) {
    |p.called| <= |q.called| && forall i :: 0 <= i < |p.called| ==> p.called[i] ==> q.called[i]
  }

  lemma {:induction false} ResolveIsSound(p: Promise, c: Completion)
    requires p.outcome == None && AllCalled(p)
    ensures Sound(Resolve(p, c)) && Extends(p, Resolve(p, c))
    decreases c
  {
    if c.Returns? && c.value.Thenable? {
      CallThenIsSound(p.(called := p.called + [false]), c.value, |c.value.calls|);
    }
  }

  lemma {:induction false} CallIsSound(p: Promise, call: Call)
    requires Sound(p)
    ensures Sound(CallResolver(p, call)) && Extends(p, CallResolver(p, call))
    ensures p.outcome != None ==> CallResolver(p, call) == p
    ensures p.outcome == None ==> (CallResolver(p, call) == p <==> call.level != |p.called|)
    ensures p.outcome == None && call.level == |p.called| ==> CallResolver(p, call).called[|p.called| - 1]
    decreases call
  {
    if !Ignored(p, call.level) {
      ResolveIsSound(p.(called := p.called[call.level - 1 := true]), call.completion);
    }
  }

  lemma {:induction false} CallThenIsSound(p: Promise, v: Value, n: nat)
    requires Sound(p) && v.Thenable? && n <= |v.calls|
    ensures Sound(CallThen(p, v, n)) && Extends(p, CallThen(p, v, n))
    decreases v, n
  {
    if n > 0 {
      CallThenIsSound(p, v, n - 1);
      CallIsSound(CallThen(p, v, n - 1), v.calls[n - 1]);
    }
  }

  lemma {:induction false} RunIsSound(first: Completion, later: seq<Call>)
    ensures Sound(Run(first, later))
    decreases |later|
  {
    if later == [] {
      ResolveIsSound(Promise([], None), first);
    } else {
      RunIsSound(first, later[..|later| - 1]);
      CallIsSound(Run(first, later[..|later| - 1]), later[|later| - 1]);
    }
  }

  /** Settling happens at most once: no later call changes anything. */
  lemma {:induction false} OutcomeIsFinal(first: Completion, later: seq<Call>, more: seq<Call>)
    requires Run(first, later).outcome != None
    ensures Run(first, later + more) == Run(first, later)
    decreases |more|
  {
    if more == [] {
      assert later + more == later;
    } else {
      OutcomeIsFinal(first, later, more[..|more| - 1]);
      assert (later + more)[..|later + more| - 1] == later + more[..|more| - 1];
      RunIsSound(first, later);
      CallIsSound(Run(first, later), more[|more| - 1]);
    }
  }

  /** While the promise is pending, only a call at the last level has any effect. */
  lemma OtherCallsAreIgnored(first: Completion, later: seq<Call>, call: Call)
    requires Run(first, later).outcome == None
    ensures Run(first, later + [call]) == Run(first, later) <==> call.level != |Run(first, later).called|
  {
    assert (later + [call])[..|later|] == later;
    RunIsSound(first, later);
    CallIsSound(Run(first, later), call);
  }

  /** One of the first n calls of the script goes to the resolvers of that level. */
  predicate CallsLevel(v: Value, n: nat, level: nat)
    requires v.Thenable? && n <= |v.calls|
  {
    exists i :: 0 <= i < n && v.calls[i].level == level
  }

  /** The level of the thenable just adopted stays uncalled until the script calls one of its resolvers. */
  lemma {:induction false} CalledWhenScriptCalls(p: Promise, v: Value, n: nat)
    requires v.Thenable? && n <= |v.calls| && Waiting(p)
    ensures Extends(p, CallThen(p, v, n))
    ensures CallThen(p, v, n).called[|p.called| - 1] <==> CallsLevel(v, n, |p.called|)
    ensures !CallsLevel(v, n, |p.called|) ==> CallThen(p, v, n) == p
    decreases n
  {
    if n > 0 {
      CalledWhenScriptCalls(p, v, n - 1);
      CallThenIsSound(p, v, n - 1);
      CallIsSound(CallThen(p, v, n - 1), v.calls[n - 1]);
      assert CallsLevel(v, n, |p.called|) <==> CallsLevel(v, n - 1, |p.called|) || v.calls[n - 1].level == |p.called|;
    }
  }

  /** A throw after one of the thenable's resolvers has been called makes no difference. */
  lemma ThrowAfterCallIsIgnored(p: Promise, v: Value)
    requires p.outcome == None && AllCalled(p) && v.Thenable? && CallsLevel(v, |v.calls|, |p.called| + 1)
    ensures Resolve(p, Returns(v)) == Resolve(p, Returns(v.(thrown := None)))
  {
    var q := p.(called := p.called + [false]);
    CalledWhenScriptCalls(q, v, |v.calls|);
    ThrowDoesNotMatter(q, v, |v.calls|);
  }

  lemma {:induction false} ThrowDoesNotMatter(p: Promise, v: Value, n: nat)
    requires v.Thenable? && n <= |v.calls|
    ensures CallThen(p, v, n) == CallThen(p, v.(thrown := None), n)
    decreases n
  {
    if n > 0 {
      ThrowDoesNotMatter(p, v, n - 1);
    }
  }

  /** A throw before that rejects, with the exception. */
  lemma ThrowBeforeCallRejects(p: Promise, v: Value)
    requires p.outcome == None && AllCalled(p) && v.Thenable? && v.thrown.Some?
    requires !CallsLevel(v, |v.calls|, |p.called| + 1)
    ensures Resolve(p, Returns(v)).outcome == Some(Rejected(v.thrown.value))
  {
    CalledWhenScriptCalls(p.(called := p.called + [false]), v, |v.calls|);
  }

  /** Some calls, one after the other. */
  function Following(p: Promise, calls: seq<Call>): Promise {
    if calls == [] then p else CallResolver(Following(p, calls[..|calls| - 1]), calls[|calls| - 1])
  }

  /** The calls that go to resolvers handed out deeper than at this level. */
  function Deeper(calls: seq<Call>, level: nat): seq<Call> {
    if calls == [] then []
    else
      var n := |calls| - 1;
      Deeper(calls[..n], level) + if calls[n].level > level then [calls[n]] else []
  }

  /** The script's calls from number m on, one after the other. */
  lemma {:induction false} ScriptFrom(p: Promise, v: Value, m: nat, n: nat)
    requires v.Thenable? && m <= n <= |v.calls|
    ensures CallThen(p, v, n) == Following(CallThen(p, v, m), v.calls[m..n])
    decreases n
  {
    if m < n {
      ScriptFrom(p, v, m, n - 1);
      assert v.calls[m..n][..n - 1 - m] == v.calls[m..n - 1];
    }
  }

  lemma {:induction false} FollowingIsSound(p: Promise, calls: seq<Call>)
    requires Sound(p)
    ensures Sound(Following(p, calls)) && Extends(p, Following(p, calls))
    ensures p.outcome != None ==> Following(p, calls) == p
    decreases |calls|
  {
    if calls != [] {
      FollowingIsSound(p, calls[..|calls| - 1]);
      CallIsSound(Following(p, calls[..|calls| - 1]), calls[|calls| - 1]);
    }
  }

  /** Calls at levels that have been called make no difference. */
  lemma {:induction false} OnlyDeeperCount(p: Promise, calls: seq<Call>, level: nat)
    requires Sound(p) && level <= |p.called| && forall i :: 0 <= i < level ==> p.called[i]
    ensures Following(p, calls) == Following(p, Deeper(calls, level))
    decreases |calls|
  {
    if calls != [] {
      var before, call := calls[..|calls| - 1], calls[|calls| - 1];
      OnlyDeeperCount(p, before, level);
      FollowingIsSound(p, before);
      if call.level > level {
        assert (Deeper(before, level) + [call])[..|Deeper(before, level)|] == Deeper(before, level);
      } else {
        assert Deeper(before, level) + [] == Deeper(before, level);
      }
    }
  }

  /** What the promise is after the first call of one of the thenable's resolvers. */
  function AfterFirst(p: Promise, call: Call): Promise {
    Resolve(p.(called := p.called + [true]), call.completion)
  }

  lemma UpToFirst(p: Promise, v: Value, i: nat)
    requires p.outcome == None && AllCalled(p) && v.Thenable? && i < |v.calls|
    requires v.calls[i].level == |p.called| + 1 && !CallsLevel(v, i, |p.called| + 1)
    ensures CallThen(p.(called := p.called + [false]), v, i + 1) == AfterFirst(p, v.calls[i])
    ensures Sound(AfterFirst(p, v.calls[i])) && Extends(p.(called := p.called + [true]), AfterFirst(p, v.calls[i]))
  {
    var q, r := p.(called := p.called + [false]), p.(called := p.called + [true]);
    CalledWhenScriptCalls(q, v, i);
    assert q.called[|p.called| := true] == r.called;
    ResolveIsSound(r, v.calls[i].completion);
  }

  /** After its first n calls, where n counts the first to one of its own resolvers. */
  lemma FirstCallDecidesSoFar(p: Promise, v: Value, i: nat, n: nat)
    requires p.outcome == None && AllCalled(p) && v.Thenable? && i < n <= |v.calls|
    requires v.calls[i].level == |p.called| + 1 && !CallsLevel(v, i, |p.called| + 1)
    ensures var q, s := CallThen(p.(called := p.called + [false]), v, n), AfterFirst(p, v.calls[i]);
      && q == Following(s, Deeper(v.calls[i + 1..n], |p.called| + 1))
      && |q.called| > |p.called| && q.called[|p.called|]
      && (s.outcome != None ==> q == s)
  {
    var q, s, rest := p.(called := p.called + [false]), AfterFirst(p, v.calls[i]), v.calls[i + 1..n];
    UpToFirst(p, v, i);
    ScriptFrom(q, v, i + 1, n);
    assert CallThen(q, v, n) == Following(s, rest);
    CalledStays(p.(called := p.called + [true]), s, |p.called| + 1);
    OnlyDeeperCount(s, rest, |p.called| + 1);
    FollowingIsSound(s, rest);
    CalledStays(s, Following(s, rest), |p.called| + 1);
  }

  lemma CalledStays(p: Promise, q: Promise, n: nat)
    requires Extends(p, q) && n <= |p.called| && forall i :: 0 <= i < n ==> p.called[i]
    ensures n <= |q.called| && forall i :: 0 <= i < n ==> q.called[i]
  {
  }

  /** The first call of one of a thenable's resolvers decides. If that settles the promise, the rest of the script
      makes no difference. If it adopts another thenable, only later calls of resolvers handed out deeper do; those
      at this level and below, and the throw at the end, do not. */
  lemma FirstCallDecides(p: Promise, v: Value, i: nat)
    requires p.outcome == None && AllCalled(p) && v.Thenable? && i < |v.calls|
    requires v.calls[i].level == |p.called| + 1 && !CallsLevel(v, i, |p.called| + 1)
    ensures Resolve(p, Returns(v)) == Following(AfterFirst(p, v.calls[i]), Deeper(v.calls[i + 1..], |p.called| + 1))
    ensures AfterFirst(p, v.calls[i]).outcome != None ==> Resolve(p, Returns(v)) == AfterFirst(p, v.calls[i])
  {
    FirstCallDecidesSoFar(p, v, i, |v.calls|);
    assert v.calls[i + 1..|v.calls|] == v.calls[i + 1..];
  }

  // ----- with what the promise settles

  /** A handler's plain value resolves with that value, its exception rejects with it, and the derived promise itself
      is refused; no later call changes that. */
  lemma HandlerSettles(first: Completion, later: seq<Call>)
    ensures forall id :: first == Returns(Plain(id)) ==> Run(first, later).outcome == Some(Resolved(id))
    ensures forall e :: first == Throws(e) ==> Run(first, later).outcome == Some(Rejected(e))
    ensures first == Returns(Self) ==> Run(first, later).outcome == Some(Rejected(SelfResolution))
  {
    if Run(first, []).outcome != None {
      OutcomeIsFinal(first, [], later);
      assert [] + later == later;
    }
  }

  /** While the promise is pending, a call of one of the resolvers it waits for settles it in the same way. */
  lemma CallSettles(first: Completion, later: seq<Call>, call: Call)
    requires Run(first, later).outcome == None && call.level == |Run(first, later).called|
    ensures forall id :: call.completion == Returns(Plain(id)) ==>
      Run(first, later + [call]).outcome == Some(Resolved(id))
    ensures forall e :: call.completion == Throws(e) ==> Run(first, later + [call]).outcome == Some(Rejected(e))
    ensures call.completion == Returns(Self) ==>
      Run(first, later + [call]).outcome == Some(Rejected(SelfResolution))
  {
    var calls := later + [call];
    assert calls[..|calls| - 1] == later && calls[|calls| - 1] == call;
    RunIsSound(first, later);
    var p := Run(first, later);
    var q := p.(called := p.called[call.level - 1 := true]);
    assert Run(first, calls) == CallResolver(p, call) == Resolve(q, call.completion);
  }

  /** A thenable that calls neither of its own resolvers leaves the promise waiting for them, if it does not throw, and
      rejects it with what it throws. */
  lemma SilentThenable(v: Value)
    requires v.Thenable? && !CallsLevel(v, |v.calls|, 1)
    ensures Run(Returns(v), []).outcome == if v.thrown.Some? then Some(Rejected(v.thrown.value)) else None
    ensures v.thrown.None? ==> |Run(Returns(v), []).called| == 1
  {
    var p := Promise([], None);
    assert p.(called := p.called + [false]) == Promise([false], None);
    CalledWhenScriptCalls(Promise([false], None), v, |v.calls|);
  }

  /** The first of its own resolvers that it calls settles the promise with that call's value or reason. */
  lemma ThenableSettles(v: Value, i: nat)
    requires v.Thenable? && i < |v.calls| && v.calls[i].level == 1 && !CallsLevel(v, i, 1)
    ensures forall id :: v.calls[i].completion == Returns(Plain(id)) ==>
      Run(Returns(v), []).outcome == Some(Resolved(id))
    ensures forall e :: v.calls[i].completion == Throws(e) ==> Run(Returns(v), []).outcome == Some(Rejected(e))
    ensures v.calls[i].completion == Returns(Self) ==>
      Run(Returns(v), []).outcome == Some(Rejected(SelfResolution))
  {
    FirstCallDecides(Promise([], None), v, i);
  }
}
