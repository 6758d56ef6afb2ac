/** jQuery.when with two or more arguments: a countdown over the subordinates, which may settle in any order, also
    while the arguments are still being adopted. */
module When {
  import opened Optional

  /** How a subordinate calls one of the functions given to it. */
  datatype Settle = Fulfil(args: seq<nat>) | Reject(reason: nat)

  datatype Signal = Signal(index: nat, settle: Settle)

  /** An argument: a plain value, or something with promise or then, which may call back at once and then throw. */
  datatype Argument = Plain(id: nat) | Thenable(calls: seq<Settle>, thrown: Option<nat>)

  /** What resolveValues holds: an argument itself, or what its subordinate was fulfilled with. */
  datatype Entry = Given(argument: Argument) | Undefined | One(id: nat) | Many(ids: seq<nat>)

  datatype Outcome = Resolved(values: seq<Entry>) | Rejected(reason: nat)

  function EntryOf(args: seq<nat>): Entry {
    if |args| > 1 then Many(args) else if args == [] then Undefined else One(args[0])
  }

  // ----- what a history of signals amounts to

  function Fulfilments(log: seq<Signal>): nat {
    if log == [] then 0
    else Fulfilments(log[..|log| - 1]) + if log[|log| - 1].settle.Fulfil? then 1 else 0
  }

  function Values(start: seq<Entry>, log: seq<Signal>): (values: seq<Entry>)
    ensures |values| == |start|
  {
    if log == [] then start
    else
      var values, s := Values(start, log[..|log| - 1]), log[|log| - 1];
      if s.settle.Fulfil? && s.index < |values| then values[s.index := EntryOf(s.settle.args)] else values
  }

  /** The first rejection or, before it, as many fulfilments as there are subordinates decide. */
  function Decided(start: seq<Entry>, log: seq<Signal>): Option<Outcome> {
    if log == [] then None
    else
      var before, s := Decided(start, log[..|log| - 1]), log[|log| - 1];
      if before.Some? then before
      else if s.settle.Reject? then Some(Rejected(s.settle.reason))
      else if Fulfilments(log) == |start| then Some(Resolved(Values(start, log)))
      else None
  }

  lemma OneMore(start: seq<Entry>, log: seq<Signal>, s: Signal)
    ensures Fulfilments(log + [s]) == Fulfilments(log) + if s.settle.Fulfil? then 1 else 0
    ensures s.settle.Reject? ==> Values(start, log + [s]) == Values(start, log)
    ensures s.settle.Fulfil? && s.index < |start| ==>
      Values(start, log + [s]) == Values(start, log)[s.index := EntryOf(s.settle.args)]
    ensures Decided(start, log + [s]) ==
      if Decided(start, log).Some? then Decided(start, log)
      else if s.settle.Reject? then Some(Rejected(s.settle.reason))
      else if Fulfilments(log + [s]) == |start| then Some(Resolved(Values(start, log + [s])))
      else None
  {
    assert (log + [s])[..|log|] == log;
  }

  function Givens(args: seq<Argument>): seq<Entry> {
    seq(|args|, i requires 0 <= i < |args| => Given(args[i]))
  }

  class Master {
    ghost const args: seq<Argument>
    ghost var log: seq<Signal>
    var remaining: int
    var resolveValues: seq<Entry>
    var outcome: Option<Outcome>

    ghost predicate Valid()
      reads this
    {
      && remaining == |args| - Fulfilments(log)
      && resolveValues == Values(Givens(args), log)
      && outcome == Decided(Givens(args), log)
    }

    constructor (args: seq<Argument>)
      ensures Valid() && this.args == args && log == []
    {
      this.args, log := args, [];
      remaining, resolveValues, outcome := |args|, Givens(args), None;
    }

    /** The function that updateFunc makes for subordinate i. */
    method Update(i: nat, values: seq<nat>)
      requires Valid() && i < |args|
      modifies this
      ensures Valid() && log == old(log) + [Signal(i, Fulfil(values))]
    {
      OneMore(Givens(args), log, Signal(i, Fulfil(values)));
      log := log + [Signal(i, Fulfil(values))];
      resolveValues := resolveValues[i := EntryOf(values)];
      remaining := remaining - 1;
      if remaining == 0 {
        ResolveWith(resolveValues);
      }
    }

    /** master.resolveWith: the master Deferred settles once. */
    method ResolveWith(values: seq<Entry>)
      modifies this`outcome
      ensures outcome == if old(outcome).None? then Some(Resolved(values)) else old(outcome)
    {
      if outcome.None? {
        outcome := Some(Resolved(values));
      }
    }

    /** master.reject, handed to every subordinate; i only says which one calls. */
    method RejectFrom(i: nat, reason: nat)
      requires Valid()
      modifies this
      ensures Valid() && log == old(log) + [Signal(i, Reject(reason))]
    {
      OneMore(Givens(args), log, Signal(i, Reject(reason)));
      log := log + [Signal(i, Reject(reason))];
      if outcome.None? {
        outcome := Some(Rejected(reason));
      }
    }

    method Deliver(s: Signal)
      requires Valid() && s.index < |args|
      modifies this
      ensures Valid() && log == old(log) + [s]
    {
      match s.settle
      case Fulfil(values) => Update(s.index, values);
      case Reject(reason) => RejectFrom(s.index, reason);
    }

    /** adoptValue */
    method Adopt(value: Argument, i: nat)
      requires Valid() && i < |args|
      modifies this
      ensures Valid() && log == old(log) + Adoption(value, i)
    {
      match value
      case Plain(id) => Update(i, [id]);
      case Thenable(calls, thrown) =>
        var k := 0;
        while k < |calls|
          invariant 0 <= k <= |calls| && Valid() && log == old(log) + Signals(calls[..k], i)
        {
          Deliver(Signal(i, calls[k]));
          k := k + 1;
        }
        if thrown.Some? {
          RejectFrom(i, thrown.value);
        }
    }

    /** The loop of when, from the last argument to the first, and whatever the subordinates signal afterwards. */
    method When(values: seq<Argument>, later: seq<Signal>)
      requires Valid() && log == [] && values == args && forall k :: 0 <= k < |later| ==> later[k].index < |args|
      modifies this
      ensures Valid() && log == Adoptions(args, 0) + later
    {
      AdoptAll(values);
      DeliverAll(later);
    }

    method AdoptAll(values: seq<Argument>)
      requires Valid() && log == [] && values == args
      modifies this
      ensures Valid() && log == Adoptions(args, 0)
    {
      var i := |values|;
      while i > 0
        invariant 0 <= i <= |args| && Valid() && log == Adoptions(args, i)
      {
        i := i - 1;
        Adopt(values[i], i);
      }
    }

    method DeliverAll(later: seq<Signal>)
      requires Valid() && forall k :: 0 <= k < |later| ==> later[k].index < |args|
      modifies this
      ensures Valid() && log == old(log) + later
    {
      var k := 0;
      while k < |later|
        invariant 0 <= k <= |later| && Valid() && log == old(log) + later[..k]
      {
        Deliver(later[k]);
        k := k + 1;
      }
    }
  }

  function Signals(calls: seq<Settle>, i: nat): seq<Signal> {
    seq(|calls|, k requires 0 <= k < |calls| => Signal(i, calls[k]))
  }

  /** What adopting an argument makes it signal at once. */
  function Adoption(value: Argument, i: nat): seq<Signal> {
    match value
    case Plain(id) => [Signal(i, Fulfil([id]))]
    case Thenable(calls, thrown) =>
      Signals(calls, i) + if thrown.Some? then [Signal(i, Reject(thrown.value))] else []
  }

  /** The signals of the arguments from the last down to number i. */
  function Adoptions(args: seq<Argument>, i: nat): seq<Signal>
    requires i <= |args|
    decreases |args| - i
  {
    if i == |args| then [] else Adoptions(args, i + 1) + Adoption(args[i], i)
  }

  // ----- subordinates that settle at most once

  predicate SettleOnce(log: seq<Signal>, n: nat) {
    && (forall k :: 0 <= k < |log| ==> log[k].index < n)
    && forall j, k :: 0 <= j < k < |log| ==> log[j].index != log[k].index
  }

  function Fulfilled(log: seq<Signal>): set<nat> {
    set k | 0 <= k < |log| && log[k].settle.Fulfil? :: log[k].index
  }

  lemma {:induction false} CountFulfilled(log: seq<Signal>, n: nat)
    requires SettleOnce(log, n)
    ensures Fulfilments(log) == |Fulfilled(log)|
    decreases |log|
  {
    if log == [] {
      assert Fulfilled(log) == {};
    } else {
      var before, s := log[..|log| - 1], log[|log| - 1];
      CountFulfilled(before, n);
      assert log == before + [s];
      assert Fulfilled(log) == Fulfilled(before) + if s.settle.Fulfil? then {s.index} else {};
    }
  }

  function Range(n: nat): (r: set<nat>)
    ensures forall i: nat :: i in r <==> i < n
    ensures |r| == n
  {
    if n == 0 then {} else Range(n - 1) + {n - 1}
  }

  lemma SubsetOfSameSize(a: set<nat>, b: set<nat>)
    requires a <= b && |a| == |b|
    ensures a == b
  {
    assert b == a + (b - a);
  }

  predicate AllFulfilled(log: seq<Signal>, n: nat) {
    Range(n) <= Fulfilled(log)
  }

  /** The count is that of the subordinates fulfilled, and reaches their number when all are. */
  lemma CountIsFull(log: seq<Signal>, n: nat)
    requires SettleOnce(log, n)
    ensures Fulfilments(log) == |Fulfilled(log)| <= n
    ensures Fulfilments(log) == n <==> AllFulfilled(log, n)
  {
    CountFulfilled(log, n);
    assert Fulfilled(log) <= Range(n);
    assert Range(n) == Fulfilled(log) + (Range(n) - Fulfilled(log));
    if Fulfilments(log) == n {
      SubsetOfSameSize(Fulfilled(log), Range(n));
    }
  }

  /** The entry is what a subordinate was fulfilled with: one value as it is, several as the list of all of them. */
  predicate Holds(entry: Entry, args: seq<nat>) {
    && (args == [] ==> entry == Undefined)
    && (|args| == 1 ==> entry == One(args[0]))
    && (|args| > 1 ==> entry == Many(args))
  }

  /** Every subordinate's value is at its own position. */
  lemma {:induction false} ValuesInPlace(start: seq<Entry>, log: seq<Signal>, k: nat)
    requires SettleOnce(log, |start|) && k < |log| && log[k].settle.Fulfil?
    ensures Holds(Values(start, log)[log[k].index], log[k].settle.args)
    decreases |log|
  {
    if k < |log| - 1 {
      ValuesInPlace(start, log[..|log| - 1], k);
    }
  }

  /** log[k] is the first rejection, with that reason. */
  predicate FirstRejection(log: seq<Signal>, k: nat, reason: nat) {
    && k < |log| && log[k].settle == Reject(reason)
    && forall j :: 0 <= j < k ==> log[j].settle.Fulfil?
  }

  predicate NoRejection(log: seq<Signal>) {
    forall k :: 0 <= k < |log| ==> log[k].settle.Fulfil?
  }

  predicate InPlace(values: seq<Entry>, log: seq<Signal>) {
    forall k :: 0 <= k < |log| && log[k].index < |values| && log[k].settle.Fulfil? ==>
      Holds(values[log[k].index], log[k].settle.args)
  }

  /** What a settled master, or one that is not, says about the history. */
  ghost predicate Right(start: seq<Entry>, log: seq<Signal>) {
    match Decided(start, log)
    case None => NoRejection(log) && !AllFulfilled(log, |start|)
    case Some(Rejected(reason)) => exists k :: FirstRejection(log, k, reason)
    case Some(Resolved(values)) =>
      NoRejection(log) && AllFulfilled(log, |start|) && |values| == |start| && InPlace(values, log)
  }

  lemma AllInPlace(start: seq<Entry>, log: seq<Signal>)
    requires SettleOnce(log, |start|)
    ensures InPlace(Values(start, log), log)
  {
    forall k | 0 <= k < |log| && log[k].settle.Fulfil?
      ensures Holds(Values(start, log)[log[k].index], log[k].settle.args)
    {
      ValuesInPlace(start, log, k);
    }
  }

  lemma NoneMore(log: seq<Signal>, s: Signal)
    requires NoRejection(log) && s.settle.Fulfil?
    ensures NoRejection(log + [s])
  {
  }

  lemma RightAtFulfilment(start: seq<Entry>, log: seq<Signal>, s: Signal)
    requires SettleOnce(log + [s], |start|) && s.settle.Fulfil?
    requires Decided(start, log).None? && NoRejection(log)
    ensures Right(start, log + [s])
  {
    OneMore(start, log, s);
    CountIsFull(log + [s], |start|);
    AllInPlace(start, log + [s]);
    NoneMore(log, s);
  }

  lemma RightAtRejection(start: seq<Entry>, log: seq<Signal>, s: Signal)
    requires s.settle.Reject? && Decided(start, log).None? && NoRejection(log)
    ensures Right(start, log + [s])
  {
    OneMore(start, log, s);
    assert FirstRejection(log + [s], |log|, s.settle.reason);
  }

  lemma SettlesFirst(log: seq<Signal>, s: Signal, n: nat)
    requires SettleOnce(log + [s], n)
    ensures !AllFulfilled(log, n)
  {
    assert (log + [s])[|log|] == s;
    forall k | 0 <= k < |log| ensures log[k].index != s.index {
      assert (log + [s])[k].index != (log + [s])[|log|].index;
    }
    assert s.index in Range(n) && s.index !in Fulfilled(log);
  }

  lemma RightAfterwards(start: seq<Entry>, log: seq<Signal>, s: Signal)
    requires SettleOnce(log + [s], |start|) && Decided(start, log).Some? && Right(start, log)
    ensures Right(start, log + [s])
  {
    OneMore(start, log, s);
    SettlesFirst(log, s, |start|);
    match Decided(start, log).value
    case Rejected(reason) =>
      var k :| FirstRejection(log, k, reason);
      assert FirstRejection(log + [s], k, reason);
    case Resolved(_) =>
  }

  /** If every subordinate settles at most once, the master rejects on the first rejection; without one it resolves
      as soon as all subordinates are fulfilled, with the value of number i at position i; otherwise it is pending. */
  lemma {:induction false} MasterSettles(start: seq<Entry>, log: seq<Signal>)
    requires SettleOnce(log, |start|) && |start| > 0
    ensures Right(start, log)
    decreases |log|
  {
    if log == [] {
      assert 0 in Range(|start|);
    } else {
      var before, s := log[..|log| - 1], log[|log| - 1];
      assert log == before + [s];
      MasterSettles(start, before);
      if Decided(start, before).Some? {
        RightAfterwards(start, before, s);
      } else if s.settle.Fulfil? {
        RightAtFulfilment(start, before, s);
      } else {
        RightAtRejection(start, before, s);
      }
    }
  }

  // ----- what arguments signal at once

  predicate AllPlain(args: seq<Argument>) {
    forall i :: 0 <= i < |args| ==> args[i].Plain?
  }

  /** Signal number k is the fulfilment by the plain argument number k from the end. */
  predicate PlainAt(args: seq<Argument>, log: seq<Signal>, k: nat)
    requires AllPlain(args) && k < |log| <= |args|
  {
    log[k] == Signal(|args| - 1 - k, Fulfil([args[|args| - 1 - k].id]))
  }

  /** Plain values fulfil one after the other, the last first. */
  lemma {:induction false} PlainSignals(args: seq<Argument>, i: nat)
    requires AllPlain(args) && i <= |args|
    ensures |Adoptions(args, i)| == |args| - i
    ensures forall k :: 0 <= k < |args| - i ==> PlainAt(args, Adoptions(args, i), k)
    decreases |args| - i
  {
    if i < |args| {
      PlainSignals(args, i + 1);
      var rest := Adoptions(args, i + 1);
      forall k | 0 <= k < |args| - i ensures PlainAt(args, Adoptions(args, i), k) {
        assert k < |rest| ==> PlainAt(args, rest, k);
      }
    }
  }

  lemma PlainSettleOnce(args: seq<Argument>, log: seq<Signal>)
    requires AllPlain(args) && |log| == |args| && forall k :: 0 <= k < |log| ==> PlainAt(args, log, k)
    ensures NoRejection(log) && SettleOnce(log, |args|)
  {
    forall k | 0 <= k < |log| ensures log[k].settle.Fulfil? && log[k].index == |args| - 1 - k {
      assert PlainAt(args, log, k);
    }
  }

  /** Plain values resolve the master at once, each at its own position. */
  lemma PlainValuesResolve(args: seq<Argument>)
    requires AllPlain(args) && args != []
    ensures var o := Decided(Givens(args), Adoptions(args, 0));
      && o.Some? && o.value.Resolved? && |o.value.values| == |args|
      && forall i :: 0 <= i < |args| ==> o.value.values[i] == One(args[i].id)
  {
    var log := Adoptions(args, 0);
    PlainSignals(args, 0);
    PlainSettleOnce(args, log);
    CountAll(Givens(args), log);
    forall i | 0 <= i < |args| ensures Values(Givens(args), log)[i] == One(args[i].id) {
      var k := |args| - 1 - i;
      assert PlainAt(args, log, k);
      ValuesInPlace(Givens(args), log, k);
    }
  }

  /** An argument whose then method throws before it has called anything rejects the master with the exception. */
  lemma ThrowRejects(args: seq<Argument>, later: seq<Signal>, reason: nat)
    requires args != [] && args[|args| - 1] == Thenable([], Some(reason))
    ensures Decided(Givens(args), Adoptions(args, 0) + later) == Some(Rejected(reason))
  {
    LastFirst(args, 0);
    FirstSignalRejects(Givens(args), Adoptions(args, 0) + later, reason);
  }

  /** The last argument is adopted first. */
  lemma {:induction false} LastFirst(args: seq<Argument>, i: nat)
    requires i < |args|
    ensures Adoption(args[|args| - 1], |args| - 1) <= Adoptions(args, i)
    decreases |args| - i
  {
    if i + 1 < |args| {
      LastFirst(args, i + 1);
    } else {
      assert Adoptions(args, i + 1) == [];
    }
  }

  lemma {:induction false} FirstSignalRejects(start: seq<Entry>, log: seq<Signal>, reason: nat)
    requires log != [] && log[0].settle == Reject(reason)
    ensures Decided(start, log) == Some(Rejected(reason))
    decreases |log|
  {
    if |log| > 1 {
      FirstSignalRejects(start, log[..|log| - 1], reason);
    } else {
      assert log[..0] == [];
    }
  }

  // ----- subordinates that settle more than once

  lemma {:induction false} FulfilledSize(log: seq<Signal>)
    ensures |Fulfilled(log)| <= |log|
    decreases |log|
  {
    if log == [] {
      assert Fulfilled(log) == {};
    } else {
      var before, s := log[..|log| - 1], log[|log| - 1];
      FulfilledSize(before);
      assert log == before + [s];
      assert Fulfilled(log) == Fulfilled(before) + if s.settle.Fulfil? then {s.index} else {};
    }
  }

  /** A thenable that fulfils twice is counted twice: as many fulfilments as arguments resolve the master in any
      case, but all arguments are fulfilled then if and only if no two of the signals came from the same one. */
  lemma CountIgnoresWho(start: seq<Entry>, log: seq<Signal>)
    requires |log| == |start| > 0 && NoRejection(log) && forall k :: 0 <= k < |log| ==> log[k].index < |start|
    ensures Decided(start, log) == Some(Resolved(Values(start, log)))
    ensures AllFulfilled(log, |start|) <==> SettleOnce(log, |start|)
  {
    CountAll(start, log);
    if SettleOnce(log, |start|) {
      CountIsFull(log, |start|);
    } else {
      var j, k :| 0 <= j < k < |log| && log[j].index == log[k].index;
      var rest := log[..k] + log[k + 1..];
      forall i | i in Fulfilled(log) ensures i in Fulfilled(rest) {
        var m :| 0 <= m < |log| && log[m].settle.Fulfil? && log[m].index == i;
        assert rest[if m < k then m else if m == k then j else m - 1].index == i;
      }
      FulfilledSize(rest);
      Cardinality(Fulfilled(log), Fulfilled(rest));
      if AllFulfilled(log, |start|) {
        Cardinality(Range(|start|), Fulfilled(log));
      }
    }
  }

  lemma Cardinality(a: set<nat>, b: set<nat>)
    requires a <= b
    ensures |a| <= |b|
  {
    assert b == a + (b - a);
  }

  lemma {:induction false} CountAll(start: seq<Entry>, log: seq<Signal>)
    requires NoRejection(log) && |log| <= |start|
    ensures Fulfilments(log) == |log|
    ensures Decided(start, log) == if log != [] && |log| == |start| then Some(Resolved(Values(start, log))) else None
    decreases |log|
  {
    if log != [] {
      CountAll(start, log[..|log| - 1]);
    }
  }

  /** The second argument's position still holds the argument itself. */
  lemma FulfilledTwice(a: Argument, b: Argument)
    ensures Decided([Given(a), Given(b)], [Signal(0, Fulfil([7])), Signal(0, Fulfil([8]))])
      == Some(Resolved([One(8), Given(b)]))
  {
    var start := [Given(a), Given(b)];
    OneMore(start, [], Signal(0, Fulfil([7])));
    OneMore(start, [Signal(0, Fulfil([7]))], Signal(0, Fulfil([8])));
    assert [] + [Signal(0, Fulfil([7]))] == [Signal(0, Fulfil([7]))];
    assert start[0 := One(7)][0 := One(8)] == [One(8), Given(b)];
    assert [Signal(0, Fulfil([7]))] + [Signal(0, Fulfil([8]))] == [Signal(0, Fulfil([7])), Signal(0, Fulfil([8]))];
  }
}
