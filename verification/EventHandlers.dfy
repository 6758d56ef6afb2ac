/** The handler lists of one element: event.add puts delegated handlers in front of direct ones, event.remove splices
    them out, and event.handlers turns a list into the queue for one event. */
module EventHandlers {
  import opened Optional
  import opened Dom
  import Lists

  /** What jQuery keeps of a registration; selector is empty for a handler bound directly. */
  datatype HandleObj = HandleObj(origType: string, guid: nat, namespaces: seq<string>, selector: string)

  /** A handler list: an array with a property that says how many delegated handlers are in front. */
  datatype Bound = Bound(handlers: seq<HandleObj>, delegateCount: nat)

  /** jQuery.event.special: the types to use instead of a given one; empty if there is none. */
  datatype Special = Special(delegateType: string, bindType: string)

  /** One of the event types given to add or remove. */
  datatype TypeSpec = TypeSpec(origType: string, namespaces: seq<string>)

  function MappedType(special: map<string, Special>, type_: string, selector: string): string {
    if type_ !in special then type_
    else
      var t := if selector != "" then special[type_].delegateType else special[type_].bindType;
      if t != "" then t else type_
  }

  // ----- registrations in order of time

  predicate Delegated(h: HandleObj) {
    h.selector != ""
  }

  /** Which handlers a call of remove is about. */
  datatype Criteria = Criteria(
    mappedTypes: bool, origType: string, guid: Option<nat>, namespaces: seq<string>, selector: string)

  predicate HasNamespaces(h: HandleObj, namespaces: seq<string>) {
    forall i :: 0 <= i < |namespaces| ==> namespaces[i] in h.namespaces
  }

  predicate Meets(h: HandleObj, c: Criteria) {
    && (c.mappedTypes || c.origType == h.origType)
    && (c.guid.None? || c.guid.value == h.guid)
    && HasNamespaces(h, c.namespaces)
    && (c.selector == "" || c.selector == h.selector || (c.selector == "**" && h.selector != ""))
  }

  /** Some of the handlers of a list. */
  datatype Query = Delegating | Binding | Sparing(criteria: Criteria)

  predicate Is(h: HandleObj, q: Query) {
    match q
    case Delegating => Delegated(h)
    case Binding => !Delegated(h)
    case Sparing(c) => !Meets(h, c)
  }

  function Those(s: seq<HandleObj>, q: Query): seq<HandleObj> {
    if s == [] then [] else if Is(s[0], q) then [s[0]] + Those(s[1..], q) else Those(s[1..], q)
  }

  function Delegates(s: seq<HandleObj>): seq<HandleObj> {
    Those(s, Delegating)
  }

  function Directs(s: seq<HandleObj>): seq<HandleObj> {
    Those(s, Binding)
  }

  /** What remove leaves. */
  function Survivors(s: seq<HandleObj>, c: Criteria): seq<HandleObj> {
    Those(s, Sparing(c))
  }

  lemma {:induction false} ThoseSplit(a: seq<HandleObj>, b: seq<HandleObj>, q: Query)
    ensures Those(a + b, q) == Those(a, q) + Those(b, q)
    decreases |a|
  {
    if a == [] {
      assert a + b == b;
    } else {
      ThoseSplit(a[1..], b, q);
      assert (a + b)[1..] == a[1..] + b;
    }
  }

  lemma ThoseCons(h: HandleObj, s: seq<HandleObj>, q: Query)
    ensures Those([h] + s, q) == if Is(h, q) then [h] + Those(s, q) else Those(s, q)
  {
    assert ([h] + s)[1..] == s;
  }

  lemma ThoseSnoc(s: seq<HandleObj>, h: HandleObj, q: Query)
    ensures Those(s + [h], q) == Those(s, q) + if Is(h, q) then [h] else []
  {
    ThoseSplit(s, [h], q);
    ThoseCons(h, [], q);
    assert [h] + [] == [h];
  }

  /** Two choices can be made in either order. */
  lemma {:induction false} ThoseCommute(s: seq<HandleObj>, q: Query, r: Query)
    ensures Those(Those(s, q), r) == Those(Those(s, r), q)
    ensures (forall h :: Is(h, q) ==> Is(h, r)) ==> Those(Those(s, q), r) == Those(s, q)
    ensures (forall h :: Is(h, q) ==> !Is(h, r)) ==> Those(Those(s, q), r) == []
    decreases |s|
  {
    if s != [] {
      ThoseCommute(s[1..], q, r);
      ThoseCons(s[0], Those(s[1..], q), r);
      ThoseCons(s[0], Those(s[1..], r), q);
    }
  }

  /** A handler list holds the delegated handlers in the order of registration, then the direct ones in theirs. */
  predicate Holds(b: Bound, live: seq<HandleObj>) {
    b.handlers == Delegates(live) + Directs(live) && b.delegateCount == |Delegates(live)|
  }

  lemma HoldsAfterAdd(b: Bound, live: seq<HandleObj>, h: HandleObj)
    requires Holds(b, live)
    ensures b.delegateCount <= |b.handlers| && Holds(Inserted(b, h), live + [h])
  {
    ThoseSnoc(live, h, Delegating);
    ThoseSnoc(live, h, Binding);
    var d, e := Delegates(live), Directs(live);
    assert b.handlers[..b.delegateCount] == d && b.handlers[b.delegateCount..] == e;
    assert d + e + [h] == d + (e + [h]);
    assert d + [] == d && e + [] == e;
  }

  /** Delegates in front: splice at delegateCount++; the others at the end. */
  function Inserted(b: Bound, h: HandleObj): Bound
    requires b.delegateCount <= |b.handlers|
  {
    if Delegated(h) then
      Bound(b.handlers[..b.delegateCount] + [h] + b.handlers[b.delegateCount..], b.delegateCount + 1)
    else Bound(b.handlers + [h], b.delegateCount)
  }

  lemma CountOfParts(s: seq<HandleObj>)
    ensures |Delegates(Delegates(s) + Directs(s))| == |Delegates(s)|
  {
    ThoseSplit(Delegates(s), Directs(s), Delegating);
    ThoseCommute(s, Delegating, Delegating);
    ThoseCommute(s, Binding, Delegating);
  }

  lemma HoldsAfterRemove(b: Bound, live: seq<HandleObj>, c: Criteria)
    requires Holds(b, live)
    ensures Holds(Bound(Survivors(b.handlers, c), |Delegates(Survivors(b.handlers, c))|), Survivors(live, c))
    ensures |Delegates(b.handlers)| == b.delegateCount
  {
    var d, e := Delegates(live), Directs(live);
    ThoseSplit(d, e, Sparing(c));
    ThoseCommute(live, Delegating, Sparing(c));
    ThoseCommute(live, Binding, Sparing(c));
    CountOfParts(live);
    CountOfParts(Survivors(live, c));
  }

  /** Remove matching events, from the last to the first. */
  method SpliceOut(b: Bound, c: Criteria) returns (r: Bound)
    requires |Delegates(b.handlers)| == b.delegateCount
    ensures r == Bound(Survivors(b.handlers, c), |Delegates(Survivors(b.handlers, c))|)
  {
    var handlers, delegateCount: int := b.handlers, b.delegateCount;
    var j := |handlers|;
    while j > 0
      invariant 0 <= j <= |b.handlers|
      invariant handlers == b.handlers[..j] + Survivors(b.handlers[j..], c)
      invariant delegateCount == |Delegates(handlers)|
    {
      j := j - 1;
      var handleObj := handlers[j];
      SpliceStep(b.handlers, j, c);
      if Meets(handleObj, c) {
        DelegatesSplice(handlers, j);
        handlers := handlers[..j] + handlers[j + 1..];
        if Delegated(handleObj) {
          delegateCount := delegateCount - 1;
        }
      }
    }
    assert b.handlers[0..] == b.handlers;
    r := Bound(handlers, delegateCount);
  }

  lemma SpliceStep(s: seq<HandleObj>, j: nat, c: Criteria)
    requires j < |s|
    ensures Survivors(s[j..], c) == (if Meets(s[j], c) then [] else [s[j]]) + Survivors(s[j + 1..], c)
    ensures var t := s[..j + 1] + Survivors(s[j + 1..], c);
      t[j] == s[j] && t[..j] == s[..j] && t[j + 1..] == Survivors(s[j + 1..], c)
    ensures s[..j + 1] == s[..j] + [s[j]]
  {
    assert s[j..] == [s[j]] + s[j + 1..];
    ThoseCons(s[j], s[j + 1..], Sparing(c));
  }

  lemma DelegatesSplice(s: seq<HandleObj>, j: nat)
    requires j < |s|
    ensures |Delegates(s[..j] + s[j + 1..])| == |Delegates(s)| - if Delegated(s[j]) then 1 else 0
  {
    assert s == s[..j] + ([s[j]] + s[j + 1..]);
    ThoseSplit(s[..j], [s[j]] + s[j + 1..], Delegating);
    ThoseCons(s[j], s[j + 1..], Delegating);
    ThoseSplit(s[..j], s[j + 1..], Delegating);
  }

  // ----- what goes and what stays

  /** kept lists, in ascending order, the indices of the handlers before that are there after. */
  ghost predicate Subsequence(before: seq<HandleObj>, after: seq<HandleObj>, kept: seq<nat>) {
    && |kept| == |after|
    && (forall k :: 0 <= k < |kept| ==> kept[k] < |before| && after[k] == before[kept[k]])
    && (forall j, k :: 0 <= j < k < |kept| ==> kept[j] < kept[k])
  }

  /** Exactly the handlers with these properties are gone, and the others are there in their order: of the type, unless
      all are meant, of the guid, if there is one, with all the namespaces, and of the selector, where none means any
      handler and "**" any delegated one. */
  ghost predicate Gone(before: seq<HandleObj>, after: seq<HandleObj>, kept: seq<nat>, anyType: bool, origType: string,
      guid: Option<nat>, namespaces: seq<string>, selector: string) {
    && Subsequence(before, after, kept)
    && forall i :: 0 <= i < |before| ==>
      (i !in kept <==>
        && (anyType || before[i].origType == origType)
        && (guid.Some? ==> before[i].guid == guid.value)
        && (forall n :: n in namespaces ==> n in before[i].namespaces)
        && (selector == "" || before[i].selector == selector || (selector == "**" && before[i].selector != "")))
  }

  /** The indices of those that are kept. */
  function KeptBy(s: seq<HandleObj>, q: Query): (kept: seq<nat>)
    ensures forall k :: 0 <= k < |kept| ==> kept[k] < |s|
  {
    if s == [] then []
    else
      var n := |s| - 1;
      KeptBy(s[..n], q) + if Is(s[n], q) then [n] else []
  }

  lemma SubsequenceSnoc(before: seq<HandleObj>, after: seq<HandleObj>, kept: seq<nat>, h: HandleObj)
    requires Subsequence(before, after, kept)
    ensures Subsequence(before + [h], after, kept) && Subsequence(before + [h], after + [h], kept + [|before|])
  {
  }

  lemma {:induction false} KeptByIsSubsequence(s: seq<HandleObj>, q: Query)
    ensures Subsequence(s, Those(s, q), KeptBy(s, q))
    decreases |s|
  {
    if s != [] {
      var n := |s| - 1;
      KeptByIsSubsequence(s[..n], q);
      ThoseSnoc(s[..n], s[n], q);
      SubsequenceSnoc(s[..n], Those(s[..n], q), KeptBy(s[..n], q), s[n]);
      assert s == s[..n] + [s[n]];
    }
  }

  lemma {:induction false} KeptByIs(s: seq<HandleObj>, q: Query, i: nat)
    requires i < |s|
    ensures i in KeptBy(s, q) <==> Is(s[i], q)
    decreases |s|
  {
    var n := |s| - 1;
    if i < n {
      KeptByIs(s[..n], q, i);
    }
  }

  /** What survives the criteria. */
  lemma SurvivorsAreKept(s: seq<HandleObj>, c: Criteria)
    ensures Gone(s, Survivors(s, c), KeptBy(s, Sparing(c)), c.mappedTypes, c.origType, c.guid, c.namespaces, c.selector)
  {
    KeptByIsSubsequence(s, Sparing(c));
    forall i | 0 <= i < |s| ensures i !in KeptBy(s, Sparing(c)) <==>
      && (c.mappedTypes || s[i].origType == c.origType)
      && (c.guid.Some? ==> s[i].guid == c.guid.value)
      && (forall n :: n in c.namespaces ==> n in s[i].namespaces)
      && (c.selector == "" || s[i].selector == c.selector || (c.selector == "**" && s[i].selector != ""))
    {
      KeptByIs(s, Sparing(c), i);
      assert HasNamespaces(s[i], c.namespaces) <==> forall n :: n in c.namespaces ==> n in s[i].namespaces;
    }
  }

  lemma {:induction false} ThoseAsOften(s: seq<HandleObj>, q: Query, h: HandleObj)
    requires Is(h, q)
    ensures multiset(Those(s, q))[h] == multiset(s)[h]
    decreases |s|
  {
    if s != [] {
      ThoseAsOften(s[1..], q, h);
      assert s == [s[0]] + s[1..];
    }
  }

  /** Handlers of another guid stay, as often as they are there. */
  lemma OtherGuidsStay(s: seq<HandleObj>, c: Criteria, h: HandleObj)
    requires c.guid.Some? && h.guid != c.guid.value
    ensures multiset(Survivors(s, c))[h] == multiset(s)[h]
  {
    ThoseAsOften(s, Sparing(c), h);
  }

  // ----- all lists of an element

  type Registrations = map<string, seq<HandleObj>>

  /** One more registration, after all others of its type. */
  function Registered(live: Registrations, type_: string, h: HandleObj): Registrations {
    live[type_ := (if type_ in live then live[type_] else []) + [h]]
  }

  /** For each event type given, from the last to the first; those that only name namespaces are passed over. */
  function AfterAdd(live: Registrations, special: map<string, Special>, types: seq<TypeSpec>, guid: nat,
      selector: string): Registrations
    decreases |types|
  {
    if types == [] then live
    else
      var spec := types[|types| - 1];
      var handleObj := HandleObj(spec.origType, guid, spec.namespaces, selector);
      var next := if spec.origType == "" then live
        else Registered(live, MappedType(special, spec.origType, selector), handleObj);
      AfterAdd(next, special, types[..|types| - 1], guid, selector)
  }

  /** In the lists of these types only what survives is left, and no empty list is. */
  function Purged(live: Registrations, types: set<string>, c: Criteria): Registrations {
    map t | t in live && (t !in types || Survivors(live[t], c) != []) ::
      if t in types then Survivors(live[t], c) else live[t]
  }

  function Images(special: map<string, Special>, types: set<string>, selector: string): set<string> {
    set t | t in types :: MappedType(special, t, selector)
  }

  /** Mapping a type that has been mapped leaves it as it is; so it is with the special types of jQuery itself. */
  ghost predicate Settled(special: map<string, Special>, selector: string) {
    forall t {:trigger MappedType(special, t, selector)} ::
      MappedType(special, MappedType(special, t, selector), selector) == MappedType(special, t, selector)
  }

  /** No event type consists of namespaces alone. */
  predicate AllNamed(types: seq<TypeSpec>) {
    forall i :: 0 <= i < |types| ==> types[i].origType != ""
  }

  lemma VisitOneMore(live: Registrations, special: map<string, Special>, order: seq<string>, t: string, c: Criteria)
    ensures var before := VisitAll(live, special, order, c);
      VisitAll(live, special, order + [t], c)
        == if t in before then Purged(before, {MappedType(special, t, c.selector)}, c) else before
  {
    assert (order + [t])[..|order|] == order;
  }

  lemma AllVisited(live: Registrations, special: map<string, Special>, order: seq<string>, c: Criteria)
    requires Settled(special, c.selector) && Enumerates(order, live.Keys)
    ensures VisitAll(live, special, order, c) == Purged(live, Images(special, live.Keys, c.selector), c)
  {
    VisitAllPurges(live, special, order, c);
    assert (set t | t in order) == live.Keys;
  }

  /** What the criteria are for one of the event types. */
  function CriteriaOf(spec: TypeSpec, guid: Option<nat>, selector: string): Criteria {
    Criteria(spec.origType == "", spec.origType, guid, spec.namespaces, selector)
  }

  /** With types that map to themselves once mapped. */
  function AfterRemove(live: Registrations, special: map<string, Special>, types: seq<TypeSpec>,
      guid: Option<nat>, selector: string): Registrations
    decreases |types|
  {
    if types == [] then live
    else
      var spec := types[|types| - 1];
      var c := CriteriaOf(spec, guid, selector);
      var touched := if spec.origType == "" then Images(special, live.Keys, selector)
        else {MappedType(special, spec.origType, selector)};
      AfterRemove(Purged(live, touched, c), special, types[..|types| - 1], guid, selector)
  }

  lemma PurgedTwice(live: Registrations, s: set<string>, t: string, c: Criteria)
    ensures Purged(Purged(live, s, c), {t}, c) == Purged(live, s + {t}, c)
  {
    if t in live {
      ThoseCommute(live[t], Sparing(c), Sparing(c));
    }
  }

  /** The registrations after some types have been visited. */
  function Visited(live: Registrations, special: map<string, Special>, visited: set<string>, c: Criteria): Registrations
  {
    Purged(live, Images(special, visited, c.selector), c)
  }

  lemma NothingVisited(live: Registrations, special: map<string, Special>, c: Criteria)
    ensures Visited(live, special, {}, c) == live
  {
  }

  /** Visiting one more type: its list is purged, or has been already and is gone. */
  lemma VisitPurges(live: Registrations, special: map<string, Special>, visited: set<string>, type_: string,
      c: Criteria)
    requires Settled(special, c.selector) && type_ in live
    ensures var before := Visited(live, special, visited, c);
      Visited(live, special, visited + {type_}, c) ==
        if type_ in before then Purged(before, {MappedType(special, type_, c.selector)}, c) else before
  {
    var image := MappedType(special, type_, c.selector);
    var images := Images(special, visited, c.selector);
    assert Images(special, visited + {type_}, c.selector) == images + {image};
    if type_ in Purged(live, images, c) {
      PurgedTwice(live, images, image, c);
    } else {
      assert type_ in images && image == type_;
      assert images + {image} == images;
    }
  }

  /** The keys, each once, in some order. */
  ghost predicate Enumerates(order: seq<string>, keys: set<string>) {
    && (forall t :: t in order <==> t in keys)
    && (forall i, j :: 0 <= i < j < |order| ==> order[i] != order[j])
  }

  lemma OneMore(order: seq<string>, left: set<string>, keys: set<string>, t: string)
    requires Enumerates(order, keys - left) && t in left && left <= keys
    ensures Enumerates(order + [t], keys - (left - {t}))
  {
    forall i | 0 <= i < |order| ensures order[i] != t {
      assert order[i] in order;
    }
  }

  /** for ( type in events ): each type that is still there at its turn is removed from, under the type it maps to. */
  function VisitAll(live: Registrations, special: map<string, Special>, order: seq<string>, c: Criteria): Registrations
  {
    if order == [] then live
    else
      var n := |order| - 1;
      var before := VisitAll(live, special, order[..n], c);
      if order[n] in before then Purged(before, {MappedType(special, order[n], c.selector)}, c) else before
  }

  /** When mapped types map to themselves, the order makes no difference. */
  lemma {:induction false} VisitAllPurges(live: Registrations, special: map<string, Special>, order: seq<string>,
      c: Criteria)
    requires Settled(special, c.selector) && forall t :: t in order ==> t in live
    ensures VisitAll(live, special, order, c) == Visited(live, special, (set t | t in order), c)
    decreases |order|
  {
    if order == [] {
      NothingVisited(live, special, c);
      assert (set t | t in order) == {};
    } else {
      var n := |order| - 1;
      VisitAllPurges(live, special, order[..n], c);
      VisitPurges(live, special, (set t | t in order[..n]), order[n], c);
      assert order == order[..n] + [order[n]];
      assert (set t | t in order) == (set t | t in order[..n]) + {order[n]};
    }
  }

  /** result is what remove may leave, given that it may visit an element's types in any order. */
  ghost predicate Removed(live: Registrations, special: map<string, Special>, types: seq<TypeSpec>,
      guid: Option<nat>, selector: string, result: Registrations)
    decreases |types|
  {
    if types == [] then result == live
    else
      var n := |types| - 1;
      var c := CriteriaOf(types[n], guid, selector);
      var type_ := MappedType(special, types[n].origType, selector);
      if types[n].origType != "" then
        Removed(Purged(live, {type_}, c), special, types[..n], guid, selector, result)
      else
        exists order :: (
          && Enumerates(order, live.Keys)
          && Removed(VisitAll(live, special, order, c), special, types[..n], guid, selector, result))
  }

  lemma {:induction false} RemovedIsAfterRemove(live: Registrations, special: map<string, Special>,
      types: seq<TypeSpec>, guid: Option<nat>, selector: string, result: Registrations)
    requires Settled(special, selector) || AllNamed(types)
    requires Removed(live, special, types, guid, selector, result)
    ensures result == AfterRemove(live, special, types, guid, selector)
    decreases |types|
  {
    if types != [] {
      var n := |types| - 1;
      var c := CriteriaOf(types[n], guid, selector);
      if types[n].origType != "" {
        var next := Purged(live, {MappedType(special, types[n].origType, selector)}, c);
        RemovedIsAfterRemove(next, special, types[..n], guid, selector, result);
      } else {
        var order :| Enumerates(order, live.Keys)
          && Removed(VisitAll(live, special, order, c), special, types[..n], guid, selector, result);
        AllVisited(live, special, order, c);
        RemovedIsAfterRemove(VisitAll(live, special, order, c), special, types[..n], guid, selector, result);
      }
    }
  }

  // ----- one call of add or remove, spelled out

  /** The type under which handlers of a type are kept: that of the special event, delegated or not, if it has one. */
  predicate KeptUnder(special: map<string, Special>, type_: string, selector: string, mapped: string) {
    if type_ in special && selector != "" && special[type_].delegateType != ""
      then mapped == special[type_].delegateType
    else if type_ in special && selector == "" && special[type_].bindType != ""
      then mapped == special[type_].bindType
    else mapped == type_
  }

  function ListOf(live: Registrations, type_: string): seq<HandleObj> {
    if type_ in live then live[type_] else []
  }

  /** Only the list of one type has changed, and there exactly the handlers with these properties are gone; a list that
      is empty then is gone too. */
  ghost predicate RemovedFrom(before: Registrations, after: Registrations, type_: string, anyType: bool,
      origType: string, guid: Option<nat>, namespaces: seq<string>, selector: string) {
    && (forall t :: t in after && t != type_ ==> t in before && after[t] == before[t])
    && (forall t :: t in before && t != type_ ==> t in after)
    && (type_ in after ==> type_ in before && after[type_] != [])
    && exists kept ::
      Gone(ListOf(before, type_), ListOf(after, type_), kept, anyType, origType, guid, namespaces, selector)
  }

  /** Only the list of one type has changed: h is there too, as the last one registered. */
  ghost predicate RegisteredLast(before: Registrations, after: Registrations, type_: string, h: HandleObj) {
    after == before[type_ := ListOf(before, type_) + [h]]
  }

  /** One event type with its namespaces was given to add. */
  ghost predicate AddedOne(before: Registrations, after: Registrations, special: map<string, Special>, spec: TypeSpec,
      guid: nat, selector: string) {
    exists type_ ::
      && KeptUnder(special, spec.origType, selector, type_)
      && RegisteredLast(before, after, type_, HandleObj(spec.origType, guid, spec.namespaces, selector))
  }

  /** One event type with its namespaces was given to remove. */
  ghost predicate RemovedOne(before: Registrations, after: Registrations, special: map<string, Special>, spec: TypeSpec,
      guid: Option<nat>, selector: string) {
    exists type_ ::
      && KeptUnder(special, spec.origType, selector, type_)
      && RemovedFrom(before, after, type_, false, spec.origType, guid, spec.namespaces, selector)
  }

  lemma OneTypeAdded(live: Registrations, special: map<string, Special>, spec: TypeSpec, guid: nat, selector: string)
    requires spec.origType != ""
    ensures AddedOne(live, AfterAdd(live, special, [spec], guid, selector), special, spec, guid, selector)
  {
    var type_ := MappedType(special, spec.origType, selector);
    var h := HandleObj(spec.origType, guid, spec.namespaces, selector);
    assert [spec][..0] == [];
    assert KeptUnder(special, spec.origType, selector, type_);
    assert RegisteredLast(live, AfterAdd(live, special, [spec], guid, selector), type_, h);
  }

  lemma PurgedIsRemoved(live: Registrations, type_: string, c: Criteria)
    requires forall t :: t in live ==> live[t] != []
    ensures var after := Purged(live, {type_}, c);
      RemovedFrom(live, after, type_, c.mappedTypes, c.origType, c.guid, c.namespaces, c.selector)
  {
    var list := ListOf(live, type_);
    SurvivorsAreKept(list, c);
    assert ListOf(Purged(live, {type_}, c), type_) == Survivors(list, c);
  }

  lemma OneNamedType(live: Registrations, special: map<string, Special>, spec: TypeSpec, guid: Option<nat>,
      selector: string)
    requires spec.origType != "" && forall t :: t in live ==> live[t] != []
    ensures RemovedOne(live, AfterRemove(live, special, [spec], guid, selector), special, spec, guid, selector)
  {
    var type_, c := MappedType(special, spec.origType, selector), CriteriaOf(spec, guid, selector);
    PurgedIsRemoved(live, type_, c);
    assert [spec][..0] == [];
    assert AfterRemove(live, special, [spec], guid, selector) == Purged(live, {type_}, c);
    assert KeptUnder(special, spec.origType, selector, type_);
  }

  /** From the list kept under t exactly the handlers with these properties are gone, if some type of the element is
      kept there; it has not changed otherwise. */
  ghost predicate GoneIfKept(before: Registrations, after: Registrations, special: map<string, Special>, t: string,
      guid: Option<nat>, namespaces: seq<string>, selector: string) {
    if exists u :: u in before && KeptUnder(special, u, selector, t)
      then exists kept :: Gone(ListOf(before, t), ListOf(after, t), kept, true, "", guid, namespaces, selector)
    else ListOf(after, t) == ListOf(before, t)
  }

  /** Namespaces alone were given to remove. */
  ghost predicate RemovedEverywhere(before: Registrations, after: Registrations, special: map<string, Special>,
      guid: Option<nat>, namespaces: seq<string>, selector: string) {
    && (forall t :: t in after ==> t in before && after[t] != [])
    && forall t :: t in before ==> GoneIfKept(before, after, special, t, guid, namespaces, selector)
  }

  lemma ListPurged(live: Registrations, special: map<string, Special>, t: string, c: Criteria)
    requires t in live && c.mappedTypes && c.origType == ""
    ensures var after := Purged(live, Images(special, live.Keys, c.selector), c);
      GoneIfKept(live, after, special, t, c.guid, c.namespaces, c.selector)
  {
    var images := Images(special, live.Keys, c.selector);
    var after := Purged(live, images, c);
    if t in images {
      var u :| u in live && MappedType(special, u, c.selector) == t;
      assert KeptUnder(special, u, c.selector, t);
      assert ListOf(after, t) == Survivors(live[t], c);
      SurvivorsAreKept(live[t], c);
      var kept := KeptBy(live[t], Sparing(c));
      assert Gone(ListOf(live, t), ListOf(after, t), kept, true, "", c.guid, c.namespaces, c.selector);
    } else {
      assert ListOf(after, t) == live[t];
      assert forall u :: u in live ==> MappedType(special, u, c.selector) in images;
      assert forall u :: u in live ==> !KeptUnder(special, u, c.selector, t);
    }
  }

  lemma NamespacesAlone(live: Registrations, special: map<string, Special>, spec: TypeSpec, guid: Option<nat>,
      selector: string)
    requires spec.origType == "" && forall t :: t in live ==> live[t] != []
    ensures RemovedEverywhere(live, AfterRemove(live, special, [spec], guid, selector), special, guid, spec.namespaces,
      selector)
  {
    var c := CriteriaOf(spec, guid, selector);
    var after := Purged(live, Images(special, live.Keys, selector), c);
    assert [spec][..0] == [];
    assert AfterRemove(live, special, [spec], guid, selector) == after;
    forall t | t in live ensures GoneIfKept(live, after, special, t, guid, spec.namespaces, selector) {
      ListPurged(live, special, t, c);
    }
  }

  /** In every list, the handlers of other guids are as often as before. */
  ghost predicate OtherGuidsKept(before: Registrations, after: Registrations, guid: nat) {
    forall t, h: HandleObj {:trigger multiset(ListOf(after, t))[h]} :: h.guid != guid ==>
      multiset(ListOf(after, t))[h] == multiset(ListOf(before, t))[h]
  }

  lemma PurgedKeepsGuids(live: Registrations, types: set<string>, c: Criteria)
    requires c.guid.Some?
    ensures OtherGuidsKept(live, Purged(live, types, c), c.guid.value)
  {
    var after := Purged(live, types, c);
    forall t, h: HandleObj | h.guid != c.guid.value
      ensures multiset(ListOf(after, t))[h] == multiset(ListOf(live, t))[h]
    {
      OtherGuidsStay(ListOf(live, t), c, h);
      assert t in types ==> ListOf(after, t) == Survivors(ListOf(live, t), c);
    }
  }

  lemma {:induction false} VisitAllKeepsGuids(live: Registrations, special: map<string, Special>, order: seq<string>,
      c: Criteria)
    requires c.guid.Some?
    ensures OtherGuidsKept(live, VisitAll(live, special, order, c), c.guid.value)
    decreases |order|
  {
    if order != [] {
      var n := |order| - 1;
      var before := VisitAll(live, special, order[..n], c);
      VisitAllKeepsGuids(live, special, order[..n], c);
      PurgedKeepsGuids(before, {MappedType(special, order[n], c.selector)}, c);
      GuidsKeptTransitive(live, before, Purged(before, {MappedType(special, order[n], c.selector)}, c), c.guid.value);
    }
  }

  lemma GuidsKeptTransitive(a: Registrations, b: Registrations, c: Registrations, guid: nat)
    requires OtherGuidsKept(a, b, guid) && OtherGuidsKept(b, c, guid)
    ensures OtherGuidsKept(a, c, guid)
  {
    forall t, h: HandleObj | h.guid != guid ensures multiset(ListOf(c, t))[h] == multiset(ListOf(a, t))[h] {
      assert multiset(ListOf(c, t))[h] == multiset(ListOf(b, t))[h];
    }
  }

  class ElementEvents {
    const special: map<string, Special>
    var events: map<string, Bound>
    ghost var live: Registrations

    ghost predicate Valid()
      reads this
    {
      && events.Keys == live.Keys
      && forall t :: t in events ==> live[t] != [] && Holds(events[t], live[t])
    }

    constructor (special: map<string, Special>)
      ensures Valid() && this.special == special && live == map[]
    {
      this.special, events, live := special, map[], map[];
    }

    /** event.add */
    method Add(types: seq<TypeSpec>, guid: nat, selector: string)
      requires Valid()
      modifies this
      ensures Valid() && live == AfterAdd(old(live), special, types, guid, selector)
      ensures |types| == 1 && types[0].origType != "" ==>
        AddedOne(old(live), live, special, types[0], guid, selector)
    {
      if |types| == 1 && types[0].origType != "" {
        assert types == [types[0]];
        OneTypeAdded(live, special, types[0], guid, selector);
      }
      var t := |types|;
      assert types[..t] == types;
      while t > 0
        invariant 0 <= t <= |types| && Valid()
        invariant AfterAdd(live, special, types[..t], guid, selector)
          == AfterAdd(old(live), special, types, guid, selector)
      {
        t := t - 1;
        assert types[..t + 1][..t] == types[..t];
        var spec := types[t];
        if spec.origType != "" {
          var handleObj := HandleObj(spec.origType, guid, spec.namespaces, selector);
          AddOne(MappedType(special, spec.origType, selector), handleObj);
        }
      }
    }

    method AddOne(type_: string, handleObj: HandleObj)
      requires Valid()
      modifies this
      ensures Valid() && live == Registered(old(live), type_, handleObj)
    {
      var handlers := if type_ in events then events[type_] else Bound([], 0);
      HoldsAfterAdd(handlers, if type_ in live then live[type_] else [], handleObj);
      events := events[type_ := Inserted(handlers, handleObj)];
      live := Registered(live, type_, handleObj);
    }

    /** event.remove */
    method Remove(types: seq<TypeSpec>, guid: Option<nat>, selector: string)
      requires Valid()
      modifies this
      ensures Valid() && Removed(old(live), special, types, guid, selector, live)
      ensures Settled(special, selector) || AllNamed(types) ==>
        live == AfterRemove(old(live), special, types, guid, selector)
      ensures |types| == 1 && types[0].origType != "" ==>
        RemovedOne(old(live), live, special, types[0], guid, selector)
      ensures |types| == 1 && types[0].origType == "" && Settled(special, selector) ==>
        RemovedEverywhere(old(live), live, special, guid, types[0].namespaces, selector)
      ensures guid.Some? ==> OtherGuidsKept(old(live), live, guid.value)
    {
      var t := |types|;
      assert types[..t] == types;
      while t > 0
        invariant 0 <= t <= |types| && Valid()
        invariant guid.Some? ==> OtherGuidsKept(old(live), live, guid.value)
        invariant forall r :: Removed(live, special, types[..t], guid, selector, r) ==>
          Removed(old(live), special, types, guid, selector, r)
      {
        t := t - 1;
        assert types[..t + 1][..t] == types[..t];
        var spec := types[t];
        ghost var last := live;
        if spec.origType == "" {
          ghost var before := live;
          ghost var order := RemoveAll(CriteriaOf(spec, guid, selector));
          assert Enumerates(order, before.Keys);
        } else {
          RemoveOne(spec.origType, CriteriaOf(spec, guid, selector));
        }
        if guid.Some? {
          GuidsKeptTransitive(old(live), last, live, guid.value);
        }
      }
      assert Removed(live, special, types[..0], guid, selector, live);
      if Settled(special, selector) || AllNamed(types) {
        RemovedIsAfterRemove(old(live), special, types, guid, selector, live);
      }
      if |types| == 1 {
        assert types == [types[0]];
        if types[0].origType != "" {
          OneNamedType(old(live), special, types[0], guid, selector);
          assert AllNamed(types);
        } else {
          NamespacesAlone(old(live), special, types[0], guid, selector);
        }
      }
    }

    /** Unbind for every type of the element that is still there at its turn. */
    method RemoveAll(c: Criteria) returns (ghost order: seq<string>)
      requires Valid()
      modifies this
      ensures Valid() && Enumerates(order, old(live).Keys) && live == VisitAll(old(live), special, order, c)
      ensures Settled(special, c.selector) ==> live == Purged(old(live), Images(special, old(live).Keys, c.selector), c)
      ensures c.guid.Some? ==> OtherGuidsKept(old(live), live, c.guid.value)
    {
      order := [];
      var types := events.Keys;
      while types != {}
        invariant Valid() && live == VisitAll(old(live), special, order, c)
        invariant Enumerates(order, old(live).Keys - types) && types <= old(live).Keys
        decreases |types|
      {
        var type_ :| type_ in types;
        RemoveIfThere(type_, c, old(live), order);
        OneMore(order, types, old(live).Keys, type_);
        types, order := types - {type_}, order + [type_];
      }
      assert old(live).Keys - {} == old(live).Keys;
      if c.guid.Some? {
        VisitAllKeepsGuids(old(live), special, order, c);
      }
      if Settled(special, c.selector) {
        AllVisited(old(live), special, order, c);
      }
    }

    method RemoveIfThere(type_: string, c: Criteria, ghost before: Registrations, ghost order: seq<string>)
      requires Valid() && live == VisitAll(before, special, order, c)
      modifies this
      ensures Valid() && live == VisitAll(before, special, order + [type_], c)
    {
      VisitOneMore(before, special, order, type_, c);
      if type_ in events {
        RemoveOne(type_, c);
      }
    }

    /** Remove from one list; a list that is empty then goes. */
    method RemoveOne(origType: string, c: Criteria)
      requires Valid()
      modifies this
      ensures Valid() && live == Purged(old(live), {MappedType(special, origType, c.selector)}, c)
      ensures c.guid.Some? ==> OtherGuidsKept(old(live), live, c.guid.value)
    {
      if c.guid.Some? {
        PurgedKeepsGuids(live, {MappedType(special, origType, c.selector)}, c);
      }
      var type_ := MappedType(special, origType, c.selector);
      if type_ in events {
        HoldsAfterRemove(events[type_], live[type_], c);
        var r := SpliceOut(events[type_], c);
        if r.handlers == [] {
          assert Survivors(live[type_], c) == [] by {
            NoneLeft(Survivors(live[type_], c));
          }
          events := events - {type_};
        } else {
          events := events[type_ := r];
        }
      }
      live := Purged(live, {type_}, c);
    }
  }

  lemma {:induction false} NoneLeft(s: seq<HandleObj>)
    ensures |Delegates(s)| + |Directs(s)| == |s|
    decreases |s|
  {
    if s != [] {
      NoneLeft(s[1..]);
    }
  }

  // ----- the queue for one event

  datatype Event = Event(isClick: bool, button: int, target: nat)

  /** Handlers to run with elem as the current target. */
  datatype Item = Item(elem: nat, handlers: seq<HandleObj>)

  /** cur.parentNode || this: from the root of a tree in which the bound element is not, the walk goes to it too. */
  function Up(t: Tree, cur: nat, bound: nat): nat
    requires cur < |t|
  {
    if t[cur].parent >= 0 then t[cur].parent else bound
  }

  /** Those of the handlers whose selector cur matches within the bound element. */
  function Matching(handlers: seq<HandleObj>, selects: (string, nat) -> bool, cur: nat): seq<HandleObj> {
    if handlers == [] then []
    else
      var n := |handlers| - 1;
      Matching(handlers[..n], selects, cur) + if selects(handlers[n].selector, cur) then [handlers[n]] else []
  }

  /** What one element between the target and the bound element contributes. */
  function ItemAt(t: Tree, event: Event, disabled: set<nat>, delegates: seq<HandleObj>,
      selects: (string, nat) -> bool, cur: nat): seq<Item> {
    var matched := Matching(delegates, selects, cur);
    if IsElement(t, cur) && !(event.isClick && cur in disabled) && matched != [] then [Item(cur, matched)] else []
  }

  /** The delegated part of the queue, from cur upwards to the bound element or the root. */
  function Delegation(t: Tree, event: Event, disabled: set<nat>, delegates: seq<HandleObj>,
      selects: (string, nat) -> bool, bound: nat, cur: nat): seq<Item>
    requires ParentsFirst(t) && cur < |t|
    decreases cur
  {
    if cur == bound then []
    else
      ItemAt(t, event, disabled, delegates, selects, cur)
      + if t[cur].parent < 0 then []
        else Delegation(t, event, disabled, delegates, selects, bound, t[cur].parent)
  }

  /** What is to run for an event, given the registrations of its type in order of time. */
  function Queue(t: Tree, event: Event, disabled: set<nat>, live: seq<HandleObj>,
      selects: (string, nat) -> bool, bound: nat): seq<Item>
    requires ParentsFirst(t) && event.target < |t| && bound < |t|
  {
    var delegated := if event.isClick && event.button >= 1 then []
      else Delegation(t, event, disabled, Delegates(live), selects, bound, event.target);
    delegated + if Directs(live) != [] then [Item(bound, Directs(live))] else []
  }

  /** The walk from the target up to the bound element. */
  method DelegateHandlers(t: Tree, event: Event, disabled: set<nat>, b: Bound, selects: (string, nat) -> bool,
      bound: nat)
    returns (handlerQueue: seq<Item>)
    requires ParentsFirst(t) && event.target < |t| && bound < |t|
    requires b.delegateCount <= |b.handlers|
    ensures handlerQueue == Delegation(t, event, disabled, b.handlers[..b.delegateCount], selects, bound, event.target)
  {
    handlerQueue := [];
    var cur := event.target;
    while cur != bound
      invariant 0 <= cur < |t|
      invariant Delegation(t, event, disabled, b.handlers[..b.delegateCount], selects, bound, event.target)
        == handlerQueue + Delegation(t, event, disabled, b.handlers[..b.delegateCount], selects, bound, cur)
      decreases if cur == bound then 0 else cur + 1
    {
      ghost var before := handlerQueue;
      ghost var item := ItemAt(t, event, disabled, b.handlers[..b.delegateCount], selects, cur);
      if IsElement(t, cur) && !(event.isClick && cur in disabled) {
        var matchedHandlers := MatchedAt(b, selects, cur);
        if matchedHandlers != [] {
          handlerQueue := handlerQueue + [Item(cur, matchedHandlers)];
        }
      }
      assert handlerQueue == before + item;
      Lists.Associate(before, item,
        Delegation(t, event, disabled, b.handlers[..b.delegateCount], selects, bound, Up(t, cur, bound)));
      cur := Up(t, cur, bound);
    }
  }

  /** event.handlers */
  method Handlers(t: Tree, event: Event, disabled: set<nat>, b: Bound, ghost live: seq<HandleObj>,
      selects: (string, nat) -> bool, bound: nat)
    returns (handlerQueue: seq<Item>)
    requires ParentsFirst(t) && event.target < |t| && bound < |t|
    requires Holds(b, live)
    ensures handlerQueue == Queue(t, event, disabled, live, selects, bound)
  {
    handlerQueue := [];
    ghost var delegates := Delegates(live);
    assert b.handlers[..b.delegateCount] == delegates && b.handlers[b.delegateCount..] == Directs(live);
    if b.delegateCount > 0 && !(event.isClick && event.button >= 1) {
      handlerQueue := DelegateHandlers(t, event, disabled, b, selects, bound);
    } else if delegates == [] {
      NoDelegates(t, event, disabled, selects, bound, event.target);
    }
    if b.delegateCount < |b.handlers| {
      handlerQueue := handlerQueue + [Item(bound, b.handlers[b.delegateCount..])];
    }
  }

  lemma {:induction false} NoDelegates(t: Tree, event: Event, disabled: set<nat>,
      selects: (string, nat) -> bool, bound: nat, cur: nat)
    requires ParentsFirst(t) && cur < |t|
    ensures Delegation(t, event, disabled, [], selects, bound, cur) == []
    decreases cur
  {
    if cur != bound && t[cur].parent >= 0 {
      NoDelegates(t, event, disabled, selects, bound, t[cur].parent);
    }
  }

  /** The inner loop, which looks up each selector once for cur. */
  method MatchedAt(b: Bound, selects: (string, nat) -> bool, cur: nat) returns (matchedHandlers: seq<HandleObj>)
    requires b.delegateCount <= |b.handlers|
    ensures matchedHandlers == Matching(b.handlers[..b.delegateCount], selects, cur)
  {
    matchedHandlers := [];
    var matchedSelectors: map<string, bool> := map[];
    var i := 0;
    while i < b.delegateCount
      invariant 0 <= i <= b.delegateCount && matchedHandlers == Matching(b.handlers[..i], selects, cur)
      invariant forall sel :: sel in matchedSelectors ==> matchedSelectors[sel] == selects(sel, cur)
    {
      var handleObj := b.handlers[i];
      assert b.handlers[..i + 1][..i] == b.handlers[..i];
      var sel := handleObj.selector;
      if sel !in matchedSelectors {
        matchedSelectors := matchedSelectors[sel := selects(sel, cur)];
      }
      if matchedSelectors[sel] {
        matchedHandlers := matchedHandlers + [handleObj];
      }
      i := i + 1;
    }
  }

  // ----- what the queue is

  /** A delegate is to run on an element just when its selector matches it. */
  lemma {:induction false} MatchingMembers(handlers: seq<HandleObj>, selects: (string, nat) -> bool, cur: nat)
    ensures forall h :: h in Matching(handlers, selects, cur) <==> h in handlers && selects(h.selector, cur)
    decreases |handlers|
  {
    if handlers != [] {
      MatchingMembers(handlers[..|handlers| - 1], selects, cur);
    }
  }

  /** They run in the order they stand in, as often as they stand there. */
  lemma {:induction false} MatchingKeepsOrder(handlers: seq<HandleObj>, selects: (string, nat) -> bool, cur: nat)
    returns (kept: seq<nat>)
    ensures Subsequence(handlers, Matching(handlers, selects, cur), kept)
    ensures forall i :: 0 <= i < |handlers| ==> (i in kept <==> selects(handlers[i].selector, cur))
    decreases |handlers|
  {
    if handlers == [] {
      kept := [];
    } else {
      var n := |handlers| - 1;
      var before := MatchingKeepsOrder(handlers[..n], selects, cur);
      assert handlers == handlers[..n] + [handlers[n]];
      SubsequenceSnoc(handlers[..n], Matching(handlers[..n], selects, cur), before, handlers[n]);
      kept := before + if selects(handlers[n].selector, cur) then [n] else [];
      assert forall i :: 0 <= i < n ==> (i in before <==> selects(handlers[..n][i].selector, cur));
    }
  }

  /** The target or a node above it, short of the bound element if that is above. */
  predicate OnPath(t: Tree, bound: nat, target: nat, x: nat) {
    && x != bound && (x == target || Below(t, x, target))
    && (bound == target || Below(t, bound, target) ==> Below(t, bound, x))
  }

  /** The item is for an element that may have handlers run, and names exactly the delegates whose selector matches
      it. */
  ghost predicate Proper(t: Tree, event: Event, disabled: set<nat>, delegates: seq<HandleObj>,
      selects: (string, nat) -> bool, item: Item) {
    && Eligible(t, event, disabled, item.elem) && item.handlers == Matching(delegates, selects, item.elem) != []
    && forall h :: h in item.handlers <==> h in delegates && selects(h.selector, item.elem)
  }

  /** An element, and not a disabled one under a click. */
  predicate Eligible(t: Tree, event: Event, disabled: set<nat>, x: nat) {
    IsElement(t, x) && !(event.isClick && x in disabled)
  }

  /** Eligible elements on the way, from the innermost to the outermost, each with the delegates that match it. */
  ghost predicate Upwards(t: Tree, event: Event, disabled: set<nat>, delegates: seq<HandleObj>,
      selects: (string, nat) -> bool, bound: nat, target: nat, q: seq<Item>) {
    && (forall i :: 0 <= i < |q| ==> OnPath(t, bound, target, q[i].elem))
    && (forall i :: 0 <= i < |q| ==> Proper(t, event, disabled, delegates, selects, q[i]))
    && (forall i, j :: 0 <= i < j < |q| ==> Below(t, q[j].elem, q[i].elem))
  }

  lemma OneStepUp(t: Tree, event: Event, disabled: set<nat>, delegates: seq<HandleObj>,
      selects: (string, nat) -> bool, bound: nat, cur: nat, here: seq<Item>, rest: seq<Item>)
    requires ParentsFirst(t) && cur < |t| && cur != bound
    requires if t[cur].parent < 0 then rest == []
      else Upwards(t, event, disabled, delegates, selects, bound, t[cur].parent, rest)
    requires |here| <= 1 && forall i :: 0 <= i < |here| ==>
      here[i].elem == cur && Proper(t, event, disabled, delegates, selects, here[i])
    ensures Upwards(t, event, disabled, delegates, selects, bound, cur, here + rest)
  {
    forall i | 0 <= i < |rest| ensures OnPath(t, bound, cur, rest[i].elem) && Below(t, rest[i].elem, cur) {
      assert OnPath(t, bound, t[cur].parent, rest[i].elem);
      AboveParent(t, rest[i].elem, cur);
    }
  }

  /** The delegated part names eligible elements on the way from the target to the bound element, exclusive, from the
      innermost to the outermost, each with exactly the delegates that match it. */
  lemma {:induction false} DelegationIsOnPath(t: Tree, event: Event, disabled: set<nat>,
      delegates: seq<HandleObj>, selects: (string, nat) -> bool, bound: nat, cur: nat)
    requires ParentsFirst(t) && cur < |t|
    ensures Upwards(t, event, disabled, delegates, selects, bound, cur,
      Delegation(t, event, disabled, delegates, selects, bound, cur))
    decreases cur
  {
    if cur != bound {
      var parent := t[cur].parent;
      var rest := if parent < 0 then [] else Delegation(t, event, disabled, delegates, selects, bound, parent);
      if parent >= 0 {
        DelegationIsOnPath(t, event, disabled, delegates, selects, bound, parent);
      }
      MatchingMembers(delegates, selects, cur);
      OneStepUp(t, event, disabled, delegates, selects, bound, cur,
        ItemAt(t, event, disabled, delegates, selects, cur), rest);
    }
  }

  /** And it leaves out none that is an element, not disabled under a click, and matched by a delegate. */
  lemma {:induction false} DelegationIsComplete(t: Tree, event: Event, disabled: set<nat>,
      delegates: seq<HandleObj>, selects: (string, nat) -> bool, bound: nat, cur: nat, x: nat)
    requires ParentsFirst(t) && cur < |t| && OnPath(t, bound, cur, x)
    ensures forall item :: item in ItemAt(t, event, disabled, delegates, selects, x) ==>
      item in Delegation(t, event, disabled, delegates, selects, bound, cur)
    decreases cur
  {
    if cur == bound {
      BelowIsLater(t, x, bound);
      BelowIsLater(t, bound, x);
    } else if x != cur {
      assert t[cur].parent == x || Below(t, x, t[cur].parent);
      DelegationIsComplete(t, event, disabled, delegates, selects, bound, t[cur].parent, x);
    }
  }

  /** h is listed to run on x. */
  ghost predicate Listed(q: seq<Item>, x: nat, h: HandleObj) {
    exists i :: 0 <= i < |q| && q[i].elem == x && h in q[i].handlers
  }

  /** A delegated handler is listed for an element exactly if that is an eligible element on the way that the handler's
      selector matches. */
  lemma DelegateRunsIfMatching(t: Tree, event: Event, disabled: set<nat>, delegates: seq<HandleObj>,
      selects: (string, nat) -> bool, bound: nat, x: nat, h: HandleObj)
    requires ParentsFirst(t) && event.target < |t| && bound < |t|
    ensures Listed(Delegation(t, event, disabled, delegates, selects, bound, event.target), x, h) <==>
      OnPath(t, bound, event.target, x) && Eligible(t, event, disabled, x) && h in delegates && selects(h.selector, x)
  {
    var q := Delegation(t, event, disabled, delegates, selects, bound, event.target);
    DelegationIsOnPath(t, event, disabled, delegates, selects, bound, event.target);
    if Listed(q, x, h) {
      var i :| 0 <= i < |q| && q[i].elem == x && h in q[i].handlers;
      assert Proper(t, event, disabled, delegates, selects, q[i]);
    }
    var matches := h in delegates && selects(h.selector, x);
    if OnPath(t, bound, event.target, x) && Eligible(t, event, disabled, x) && matches {
      MatchingMembers(delegates, selects, x);
      DelegationIsComplete(t, event, disabled, delegates, selects, bound, event.target, x);
      var item := Item(x, Matching(delegates, selects, x));
      assert item in ItemAt(t, event, disabled, delegates, selects, x);
    }
  }

  lemma AboveParent(t: Tree, x: nat, y: nat)
    requires ParentsFirst(t) && y < |t| && t[y].parent >= 0 && (x == t[y].parent || Below(t, x, t[y].parent))
    ensures Below(t, x, y)
  {
  }

  /** A handler is to run on the bound element if it has no selector, and on an element on the way, not a disabled one
      under a click, if its selector matches that, except for clicks with another button than the first. */
  predicate RunsOn(t: Tree, event: Event, disabled: set<nat>, selects: (string, nat) -> bool, bound: nat, x: nat,
      h: HandleObj) {
    && (h.selector == "" ==> x == bound)
    && (h.selector != "" ==> OnPath(t, bound, event.target, x) && selects(h.selector, x))
    && (h.selector != "" ==> IsElement(t, x) && !(event.isClick && (x in disabled || event.button >= 1)))
  }

  /** The queue lists exactly the registered handlers that are to run, each for its element. */
  lemma QueueLists(t: Tree, event: Event, disabled: set<nat>, live: seq<HandleObj>, selects: (string, nat) -> bool,
      bound: nat, x: nat, h: HandleObj)
    requires ParentsFirst(t) && event.target < |t| && bound < |t|
    ensures Listed(Queue(t, event, disabled, live, selects, bound), x, h) <==>
      h in live && RunsOn(t, event, disabled, selects, bound, x, h)
  {
    ThoseMembers(live, Delegating, h);
    ThoseMembers(live, Binding, h);
    DelegateRunsIfMatching(t, event, disabled, Delegates(live), selects, bound, x, h);
    var delegated := if event.isClick && event.button >= 1 then []
      else Delegation(t, event, disabled, Delegates(live), selects, bound, event.target);
    var direct := if Directs(live) != [] then [Item(bound, Directs(live))] else [];
    ListedInEither(delegated, direct, x, h);
    assert Listed(direct, x, h) <==> x == bound && h in Directs(live) by {
      if x == bound && h in Directs(live) {
        assert direct[0].elem == x;
      }
    }
  }

  /** Items on the way come first, from the innermost to the outermost; the last one is the bound element's. */
  ghost predicate InOrder(t: Tree, bound: nat, target: nat, q: seq<Item>, n: int) {
    && 0 <= n <= |q| <= n + 1
    && (forall i :: 0 <= i < n ==> OnPath(t, bound, target, q[i].elem))
    && (forall i, j :: 0 <= i < j < n ==> Below(t, q[j].elem, q[i].elem))
    && (n < |q| ==> q[n].elem == bound)
  }

  /** The bound element has an item exactly if some handler has no selector. */
  lemma QueueIsInOrder(t: Tree, event: Event, disabled: set<nat>, live: seq<HandleObj>, selects: (string, nat) -> bool,
      bound: nat)
    requires ParentsFirst(t) && event.target < |t| && bound < |t|
    ensures var q := Queue(t, event, disabled, live, selects, bound);
      InOrder(t, bound, event.target, q, if exists h :: h in live && h.selector == "" then |q| - 1 else |q|)
  {
    DelegationIsOnPath(t, event, disabled, Delegates(live), selects, bound, event.target);
    assert Directs(live) != [] <==> exists h :: h in live && h.selector == "" by {
      forall h ensures h in Directs(live) <==> h in live && h.selector == "" {
        ThoseMembers(live, Binding, h);
      }
      if Directs(live) != [] {
        assert Directs(live)[0] in Directs(live);
      }
    }
  }

  lemma ListedInEither(a: seq<Item>, b: seq<Item>, x: nat, h: HandleObj)
    ensures Listed(a + b, x, h) <==> Listed(a, x, h) || Listed(b, x, h)
  {
    if i :| 0 <= i < |a| && a[i].elem == x && h in a[i].handlers {
      assert (a + b)[i] == a[i];
    }
    if i :| 0 <= i < |b| && b[i].elem == x && h in b[i].handlers {
      assert (a + b)[|a| + i] == b[i];
    }
  }

  lemma {:induction false} ThoseMembers(s: seq<HandleObj>, q: Query, h: HandleObj)
    ensures h in Those(s, q) <==> h in s && Is(h, q)
    decreases |s|
  {
    if s != [] {
      ThoseMembers(s[1..], q, h);
    }
  }

  /** A list holds every registration as often as it was made, those with a selector in front. */
  lemma HoldsAll(b: Bound, live: seq<HandleObj>)
    requires Holds(b, live)
    ensures multiset(b.handlers) == multiset(live) && b.delegateCount <= |b.handlers|
    ensures forall i :: 0 <= i < |b.handlers| ==> (i < b.delegateCount <==> b.handlers[i].selector != "")
  {
    PartsAreAll(live);
    forall i | 0 <= i < |b.handlers| ensures i < b.delegateCount <==> b.handlers[i].selector != "" {
      var h := b.handlers[i];
      ThoseMembers(live, Delegating, h);
      ThoseMembers(live, Binding, h);
      if i < b.delegateCount {
        assert h == Delegates(live)[i];
      } else {
        assert h == Directs(live)[i - b.delegateCount];
      }
    }
  }

  lemma {:induction false} PartsAreAll(s: seq<HandleObj>)
    ensures multiset(Delegates(s) + Directs(s)) == multiset(s)
    decreases |s|
  {
    if s != [] {
      PartsAreAll(s[1..]);
      assert s == [s[0]] + s[1..];
      var d, e := Delegates(s[1..]), Directs(s[1..]);
      assert multiset(Delegates(s) + Directs(s)) == multiset(Delegates(s)) + multiset(Directs(s));
      assert multiset(d + e) == multiset(d) + multiset(e);
    }
  }
}
