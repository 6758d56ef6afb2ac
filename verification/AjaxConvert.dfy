/** ajaxConvert: a response is taken through the requested data types by a work list, onto which types come back
    when a conversion needs an intermediate type. */
module AjaxConvert {
  import opened Optional

  type Data = string

  /** A registered converter: true for equivalent types, or a function, which may throw. */
  datatype Converter = Equivalence | Function(apply: Data -> Option<Data>)

  datatype Entry = Entry(from: string, to: string, converter: Converter)

  datatype Settings = Settings(
    dataTypes: seq<string>, converters: seq<Entry>, dataFilter: Option<Data -> Data>, throws_: bool)

  datatype Outcome =
    | Success(data: Data)
    | NoConversion(from: string, to: string)  // parsererror
    | Failed                                  // parsererror, a converter threw
    | Raised                                  // the exception leaves ajaxConvert

  // ----- the table of converters

  function Lower(c: char): char {
    if 'A' <= c <= 'Z' then (c as int + 32) as char else c
  }

  function ToLowerCase(s: string): (r: string)
    ensures |r| == |s|
  {
    seq(|s|, i requires 0 <= i < |s| => Lower(s[i]))
  }

  /** The same letter, c as a capital. */
  predicate CapitalOf(c: char, d: char) {
    'A' <= c <= 'Z' && d as int - c as int == 'a' as int - 'A' as int
  }

  /** No capital is left, and texts become equal exactly if they differ in capitals only. */
  lemma CaseIsIgnored(s: string, t: string)
    ensures forall c :: c in ToLowerCase(s) ==> !('A' <= c <= 'Z')
    ensures ToLowerCase(s) == ToLowerCase(t) <==> |s| == |t| && forall i :: 0 <= i < |s| ==>
      s[i] == t[i] || CapitalOf(s[i], t[i]) || CapitalOf(t[i], s[i])
  {
    if ToLowerCase(s) == ToLowerCase(t) {
      forall i | 0 <= i < |s| ensures s[i] == t[i] || CapitalOf(s[i], t[i]) || CapitalOf(t[i], s[i]) {
        assert ToLowerCase(s)[i] == ToLowerCase(t)[i];
      }
    }
  }

  predicate HasKey(table: seq<Entry>, from: string, to: string) {
    exists k :: 0 <= k < |table| && table[k].from == from && table[k].to == to
  }

  predicate DistinctKeys(table: seq<Entry>) {
    forall j, k :: 0 <= j < k < |table| ==> table[j].from != table[k].from || table[j].to != table[k].to
  }

  predicate Named(table: seq<Entry>) {
    forall k :: 0 <= k < |table| ==> table[k].from != "" && table[k].to != ""
  }

  /** converters[ from + " " + to ] */
  function Lookup(table: seq<Entry>, from: string, to: string): (c: Option<Converter>)
    ensures c.Some? <==> HasKey(table, from, to)
    ensures c.Some? ==> exists k :: 0 <= k < |table| && table[k] == Entry(from, to, c.value)
  {
    if table == [] then None
    else
      var n := |table| - 1;
      if table[n].from == from && table[n].to == to then Some(table[n].converter) else Lookup(table[..n], from, to)
  }

  lemma {:induction false} LookupFinds(table: seq<Entry>, k: nat)
    requires DistinctKeys(table) && k < |table|
    ensures Lookup(table, table[k].from, table[k].to) == Some(table[k].converter)
    decreases |table|
  {
    if k < |table| - 1 {
      LookupFinds(table[..|table| - 1], k);
    }
  }

  /** The assignment converters[ key ] = value: a key keeps its place. */
  function Assigned(table: seq<Entry>, e: Entry): seq<Entry> {
    if table == [] then [e]
    else if table[0].from == e.from && table[0].to == e.to then [e] + table[1..]
    else [table[0]] + Assigned(table[1..], e)
  }

  predicate SameKey(x: Entry, y: Entry) {
    x.from == y.from && x.to == y.to
  }

  /** An assignment replaces the first entry with that key, or appends one. */
  lemma {:induction false} AssignedAt(table: seq<Entry>, e: Entry) returns (i: nat)
    ensures i <= |table| && forall j :: 0 <= j < i ==> !SameKey(table[j], e)
    ensures i < |table| ==> SameKey(table[i], e) && Assigned(table, e) == table[i := e]
    ensures i == |table| ==> Assigned(table, e) == table + [e]
    decreases |table|
  {
    if table == [] || SameKey(table[0], e) {
      i := 0;
    } else {
      i := AssignedAt(table[1..], e);
      assert table == [table[0]] + table[1..];
      assert i < |table| - 1 ==> [table[0]] + table[1..][i := e] == table[i + 1 := e];
      i := i + 1;
    }
  }

  lemma LookupAppended(table: seq<Entry>, e: Entry, from: string, to: string)
    ensures Lookup(table + [e], from, to)
      == if e.from == from && e.to == to then Some(e.converter) else Lookup(table, from, to)
  {
    assert (table + [e])[..|table|] == table;
  }

  lemma {:induction false} LookupUpdated(table: seq<Entry>, i: nat, e: Entry, from: string, to: string)
    requires i < |table| && SameKey(table[i], e) && forall k :: i < k < |table| ==> !SameKey(table[k], e)
    ensures Lookup(table[i := e], from, to)
      == if e.from == from && e.to == to then Some(e.converter) else Lookup(table, from, to)
    decreases |table|
  {
    var n := |table| - 1;
    var front, last := table[..n], table[n];
    assert table == front + [last];
    if i < n {
      LookupUpdated(front, i, e, from, to);
      assert table[i := e] == front[i := e] + [last];
      LookupAppended(front[i := e], last, from, to);
    } else {
      assert table[i := e] == front + [e];
      LookupAppended(front, e, from, to);
    }
    LookupAppended(front, last, from, to);
  }

  lemma LookupAssigned(table: seq<Entry>, e: Entry, from: string, to: string)
    requires DistinctKeys(table)
    ensures DistinctKeys(Assigned(table, e))
    ensures Lookup(Assigned(table, e), from, to)
      == if e.from == from && e.to == to then Some(e.converter) else Lookup(table, from, to)
  {
    var i := AssignedAt(table, e);
    if i < |table| {
      LookupUpdated(table, i, e, from, to);
    } else {
      LookupAppended(table, e, from, to);
    }
  }

  /** An entry under its lower-cased key. */
  function LowerKey(e: Entry): Entry {
    e.(from := ToLowerCase(e.from), to := ToLowerCase(e.to))
  }

  /** The converters with lower-cased keys; of those whose keys agree then, the last one counts. */
  function Lowercased(converters: seq<Entry>): seq<Entry> {
    if converters == [] then []
    else Assigned(Lowercased(converters[..|converters| - 1]), LowerKey(converters[|converters| - 1]))
  }

  lemma {:induction false} LowercasedKeys(converters: seq<Entry>)
    ensures DistinctKeys(Lowercased(converters))
    ensures Named(converters) ==> Named(Lowercased(converters))
    decreases |converters|
  {
    if converters != [] {
      var n := |converters| - 1;
      LowercasedKeys(converters[..n]);
      var _ := AssignedAt(Lowercased(converters[..n]), LowerKey(converters[n]));
    }
  }

  predicate KeyIs(e: Entry, from: string, to: string) {
    ToLowerCase(e.from) == from && ToLowerCase(e.to) == to
  }

  /** The converter registered last under the lower-cased key. */
  function LastOf(converters: seq<Entry>, from: string, to: string): (c: Option<Converter>)
    ensures c.None? ==> forall k :: 0 <= k < |converters| ==> !KeyIs(converters[k], from, to)
    ensures c.Some? ==> exists k :: IsLast(converters, from, to, k) && converters[k].converter == c.value
  {
    if converters == [] then None
    else
      var n := |converters| - 1;
      if KeyIs(converters[n], from, to) then
        assert IsLast(converters, from, to, n);
        Some(converters[n].converter)
      else
        assert forall k :: IsLast(converters[..n], from, to, k) ==> IsLast(converters, from, to, k);
        LastOf(converters[..n], from, to)
  }

  predicate IsLast(converters: seq<Entry>, from: string, to: string, k: int) {
    && 0 <= k < |converters| && KeyIs(converters[k], from, to)
    && forall j :: k < j < |converters| ==> !KeyIs(converters[j], from, to)
  }

  /** Of registrations whose keys differ in case only, the last one counts. */
  lemma {:induction false} LastRegistrationCounts(converters: seq<Entry>, from: string, to: string)
    ensures Lookup(Lowercased(converters), from, to) == LastOf(converters, from, to)
    decreases |converters|
  {
    if converters != [] {
      var n := |converters| - 1;
      LastRegistrationCounts(converters[..n], from, to);
      LowercasedKeys(converters[..n]);
      LookupAssigned(Lowercased(converters[..n]), LowerKey(converters[n]), from, to);
    }
  }

  /** The number of the first registration under the lower-cased key. */
  function FirstOf(converters: seq<Entry>, from: string, to: string): (k: nat)
    ensures k <= |converters| && (k < |converters| ==> KeyIs(converters[k], from, to))
    ensures forall j :: 0 <= j < k ==> !KeyIs(converters[j], from, to)
  {
    if converters == [] then 0
    else
      var n := |converters| - 1;
      var k := FirstOf(converters[..n], from, to);
      if k < n || KeyIs(converters[n], from, to) then k else n + 1
  }

  /** Entries stand in the order in which their keys were first registered. */
  predicate InOrder(converters: seq<Entry>, table: seq<Entry>) {
    && (forall k :: 0 <= k < |table| ==> Place(converters, table[k]) < |converters|)
    && (forall k :: 0 < k < |table| ==> Place(converters, table[k - 1]) < Place(converters, table[k]))
  }

  function Place(converters: seq<Entry>, e: Entry): nat {
    FirstOf(converters, e.from, e.to)
  }

  /** A further registration does not move the first one of a key. */
  lemma PlaceStays(converters: seq<Entry>, e: Entry)
    requires converters != [] && Place(converters[..|converters| - 1], e) < |converters| - 1
    ensures Place(converters, e) == Place(converters[..|converters| - 1], e)
  {
  }

  /** Entries under the same keys are in order too. */
  lemma OrderStays(converters: seq<Entry>, table: seq<Entry>, next: seq<Entry>)
    requires converters != [] && InOrder(converters[..|converters| - 1], table) && |next| == |table|
    requires forall k :: 0 <= k < |table| ==> SameKey(table[k], next[k])
    ensures InOrder(converters, next)
    ensures forall k :: 0 <= k < |table| ==> Place(converters, next[k]) < |converters| - 1
  {
    forall k | 0 <= k < |table|
      ensures Place(converters, next[k]) == Place(converters[..|converters| - 1], table[k])
    {
      PlaceStays(converters, next[k]);
    }
  }

  lemma NewPlace(converters: seq<Entry>, e: Entry)
    requires converters != [] && e == LowerKey(converters[|converters| - 1])
    requires !HasKey(Lowercased(converters[..|converters| - 1]), e.from, e.to)
    ensures Place(converters, e) == |converters| - 1
  {
    LastRegistrationCounts(converters[..|converters| - 1], e.from, e.to);
  }

  lemma OrderGrows(converters: seq<Entry>, table: seq<Entry>, e: Entry)
    requires InOrder(converters, table) && Place(converters, e) == |converters| - 1
    requires forall k :: 0 <= k < |table| ==> Place(converters, table[k]) < |converters| - 1
    ensures InOrder(converters, table + [e])
  {
    var next := table + [e];
    forall k | 0 <= k < |next|
      ensures Place(converters, next[k]) < |converters|
      ensures k > 0 ==> Place(converters, next[k - 1]) < Place(converters, next[k])
    {
      assert next[k] == if k < |table| then table[k] else e;
      assert k > 0 ==> next[k - 1] == table[k - 1];
    }
  }

  /** The table lists its keys in the order in which they were first registered: what the search for a pair sees. */
  lemma {:induction false} FirstRegistrationPlaces(converters: seq<Entry>)
    ensures InOrder(converters, Lowercased(converters))
    decreases |converters|
  {
    if converters != [] {
      FirstRegistrationPlaces(converters[..|converters| - 1]);
      AssignedInOrder(converters, Lowercased(converters[..|converters| - 1]), LowerKey(converters[|converters| - 1]));
    }
  }

  lemma AssignedInOrder(converters: seq<Entry>, table: seq<Entry>, e: Entry)
    requires converters != [] && e == LowerKey(converters[|converters| - 1])
    requires table == Lowercased(converters[..|converters| - 1]) && InOrder(converters[..|converters| - 1], table)
    ensures InOrder(converters, Assigned(table, e))
  {
    var i := AssignedAt(table, e);
    if i < |table| {
      OrderStays(converters, table, table[i := e]);
    } else {
      OrderStays(converters, table, table);
      NewPlace(converters, e);
      OrderGrows(converters, table, e);
    }
  }

  // ----- one hop

  /** A converter straight from one type to another, or from any type. */
  function Direct(table: seq<Entry>, from: string, to: string): Option<Converter> {
    var c := Lookup(table, from, to);
    if c.Some? then c else Lookup(table, "*", to)
  }

  /** From entry k on, the first that leads to the type from one that can be reached directly. */
  function Pair(table: seq<Entry>, from: string, to: string, k: nat): (p: Option<nat>)
    requires k <= |table|
    ensures p.Some? ==> k <= p.value < |table| && table[p.value].to == to
    ensures p.Some? ==> Direct(table, from, table[p.value].from).Some?
    ensures p.None? ==> forall j :: k <= j < |table| && table[j].to == to ==> Direct(table, from, table[j].from).None?
    decreases |table| - k
  {
    if k == |table| then None
    else if table[k].to == to && Direct(table, from, table[k].from).Some? then Some(k)
    else Pair(table, from, to, k + 1)
  }

  /** How to get from one type to another: by a converter or by two with a type in between. */
  datatype Route = Straight(c: Converter) | Through(first: Converter, second: Converter) | Nowhere

  function RouteOf(table: seq<Entry>, from: string, to: string): Route {
    if Direct(table, from, to).Some? then Straight(Direct(table, from, to).value)
    else
      match Pair(table, from, to, 0)
      case None => Nowhere
      case Some(k) => Through(Direct(table, from, table[k].from).value, table[k].converter)
  }

  /** There is no chain of one or two registered converters. */
  predicate NoChain(table: seq<Entry>, from: string, to: string) {
    && !HasKey(table, from, to) && !HasKey(table, "*", to)
    && forall k :: 0 <= k < |table| && table[k].to == to ==>
      !HasKey(table, from, table[k].from) && !HasKey(table, "*", table[k].from)
  }

  lemma RouteIfChain(table: seq<Entry>, from: string, to: string)
    ensures RouteOf(table, from, to).Nowhere? <==> NoChain(table, from, to)
  {
  }

  function Apply(c: Converter, data: Data, throws_: bool): Outcome {
    match c
    case Equivalence => Success(data)
    case Function(f) => if f(data).Some? then Success(f(data).value) else if throws_ then Raised else Failed
  }

  function Travel(r: Route, from: string, to: string, data: Data, throws_: bool): Outcome {
    match r
    case Straight(c) => Apply(c, data, throws_)
    case Through(c1, c2) =>
      var o := Apply(c1, data, throws_);
      if o.Success? then Apply(c2, o.data, throws_) else o
    case Nowhere => NoConversion(from, to)
  }

  // ----- all hops

  datatype Hop = Hop(from: string, to: string)

  /** The conversions that a list of types asks for: "*" asks for nothing, nor does a type after "*" or after itself. */
  function Hops(prev: string, types: seq<string>): seq<Hop>
    decreases |types|
  {
    if types == [] || types[0] == "" then []
    else if types[0] == "*" then Hops(prev, types[1..])
    else if prev == "*" || prev == types[0] then Hops(types[0], types[1..])
    else [Hop(prev, types[0])] + Hops(types[0], types[1..])
  }

  function Journey(table: seq<Entry>, hops: seq<Hop>, data: Data, throws_: bool): Outcome {
    if hops == [] then Success(data)
    else
      var o := Travel(RouteOf(table, hops[0].from, hops[0].to), hops[0].from, hops[0].to, data, throws_);
      if o.Success? then Journey(table, hops[1..], o.data, throws_) else o
  }

  function Filtered(s: Settings, response: Data, isSuccess: bool): Data {
    if isSuccess && s.dataFilter.Some? then s.dataFilter.value(response) else response
  }

  /** The outcome for these settings. */
  function Expected(s: Settings, response: Data, isSuccess: bool): Outcome {
    if s.dataTypes == [] || s.dataTypes[0] == "" then Success(response)
    else
      var hops := Hops(s.dataTypes[0], s.dataTypes[1..]);
      Journey(Lowercased(s.converters), hops, Filtered(s, response, isSuccess), s.throws_)
  }

  // ----- ajaxConvert

  /** Array.shift; undefined and the empty string both end the loop. */
  function Head(types: seq<string>): string {
    if types == [] then "" else types[0]
  }

  function Tail(types: seq<string>): seq<string> {
    if types == [] then [] else types[1..]
  }

  method LowercaseKeys(converters: seq<Entry>) returns (table: seq<Entry>)
    ensures table == Lowercased(converters)
    ensures forall from, to :: Lookup(table, from, to) == LastOf(converters, from, to)
    ensures InOrder(converters, table)
  {
    table := [];
    var i := 0;
    while i < |converters|
      invariant 0 <= i <= |converters| && table == Lowercased(converters[..i])
    {
      assert converters[..i + 1][..i] == converters[..i];
      table := Assigned(table, LowerKey(converters[i]));
      i := i + 1;
    }
    assert converters[..i] == converters;
    forall from, to ensures Lookup(table, from, to) == LastOf(converters, from, to) {
      LastRegistrationCounts(converters, from, to);
    }
    FirstRegistrationPlaces(converters);
  }

  /** What is applied now, the other converter of a pair being true or left for later. */
  function ConverterFor(r: Route): Option<Converter> {
    match r
    case Nowhere => None
    case Straight(c) => Some(c)
    case Through(c1, c2) => if c1.Equivalence? then Some(c2) else Some(c1)
  }

  predicate Inserts(r: Route) {
    r.Through? && r.first.Function? && r.second.Function?
  }

  /** Seek a direct converter, else a pair; current and dataTypes change if the intermediate type has to be inserted. */
  method Seek(table: seq<Entry>, prev: string, current0: string, dataTypes0: seq<string>)
    returns (conv: Option<Converter>, current: string, dataTypes: seq<string>)
    ensures conv == ConverterFor(RouteOf(table, prev, current0))
    ensures !Inserts(RouteOf(table, prev, current0)) ==> current == current0 && dataTypes == dataTypes0
    ensures Inserts(RouteOf(table, prev, current0)) ==> dataTypes == [current0] + dataTypes0
    ensures Inserts(RouteOf(table, prev, current0)) ==>
      Entry(current, current0, RouteOf(table, prev, current0).second) in table && Direct(table, prev, current) == conv
  {
    current, dataTypes := current0, dataTypes0;
    conv := Direct(table, prev, current);
    if conv.None? {
      var k := 0;
      while k < |table|
        invariant 0 <= k <= |table| && conv.None?
        invariant Pair(table, prev, current, 0) == Pair(table, prev, current, k)
      {
        var conv2 := table[k];
        if conv2.to == current {
          conv := Direct(table, prev, conv2.from);
          if conv.Some? {
            if conv.value.Equivalence? {
              conv := Some(conv2.converter);
            } else if !conv2.converter.Equivalence? {
              current := conv2.from;
              dataTypes := [conv2.to] + dataTypes;
            }
            break;
          }
        }
        k := k + 1;
      }
    }
  }

  /** The outcome, as it depends on where the loop stands. */
  function Outlook(table: seq<Entry>, current: string, types: seq<string>, data: Data, throws_: bool): Outcome {
    if current == "" then Success(data) else Journey(table, Hops(current, types), data, throws_)
  }

  /** The turn of the loop that does not convert. */
  lemma NoWork(table: seq<Entry>, prev: string, types: seq<string>, data: Data, throws_: bool)
    requires prev != ""
    requires Head(types) == "" || Head(types) == "*" || prev == "*" || prev == Head(types)
    ensures Outlook(table, if Head(types) == "*" then prev else Head(types), Tail(types), data, throws_)
      == Outlook(table, prev, types, data, throws_)
  {
  }

  /** At first the filter is still to be applied. */
  lemma Beginning(s: Settings, table: seq<Entry>, response: Data, isSuccess: bool)
    requires table == Lowercased(s.converters) || Head(Tail(s.dataTypes)) == ""
    ensures Head(s.dataTypes) != "" ==>
      Outlook(table, Head(s.dataTypes), Tail(s.dataTypes), Filtered(s, response, isSuccess), s.throws_)
        == Expected(s, response, isSuccess)
  {
  }

  /** An inserted type leads straight to the type that was requested. */
  lemma InsertedIsStraight(table: seq<Entry>, prev: string, a: string, to: string, c2: Converter)
    requires DistinctKeys(table) && Entry(a, to, c2) in table
    requires Direct(table, prev, to).None? && Direct(table, prev, a).Some?
    ensures RouteOf(table, a, to) == Straight(c2) && a != "*" && a != to
  {
    var k :| 0 <= k < |table| && table[k] == Entry(a, to, c2);
    LookupFinds(table, k);
  }

  lemma JourneyOnward(table: seq<Entry>, hop: Hop, hops: seq<Hop>, data: Data, throws_: bool)
    ensures var o := Travel(RouteOf(table, hop.from, hop.to), hop.from, hop.to, data, throws_);
      Journey(table, [hop] + hops, data, throws_) == if o.Success? then Journey(table, hops, o.data, throws_) else o
  {
    assert ([hop] + hops)[1..] == hops;
  }

  /** After the first of two converters, the journey from the type in between is what is left. */
  lemma AfterInsertion(table: seq<Entry>, prev: string, a: string, to: string, rest: seq<string>, data: Data,
      throws_: bool)
    requires DistinctKeys(table) && to != "" && to != "*" && prev != "*" && prev != to
    requires var r := RouteOf(table, prev, to);
      Inserts(r) && Entry(a, to, r.second) in table && Direct(table, prev, a) == Some(r.first)
    ensures RouteOf(table, a, to).Straight?
    ensures var o := Apply(RouteOf(table, prev, to).first, data, throws_);
      Journey(table, Hops(prev, [to] + rest), data, throws_) ==
        if o.Success? then Journey(table, Hops(a, [to] + rest), o.data, throws_) else o
  {
    var r := RouteOf(table, prev, to);
    InsertedIsStraight(table, prev, a, to, r.second);
    assert ([to] + rest)[1..] == rest;
    var o := Apply(r.first, data, throws_);
    JourneyOnward(table, Hop(prev, to), Hops(to, rest), data, throws_);
    if o.Success? {
      JourneyOnward(table, Hop(a, to), Hops(to, rest), o.data, throws_);
    }
  }

  /** A hop in one step. */
  lemma AfterHop(table: seq<Entry>, prev: string, to: string, rest: seq<string>, data: Data, throws_: bool)
    requires to != "" && to != "*" && prev != "*" && prev != to && !Inserts(RouteOf(table, prev, to))
    ensures Journey(table, Hops(prev, [to] + rest), data, throws_) ==
      match ConverterFor(RouteOf(table, prev, to))
      case None => NoConversion(prev, to)
      case Some(c) =>
        var o := Apply(c, data, throws_);
        if o.Success? then Journey(table, Hops(to, rest), o.data, throws_) else o
  {
    assert ([to] + rest)[1..] == rest;
    JourneyOnward(table, Hop(prev, to), Hops(to, rest), data, throws_);
  }

  /** Convert to the next type, or to one in between, which then becomes the current one. */
  method ConvertTo(table: seq<Entry>, prev: string, to: string, rest: seq<string>, data: Data, throws_: bool)
    returns (o: Outcome, current: string, dataTypes: seq<string>)
    requires DistinctKeys(table) && Named(table) && to != "" && to != "*" && prev != "*" && prev != to
    ensures current != ""
    ensures Journey(table, Hops(prev, [to] + rest), data, throws_) ==
      if o.Success? then Journey(table, Hops(current, dataTypes), o.data, throws_) else o
    ensures if Inserts(RouteOf(table, prev, to)) then dataTypes == [to] + rest && RouteOf(table, current, to).Straight?
      else dataTypes == rest
  {
    var conv;
    conv, current, dataTypes := Seek(table, prev, to, rest);
    if Inserts(RouteOf(table, prev, to)) {
      AfterInsertion(table, prev, current, to, rest, data, throws_);
    } else {
      AfterHop(table, prev, to, rest, data, throws_);
    }
    if conv.None? {
      o := NoConversion(prev, current);
    } else {
      o := Apply(conv.value, data, throws_);
    }
  }

  /** What the loop has still to do: a type inserted leads straight to the next. */
  ghost function Left(current: string, types: seq<string>): nat {
    |types| + if current != "" then 1 else 0
  }

  ghost predicate Leads(table: seq<Entry>, current: string, types: seq<string>) {
    types != [] && RouteOf(table, current, types[0]).Straight?
  }

  /** One turn of the loop, prev being the type that is current at its start. */
  method Turn(table: seq<Entry>, prev: string, types: seq<string>, data: Data, throws_: bool)
    returns (o: Outcome, current: string, dataTypes: seq<string>, ghost searched: bool)
    requires DistinctKeys(table) && Named(table) && prev != ""
    ensures Outlook(table, prev, types, data, throws_) ==
      if o.Success? then Outlook(table, current, dataTypes, o.data, throws_) else o
    ensures searched ==> types != []
    ensures if searched && Inserts(RouteOf(table, prev, types[0]))
      then |dataTypes| == |types| && Leads(table, current, dataTypes)
      else dataTypes == Tail(types) && (types == [] ==> current == "")
  {
    o, searched := Success(data), false;
    current, dataTypes := Head(types), Tail(types);
    if current == "" || current == "*" || prev == "*" || prev == current {
      NoWork(table, prev, types, data, throws_);
    }
    if current != "" {
      if current == "*" {
        current := prev;
      } else if prev != "*" && prev != current {
        searched := true;
        o, current, dataTypes := ConvertTo(table, prev, current, dataTypes, data, throws_);
      }
    }
  }

  /** The main loop; searches counts how often a converter is sought. */
  method Convert(s: Settings, response: Data, isSuccess: bool) returns (outcome: Outcome, ghost searches: nat)
    requires Named(s.converters)
    ensures outcome == Expected(s, response, isSuccess)
    ensures outcome.Raised? ==> s.throws_
    ensures outcome.Failed? ==> !s.throws_
    ensures searches <= 2 * |s.dataTypes|
  {
    if s.dataTypes != [] && s.dataTypes[0] != "" {
      ConversionOutcome(s, response, isSuccess);
    }
    var table := [];
    if |s.dataTypes| > 1 && s.dataTypes[1] != "" {
      table := LowercaseKeys(s.converters);
    }
    LowercasedKeys(s.converters);
    Beginning(s, table, response, isSuccess);
    searches := 0;
    ghost var inserted := false;
    var data := response;
    var current, dataTypes := Head(s.dataTypes), Tail(s.dataTypes);
    var prev := "";
    while current != ""
      invariant DistinctKeys(table) && Named(table)
      invariant prev == "" ==> current == Head(s.dataTypes) && dataTypes == Tail(s.dataTypes) && data == response
      invariant prev != "" ==> Outlook(table, current, dataTypes, data, s.throws_) == Expected(s, response, isSuccess)
      invariant inserted ==> Leads(table, current, dataTypes)
      invariant searches + 2 * |dataTypes| <= 2 * |s.dataTypes| + if inserted then 1 else 0
      decreases Left(current, dataTypes), if Leads(table, current, dataTypes) then 0 else 1
    {
      if prev == "" && isSuccess && s.dataFilter.Some? {
        data := s.dataFilter.value(data);
      }
      prev := current;
      ghost var searched, types := false, dataTypes;
      var o;
      o, current, dataTypes, searched := Turn(table, prev, dataTypes, data, s.throws_);
      searches := searches + if searched then 1 else 0;
      inserted := searched && Inserts(RouteOf(table, prev, types[0]));
      if !o.Success? {
        return o, searches;
      }
      data := o.data;
    }
    outcome := Success(data);
  }

  // ----- when there is a result

  ghost predicate Total(c: Converter) {
    c.Function? ==> forall d :: c.apply(d).Some?
  }

  ghost predicate AllTotal(table: seq<Entry>) {
    forall k :: 0 <= k < |table| ==> Total(table[k].converter)
  }

  lemma DirectIsTotal(table: seq<Entry>, from: string, to: string)
    requires AllTotal(table)
    ensures Direct(table, from, to).Some? ==> Total(Direct(table, from, to).value)
  {
  }

  predicate SomeHopHasNoChain(table: seq<Entry>, hops: seq<Hop>) {
    exists k :: 0 <= k < |hops| && NoChain(table, hops[k].from, hops[k].to)
  }

  /** If no converter throws, conversion fails exactly if some hop has no chain of one or two converters. */
  lemma {:induction false} FailsIfNoChain(table: seq<Entry>, hops: seq<Hop>, data: Data, throws_: bool)
    requires AllTotal(table)
    ensures Journey(table, hops, data, throws_).NoConversion? <==> SomeHopHasNoChain(table, hops)
    ensures Journey(table, hops, data, throws_).Success? <==> !SomeHopHasNoChain(table, hops)
    decreases |hops|
  {
    if hops != [] {
      var hop := hops[0];
      var r := RouteOf(table, hop.from, hop.to);
      RouteIfChain(table, hop.from, hop.to);
      DirectIsTotal(table, hop.from, hop.to);
      if r.Through? {
        var k := Pair(table, hop.from, hop.to, 0).value;
        DirectIsTotal(table, hop.from, table[k].from);
      }
      assert SomeHopHasNoChain(table, hops) <==> r.Nowhere? || SomeHopHasNoChain(table, hops[1..]) by {
        assert hops == [hop] + hops[1..];
        if SomeHopHasNoChain(table, hops[1..]) {
          var k :| 0 <= k < |hops[1..]| && NoChain(table, hops[1..][k].from, hops[1..][k].to);
          assert hops[k + 1] == hops[1..][k];
        }
        if SomeHopHasNoChain(table, hops) {
          var k :| 0 <= k < |hops| && NoChain(table, hops[k].from, hops[k].to);
          assert k > 0 ==> hops[k] == hops[1..][k - 1];
        }
      }
      var o := Travel(r, hop.from, hop.to, data, throws_);
      if o.Success? {
        FailsIfNoChain(table, hops[1..], o.data, throws_);
      }
    }
  }

  /** A converter registered for these types, or for any type and the second. */
  ghost predicate Registered(table: seq<Entry>, from: string, to: string, c: Converter) {
    Entry(from, to, c) in table || Entry("*", to, c) in table
  }

  ghost predicate Converts(c: Converter, data: Data, result: Data) {
    match c
    case Equivalence => result == data
    case Function(f) => f(data) == Some(result)
  }

  /** The result comes from the data by one converter, or by two over a type in between. */
  ghost predicate OneOrTwo(table: seq<Entry>, hop: Hop, data: Data, result: Data) {
    || (exists c :: Registered(table, hop.from, hop.to, c) && Converts(c, data, result))
    || (exists a, c1, c2, m :: OverType(table, hop, a, c1, c2, data, m, result))
  }

  ghost predicate OverType(table: seq<Entry>, hop: Hop, a: string, c1: Converter, c2: Converter, data: Data,
      m: Data, result: Data) {
    && Registered(table, hop.from, a, c1) && Converts(c1, data, m)
    && Entry(a, hop.to, c2) in table && Converts(c2, m, result)
  }

  /** And so on from hop to hop. */
  ghost predicate Composed(table: seq<Entry>, hops: seq<Hop>, data: Data, result: Data) {
    if hops == [] then result == data
    else exists d :: OneOrTwo(table, hops[0], data, d) && Composed(table, hops[1..], d, result)
  }

  lemma LookupRegistered(table: seq<Entry>, from: string, to: string)
    ensures Direct(table, from, to).Some? ==> Registered(table, from, to, Direct(table, from, to).value)
  {
  }

  /** What comes out is the composition of registered converters, in the order of the hops. */
  lemma {:induction false} SuccessIsComposition(table: seq<Entry>, hops: seq<Hop>, data: Data, throws_: bool)
    ensures var o := Journey(table, hops, data, throws_); o.Success? ==> Composed(table, hops, data, o.data)
    decreases |hops|
  {
    if hops != [] {
      var hop := hops[0];
      var r := RouteOf(table, hop.from, hop.to);
      LookupRegistered(table, hop.from, hop.to);
      if r.Through? {
        var k := Pair(table, hop.from, hop.to, 0).value;
        LookupRegistered(table, hop.from, table[k].from);
        assert Entry(table[k].from, hop.to, r.second) in table;
      }
      var o := Travel(r, hop.from, hop.to, data, throws_);
      if o.Success? {
        if r.Through? {
          var k := Pair(table, hop.from, hop.to, 0).value;
          var between := Apply(r.first, data, throws_).data;
          assert OverType(table, hop, table[k].from, r.first, r.second, data, between, o.data);
        } else {
          assert Converts(r.c, data, o.data);
        }
        assert OneOrTwo(table, hop, data, o.data);
        SuccessIsComposition(table, hops[1..], o.data, throws_);
      }
    }
  }

  // ----- which outcome there is

  /** The chosen chain turns data into result. */
  ghost predicate RouteConverts(r: Route, data: Data, result: Data) {
    match r
    case Straight(c) => Converts(c, data, result)
    case Through(c1, c2) => exists m :: Converts(c1, data, m) && Converts(c2, m, result)
    case Nowhere => false
  }

  /** A converter of the chosen chain throws on the data that reaches it. */
  ghost predicate RouteThrows(r: Route, data: Data) {
    match r
    case Straight(c) => ThrowsOn(c, data)
    case Through(c1, c2) => ThrowsOn(c1, data) || exists m :: Converts(c1, data, m) && ThrowsOn(c2, m)
    case Nowhere => false
  }

  ghost predicate ThrowsOn(c: Converter, data: Data) {
    c.Function? && c.apply(data).None?
  }

  /** The chosen chains of all hops, one after the other, turn data into result. */
  ghost predicate Arrives(table: seq<Entry>, hops: seq<Hop>, data: Data, result: Data) {
    if hops == [] then result == data
    else
      var r := RouteOf(table, hops[0].from, hops[0].to);
      exists d :: RouteConverts(r, data, d) && Arrives(table, hops[1..], d, result)
  }

  /** The hops before number k go well, and then there is no chain. */
  ghost predicate LacksChainAt(table: seq<Entry>, hops: seq<Hop>, data: Data, k: nat, d: Data) {
    k < |hops| && Arrives(table, hops[..k], data, d) && NoChain(table, hops[k].from, hops[k].to)
  }

  /** The hops before number k go well, and then a converter throws. */
  ghost predicate ThrowsAt(table: seq<Entry>, hops: seq<Hop>, data: Data, k: nat, d: Data) {
    k < |hops| && Arrives(table, hops[..k], data, d) && RouteThrows(RouteOf(table, hops[k].from, hops[k].to), d)
  }

  ghost predicate SomeThrows(table: seq<Entry>, hops: seq<Hop>, data: Data) {
    exists k, d :: ThrowsAt(table, hops, data, k, d)
  }

  ghost predicate SomeLacksChain(table: seq<Entry>, hops: seq<Hop>, data: Data) {
    exists k, d :: LacksChainAt(table, hops, data, k, d)
  }

  /** One hop: exactly one of the three cases holds, and the outcome tells which. */
  lemma OutcomeOfHop(r: Route, from: string, to: string, data: Data, throws_: bool)
    ensures var o := Travel(r, from, to, data, throws_);
      && (forall d :: o == Success(d) <==> RouteConverts(r, data, d))
      && (o.NoConversion? <==> r.Nowhere?) && (o.NoConversion? ==> o == NoConversion(from, to))
      && (o.Raised? <==> RouteThrows(r, data) && throws_) && (o.Failed? <==> RouteThrows(r, data) && !throws_)
  {
    if r.Through? && r.first.Function? && r.first.apply(data).Some? {
      assert Converts(r.first, data, r.first.apply(data).value);
    } else if r.Through? && r.first.Equivalence? {
      assert Converts(r.first, data, data);
    }
  }

  lemma ArrivesCons(table: seq<Entry>, hop: Hop, hops: seq<Hop>, data: Data, d: Data, result: Data)
    requires RouteConverts(RouteOf(table, hop.from, hop.to), data, d) && Arrives(table, hops, d, result)
    ensures Arrives(table, [hop] + hops, data, result)
  {
    assert ([hop] + hops)[1..] == hops;
  }

  /** Success with the result of the chosen chains, and with nothing else. */
  lemma {:induction false} SuccessIfArrives(table: seq<Entry>, hops: seq<Hop>, data: Data, throws_: bool, result: Data)
    ensures Journey(table, hops, data, throws_) == Success(result) <==> Arrives(table, hops, data, result)
    decreases |hops|
  {
    if hops != [] {
      var r := RouteOf(table, hops[0].from, hops[0].to);
      var o := Travel(r, hops[0].from, hops[0].to, data, throws_);
      OutcomeOfHop(r, hops[0].from, hops[0].to, data, throws_);
      if o.Success? {
        SuccessIfArrives(table, hops[1..], o.data, throws_, result);
      }
    }
  }

  /** A failure is that of the first hop that does not go well. */
  ghost predicate FailsAt(table: seq<Entry>, hops: seq<Hop>, data: Data, throws_: bool, o: Outcome, k: nat, d: Data) {
    match o
    case Success(_) => false
    case NoConversion(from, to) => LacksChainAt(table, hops, data, k, d) && hops[k] == Hop(from, to)
    case Failed => ThrowsAt(table, hops, data, k, d) && !throws_
    case Raised => ThrowsAt(table, hops, data, k, d) && throws_
  }

  lemma FailsLater(table: seq<Entry>, hops: seq<Hop>, data: Data, throws_: bool, o: Outcome, k: nat, d: Data, m: Data)
    requires hops != [] && RouteConverts(RouteOf(table, hops[0].from, hops[0].to), data, m)
    requires FailsAt(table, hops[1..], m, throws_, o, k, d)
    ensures FailsAt(table, hops, data, throws_, o, k + 1, d)
  {
    ArrivesCons(table, hops[0], hops[1..][..k], data, m, d);
    assert hops[..k + 1] == [hops[0]] + hops[1..][..k] && hops[k + 1] == hops[1..][k];
  }

  lemma {:induction false} FailureIsAtHop(table: seq<Entry>, hops: seq<Hop>, data: Data, throws_: bool)
    returns (k: nat, d: Data)
    requires !Journey(table, hops, data, throws_).Success?
    ensures FailsAt(table, hops, data, throws_, Journey(table, hops, data, throws_), k, d)
    decreases |hops|
  {
    var r := RouteOf(table, hops[0].from, hops[0].to);
    var o := Travel(r, hops[0].from, hops[0].to, data, throws_);
    OutcomeOfHop(r, hops[0].from, hops[0].to, data, throws_);
    RouteIfChain(table, hops[0].from, hops[0].to);
    if o.Success? {
      k, d := FailureIsAtHop(table, hops[1..], o.data, throws_);
      FailsLater(table, hops, data, throws_, Journey(table, hops, data, throws_), k, d, o.data);
      k := k + 1;
    } else {
      k, d := 0, data;
      assert hops[..0] == [];
    }
  }

  /** Where some hop does not go well there is no success. */
  lemma {:induction false} NoSuccessPast(table: seq<Entry>, hops: seq<Hop>, data: Data, throws_: bool, k: nat, d: Data)
    requires LacksChainAt(table, hops, data, k, d) || ThrowsAt(table, hops, data, k, d)
    ensures var o := Journey(table, hops, data, throws_);
      if LacksChainAt(table, hops, data, k, d) then o == NoConversion(hops[k].from, hops[k].to)
      else o == if throws_ then Raised else Failed
    decreases |hops|
  {
    var r := RouteOf(table, hops[0].from, hops[0].to);
    OutcomeOfHop(r, hops[0].from, hops[0].to, data, throws_);
    RouteIfChain(table, hops[0].from, hops[0].to);
    if k > 0 {
      var m :| RouteConverts(r, data, m) && Arrives(table, hops[..k][1..], m, d);
      assert hops[..k][1..] == hops[1..][..k - 1] && hops[1..][k - 1] == hops[k];
      NoSuccessPast(table, hops[1..], m, throws_, k - 1, d);
    }
  }

  /** Which of the four outcomes a conversion has, for any converters. */
  lemma OutcomeTells(table: seq<Entry>, hops: seq<Hop>, data: Data, throws_: bool)
    ensures var o := Journey(table, hops, data, throws_);
      && (forall result :: o == Success(result) <==> Arrives(table, hops, data, result))
      && (o.Raised? ==> throws_) && (o.Failed? ==> !throws_)
      && (o.Raised? || o.Failed? <==> SomeThrows(table, hops, data))
      && (o.NoConversion? <==> SomeLacksChain(table, hops, data))
  {
    var o := Journey(table, hops, data, throws_);
    forall result ensures o == Success(result) <==> Arrives(table, hops, data, result) {
      SuccessIfArrives(table, hops, data, throws_, result);
    }
    if !o.Success? {
      var k, d := FailureIsAtHop(table, hops, data, throws_);
    }
    forall k, d | LacksChainAt(table, hops, data, k, d) || ThrowsAt(table, hops, data, k, d)
      ensures !o.Success? && (o.NoConversion? <==> LacksChainAt(table, hops, data, k, d))
    {
      NoSuccessPast(table, hops, data, throws_, k, d);
    }
  }

  /** What the chosen chains arrive at is a composition of registered converters. */
  lemma {:induction false} ArrivesIsComposed(table: seq<Entry>, hops: seq<Hop>, data: Data, result: Data)
    requires Arrives(table, hops, data, result)
    ensures Composed(table, hops, data, result)
  {
    SuccessIfArrives(table, hops, data, false, result);
    SuccessIsComposition(table, hops, data, false);
  }

  /** The chain chosen: a converter for just these types before one from any type, and before a pair; of the pairs the
      one whose second converter stands first in the table. */
  lemma ChosenChain(table: seq<Entry>, from: string, to: string)
    requires DistinctKeys(table)
    ensures forall c :: Entry(from, to, c) in table ==> RouteOf(table, from, to) == Straight(c)
    ensures !HasKey(table, from, to) ==>
      forall c :: Entry("*", to, c) in table ==> RouteOf(table, from, to) == Straight(c)
    ensures var r := RouteOf(table, from, to);
      r.Through? ==> exists k :: 0 <= k < |table| && IsFirstPair(table, from, to, k) && PairAt(table, from, r, k)
  {
    forall c | Entry(from, to, c) in table ensures Lookup(table, from, to) == Some(c) {
      FoundUnder(table, from, to, c);
    }
    forall c | Entry("*", to, c) in table ensures Lookup(table, "*", to) == Some(c) {
      FoundUnder(table, "*", to, c);
    }
    if RouteOf(table, from, to).Through? {
      var k := Pair(table, from, to, 0).value;
      PairIsFirst(table, from, to, 0);
      assert PairAt(table, from, RouteOf(table, from, to), k);
    }
  }

  lemma FoundUnder(table: seq<Entry>, from: string, to: string, c: Converter)
    requires DistinctKeys(table) && Entry(from, to, c) in table
    ensures Lookup(table, from, to) == Some(c)
  {
    var k :| 0 <= k < |table| && table[k] == Entry(from, to, c);
    LookupFinds(table, k);
  }

  /** c is registered for these types or, if nothing is, for any type and the second. */
  ghost predicate ReachedBy(table: seq<Entry>, from: string, to: string, c: Converter) {
    Entry(from, to, c) in table || (!HasKey(table, from, to) && Entry("*", to, c) in table)
  }

  /** The second converter is that of entry k, the first leads to what that one takes. */
  ghost predicate PairAt(table: seq<Entry>, from: string, r: Route, k: nat)
    requires k < |table| && r.Through?
  {
    r.second == table[k].converter && ReachedBy(table, from, table[k].from, r.first)
  }

  /** Entry k leads to the type from one that can be reached, and no entry before it does. */
  predicate IsFirstPair(table: seq<Entry>, from: string, to: string, k: nat)
    requires k < |table|
  {
    && table[k].to == to && (HasKey(table, from, table[k].from) || HasKey(table, "*", table[k].from))
    && forall j :: 0 <= j < k && table[j].to == to ==>
      !HasKey(table, from, table[j].from) && !HasKey(table, "*", table[j].from)
  }

  lemma {:induction false} PairIsFirst(table: seq<Entry>, from: string, to: string, k: nat)
    requires k <= |table|
    ensures var p := Pair(table, from, to, k);
      p.Some? ==> forall j :: k <= j < p.value && table[j].to == to ==>
        !HasKey(table, from, table[j].from) && !HasKey(table, "*", table[j].from)
    decreases |table| - k
  {
    if k < |table| {
      PairIsFirst(table, from, to, k + 1);
    }
  }

  // ----- what a list of types asks for

  /** Types that are named and not automatic. */
  predicate Plain(types: seq<string>) {
    forall i :: 0 <= i < |types| ==> types[i] != "" && types[i] != "*"
  }

  /** From each type to the next one, unless that is the same. */
  lemma {:induction false} HopsSnoc(prev: string, types: seq<string>, last: string)
    requires Plain(types + [last]) && prev != "*"
    ensures var before := if types == [] then prev else types[|types| - 1];
      Hops(prev, types + [last]) == Hops(prev, types) + if before == last then [] else [Hop(before, last)]
    ensures Hops(prev, []) == []
    decreases |types|
  {
    var all := types + [last];
    if types == [] {
      assert all[1..] == [] && all[0] == last;
    } else {
      assert all[0] == types[0] && all[1..] == types[1..] + [last];
      assert Plain(all[1..]) by {
        assert forall i :: 0 <= i < |all[1..]| ==> all[1..][i] == all[i + 1];
      }
      HopsSnoc(types[0], types[1..], last);
    }
  }

  /** "*" in the list asks for nothing, and after a response of any type the first type is taken as it is. */
  lemma {:induction false} HopsSkipAuto(prev: string, a: seq<string>, b: seq<string>)
    requires Plain(a)
    ensures Hops(prev, a + ["*"] + b) == Hops(prev, a + b)
    ensures a != [] ==> Hops("*", a) == Hops(a[0], a[1..])
    decreases |a|
  {
    if a == [] {
      assert a + ["*"] + b == ["*"] + b && a + b == b && (["*"] + b)[1..] == b;
    } else {
      assert (a + ["*"] + b)[1..] == a[1..] + ["*"] + b && (a + b)[1..] == a[1..] + b;
      HopsSkipAuto(a[0], a[1..], b);
    }
  }

  /** The outcome of a call, the data filter applied first and only to successful responses. */
  lemma ConversionOutcome(s: Settings, response: Data, isSuccess: bool)
    requires s.dataTypes != [] && s.dataTypes[0] != ""
    ensures var data := if isSuccess && s.dataFilter.Some? then s.dataFilter.value(response) else response;
      var table, hops := Lowercased(s.converters), Hops(s.dataTypes[0], s.dataTypes[1..]);
      var o := Expected(s, response, isSuccess);
      && (forall result :: o == Success(result) <==> Arrives(table, hops, data, result))
      && (o.Raised? <==> s.throws_ && SomeThrows(table, hops, data))
      && (o.Failed? <==> !s.throws_ && SomeThrows(table, hops, data))
      && (o.NoConversion? <==> SomeLacksChain(table, hops, data))
  {
    var table, hops := Lowercased(s.converters), Hops(s.dataTypes[0], s.dataTypes[1..]);
    assert Expected(s, response, isSuccess) == Journey(table, hops, Filtered(s, response, isSuccess), s.throws_);
    OutcomeTells(table, hops, Filtered(s, response, isSuccess), s.throws_);
  }

  /** With one type there is nothing to convert. */
  lemma LoneType(s: Settings, response: Data, isSuccess: bool)
    requires |s.dataTypes| == 1 && s.dataTypes[0] != ""
    ensures var data := if isSuccess && s.dataFilter.Some? then s.dataFilter.value(response) else response;
      Expected(s, response, isSuccess) == Success(data)
  {
    assert s.dataTypes[1..] == [];
  }
}
