/** hasClass, addClass and removeClass. They search a string padded with spaces; what they compute is a list of
    whitespace-separated names. */
module ClassNames {
  import opened Optional
  import opened Lists
  import opened Whitespace

  const SPACE: char := ' '

  /** A name without whitespace that is not empty. */
  predicate Word(w: string) {
    w != [] && forall i :: 0 <= i < |w| ==> !White(w[i])
  }

  predicate Words(names: seq<string>) {
    forall i :: 0 <= i < |names| ==> Word(names[i])
  }

  // ----- the names in a string

  predicate StartsWord(s: string) {
    s != [] && !White(s[0])
  }

  /** All matches of rnothtmlwhite: the longest runs of characters other than whitespace. */
  function Tokens(s: string): (names: seq<string>)
    ensures StartsWord(s) ==> names != []
  {
    if s == [] then []
    else
      var names := Tokens(s[1..]);
      if White(s[0]) then names
      else if StartsWord(s[1..]) then [[s[0]] + names[0]] + names[1..]
      else [[s[0]]] + names
  }

  lemma {:induction false} TokensAreWords(s: string)
    ensures Words(Tokens(s))
    decreases |s|
  {
    if s != [] {
      TokensAreWords(s[1..]);
    }
  }

  /** Whitespace separates. */
  lemma {:induction false} TokensSplit(a: string, c: char, b: string)
    requires White(c)
    ensures Tokens(a + [c] + b) == Tokens(a) + Tokens(b)
    decreases |a|
  {
    if a == [] {
      assert (a + [c] + b)[1..] == b;
    } else {
      TokensSplit(a[1..], c, b);
      assert (a + [c] + b)[1..] == a[1..] + [c] + b;
      assert StartsWord(a[1..] + [c] + b) <==> StartsWord(a[1..]);
    }
  }

  lemma {:induction false} WordIsToken(w: string)
    requires Word(w)
    ensures Tokens(w) == [w]
    decreases |w|
  {
    assert w == [w[0]] + w[1..];
    if |w| > 1 {
      WordIsToken(w[1..]);
      assert [w[1..]][1..] == [];
    } else {
      assert w[1..] == [];
      assert Tokens(w) == [[w[0]]] + [] && w == [w[0]];
    }
  }

  // ----- strip and collapse

  function Join(names: seq<string>): string {
    if names == [] then []
    else if |names| == 1 then names[0]
    else Join(names[..|names| - 1]) + [SPACE] + names[|names| - 1]
  }

  function StripAndCollapse(value: string): string {
    Join(Tokens(value))
  }

  lemma {:induction false} JoinKeepsWords(names: seq<string>)
    requires Words(names)
    ensures Tokens(Join(names)) == names
    decreases |names|
  {
    if |names| == 1 {
      WordIsToken(names[0]);
    } else if |names| > 1 {
      var n := |names| - 1;
      JoinKeepsWords(names[..n]);
      TokensSplit(Join(names[..n]), SPACE, names[n]);
      WordIsToken(names[n]);
    }
  }

  /** It loses and reorders no name. */
  lemma CollapseKeepsTokens(value: string)
    ensures Tokens(StripAndCollapse(value)) == Tokens(value)
  {
    TokensAreWords(value);
    JoinKeepsWords(Tokens(value));
  }

  /** All whitespace in s is single characters ' '. */
  predicate OnlySpaces(s: string) {
    forall i :: 0 <= i < |s| && White(s[i]) ==> s[i] == SPACE
  }

  predicate Padded(s: string) {
    s != [] && s[0] == SPACE && s[|s| - 1] == SPACE && OnlySpaces(s)
  }

  function Pad(value: string): string {
    [SPACE] + value + [SPACE]
  }

  lemma {:induction false} JoinHasOnlySpaces(names: seq<string>)
    requires Words(names)
    ensures OnlySpaces(Join(names))
    decreases |names|
  {
    if |names| > 1 {
      JoinHasOnlySpaces(names[..|names| - 1]);
    }
  }

  lemma PadKeepsTokens(value: string)
    ensures Tokens(Pad(value)) == Tokens(value)
  {
    TokensSplit([], SPACE, value + [SPACE]);
    TokensSplit(value, SPACE, []);
    assert value + [SPACE] + [] == value + [SPACE];
    assert [] + [SPACE] + (value + [SPACE]) == Pad(value);
  }

  lemma PaddedTokens(value: string)
    ensures Padded(Pad(StripAndCollapse(value))) && Tokens(Pad(StripAndCollapse(value))) == Tokens(value)
  {
    TokensAreWords(value);
    JoinHasOnlySpaces(Tokens(value));
    CollapseKeepsTokens(value);
    PadKeepsTokens(StripAndCollapse(value));
  }

  // ----- searching

  predicate OccursAt(s: string, p: string, i: nat) {
    i + |p| <= |s| && s[i..i + |p|] == p
  }

  /** String.indexOf from position i on. */
  function IndexOf(s: string, p: string, i: nat): (index: int)
    requires i <= |s|
    ensures index == -1 || (i <= index && OccursAt(s, p, index))
    ensures forall k :: i <= k < (if index == -1 then |s| else index) ==> !OccursAt(s, p, k)
    decreases |s| - i
  {
    if OccursAt(s, p, i) then i else if i == |s| then -1 else IndexOf(s, p, i + 1)
  }

  /** A padded name that occurs splits the names there. */
  lemma OccurrenceSplits(s: string, w: string, i: nat)
    requires Word(w) && OccursAt(s, Pad(w), i)
    ensures var a, b := s[..i], s[i + |w| + 2..];
      Tokens(s) == Tokens(a) + [w] + Tokens(b) && Tokens(a + [SPACE] + b) == Tokens(a) + Tokens(b)
  {
    var a, b := s[..i], s[i + |w| + 2..];
    assert s == a + [SPACE] + (w + [SPACE] + b) by {
      assert s == a + s[i..i + |w| + 2] + b;
    }
    TokensSplit(a, SPACE, w + [SPACE] + b);
    TokensSplit(w, SPACE, b);
    WordIsToken(w);
    TokensSplit(a, SPACE, b);
  }

  /** Where a name can stand: between whitespace or the ends of the string. */
  predicate Apart(a: string, b: string) {
    && (a == [] || White(a[|a| - 1]))
    && (b == [] || White(b[0]))
  }

  lemma Behind(a: string, w: string, b: string, c: char, q: string)
    requires Apart(a, b) && White(c)
    ensures Apart(a, b + [c] + q) && a + w + b + [c] + q == a + w + (b + [c] + q)
  {
  }

  lemma InFront(p: string, c: char, a: string, w: string, b: string)
    requires Apart(a, b) && White(c)
    ensures Apart(p + [c] + a, b) && p + [c] + (a + w + b) == p + [c] + a + w + b
  {
  }

  /** Every token stands somewhere. */
  lemma {:induction false} TokenStands(s: string, w: string) returns (a: string, b: string)
    requires w in Tokens(s)
    ensures s == a + w + b && Apart(a, b)
    decreases |s|
  {
    if i :| 0 <= i < |s| && White(s[i]) {
      var p, c, q := s[..i], s[i], s[i + 1..];
      assert s == p + [c] + q;
      TokensSplit(p, c, q);
      if w in Tokens(p) {
        a, b := TokenStands(p, w);
        Behind(a, w, b, c, q);
        b := b + [c] + q;
      } else {
        a, b := TokenStands(q, w);
        InFront(p, c, a, w, b);
        a := p + [c] + a;
      }
    } else {
      WordIsToken(s);
      a, b := [], [];
      assert s == [] + w + [];
    }
  }

  /** The search for a padded name in a padded string finds it just when it is one of the names. */
  lemma SearchFindsTokens(s: string, w: string)
    requires Padded(s) && Word(w)
    ensures IndexOf(s, Pad(w), 0) > -1 <==> w in Tokens(s)
  {
    var index := IndexOf(s, Pad(w), 0);
    if index > -1 {
      OccurrenceSplits(s, w, index);
    } else if w in Tokens(s) {
      var a, b := TokenStands(s, w);
      PaddedAround(s, a, w, b);
    }
  }

  lemma PaddedAround(s: string, a: string, w: string, b: string)
    requires Padded(s) && Word(w) && s == a + w + b && Apart(a, b)
    ensures a != [] && OccursAt(s, Pad(w), |a| - 1)
  {
    assert s[|a|] == w[0] && s[|a| + |w| - 1] == w[|w| - 1];
    assert a != [] && b != [];
    assert s[|a| - 1] == a[|a| - 1] && s[|a| + |w|] == b[0];
    assert s[|a| - 1..|a| + |w| + 1] == Pad(w);
  }

  // ----- elements

  /** What the methods are given: a string of names or an array of them. */
  datatype Names = Text(value: string) | Array(names: seq<string>)

  function ClassesToArray(value: Names): seq<string> {
    match value
    case Text(s) => Tokens(s)
    case Array(names) => names
  }

  /** The loops over the names stop at an empty one. */
  function UntilEmpty(names: seq<string>): seq<string> {
    if names == [] || names[0] == [] then [] else [names[0]] + UntilEmpty(names[1..])
  }

  /** The names in list order, and those of the others that are new. */
  function Added(list: seq<string>, names: seq<string>): seq<string> {
    if names == [] then list
    else
      var before, name := Added(list, names[..|names| - 1]), names[|names| - 1];
      if name in before then before else before + [name]
  }

  function WithoutAll(list: seq<string>, names: seq<string>): seq<string> {
    if names == [] then list else Without(WithoutAll(list, names[..|names| - 1]), names[|names| - 1])
  }

  class Element {
    const nodeType: int
    var attribute: Option<string>

    constructor (nodeType: int, attribute: Option<string>)
      ensures this.nodeType == nodeType && this.attribute == attribute
    {
      this.nodeType, this.attribute := nodeType, attribute;
    }

    function GetClass(): string
      reads this
    {
      if attribute.Some? then attribute.value else []
    }

    method SetClass(curValue: string, finalValue: string)
      requires curValue == GetClass()
      modifies this
      ensures GetClass() == finalValue
      ensures finalValue == curValue ==> attribute == old(attribute)
    {
      if curValue != finalValue {
        attribute := Some(finalValue);
      }
    }
  }

  /** hasClass: one of the elements has that name. */
  method HasClass(elems: seq<Element>, selector: string) returns (has: bool)
    ensures Word(selector) ==> (has <==> exists e :: e in elems && e.nodeType == 1 && selector in Tokens(e.GetClass()))
  {
    var className := Pad(selector);
    var i := 0;
    while i < |elems|
      invariant 0 <= i <= |elems|
      invariant Word(selector) ==>
        forall k :: 0 <= k < i ==> elems[k].nodeType != 1 || selector !in Tokens(elems[k].GetClass())
    {
      var elem := elems[i];
      i := i + 1;
      if elem.nodeType == 1 {
        var padded := Pad(StripAndCollapse(elem.GetClass()));
        PaddedTokens(elem.GetClass());
        if Word(selector) {
          SearchFindsTokens(padded, selector);
        }
        if IndexOf(padded, className, 0) > -1 {
          return true;
        }
      }
    }
    has := false;
  }

  /** One element's part of addClass: append every name that the padded string does not contain. */
  method AddNames(curValue: string, classes: seq<string>) returns (finalValue: string)
    ensures Words(UntilEmpty(classes)) ==> finalValue == Join(Added(Tokens(curValue), UntilEmpty(classes)))
  {
    var cur := Pad(StripAndCollapse(curValue));
    PaddedTokens(curValue);
    ghost var names := UntilEmpty(classes);
    UntilEmptyIsPrefix(classes);
    var j := 0;
    while j < |classes| && classes[j] != []
      invariant 0 <= j <= |names|
      invariant Words(names) ==> AddedSoFar(cur, curValue, names, j)
    {
      var clazz := classes[j];
      ghost var before := cur;
      if Words(names) {
        SearchFindsTokens(cur, clazz);
      }
      if IndexOf(cur, Pad(clazz), 0) < 0 {
        if Words(names) {
          AppendAddsToken(cur, clazz);
        }
        cur := cur + clazz + [SPACE];
      }
      if Words(names) {
        AddedNext(before, cur, curValue, names, j);
      }
      j := j + 1;
    }
    assert names[..j] == names;
    finalValue := StripAndCollapse(cur);
  }

  /** The padded string holds the old names and the new ones among the first j. */
  ghost predicate AddedSoFar(cur: string, curValue: string, names: seq<string>, j: nat) {
    j <= |names| && Padded(cur) && Tokens(cur) == Added(Tokens(curValue), names[..j])
  }

  lemma AddedNext(before: string, cur: string, curValue: string, names: seq<string>, j: nat)
    requires j < |names| && AddedSoFar(before, curValue, names, j) && Padded(cur)
    requires Tokens(cur) == if names[j] in Tokens(before) then Tokens(before) else Tokens(before) + [names[j]]
    ensures AddedSoFar(cur, curValue, names, j + 1)
  {
    assert names[..j + 1][..j] == names[..j];
  }

  lemma AppendAddsToken(cur: string, w: string)
    requires Padded(cur) && Word(w)
    ensures Padded(cur + w + [SPACE]) && Tokens(cur + w + [SPACE]) == Tokens(cur) + [w]
  {
    var a := cur[..|cur| - 1];
    assert cur == a + [SPACE] + [] && cur + w + [SPACE] == a + [SPACE] + (w + [SPACE] + []);
    TokensSplit(a, SPACE, []);
    TokensSplit(a, SPACE, w + [SPACE] + []);
    TokensSplit(w, SPACE, []);
    WordIsToken(w);
  }

  lemma {:induction false} UntilEmptyIsPrefix(classes: seq<string>)
    ensures var n := |UntilEmpty(classes)|;
      && n <= |classes| && UntilEmpty(classes) == classes[..n] && (n < |classes| ==> classes[n] == [])
      && forall i :: 0 <= i < n ==> classes[i] != []
    decreases |classes|
  {
    if classes != [] && classes[0] != [] {
      UntilEmptyIsPrefix(classes[1..]);
      var n := |UntilEmpty(classes)|;
      assert forall i :: 0 < i <= |classes[1..]| ==> classes[i] == classes[1..][i - 1];
    }
  }

  /** One element's part of removeClass: while a padded name occurs, replace it by a space. */
  method RemoveNames(curValue: string, classes: seq<string>) returns (finalValue: string)
    ensures Words(UntilEmpty(classes)) ==> finalValue == Join(WithoutAll(Tokens(curValue), UntilEmpty(classes)))
  {
    var cur := Pad(StripAndCollapse(curValue));
    PaddedTokens(curValue);
    ghost var names := UntilEmpty(classes);
    UntilEmptyIsPrefix(classes);
    var j := 0;
    while j < |classes| && classes[j] != []
      invariant 0 <= j <= |names|
      invariant Words(names) ==> RemovedSoFar(cur, curValue, names, j)
    {
      ghost var before := cur;
      cur := RemoveAll(cur, classes[j]);
      if Words(names) {
        RemovedNext(before, cur, curValue, names, j);
      }
      j := j + 1;
    }
    assert names[..j] == names;
    finalValue := StripAndCollapse(cur);
  }

  /** The padded string holds the old names except the first j of those to be removed. */
  ghost predicate RemovedSoFar(cur: string, curValue: string, names: seq<string>, j: nat) {
    j <= |names| && Padded(cur) && Tokens(cur) == WithoutAll(Tokens(curValue), names[..j])
  }

  lemma RemovedNext(before: string, cur: string, curValue: string, names: seq<string>, j: nat)
    requires j < |names| && RemovedSoFar(before, curValue, names, j) && Padded(cur)
    requires Tokens(cur) == Without(Tokens(before), names[j])
    ensures RemovedSoFar(cur, curValue, names, j + 1)
  {
    assert names[..j + 1][..j] == names[..j];
  }

  /** Remove all instances of one name. */
  method RemoveAll(s: string, clazz: string) returns (cur: string)
    requires clazz != []
    ensures Padded(s) && Word(clazz) ==> Padded(cur) && Tokens(cur) == Without(Tokens(s), clazz)
  {
    cur := s;
    while IndexOf(cur, Pad(clazz), 0) > -1
      invariant Padded(s) && Word(clazz) ==> Padded(cur) && Without(Tokens(cur), clazz) == Without(Tokens(s), clazz)
      decreases |cur|
    {
      var i := IndexOf(cur, Pad(clazz), 0);
      if Padded(s) && Word(clazz) {
        OccurrenceSplits(cur, clazz, i);
        WithoutOne(Tokens(cur[..i]), clazz, Tokens(cur[i + |clazz| + 2..]));
        CutIsPadded(cur, clazz, i);
      }
      cur := cur[..i] + [SPACE] + cur[i + |clazz| + 2..];
    }
    if Padded(s) && Word(clazz) {
      SearchFindsTokens(cur, clazz);
      WithoutAbsent(Tokens(cur), clazz);
    }
  }

  lemma CutIsPadded(s: string, w: string, i: nat)
    requires Padded(s) && Word(w) && OccursAt(s, Pad(w), i)
    ensures i + |w| + 2 <= |s|
    ensures Padded(s[..i] + [SPACE] + s[i + |w| + 2..])
  {
    var cur := s[..i] + [SPACE] + s[i + |w| + 2..];
    assert forall k :: 0 <= k < |cur| ==> k == i || cur[k] == s[if k < i then k else k + |w| + 1];
  }

  /** The names that a string lists, or those in an array. */
  function GivenNames(value: Names): seq<string> {
    if value.Text? then Tokens(value.value) else value.names
  }

  predicate GivenWords(value: Names) {
    value.Array? ==> Words(value.names)
  }

  /** The names afterwards are those before and the given ones. */
  ghost predicate NamesAdded(before: string, after: string, names: seq<string>) {
    forall name :: name in Tokens(after) <==> name in Tokens(before) || name in names
  }

  /** The names afterwards are those before that are not given. */
  ghost predicate NamesRemoved(before: string, after: string, names: seq<string>) {
    forall name :: name in Tokens(after) <==> name in Tokens(before) && name !in names
  }

  lemma AddsNames(before: string, after: string, names: seq<string>)
    requires Words(names) && (after == Join(Added(Tokens(before), names)) || (names == [] && after == before))
    ensures NamesAdded(before, after, names)
  {
    if names != [] || after != before {
      forall name ensures name in Tokens(after) <==> name in Tokens(before) || name in names {
        AddThenHas(before, names, name);
      }
    }
  }

  lemma RemovesNames(before: string, after: string, names: seq<string>)
    requires Words(names) && (after == Join(WithoutAll(Tokens(before), names)) || (names == [] && after == before))
    ensures NamesRemoved(before, after, names)
  {
    if names != [] || after != before {
      forall name ensures name in Tokens(after) <==> name in Tokens(before) && name !in names {
        AddThenHas(before, names, name);
      }
    }
  }

  /** The loops over words visit all that is given. */
  lemma GivenAreVisited(value: Names)
    requires GivenWords(value)
    ensures Words(GivenNames(value)) && UntilEmpty(ClassesToArray(value)) == GivenNames(value) == ClassesToArray(value)
  {
    if value.Text? {
      TokensAreWords(value.value);
    }
    UntilEmptyIsAll(GivenNames(value));
  }

  lemma {:induction false} UntilEmptyIsAll(names: seq<string>)
    requires Words(names)
    ensures UntilEmpty(names) == names
    decreases |names|
  {
    if names != [] {
      UntilEmptyIsAll(names[1..]);
    }
  }

  /** The loop over the elements. */
  method AddToAll(elems: seq<Element>, classes: seq<string>)
    requires classes != []
    modifies elems
    ensures forall e :: e in elems && e.nodeType != 1 ==> e.attribute == old(e.attribute)
    ensures Words(UntilEmpty(classes)) ==> forall e :: e in elems && e.nodeType == 1 ==>
      e.GetClass() == Join(Added(Tokens(old(e.GetClass())), UntilEmpty(classes)))
  {
    ghost var names := UntilEmpty(classes);
    var i := 0;
    while i < |elems|
      invariant 0 <= i <= |elems|
      invariant forall e :: e in elems && (e.nodeType != 1 || e !in elems[..i]) ==> e.attribute == old(e.attribute)
      invariant Words(names) ==> forall e :: e in elems[..i] && e.nodeType == 1 ==>
        e.GetClass() == Join(Added(Tokens(old(e.GetClass())), names))
    {
      var elem := elems[i];
      assert elems[..i + 1] == elems[..i] + [elem];
      i := i + 1;
      if elem.nodeType == 1 {
        var curValue := elem.GetClass();
        var finalValue := AddNames(curValue, classes);
        if Words(names) {
          AddedTwice(old(elem.GetClass()), names);
        }
        elem.SetClass(curValue, finalValue);
      }
    }
    assert elems[..i] == elems;
  }

  /** addClass: every element of the jQuery object, however often it is in there, keeps its names in order, followed
      by those of the given names that it did not have. */
  method AddClass(elems: seq<Element>, value: Names)
    modifies elems
    ensures forall e :: e in elems && (e.nodeType != 1 || ClassesToArray(value) == []) ==>
      e.attribute == old(e.attribute)
    ensures Words(UntilEmpty(ClassesToArray(value))) && ClassesToArray(value) != [] ==>
      forall e :: e in elems && e.nodeType == 1 ==>
        e.GetClass() == Join(Added(Tokens(old(e.GetClass())), UntilEmpty(ClassesToArray(value))))
    ensures value.Text? ==> forall e :: e in elems && e.nodeType == 1 ==>
      NamesAdded(old(e.GetClass()), e.GetClass(), Tokens(value.value))
    ensures value.Array? && Words(value.names) ==> forall e :: e in elems && e.nodeType == 1 ==>
      NamesAdded(old(e.GetClass()), e.GetClass(), value.names)
  {
    var classes := ClassesToArray(value);
    if classes != [] {
      AddToAll(elems, classes);
    }
    if GivenWords(value) {
      GivenAreVisited(value);
      forall e | e in elems && e.nodeType == 1
        ensures NamesAdded(old(e.GetClass()), e.GetClass(), GivenNames(value))
      {
        AddsNames(old(e.GetClass()), e.GetClass(), GivenNames(value));
      }
    }
  }

  /** The loop over the elements. */
  method RemoveFromAll(elems: seq<Element>, classes: seq<string>)
    requires classes != []
    modifies elems
    ensures forall e :: e in elems && e.nodeType != 1 ==> e.attribute == old(e.attribute)
    ensures Words(UntilEmpty(classes)) ==> forall e :: e in elems && e.nodeType == 1 ==>
      e.GetClass() == Join(WithoutAll(Tokens(old(e.GetClass())), UntilEmpty(classes)))
  {
    ghost var names := UntilEmpty(classes);
    var i := 0;
    while i < |elems|
      invariant 0 <= i <= |elems|
      invariant forall e :: e in elems && (e.nodeType != 1 || e !in elems[..i]) ==> e.attribute == old(e.attribute)
      invariant Words(names) ==> forall e :: e in elems[..i] && e.nodeType == 1 ==>
        e.GetClass() == Join(WithoutAll(Tokens(old(e.GetClass())), names))
    {
      var elem := elems[i];
      assert elems[..i + 1] == elems[..i] + [elem];
      i := i + 1;
      if elem.nodeType == 1 {
        var curValue := elem.GetClass();
        var finalValue := RemoveNames(curValue, classes);
        if Words(names) {
          RemovedTwice(old(elem.GetClass()), names);
        }
        elem.SetClass(curValue, finalValue);
      }
    }
    assert elems[..i] == elems;
  }

  /** removeClass: every element keeps all names but the given ones, in order. */
  method RemoveClass(elems: seq<Element>, value: Names)
    modifies elems
    ensures forall e :: e in elems && (e.nodeType != 1 || ClassesToArray(value) == []) ==>
      e.attribute == old(e.attribute)
    ensures Words(UntilEmpty(ClassesToArray(value))) && ClassesToArray(value) != [] ==>
      forall e :: e in elems && e.nodeType == 1 ==>
        e.GetClass() == Join(WithoutAll(Tokens(old(e.GetClass())), UntilEmpty(ClassesToArray(value))))
    ensures value.Text? ==> forall e :: e in elems && e.nodeType == 1 ==>
      NamesRemoved(old(e.GetClass()), e.GetClass(), Tokens(value.value))
    ensures value.Array? && Words(value.names) ==> forall e :: e in elems && e.nodeType == 1 ==>
      NamesRemoved(old(e.GetClass()), e.GetClass(), value.names)
  {
    var classes := ClassesToArray(value);
    if classes != [] {
      RemoveFromAll(elems, classes);
    }
    if GivenWords(value) {
      GivenAreVisited(value);
      forall e | e in elems && e.nodeType == 1
        ensures NamesRemoved(old(e.GetClass()), e.GetClass(), GivenNames(value))
      {
        RemovesNames(old(e.GetClass()), e.GetClass(), GivenNames(value));
      }
    }
  }

  // ----- what adding and removing names amount to

  /** Old names first, as they were; then new ones, each of them once. */
  lemma {:induction false} AddedFacts(list: seq<string>, names: seq<string>)
    ensures list <= Added(list, names)
    ensures forall x :: x in Added(list, names) <==> x in list || x in names
    ensures forall i, j :: 0 <= i < j < |Added(list, names)| && |list| <= j ==>
      Added(list, names)[i] != Added(list, names)[j]
    decreases |names|
  {
    if names != [] {
      AddedFacts(list, names[..|names| - 1]);
      assert names == names[..|names| - 1] + [names[|names| - 1]];
    }
  }

  lemma {:induction false} AddedNothing(list: seq<string>, names: seq<string>)
    requires forall x :: x in names ==> x in list
    ensures Added(list, names) == list
    decreases |names|
  {
    if names != [] {
      AddedNothing(list, names[..|names| - 1]);
    }
  }

  /** What is removed is gone; nothing else is. */
  lemma {:induction false} RemovedFacts(list: seq<string>, names: seq<string>)
    ensures forall x :: x in WithoutAll(list, names) <==> x in list && x !in names
    decreases |names|
  {
    if names != [] {
      var before := WithoutAll(list, names[..|names| - 1]);
      RemovedFacts(list, names[..|names| - 1]);
      WithoutMembers(before, names[|names| - 1]);
      assert names == names[..|names| - 1] + [names[|names| - 1]];
    }
  }

  lemma {:induction false} RemovedNothing(list: seq<string>, names: seq<string>)
    requires forall x :: x in names ==> x !in list
    ensures WithoutAll(list, names) == list
    decreases |names|
  {
    if names != [] {
      RemovedNothing(list, names[..|names| - 1]);
      WithoutAbsent(list, names[|names| - 1]);
    }
  }

  /** Adding the same names to the result changes nothing. */
  lemma AddedTwice(value: string, names: seq<string>)
    requires Words(names)
    ensures var once := Join(Added(Tokens(value), names)); Join(Added(Tokens(once), names)) == once
  {
    var list := Added(Tokens(value), names);
    AddedFacts(Tokens(value), names);
    TokensAreWords(value);
    forall i | 0 <= i < |list| ensures Word(list[i]) {
      assert list[i] in list;
    }
    JoinKeepsWords(list);
    AddedNothing(list, names);
  }

  lemma RemovedTwice(value: string, names: seq<string>)
    ensures var once := Join(WithoutAll(Tokens(value), names)); Join(WithoutAll(Tokens(once), names)) == once
  {
    var list := WithoutAll(Tokens(value), names);
    RemovedFacts(Tokens(value), names);
    TokensAreWords(value);
    forall i | 0 <= i < |list| ensures Word(list[i]) {
      assert list[i] in list;
    }
    JoinKeepsWords(list);
    RemovedNothing(list, names);
  }

  /** hasClass finds what addClass adds, and nothing that removeClass removes. */
  lemma AddThenHas(value: string, names: seq<string>, name: string)
    requires Words(names)
    ensures name in Tokens(Join(Added(Tokens(value), names))) <==> name in Tokens(value) || name in names
    ensures name in Tokens(Join(WithoutAll(Tokens(value), names))) <==> name in Tokens(value) && name !in names
  {
    var list, less := Added(Tokens(value), names), WithoutAll(Tokens(value), names);
    AddedFacts(Tokens(value), names);
    RemovedFacts(Tokens(value), names);
    TokensAreWords(value);
    assert forall i :: 0 <= i < |list| ==> list[i] in list;
    assert forall i :: 0 <= i < |less| ==> less[i] in less;
    JoinKeepsWords(list);
    JoinKeepsWords(less);
  }

  /** The empty string is no name, yet hasClass finds it in an element without names, and only there. */
  lemma EmptyNameMeansNone(value: string)
    ensures IndexOf(Pad(StripAndCollapse(value)), Pad([]), 0) > -1 <==> Tokens(value) == []
  {
    TokensAreWords(value);
    if Tokens(value) == [] {
      assert OccursAt(Pad([]), Pad([]), 0);
    } else {
      NoDoubleSpace(Tokens(value));
      forall i: nat ensures !OccursAt(Pad(Join(Tokens(value))), Pad([]), i) {
        NotBeforeSpace(Join(Tokens(value)), i);
      }
    }
  }

  lemma NotBeforeSpace(s: string, i: nat)
    requires s != [] && !White(s[0]) && !White(s[|s| - 1])
    requires forall k :: 0 < k < |s| ==> !White(s[k - 1]) || !White(s[k])
    ensures !OccursAt(Pad(s), Pad([]), i)
  {
    var p := Pad(s);
    if i + 2 <= |p| {
      assert p[i] != SPACE || p[i + 1] != SPACE by {
        assert 0 < i < |s| ==> p[i] == s[i - 1] && p[i + 1] == s[i];
      }
      assert p[i..i + 2][0] == p[i] && p[i..i + 2][1] == p[i + 1];
      assert Pad([])[0] == SPACE && Pad([])[1] == SPACE;
    }
  }

  lemma {:induction false} NoDoubleSpace(names: seq<string>)
    requires Words(names) && names != []
    ensures Join(names) != [] && !White(Join(names)[0]) && !White(Join(names)[|Join(names)| - 1])
    ensures forall i :: 0 < i < |Join(names)| ==> !White(Join(names)[i - 1]) || !White(Join(names)[i])
    decreases |names|
  {
    if |names| > 1 {
      NoDoubleSpace(names[..|names| - 1]);
    }
  }
}
