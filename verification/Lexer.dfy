/** Sizzle's tokenize: a loop that eats a selector from the front. */
module Lexer {
  import opened Optional
  import opened Whitespace

  datatype Kind = Combinator(symbol: char) | Filter(name: string)

  datatype Token = Token(value: string, kind: Kind)

  type Group = seq<Token>

  /** One of Expr.filter's types with its regular expression: how much it matches at the start of a string, 0 if it
      does not match. A pre-filter may reject a match or shorten it. */
  datatype FilterType = FilterType(name: string, match_: string -> nat)

  ghost predicate Prefixes(types: seq<FilterType>) {
    forall j, s: string {:trigger types[j].match_(s)} :: 0 <= j < |types| ==> types[j].match_(s) <= |s|
  }

  // ----- regular expressions

  /** The first index from i on that is not whitespace. */
  function SkipWhite(s: string, i: nat): (n: nat)
    requires i <= |s|
    ensures i <= n <= |s|
    ensures n < |s| ==> !White(s[n])
    decreases |s| - i
  {
    if i < |s| && White(s[i]) then SkipWhite(s, i + 1) else i
  }

  /** rcomma */
  function CommaLength(s: string): (n: nat)
    ensures n <= |s|
  {
    var k := SkipWhite(s, 0);
    if k < |s| && s[k] == ',' then SkipWhite(s, k + 1) else 0
  }

  predicate Symbol(c: char) {
    c == '>' || c == '+' || c == '~'
  }

  /** rcombinators */
  function CombinatorLength(s: string): (n: nat)
    ensures n <= |s|
  {
    var k := SkipWhite(s, 0);
    if k < |s| && Symbol(s[k]) then SkipWhite(s, k + 1) else k
  }

  function CombinatorSymbol(s: string): char {
    var k := SkipWhite(s, 0);
    if k < |s| && Symbol(s[k]) then s[k] else ' '
  }

  predicate IdentifierChar(c: char) {
    'a' <= c <= 'z' || 'A' <= c <= 'Z' || '0' <= c <= '9' || c == '_' || c == '-' || c > '\U{A0}'
  }

  /** Where the run of identifier characters from i on ends. */
  function IdentifierEnd(s: string, i: nat): (n: nat)
    requires i <= |s|
    ensures i <= n <= |s|
    ensures n < |s| ==> !IdentifierChar(s[n])
    decreases |s| - i
  {
    if i < |s| && IdentifierChar(s[i]) then IdentifierEnd(s, i + 1) else i
  }

  function TagLength(s: string): (n: nat)
    ensures n <= |s|
  {
    var n := IdentifierEnd(s, 0);
    if n > 0 then n else if s != [] && s[0] == '*' then 1 else 0
  }

  /** An identifier after one character, as in .name and #name. */
  function PrefixedLength(s: string, c: char): (n: nat)
    ensures n <= |s|
  {
    if s != [] && s[0] == c && IdentifierEnd(s, 1) > 1 then IdentifierEnd(s, 1) else 0
  }

  /** The filter types are TAG, CLASS and ID, in this order. */
  ghost predicate SimpleTypes(types: seq<FilterType>) {
    && |types| == 3
    && types[0].name == "TAG" && types[1].name == "CLASS" && types[2].name == "ID"
    && (forall s :: types[0].match_(s) == TagLength(s))
    && (forall s :: types[1].match_(s) == PrefixedLength(s, '.'))
    && (forall s :: types[2].match_(s) == PrefixedLength(s, '#'))
  }

  // ----- the text of tokens

  /** toSelector */
  function ToSelector(tokens: Group): string {
    if tokens == [] then [] else ToSelector(tokens[..|tokens| - 1]) + tokens[|tokens| - 1].value
  }

  method ToSelectorLoop(tokens: Group) returns (selector: string)
    ensures selector == ToSelector(tokens)
  {
    var i := 0;
    selector := "";
    while i < |tokens|
      invariant 0 <= i <= |tokens| && selector == ToSelector(tokens[..i])
    {
      assert tokens[..i + 1][..i] == tokens[..i];
      selector := selector + tokens[i].value;
      i := i + 1;
    }
    assert tokens[..i] == tokens;
  }

  /** The commas, each before its group, and the groups. */
  function Text(commas: seq<string>, groups: seq<Group>): string
    requires |commas| == |groups|
  {
    if groups == [] then []
    else
      var n := |groups| - 1;
      Text(commas[..n], groups[..n]) + commas[n] + ToSelector(groups[n])
  }

  predicate IsComma(s: string) {
    s != [] && CommaLength(s) == |s|
  }

  /** There is a comma before every group but the first; only one that ends the selector is not consumed. */
  predicate Separated(commas: seq<string>, rest: string, simple: bool) {
    forall k :: 0 <= k < |commas| ==>
      if k == 0 then commas[k] == [] else IsComma(commas[k]) || (commas[k] == [] && (simple ==> IsComma(rest)))
  }

  lemma TextSnoc(commas: seq<string>, groups: seq<Group>, comma: string, group: Group)
    requires |commas| == |groups|
    ensures Text(commas + [comma], groups + [group]) == Text(commas, groups) + comma + ToSelector(group)
  {
    assert (commas + [comma])[..|groups|] == commas && (groups + [group])[..|groups|] == groups;
  }

  lemma ToSelectorSnoc(tokens: Group, t: Token)
    ensures ToSelector(tokens + [t]) == ToSelector(tokens) + t.value
  {
    assert (tokens + [t])[..|tokens|] == tokens;
  }

  // ----- what the loop computes for selectors of tags, classes and ids

  function Next(s: string): (t: Option<Token>)
    ensures t.Some? ==> 0 < |t.value.value| <= |s| && s[..|t.value.value|] == t.value.value
  {
    if CombinatorLength(s) > 0 then Some(Token(s[..CombinatorLength(s)], Combinator(CombinatorSymbol(s))))
    else if TagLength(s) > 0 then Some(Token(s[..TagLength(s)], Filter("TAG")))
    else if PrefixedLength(s, '.') > 0 then Some(Token(s[..PrefixedLength(s, '.')], Filter("CLASS")))
    else if PrefixedLength(s, '#') > 0 then Some(Token(s[..PrefixedLength(s, '#')], Filter("ID")))
    else None
  }

  /** The tokens up to a comma or something that is no token. */
  function LexRest(s: string): (lexed: (Group, string))
    ensures |lexed.1| <= |s|
    decreases |s|
  {
    if s == [] || CommaLength(s) > 0 || Next(s).None? then ([], s)
    else
      var t := Next(s).value;
      var (g, r) := LexRest(s[|t.value|..]);
      ([t] + g, r)
  }

  /** A group begins: its first token may be whitespace before a comma. */
  function LexStart(done: seq<Group>, s: string): (seq<Group>, string)
    decreases |s|, 0
  {
    if Next(s).None? then (done + [[]], s)
    else
      var t := Next(s).value;
      var (g, r) := LexRest(s[|t.value|..]);
      LexMore(done + [[t] + g], r)
  }

  /** A group has ended: after a comma another one begins. */
  function LexMore(done: seq<Group>, s: string): (seq<Group>, string)
    decreases |s|, 1
  {
    if CommaLength(s) == 0 then (done, s)
    else LexStart(done, if CommaLength(s) == |s| then s else s[CommaLength(s)..])
  }

  function Lex(s: string): (seq<Group>, string) {
    if s == [] then ([], []) else LexStart([], s)
  }

  /** The last group may go on. */
  function Continue(groups: seq<Group>, s: string): (seq<Group>, string)
    requires groups != []
  {
    var n := |groups| - 1;
    var (g, r) := LexRest(s);
    LexMore(groups[..n] + [groups[n] + g], r)
  }

  function Pending(groups: seq<Group>, s: string): (seq<Group>, string)
    requires groups != []
  {
    var n := |groups| - 1;
    if groups[n] == [] then LexStart(groups[..n], s) else Continue(groups, s)
  }

  lemma PendingAfterTake(groups: seq<Group>, s: string, t: Token)
    requires groups != [] && Next(s) == Some(t) && (groups[|groups| - 1] != [] ==> CommaLength(s) == 0)
    ensures Pending(Extended(groups, t), s[|t.value|..]) == Pending(groups, s)
  {
    var n := |groups| - 1;
    var (g, r) := LexRest(s[|t.value|..]);
    assert Extended(groups, t)[..n] == groups[..n];
    assert groups[n] + [t] + g == groups[n] + ([t] + g);
    if groups[n] == [] {
      assert groups[n] + [t] + g == [t] + g;
    }
  }

  lemma PendingAfterComma(groups: seq<Group>, s: string)
    requires groups != [] && groups[|groups| - 1] != [] && CommaLength(s) > 0
    ensures Pending(groups + [[]], if CommaLength(s) == |s| then s else s[CommaLength(s)..]) == Pending(groups, s)
  {
    var n := |groups| - 1;
    assert groups[n] + [] == groups[n];
    assert groups[..n] + [groups[n]] == groups;
    assert (groups + [[]])[..n + 1] == groups;
  }

  lemma PendingStuck(groups: seq<Group>, s: string)
    requires groups != [] && Next(s).None? && (groups[|groups| - 1] != [] ==> CommaLength(s) == 0)
    ensures Pending(groups, s) == (groups, s)
  {
    var n := |groups| - 1;
    assert groups[n] + [] == groups[n];
    assert groups[..n] + [groups[n]] == groups;
    if groups[n] == [] {
      assert groups[..n] + [[]] == groups;
    }
  }

  /** Which filter matches is told by the first character, so that the order of trying does not matter. */
  lemma FiltersExclude(s: string)
    ensures TagLength(s) > 0 ==> Next(s) == Some(Token(s[..TagLength(s)], Filter("TAG"))) && CommaLength(s) == 0
    ensures PrefixedLength(s, '.') > 0 ==>
      Next(s) == Some(Token(s[..PrefixedLength(s, '.')], Filter("CLASS"))) && CommaLength(s) == 0
    ensures PrefixedLength(s, '#') > 0 ==>
      Next(s) == Some(Token(s[..PrefixedLength(s, '#')], Filter("ID"))) && CommaLength(s) == 0
  {
  }

  /** The matched text of rcomma is itself a comma. */
  lemma CommaAlone(s: string)
    requires CommaLength(s) > 0
    ensures IsComma(s[..CommaLength(s)])
  {
    var k, n := SkipWhite(s, 0), CommaLength(s);
    SkipInPrefix(s, 0, n);
    SkipInPrefix(s, k + 1, n);
  }

  lemma {:induction false} SkipInPrefix(s: string, i: nat, n: nat)
    requires i <= n <= |s|
    ensures SkipWhite(s, i) < n ==> SkipWhite(s[..n], i) == SkipWhite(s, i)
    ensures SkipWhite(s, i) >= n ==> SkipWhite(s[..n], i) == n
    decreases n - i
  {
    if i < n && White(s[i]) {
      SkipInPrefix(s, i + 1, n);
    }
  }

  /** Of a comma with whitespace around it, only whitespace can be taken as a token. */
  lemma TakenFromComma(s: string)
    requires IsComma(s) && Next(s).Some?
    ensures IsComma(s[|Next(s).value.value|..])
  {
    var k := SkipWhite(s, 0);
    SkipInSuffix(s, k, k);
    SkipInSuffix(s, k, k + 1);
  }

  lemma {:induction false} SkipInSuffix(s: string, n: nat, i: nat)
    requires n <= i <= |s|
    ensures SkipWhite(s[n..], i - n) == SkipWhite(s, i) - n
    decreases |s| - i
  {
    if i < |s| && White(s[i]) {
      SkipInSuffix(s, n, i + 1);
    }
  }

  // ----- tokenize

  /** The symbol, with nothing but whitespace around it. */
  predicate SymbolInSpace(value: string, c: char, i: nat) {
    i < |value| && value[i] == c && forall k :: 0 <= k < |value| && k != i ==> White(value[k])
  }

  /** The token's kind is told by its text: whitespace, or a combinator's symbol with whitespace around it, or what the
      filter type of that name matches where it stands. */
  ghost predicate KindFits(types: seq<FilterType>, t: Token) {
    match t.kind
    case Combinator(c) =>
      if c == ' ' then t.value != [] && forall k :: 0 <= k < |t.value| ==> White(t.value[k])
      else (c == '>' || c == '+' || c == '~') && exists i :: SymbolInSpace(t.value, c, i)
    case Filter(name) => exists j: nat, behind :: IsMatchOf(types, j, name, t.value, behind)
  }

  ghost predicate IsMatchOf(types: seq<FilterType>, j: nat, name: string, value: string, behind: string) {
    j < |types| && types[j].name == name && types[j].match_(value + behind) == |value| > 0
  }

  ghost predicate AllKindsFit(types: seq<FilterType>, groups: seq<Group>) {
    forall k, i :: 0 <= k < |groups| && 0 <= i < |groups[k]| ==> KindFits(types, groups[k][i])
  }

  lemma {:induction false} SkippedIsWhite(s: string, i: nat)
    requires i <= |s|
    ensures forall k :: i <= k < SkipWhite(s, i) ==> White(s[k])
    decreases |s| - i
  {
    if i < |s| && White(s[i]) {
      SkippedIsWhite(s, i + 1);
    }
  }

  lemma CombinatorFits(types: seq<FilterType>, s: string)
    requires CombinatorLength(s) > 0
    ensures KindFits(types, Token(s[..CombinatorLength(s)], Combinator(CombinatorSymbol(s))))
  {
    var k, value := SkipWhite(s, 0), s[..CombinatorLength(s)];
    SkippedIsWhite(s, 0);
    if k < |s| && Symbol(s[k]) {
      SkippedIsWhite(s, k + 1);
      assert SymbolInSpace(value, s[k], k);
    }
  }

  lemma MatchFits(types: seq<FilterType>, s: string, j: nat)
    requires j < |types| && 0 < types[j].match_(s) <= |s|
    ensures KindFits(types, Token(s[..types[j].match_(s)], Filter(types[j].name)))
  {
    var n := types[j].match_(s);
    assert s[..n] + s[n..] == s;
    assert IsMatchOf(types, j, types[j].name, s[..n], s[n..]);
  }

  lemma KindsExtended(types: seq<FilterType>, groups: seq<Group>, t: Token)
    requires AllKindsFit(types, groups) && groups != [] && KindFits(types, t)
    ensures AllKindsFit(types, Extended(groups, t))
  {
  }

  lemma KindsWithNewGroup(types: seq<FilterType>, groups: seq<Group>)
    requires AllKindsFit(types, groups)
    ensures AllKindsFit(types, groups + [[]])
  {
  }

  /** All that has been consumed is in the groups, and with simple types the rest of the run follows from the last
      group and what is left. */
  ghost predicate Consumed(types: seq<FilterType>, selector: string, commas: seq<string>, groups: seq<Group>,
      soFar: string) {
    && |commas| == |groups| && Separated(commas, soFar, SimpleTypes(types))
    && selector == Text(commas, groups) + soFar
    && (SimpleTypes(types) ==> Follows(selector, groups, soFar))
    && AllKindsFit(types, groups)
    && forall k :: 0 <= k < |groups| - 1 ==> groups[k] != []
  }

  ghost predicate Follows(selector: string, groups: seq<Group>, soFar: string) {
    groups != [] ==> Lex(selector) == Pending(groups, soFar)
  }

  /** A token pushed onto the last group. */
  function Extended(groups: seq<Group>, t: Token): seq<Group>
    requires groups != []
  {
    groups[|groups| - 1 := groups[|groups| - 1] + [t]]
  }

  lemma TakeKeeps(types: seq<FilterType>, selector: string, commas: seq<string>, groups: seq<Group>, soFar: string,
      t: Token)
    requires Consumed(types, selector, commas, groups, soFar) && groups != []
    requires |t.value| <= |soFar| && t.value == soFar[..|t.value|]
    requires KindFits(types, t)
    requires SimpleTypes(types) ==> Next(soFar) == Some(t) && (groups[|groups| - 1] != [] ==> CommaLength(soFar) == 0)
    ensures Consumed(types, selector, commas, Extended(groups, t), soFar[|t.value|..])
  {
    var n := |groups| - 1;
    TextExtended(commas, groups, t);
    KindsExtended(types, groups, t);
    assert Text(commas, groups) + soFar == Text(commas, groups) + t.value + soFar[|t.value|..];
    if SimpleTypes(types) {
      PendingAfterTake(groups, soFar, t);
      if IsComma(soFar) {
        TakenFromComma(soFar);
      }
    }
  }

  lemma TextExtended(commas: seq<string>, groups: seq<Group>, t: Token)
    requires |commas| == |groups| > 0
    ensures Text(commas, Extended(groups, t)) == Text(commas, groups) + t.value
  {
    var n := |groups| - 1;
    assert Extended(groups, t)[..n] == groups[..n];
    ToSelectorSnoc(groups[n], t);
    var before := Text(commas[..n], groups[..n]) + commas[n];
    assert before + (ToSelector(groups[n]) + t.value) == before + ToSelector(groups[n]) + t.value;
  }

  lemma FirstGroup(types: seq<FilterType>, selector: string)
    requires selector != []
    ensures Consumed(types, selector, [[]], [[]], selector)
  {
    var groups: seq<Group>, commas: seq<string> := [[]], [[]];
    assert groups[..0] == [] && commas[..0] == [];
  }

  lemma CommaText(commas: seq<string>, groups: seq<Group>, soFar: string, n: nat)
    requires |commas| == |groups| && n <= |soFar|
    ensures Text(commas + [soFar[..n]], groups + [[]]) + soFar[n..] == Text(commas, groups) + soFar
  {
    TextSnoc(commas, groups, soFar[..n], []);
    assert Text(commas, groups) + soFar[..n] + [] + soFar[n..] == Text(commas, groups) + soFar;
  }

  lemma CommaKeeps(types: seq<FilterType>, selector: string, commas: seq<string>, groups: seq<Group>, soFar: string)
    requires Consumed(types, selector, commas, groups, soFar) && groups != [] && groups[|groups| - 1] != []
    requires CommaLength(soFar) > 0
    ensures var n := if CommaLength(soFar) == |soFar| then 0 else CommaLength(soFar);
      Consumed(types, selector, commas + [soFar[..n]], groups + [[]], soFar[n..])
  {
    var n := if CommaLength(soFar) == |soFar| then 0 else CommaLength(soFar);
    CommaText(commas, groups, soFar, n);
    KindsWithNewGroup(types, groups);
    CommaAlone(soFar);
    PendingAfterComma(groups, soFar);
    assert n == 0 ==> soFar[n..] == soFar;
  }

  /** Comma and first run. */
  method Comma(ghost types: seq<FilterType>, selector: string, groups0: seq<Group>, soFar0: string, matched: bool,
      ghost commas0: seq<string>)
    returns (groups: seq<Group>, soFar: string, ghost commas: seq<string>)
    requires soFar0 != [] && Consumed(types, selector, commas0, groups0, soFar0)
    requires if matched then groups0 != [] && groups0[|groups0| - 1] != [] else groups0 == [] && soFar0 == selector
    ensures Consumed(types, selector, commas, groups, soFar) && groups != [] && 0 < |soFar| <= |soFar0|
    ensures groups[|groups| - 1] != [] ==> CommaLength(soFar) == 0
  {
    groups, soFar, commas := groups0, soFar0, commas0;
    var comma := CommaLength(soFar);
    if !matched {
      FirstGroup(types, selector);
      groups, commas := [[]], [[]];
    } else if comma > 0 {
      CommaKeeps(types, selector, commas, groups, soFar);
      var n := if comma == |soFar| then 0 else comma;
      groups, commas, soFar := groups + [[]], commas + [soFar[..n]], soFar[n..];
    }
  }

  method Combinators(ghost types: seq<FilterType>, selector: string, groups0: seq<Group>, soFar0: string,
      ghost commas: seq<string>)
    returns (groups: seq<Group>, soFar: string, matched: bool)
    requires groups0 != [] && soFar0 != [] && Consumed(types, selector, commas, groups0, soFar0)
    requires groups0[|groups0| - 1] != [] ==> CommaLength(soFar0) == 0
    ensures groups != [] && Consumed(types, selector, commas, groups, soFar)
    ensures if matched then groups[|groups| - 1] != [] && |soFar| < |soFar0|
      else groups == groups0 && soFar == soFar0 && CombinatorLength(soFar) == 0
  {
    groups, soFar, matched := groups0, soFar0, false;
    var length := CombinatorLength(soFar);
    if length > 0 {
      matched := true;
      var t := Token(soFar[..length], Combinator(CombinatorSymbol(soFar)));
      CombinatorFits(types, soFar);
      TakeKeeps(types, selector, commas, groups, soFar, t);
      groups, soFar := Extended(groups, t), soFar[length..];
    }
  }

  /** Neither a combinator nor a filter matches, nor a comma unless a group has just begun. */
  ghost predicate Stuck(types: seq<FilterType>, groups: seq<Group>, soFar: string) {
    && groups != [] && (groups[|groups| - 1] != [] ==> CommaLength(soFar) == 0)
    && CombinatorLength(soFar) == 0
    && forall i :: 0 <= i < |types| ==> types[i].match_(soFar) == 0
  }

  /** The main loop: the groups found and what could not be consumed. */
  method Scan(types: seq<FilterType>, selector: string)
    returns (groups: seq<Group>, soFar: string, ghost commas: seq<string>)
    requires Prefixes(types)
    ensures Consumed(types, selector, commas, groups, soFar)
    ensures soFar == [] ==> forall k :: 0 <= k < |groups| ==> groups[k] != []
    ensures soFar != [] ==> Stuck(types, groups, soFar)
    ensures SimpleTypes(types) ==> (groups, soFar) == Lex(selector)
  {
    soFar, groups, commas := selector, [], [];
    ghost var simple := SimpleTypes(types);
    var matched := false;
    while soFar != []
      invariant if matched then groups != [] && groups[|groups| - 1] != [] else groups == [] && soFar == selector
      invariant Consumed(types, selector, commas, groups, soFar)
      decreases |soFar|
    {
      groups, soFar, commas := Comma(types, selector, groups, soFar, matched, commas);
      groups, soFar, matched := Combinators(types, selector, groups, soFar, commas);
      groups, soFar, matched := Filters(types, selector, groups, soFar, matched, commas);
      if !matched {
        assert Stuck(types, groups, soFar);
        if simple {
          NothingMatched(types, groups, soFar);
        }
        break;
      }
    }
    if simple && soFar == [] && groups != [] {
      PendingStuck(groups, soFar);
    }
  }

  lemma FilterTaken(types: seq<FilterType>, j: nat, selector: string, commas: seq<string>, groups: seq<Group>,
      soFar: string)
    requires Consumed(types, selector, commas, groups, soFar) && groups != []
    requires j < |types| && 0 < types[j].match_(soFar) <= |soFar|
    ensures var t := Token(soFar[..types[j].match_(soFar)], Filter(types[j].name));
      Consumed(types, selector, commas, Extended(groups, t), soFar[|t.value|..])
  {
    FiltersExclude(soFar);
    MatchFits(types, soFar, j);
    var t := Token(soFar[..types[j].match_(soFar)], Filter(types[j].name));
    TakeKeeps(types, selector, commas, groups, soFar, t);
  }

  /** When nothing has matched, the run is over. */
  lemma NothingMatched(types: seq<FilterType>, groups: seq<Group>, soFar: string)
    requires SimpleTypes(types) && Stuck(types, groups, soFar)
    ensures Pending(groups, soFar) == (groups, soFar)
  {
    PendingStuck(groups, soFar);
  }

  /** Try each type once. */
  method Filters(types: seq<FilterType>, selector: string, groups0: seq<Group>, soFar0: string, matched0: bool,
      ghost commas: seq<string>)
    returns (groups: seq<Group>, soFar: string, matched: bool)
    requires Prefixes(types) && groups0 != [] && Consumed(types, selector, commas, groups0, soFar0)
    requires matched0 ==> groups0[|groups0| - 1] != []
    ensures Consumed(types, selector, commas, groups, soFar)
    ensures Tried(types, |types|, groups0, soFar0, matched0, groups, soFar, matched)
  {
    groups, soFar, matched := groups0, soFar0, matched0;
    var j := 0;
    while j < |types|
      invariant 0 <= j <= |types| && groups != []
      invariant Consumed(types, selector, commas, groups, soFar)
      invariant Tried(types, j, groups0, soFar0, matched0, groups, soFar, matched)
    {
      ghost var before := (groups, soFar, matched);
      var took;
      groups, soFar, took := TryType(types, j, selector, groups, soFar, commas);
      matched := matched || took;
      TriedNext(types, j, groups0, soFar0, matched0, before.0, before.1, before.2, groups, soFar, took);
      j := j + 1;
    }
  }

  /** After trying the first j types: nothing has changed as long as none of them has matched. */
  ghost predicate Tried(types: seq<FilterType>, j: nat, groups0: seq<Group>, soFar0: string, matched0: bool,
      groups: seq<Group>, soFar: string, matched: bool)
    requires j <= |types|
  {
    && groups != [] && |soFar| <= |soFar0|
    && (matched ==> groups[|groups| - 1] != [] && (!matched0 ==> |soFar| < |soFar0|))
    && (matched0 ==> matched)
    && (!matched ==> groups == groups0 && soFar == soFar0 && forall i :: 0 <= i < j ==> types[i].match_(soFar) == 0)
  }

  lemma TriedNext(types: seq<FilterType>, j: nat, groups0: seq<Group>, soFar0: string, matched0: bool,
      groups1: seq<Group>, soFar1: string, matched1: bool, groups: seq<Group>, soFar: string, took: bool)
    requires j < |types| && Tried(types, j, groups0, soFar0, matched0, groups1, soFar1, matched1)
    requires took ==> groups != [] && groups[|groups| - 1] != [] && |soFar| < |soFar1|
    requires !took ==> groups == groups1 && soFar == soFar1 && types[j].match_(soFar) == 0
    ensures Tried(types, j + 1, groups0, soFar0, matched0, groups, soFar, matched1 || took)
  {
  }

  method TryType(types: seq<FilterType>, j: nat, selector: string, groups0: seq<Group>, soFar0: string,
      ghost commas: seq<string>)
    returns (groups: seq<Group>, soFar: string, took: bool)
    requires Prefixes(types) && j < |types|
    requires groups0 != [] && Consumed(types, selector, commas, groups0, soFar0)
    ensures groups != [] && Consumed(types, selector, commas, groups, soFar)
    ensures if took then groups[|groups| - 1] != [] && |soFar| < |soFar0|
      else groups == groups0 && soFar == soFar0 && types[j].match_(soFar) == 0
  {
    groups, soFar, took := groups0, soFar0, false;
    var n := types[j].match_(soFar);
    if n > 0 {
      var t := Token(soFar[..n], Filter(types[j].name));
      FilterTaken(types, j, selector, commas, groups, soFar);
      groups, soFar, took := Extended(groups, t), soFar[n..], true;
    }
  }

  /** What tokenize gives back; it throws an error if something is left that it cannot consume. */
  datatype Result = Excess(length: nat) | Groups(groups: seq<Group>) | Failure(selector: string)

  /** From index i on an identifier, to the end. */
  predicate Identifier(s: string, i: nat) {
    |s| > i && forall k :: i <= k < |s| ==> IdentifierChar(s[k])
  }

  /** Tags, classes and ids are told by their first character. */
  predicate SimpleValue(t: Token) {
    && (t.kind.Filter? ==> t.kind.name == "TAG" || t.kind.name == "CLASS" || t.kind.name == "ID")
    && (t.kind == Filter("TAG") ==> t.value == "*" || Identifier(t.value, 0))
    && (t.kind == Filter("CLASS") ==> Identifier(t.value, 1) && t.value[0] == '.')
    && (t.kind == Filter("ID") ==> Identifier(t.value, 1) && t.value[0] == '#')
  }

  predicate AllSimple(groups: seq<Group>) {
    forall k, i :: 0 <= k < |groups| && 0 <= i < |groups[k]| ==> SimpleValue(groups[k][i])
  }

  lemma {:induction false} IdentifierCharsUpTo(s: string, i: nat)
    requires i <= |s|
    ensures forall k :: i <= k < IdentifierEnd(s, i) ==> IdentifierChar(s[k])
    decreases |s| - i
  {
    if i < |s| && IdentifierChar(s[i]) {
      IdentifierCharsUpTo(s, i + 1);
    }
  }

  /** A token of a simple type has the text of that type. */
  lemma FitsSimply(types: seq<FilterType>, t: Token)
    requires SimpleTypes(types) && KindFits(types, t)
    ensures SimpleValue(t)
  {
    if t.kind.Filter? {
      var j: nat, behind :| IsMatchOf(types, j, t.kind.name, t.value, behind);
      var s := t.value + behind;
      IdentifierCharsUpTo(s, 0);
      if |s| > 0 {
        IdentifierCharsUpTo(s, 1);
      }
      assert s[..|t.value|] == t.value;
    }
  }

  method Tokenize(types: seq<FilterType>, selector: string, parseOnly: bool)
    returns (result: Result, ghost groups: seq<Group>, ghost commas: seq<string>, ghost rest: string)
    requires Prefixes(types)
    ensures result == if parseOnly then Excess(|rest|) else if rest != [] then Failure(selector) else Groups(groups)
    ensures Consumed(types, selector, commas, groups, rest)
    ensures rest == [] ==> selector == Text(commas, groups) && forall k :: 0 <= k < |groups| ==> groups[k] != []
    ensures rest != [] ==> Stuck(types, groups, rest)
    ensures result.Groups? ==> AllKindsFit(types, result.groups)
    ensures SimpleTypes(types) && result.Groups? ==> AllSimple(result.groups)
    ensures SimpleTypes(types) ==> (groups, rest) == Lex(selector)
    ensures SimpleTypes(types) ==> var (gs, r) := Lex(selector);
      result == if parseOnly then Excess(|r|) else if r != [] then Failure(selector) else Groups(gs)
  {
    var found, soFar;
    found, soFar, commas := Scan(types, selector);
    groups, rest := found, soFar;
    result := if parseOnly then Excess(|soFar|) else if soFar != [] then Failure(selector) else Groups(found);
    if SimpleTypes(types) {
      forall k, i | 0 <= k < |found| && 0 <= i < |found[k]| ensures SimpleValue(found[k][i]) {
        FitsSimply(types, found[k][i]);
      }
    }
  }

  // ----- groups can be tokenized again

  /** A string that may stand where y stands: the next character, if any, is the same. */
  predicate Fits(x: string, y: string) {
    x == [] || (y != [] && x[0] == y[0])
  }

  lemma {:induction false} SkipFits(v: string, x: string, y: string, i: nat)
    requires i <= |v| && Fits(x, y) && SkipWhite(v + y, i) <= |v|
    ensures SkipWhite(v + x, i) == SkipWhite(v + y, i)
    decreases |v| - i
  {
    if i < |v| && White(v[i]) {
      SkipFits(v, x, y, i + 1);
    }
  }

  lemma {:induction false} IdentifierFits(v: string, x: string, y: string, i: nat)
    requires i <= |v| && Fits(x, y) && IdentifierEnd(v + y, i) <= |v|
    ensures IdentifierEnd(v + x, i) == IdentifierEnd(v + y, i)
    decreases |v| - i
  {
    if i < |v| && IdentifierChar(v[i]) {
      IdentifierFits(v, x, y, i + 1);
    }
  }

  /** The same token is next whatever follows that fits. */
  lemma NextFits(t: Token, x: string, y: string)
    requires Next(t.value + y) == Some(t) && Fits(x, y)
    ensures Next(t.value + x) == Some(t)
    ensures CommaLength(t.value + y) == 0 ==> CommaLength(t.value + x) == 0
  {
    var v := t.value;
    assert (v + y)[..|v|] == v && (v + x)[..|v|] == v;
    if CombinatorLength(v + y) > 0 {
      var k := SkipWhite(v + y, 0);
      SkipFits(v, x, y, 0);
      if k < |v + y| && Symbol((v + y)[k]) {
        SkipFits(v, x, y, k + 1);
      }
    } else if TagLength(v + y) > 0 {
      FilterFits(v, x, y);
    } else {
      FilterFits(v, x, y);
    }
  }

  lemma FilterFits(v: string, x: string, y: string)
    requires v != [] && Fits(x, y) && CombinatorLength(v + y) == 0
    requires TagLength(v + y) == |v| || PrefixedLength(v + y, '.') == |v| || PrefixedLength(v + y, '#') == |v|
    ensures TagLength(v + y) == |v| ==> TagLength(v + x) == |v|
    ensures PrefixedLength(v + y, '.') == |v| ==> PrefixedLength(v + x, '.') == |v|
    ensures PrefixedLength(v + y, '#') == |v| ==> PrefixedLength(v + x, '#') == |v|
    ensures CombinatorLength(v + x) == 0 && CommaLength(v + x) == 0
  {
    if IdentifierEnd(v + y, 0) > 0 {
      IdentifierFits(v, x, y, 0);
    } else if v[0] != '*' {
      IdentifierFits(v, x, y, 1);
    }
  }

  lemma {:induction false} ToSelectorCons(t: Token, g: Group)
    ensures ToSelector([t] + g) == t.value + ToSelector(g)
    decreases |g|
  {
    if g == [] {
      ToSelectorSnoc([], t);
      assert [] + [t] == [t] + g;
    } else {
      var n := |g| - 1;
      ToSelectorCons(t, g[..n]);
      ToSelectorSnoc([t] + g[..n], g[n]);
      assert [t] + g[..n] + [g[n]] == [t] + g;
      Prepend(t.value, ToSelector(g[..n]), g[n].value);
    }
  }

  /** The tokens of a group are those of its own text. */
  lemma {:induction false} RestAlone(s: string)
    ensures var (g, r) := LexRest(s); s == ToSelector(g) + r && LexRest(ToSelector(g)) == (g, [])
    decreases |s|
  {
    if s == [] || CommaLength(s) > 0 || Next(s).None? {
    } else {
      var t := Next(s).value;
      var s' := s[|t.value|..];
      assert s == t.value + s';
      var (g, r) := LexRest(s');
      RestAlone(s');
      TokenAlone(t, g, s', r);
    }
  }

  lemma GroupAlone(t: Token, g: Group)
    requires var text := ToSelector([t] + g);
      Next(text) == Some(t) && text[|t.value|..] == ToSelector(g) && LexRest(ToSelector(g)) == (g, [])
    ensures Alone([t] + g)
  {
    var done: seq<Group> := [];
    assert done + [[t] + g] == [[t] + g];
    assert LexMore([[t] + g], []) == ([[t] + g], []);
  }

  lemma Prepend(v: string, x: string, r: string)
    ensures v + (x + r) == v + x + r && (v + x)[|v|..] == x
  {
  }

  lemma TokenAlone(t: Token, g: Group, s: string, r: string)
    requires Next(t.value + s) == Some(t) && s == ToSelector(g) + r && LexRest(ToSelector(g)) == (g, [])
    ensures t.value + s == ToSelector([t] + g) + r
    ensures Next(ToSelector([t] + g)) == Some(t) && ToSelector([t] + g)[|t.value|..] == ToSelector(g)
    ensures CommaLength(t.value + s) == 0 ==> LexRest(ToSelector([t] + g)) == ([t] + g, [])
  {
    ToSelectorCons(t, g);
    Prepend(t.value, ToSelector(g), r);
    assert Fits(ToSelector(g), s);
    NextFits(t, ToSelector(g), s);
  }

  predicate Alone(g: Group) {
    g == [] || Lex(ToSelector(g)) == ([g], [])
  }

  /** Lexing adds to the groups that are done; the new ones lex alone, and none is empty if nothing is left. */
  ghost predicate AllAlone(done: seq<Group>, lexed: (seq<Group>, string)) {
    && done <= lexed.0
    && forall k :: |done| <= k < |lexed.0| ==> Alone(lexed.0[k]) && (lexed.1 == [] ==> lexed.0[k] != [])
  }

  lemma FirstAlone(s: string, t: Token, g: Group, r: string)
    requires Next(s) == Some(t) && LexRest(s[|t.value|..]) == (g, r)
    ensures Alone([t] + g)
  {
    var s' := s[|t.value|..];
    assert s == t.value + s';
    RestAlone(s');
    TokenAlone(t, g, s', r);
    GroupAlone(t, g);
  }

  lemma {:induction false} StartAlone(done: seq<Group>, s: string)
    requires s != []
    ensures AllAlone(done, LexStart(done, s))
    decreases |s|, 0
  {
    if Next(s).Some? {
      var t := Next(s).value;
      var (g, r) := LexRest(s[|t.value|..]);
      FirstAlone(s, t, g, r);
      MoreAlone(done + [[t] + g], r);
    }
  }

  lemma {:induction false} MoreAlone(done: seq<Group>, s: string)
    ensures AllAlone(done, LexMore(done, s))
    decreases |s|, 1
  {
    if CommaLength(s) > 0 {
      StartAlone(done, if CommaLength(s) == |s| then s else s[CommaLength(s)..]);
    }
  }

  /** Tokenizing the text of any group that tokenize found gives just that group back. */
  lemma RoundTrip(selector: string, k: nat)
    requires Lex(selector).1 == [] && k < |Lex(selector).0|
    ensures Lex(ToSelector(Lex(selector).0[k])) == ([Lex(selector).0[k]], [])
  {
    StartAlone([], selector);
  }

  method TokenizeAgain(types: seq<FilterType>, selector: string, k: nat) returns (first: Result, again: Result)
    requires Prefixes(types) && SimpleTypes(types)
    ensures first.Groups? && k < |first.groups| ==> again == Groups([first.groups[k]])
    ensures first.Groups? || first == Failure(selector)
  {
    ghost var groups, commas, rest;
    first, groups, commas, rest := Tokenize(types, selector, false);
    again := first;
    if first.Groups? && k < |first.groups| {
      RoundTrip(selector, k);
      var text := ToSelectorLoop(first.groups[k]);
      again, groups, commas, rest := Tokenize(types, text, false);
    }
  }

  // ----- whitespace at the start of a group

  /** What is done does not influence the rest. */
  lemma {:induction false} StartAppends(done: seq<Group>, more: seq<Group>, s: string)
    ensures LexStart(done + more, s) == (done + LexStart(more, s).0, LexStart(more, s).1)
    decreases |s|, 0
  {
    if Next(s).None? {
      assert done + more + [[]] == done + (more + [[]]);
    } else {
      var t := Next(s).value;
      var (g, r) := LexRest(s[|t.value|..]);
      assert done + more + [[t] + g] == done + (more + [[t] + g]);
      MoreAppends(done, more + [[t] + g], r);
    }
  }

  lemma {:induction false} MoreAppends(done: seq<Group>, more: seq<Group>, s: string)
    ensures LexMore(done + more, s) == (done + LexMore(more, s).0, LexMore(more, s).1)
    decreases |s|, 1
  {
    if CommaLength(s) > 0 {
      StartAppends(done, more, if CommaLength(s) == |s| then s else s[CommaLength(s)..]);
    }
  }

  /** A comma that ends the selector is never consumed. */
  lemma {:induction false} TrailingCommaIsLeft(done: seq<Group>, s: string)
    requires IsComma(s)
    ensures LexStart(done, s).1 != []
    decreases |s|
  {
    if Next(s).Some? {
      var t := Next(s).value;
      var s' := s[|t.value|..];
      TakenFromComma(s);
      assert LexRest(s') == ([], s') && [t] + [] == [t];
      TrailingCommaIsLeft(done + [[t]], s');
    }
  }

  /** A selector that begins with a comma, whitespace before it or not. The first turn looks for no comma. Without
      whitespace the selector is rejected on the spot; with it, the whitespace becomes a group of its own and what
      stands behind the comma is read as if it stood alone. */
  lemma CommaFirst(s: string)
    requires CommaLength(s) > 0
    ensures !White(s[0]) ==> Lex(s) == ([[]], s)
    ensures White(s[0]) && IsComma(s) ==> Lex(s).1 != []
    ensures White(s[0]) && !IsComma(s) ==>
      var k, (groups, rest) := SkipWhite(s, 0), Lex(s[CommaLength(s)..]);
      Lex(s) == ([[Token(s[..k], Combinator(' '))]] + groups, rest)
  {
    if !White(s[0]) {
      var none: seq<Group> := [];
      assert none + [[]] == [[]];
    } else if IsComma(s) {
      TrailingCommaIsLeft([], s);
    } else {
      SpaceThenRest(s);
    }
  }

  lemma SpaceThenRest(s: string)
    requires CommaLength(s) > 0 && White(s[0]) && !IsComma(s)
    ensures var k, (groups, rest) := SkipWhite(s, 0), Lex(s[CommaLength(s)..]);
      Lex(s) == ([[Token(s[..k], Combinator(' '))]] + groups, rest)
  {
    var k := SkipWhite(s, 0);
    var t := Token(s[..k], Combinator(' '));
    CommaBehindSpace(s);
    TokenThenComma(s, t);
  }

  /** A token, a comma, and what stands behind that. */
  lemma TokenThenComma(s: string, t: Token)
    requires Next(s) == Some(t) && LexRest(s[|t.value|..]) == ([], s[|t.value|..])
    requires CommaLength(s[|t.value|..]) > 0 && !IsComma(s[|t.value|..])
    ensures var s' := s[|t.value|..];
      Lex(s) == ([[t]] + Lex(s'[CommaLength(s')..]).0, Lex(s'[CommaLength(s')..]).1)
  {
    var s', none: seq<Group> := s[|t.value|..], [];
    var behind := s'[CommaLength(s')..];
    assert [t] + [] == [t] && none + [[t]] == [[t]] && [[t]] + none == [[t]];
    assert LexStart(none, s) == LexMore([[t]], s');
    assert LexMore([[t]], s') == LexStart([[t]], behind);
    StartAppends([[t]], none, behind);
  }

  /** The whitespace is taken, and the comma stays for the next turn. */
  lemma CommaBehindSpace(s: string)
    requires CommaLength(s) > 0 && White(s[0])
    ensures var k := SkipWhite(s, 0);
      && k < CommaLength(s) && Next(s) == Some(Token(s[..k], Combinator(' ')))
      && CommaLength(s[k..]) == CommaLength(s) - k && LexRest(s[k..]) == ([], s[k..])
      && s[k..][CommaLength(s) - k..] == s[CommaLength(s)..]
  {
    var k := SkipWhite(s, 0);
    SkipInSuffix(s, k, k);
    SkipInSuffix(s, k, k + 1);
  }

  /** Such a selector is accepted exactly if whitespace stands before the comma and what stands behind is accepted. */
  lemma CommaFirstAccepted(s: string)
    requires CommaLength(s) > 0
    ensures Lex(s).1 == [] <==> White(s[0]) && !IsComma(s) && Lex(s[CommaLength(s)..]).1 == []
  {
    CommaFirst(s);
  }

  /** Nothing but whitespace, read as a descendant combinator. */
  predicate OnlySpace(g: Group) {
    |g| == 1 && g[0].kind == Combinator(' ')
  }

  ghost predicate NoneOnlySpace(done: seq<Group>, lexed: (seq<Group>, string)) {
    && done <= lexed.0
    && (lexed.1 == [] ==> forall k :: |done| <= k < |lexed.0| ==> !OnlySpace(lexed.0[k]))
  }

  lemma {:induction false} StartWithoutSpace(done: seq<Group>, s: string)
    requires s != [] && !White(s[0])
    ensures NoneOnlySpace(done, LexStart(done, s))
    decreases |s|, 0
  {
    if Next(s).Some? {
      var t := Next(s).value;
      var (g, r) := LexRest(s[|t.value|..]);
      MoreWithoutSpace(done + [[t] + g], r);
    }
  }

  lemma {:induction false} MoreWithoutSpace(done: seq<Group>, s: string)
    ensures NoneOnlySpace(done, LexMore(done, s))
    decreases |s|, 1
  {
    if IsComma(s) {
      StartAlone(done, s);
      TrailingCommaIsLeft(done, s);
    } else if CommaLength(s) > 0 {
      StartWithoutSpace(done, s[CommaLength(s)..]);
    }
  }

  /** Exactly which accepted selectors have a group that is nothing but whitespace: those that begin with whitespace
      which a comma or the end follows. In particular, none that has been trimmed. */
  lemma SpaceGroupIfLeading(s: string)
    requires Lex(s).1 == []
    ensures (exists k :: 0 <= k < |Lex(s).0| && OnlySpace(Lex(s).0[k])) <==>
      s != [] && White(s[0]) && (SkipWhite(s, 0) == |s| || CommaLength(s) > 0)
  {
    if s != [] && !White(s[0]) {
      StartWithoutSpace([], s);
    } else if s != [] {
      var k := SkipWhite(s, 0);
      var t := Next(s).value;
      var s' := s[|t.value|..];
      var (g, r) := LexRest(s');
      var none: seq<Group> := [];
      assert none + [[t] + g] == [[t] + g];
      MoreWithoutSpace([[t] + g], r);
      assert Lex(s).0[0] == [t] + g;
      SkipInSuffix(s, k, k);
    }
  }

  lemma LexLetter()
    ensures Lex("a") == ([[Token("a", Filter("TAG"))]], [])
  {
    var t, none: seq<Group> := Token("a", Filter("TAG")), [];
    assert IdentifierEnd("a", 0) == 1 && "a"[..1] == "a" && "a"[1..] == "";
    assert Next("a") == Some(t);
    assert LexRest("") == ([], "") && [t] + [] == [t] && none + [[t]] == [[t]];
    assert LexMore([[t]], "") == ([[t]], "");
  }

  /** The shortest example. */
  lemma SpaceBeforeComma()
    ensures Lex(" ,a") == ([[Token(" ", Combinator(' '))], [Token("a", Filter("TAG"))]], [])
  {
    var s, space, letter := " ,a", [Token(" ", Combinator(' '))], [Token("a", Filter("TAG"))];
    assert SkipWhite(s, 0) == 1 && SkipWhite(s, 2) == 2 && CommaLength(s) == 2 && s[..1] == " " && s[2..] == "a";
    CommaFirst(s);
    LexLetter();
    assert Lex(s) == ([space] + [letter], []);
    assert [space] + [letter] == [space, letter];
  }

  // ----- plain selectors

  predicate NameChar(c: char) {
    'a' <= c <= 'z' || 'A' <= c <= 'Z' || '0' <= c <= '9' || c == '_' || c == '-'
  }

  /** A name of ASCII letters, digits, underscores and hyphens. */
  predicate Name(w: string) {
    w != [] && forall k :: 0 <= k < |w| ==> NameChar(w[k])
  }

  lemma {:induction false} NameEnds(s: string, i: nat, n: nat)
    requires i <= n <= |s| && forall k :: i <= k < n ==> NameChar(s[k])
    requires n < |s| ==> !IdentifierChar(s[n])
    ensures IdentifierEnd(s, i) == n
    decreases n - i
  {
    if i < n {
      assert NameChar(s[i]);
      NameEnds(s, i + 1, n);
    }
  }

  /** A name in front is the next token, a tag. */
  lemma NextIsTag(w: string, behind: string)
    requires Name(w) && (behind != [] ==> !IdentifierChar(behind[0]))
    ensures Next(w + behind) == Some(Token(w, Filter("TAG"))) && CommaLength(w + behind) == 0
    ensures (w + behind)[|w|..] == behind
  {
    var s := w + behind;
    assert NameChar(s[0]) && s[..|w|] == w;
    NameEnds(s, 0, |w|);
  }

  lemma NextIsPrefixed(c: char, w: string)
    requires Name(w) && (c == '.' || c == '#')
    ensures Next([c] + w) == Some(Token([c] + w, Filter(if c == '.' then "CLASS" else "ID")))
  {
    var s := [c] + w;
    NameEnds(s, 1, |s|);
    assert s[..|s|] == s && s[0] == c && IdentifierEnd(s, 0) == 0;
  }

  /** One character, and no whitespace or comma behind it. */
  lemma NextIsCombinator(c: char, behind: string)
    requires Symbol(c) || White(c)
    requires behind != [] && !White(behind[0]) && !Symbol(behind[0]) && behind[0] != ','
    ensures Next([c] + behind) == Some(Token([c], Combinator(if Symbol(c) then c else ' ')))
    ensures CommaLength([c] + behind) == 0
    ensures ([c] + behind)[1..] == behind
  {
    var s := [c] + behind;
    assert s[..1] == [c] && SkipWhite(s, 1) == 1;
    assert SkipWhite(s, 0) == if Symbol(c) then 0 else 1;
  }

  lemma LexGroup(s: string, t: Token, g: Group)
    requires Next(s) == Some(t) && s != [] && LexRest(s[|t.value|..]) == (g, [])
    ensures Lex(s) == ([[t] + g], [])
  {
    var none: seq<Group> := [];
    assert none + [[t] + g] == [[t] + g];
    assert LexMore([[t] + g], []) == ([[t] + g], []);
  }

  lemma LexOne(s: string, t: Token)
    requires Next(s) == Some(t) && t.value == s != []
    ensures Lex(s) == ([[t]], [])
  {
    assert s[|s|..] == [] && LexRest([]) == ([], []) && [t] + [] == [t];
    LexGroup(s, t, []);
  }

  /** A name is a tag, and so is `*`; a name after a dot is a class, a name after a hash an id. */
  lemma NamesAreTokens(w: string)
    requires Name(w)
    ensures Lex(w) == ([[Token(w, Filter("TAG"))]], []) && Lex("*") == ([[Token("*", Filter("TAG"))]], [])
    ensures Lex(['.'] + w) == ([[Token(['.'] + w, Filter("CLASS"))]], [])
    ensures Lex(['#'] + w) == ([[Token(['#'] + w, Filter("ID"))]], [])
  {
    NextIsTag(w, []);
    assert w + [] == w;
    LexOne(w, Token(w, Filter("TAG")));
    assert Next("*") == Some(Token("*", Filter("TAG"))) by {
      assert "*"[..1] == "*" && IdentifierEnd("*", 0) == 0 && SkipWhite("*", 0) == 0;
    }
    LexOne("*", Token("*", Filter("TAG")));
    NextIsPrefixed('.', w);
    LexOne(['.'] + w, Token(['.'] + w, Filter("CLASS")));
    NextIsPrefixed('#', w);
    LexOne(['#'] + w, Token(['#'] + w, Filter("ID")));
  }

  lemma RestCons(s: string, t: Token, g: Group)
    requires s != [] && Next(s) == Some(t) && CommaLength(s) == 0 && LexRest(s[|t.value|..]) == (g, [])
    ensures LexRest(s) == ([t] + g, [])
  {
  }

  /** Two tags with a combinator's symbol between them, or one of the whitespace characters, which all mean ' '. */
  lemma CombinationsAreRead(w: string, c: char, v: string, symbol: char)
    requires Name(w) && Name(v)
    requires if c == ' ' || c == '\t' || c == '\n' || c == '\r' || c == '\U{C}' then symbol == ' '
      else (c == '>' || c == '+' || c == '~') && symbol == c
    ensures Lex(w + ([c] + v))
      == ([[Token(w, Filter("TAG")), Token([c], Combinator(symbol)), Token(v, Filter("TAG"))]], [])
  {
    var a, b, d := Token(w, Filter("TAG")), Token([c], Combinator(symbol)), Token(v, Filter("TAG"));
    NextIsTag(v, []);
    assert v + [] == v && v[|v|..] == [] && LexRest([]) == ([], []);
    RestCons(v, d, []);
    assert NameChar(v[0]);
    NextIsCombinator(c, v);
    RestCons([c] + v, b, [d] + []);
    NextIsTag(w, [c] + v);
    LexGroup(w + ([c] + v), a, [b] + ([d] + []));
    assert [a] + ([b] + ([d] + [])) == [a, b, d];
  }

  /** Two tags with a comma between them are two groups. */
  lemma CommaIsRead(w: string, v: string)
    requires Name(w) && Name(v)
    ensures Lex(w + ([','] + v)) == ([[Token(w, Filter("TAG"))], [Token(v, Filter("TAG"))]], [])
  {
    var a, d, behind := Token(w, Filter("TAG")), Token(v, Filter("TAG")), [','] + v;
    assert NameChar(v[0]);
    NextIsTag(w, behind);
    NamesAreTokens(v);
    assert SkipWhite(behind, 0) == 0 && CommaLength(behind) == 1 && behind[1..] == v;
    TokenThenComma(w + behind, a);
    assert [[a]] + [[d]] == [[a], [d]];
  }
}
