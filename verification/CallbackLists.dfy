/** One jQuery.Callbacks list: its closure variables, the history of what it has called, and what every step of
    add, remove, fireWith, lock, disable and the firing loop keeps. */
module CallbackLists {
  import opened Optional

  datatype State = Pending | Resolved | Rejected

  /** A function in a list: a user's callback, or one of those that jQuery.Deferred puts first. */
  datatype Entry =
    | User(id: nat)
    | SetState(to: State)
    | Disable(target: nat)
    | Lock(target: nat)
    | FireList(target: nat)

  type Args = nat  // a [ context, arguments ] pair

  datatype Options = Options(once: bool, memory: bool, unique: bool)

  /** A call of an entry. */
  datatype Made = Made(entry: Entry, args: Args)

  /** The variables of the closure, and the calls made so far; alive is false when list is the empty string. */
  datatype Callbacks = Callbacks(
    options: Options, list: seq<Entry>, alive: bool, queue: seq<Args>, firingIndex: int,
    memory: Option<Args>, locked: bool, firing: bool, made: seq<Made>)

  /** One pass over the list. Occurrences are numbered as they are added: due are those the pass has to call,
      in list order, skipped those of them removed before their turn; ran are the entries that called numbers. */
  datatype Pass = Pass(args: Args, due: seq<nat>, called: seq<nat>, ran: seq<Entry>, skipped: set<nat>)

  /** names lists all entries ever added, by number; past and ahead number the entries now in the list, up to
      firingIndex and after it; next is the number of the next entry; pushed is every item put on the queue and not
      dropped from it. */
  datatype History = History(
    names: seq<Entry>, past: seq<nat>, ahead: seq<nat>, next: nat, removed: set<nat>, pushed: seq<Args>,
    passes: seq<Pass>)

  // ----- lists of occurrences

  ghost predicate Ascending(s: seq<nat>) {
    forall i, j :: 0 <= i < j < |s| ==> s[i] < s[j]
  }

  ghost predicate Bounded(s: seq<nat>, bound: nat) {
    forall i :: 0 <= i < |s| ==> s[i] < bound
  }

  ghost predicate Before(s: seq<nat>, t: seq<nat>) {
    forall a, b :: a in s && b in t ==> a < b
  }

  /** The numbers of the entries, in list order. */
  ghost predicate Numbering(h: History) {
    && Ascending(h.past) && Ascending(h.ahead) && Before(h.past, h.ahead)
    && Bounded(h.past, h.next) && Bounded(h.ahead, h.next)
  }

  /** These numbers are those of the entries from index i of the list on. */
  ghost predicate Label(names: seq<Entry>, numbers: seq<nat>, list: seq<Entry>, i: nat) {
    && i + |numbers| <= |list|
    && forall k :: 0 <= k < |numbers| ==> numbers[k] < |names| && names[numbers[k]] == list[i + k]
  }

  ghost predicate Labelled(c: Callbacks, h: History) {
    && |h.names| == h.next && |h.past| == c.firingIndex + 1 && |h.past| + |h.ahead| == |c.list|
    && Label(h.names, h.past, c.list, 0) && Label(h.names, h.ahead, c.list, |h.past|)
  }

  /** The calls made in some passes. */
  ghost function Calls(passes: seq<Pass>): seq<Made> {
    if passes == [] then []
    else
      var n := |passes| - 1;
      Calls(passes[..n]) + CallsIn(passes[n])
  }

  ghost function CallsIn(p: Pass): seq<Made> {
    seq(|p.ran|, i requires 0 <= i < |p.ran| => Made(p.ran[i], p.args))
  }

  lemma CallsSnoc(passes: seq<Pass>, p: Pass)
    ensures Calls(passes + [p]) == Calls(passes) + CallsIn(p)
  {
    assert (passes + [p])[..|passes|] == passes;
  }

  /** The last pass recording one call more. */
  lemma CallsOneMore(passes: seq<Pass>, p: Pass, e: Entry)
    requires passes != [] && p.args == passes[|passes| - 1].args && p.ran == passes[|passes| - 1].ran + [e]
    ensures Calls(passes[|passes| - 1 := p]) == Calls(passes) + [Made(e, p.args)]
  {
    var n := |passes| - 1;
    assert passes[n := p] == passes[..n] + [p] && passes == passes[..n] + [passes[n]];
    CallsSnoc(passes[..n], p);
    CallsSnoc(passes[..n], passes[n]);
    assert CallsIn(p) == CallsIn(passes[n]) + [Made(e, p.args)];
    var before, these := Calls(passes[..n]), CallsIn(passes[n]);
    assert before + (these + [Made(e, p.args)]) == before + these + [Made(e, p.args)];
  }

  /** The last pass rewritten, what it ran staying the same. */
  lemma CallsSame(passes: seq<Pass>, p: Pass)
    requires passes != [] && p.args == passes[|passes| - 1].args && p.ran == passes[|passes| - 1].ran
    ensures Calls(passes[|passes| - 1 := p]) == Calls(passes)
  {
    var n := |passes| - 1;
    assert passes[n := p] == passes[..n] + [p] && passes == passes[..n] + [passes[n]];
    CallsSnoc(passes[..n], p);
    CallsSnoc(passes[..n], passes[n]);
    assert CallsIn(p) == CallsIn(passes[n]);
  }

  // ----- the invariant

  /** Holds at any time, the first fin passes being finished. */
  ghost predicate Core(c: Callbacks, h: History, fin: nat) {
    && Labelled(c, h) && Numbering(h) && c.made == Calls(h.passes)
    && (forall o :: o in h.removed ==> o < h.next)
    && (!c.alive ==> c.list == [] && c.locked)
    && Waiting(c.queue, h)
    && fin <= |h.passes|
    && (forall k {:trigger PassInv(h.passes[k], h, h.pushed[k])} ::
      0 <= k < |h.passes| ==> PassInv(h.passes[k], h, h.pushed[k]))
    && (forall k {:trigger Complete(h.passes[k])} :: 0 <= k < fin ==> Complete(h.passes[k]))
    && (c.options.once && h.passes != [] ==> c.locked)
  }

  /** What is queued are the pushed items that no pass has taken yet, in order. */
  ghost predicate Waiting(queue: seq<Args>, h: History) {
    |h.passes| + |queue| == |h.pushed| && forall k :: 0 <= k < |queue| ==> queue[k] == h.pushed[|h.passes| + k]
  }

  ghost predicate Once(c: Callbacks, h: History) {
    c.options.once && c.options.memory ==> OnceMemory(c, h)
  }

  /** What ran are the entries with the numbers called. */
  ghost predicate Ran(p: Pass, names: seq<Entry>) {
    |p.ran| == |p.called| && forall i :: 0 <= i < |p.ran| ==> p.called[i] < |names| && p.ran[i] == names[p.called[i]]
  }

  /** A pass hands out the arguments queued for it; its occurrences are distinct and in the order of adding. */
  ghost predicate PassInv(p: Pass, h: History, args: Args) {
    && p.args == args && Ascending(p.due) && Bounded(p.due, h.next) && Ran(p, h.names)
    && forall o :: o in p.skipped ==> o in h.removed
  }

  /** What the pass has called, and then what is ahead of it, is what it is due to call, in order and without those
      removed before their turn. */
  ghost predicate OnTrack(p: Pass, ahead: seq<nat>) {
    && Ascending(p.called) && Before(p.called, ahead)
    && forall o {:trigger Accounted(p, ahead, o)} :: Accounted(p, ahead, o)
  }

  ghost predicate Accounted(p: Pass, ahead: seq<nat>, o: nat) {
    o in p.called || o in ahead <==> o in p.due && o !in p.skipped
  }

  /** Every due entry still present at its turn was called, once, in list order. */
  ghost predicate Complete(p: Pass) {
    OnTrack(p, [])
  }

  /** For a "once memory" list: one set of arguments for good, and every occurrence is due in one pass. */
  ghost predicate OnceMemory(c: Callbacks, h: History) {
    && (forall k :: 0 <= k < |h.passes| ==> h.passes[k].args == h.passes[0].args)
    && (forall j, k {:trigger Before(h.passes[j].due, h.passes[k].due)} ::
      0 <= j < k < |h.passes| ==> Before(h.passes[j].due, h.passes[k].due))
    && (forall j {:trigger Before(h.passes[j].due, h.ahead)} ::
      0 <= j < |h.passes| && !c.firing ==> Before(h.passes[j].due, h.ahead))
    && (c.alive || h.passes != [] ==> forall o: nat {:trigger Covered(c, h, o)} :: o < h.next ==> Covered(c, h, o))
    && (!c.firing ==> h.past == [])
    && (h.passes == [] ==> c.memory == None)
    && (h.passes != [] && c.alive ==> c.memory == Some(h.passes[0].args))
    && (h.passes != [] ==> forall k :: 0 <= k < |c.queue| ==> c.queue[k] == h.passes[0].args)
    && (c.firing ==> c.queue == [])
  }

  ghost predicate Covered(c: Callbacks, h: History, o: nat) {
    o in h.removed || (!c.firing && o in h.ahead) || Due(h, o)
  }

  ghost predicate Due(h: History, o: nat) {
    exists k :: 0 <= k < |h.passes| && o in h.passes[k].due
  }

  /** Not firing: nothing is queued, and memory is the last pass's arguments if the list remembers. */
  ghost predicate Idle(c: Callbacks, h: History) {
    && Core(c, h, |h.passes|) && Once(c, h)
    && !c.firing && c.queue == [] && c.firingIndex == -1
    && c.memory == (if c.options.memory && c.alive && h.passes != [] then Some(h.passes[|h.passes| - 1].args) else None)
    && (c.options.once && c.options.memory && h.passes != [] ==> c.list == [])
  }

  /** About to fire: something is queued, and the entries after firingIndex are the ones to call first. */
  ghost predicate Primed(c: Callbacks, h: History) {
    && Core(c, h, |h.passes|) && Once(c, h)
    && !c.firing && c.alive && |c.queue| == 1
  }

  /** Firing, with all passes so far finished. */
  ghost predicate Between(c: Callbacks, h: History) {
    && h.passes != [] && Core(c, h, |h.passes|) && Once(c, h)
    && c.firing && c.alive && c.firingIndex == -1
    && c.memory == Some(h.passes[|h.passes| - 1].args)
  }

  /** In a pass, the entry at firingIndex having been called. */
  ghost predicate InPass(c: Callbacks, h: History) {
    && h.passes != [] && Core(c, h, |h.passes| - 1) && Once(c, h)
    && c.firing && c.alive
    && c.memory == Some(h.passes[|h.passes| - 1].args)
    && OnTrack(h.passes[|h.passes| - 1], h.ahead)
  }

  /** Between calls of user code. */
  ghost predicate ListInv(c: Callbacks, h: History) {
    if c.firing then InPass(c, h) else Idle(c, h)
  }

  // ----- what changes little

  /** As long as passes begin and end nowhere. */
  lemma CoreStays(c: Callbacks, c': Callbacks, h: History, h': History, fin: nat)
    requires Core(c, h, fin) && h'.passes == h.passes && h'.next == h.next && h'.removed == h.removed
    requires |h.passes| <= |h'.pushed| && forall k :: 0 <= k < |h.passes| ==> h'.pushed[k] == h.pushed[k]
    requires Waiting(c'.queue, h') && Numbering(h') && Labelled(c', h') && h'.names == h.names && c'.made == c.made
    requires !c'.alive ==> c'.list == [] && c'.locked
    requires c'.options == c.options && (c.locked ==> c'.locked)
    ensures Core(c', h', fin)
  {
    forall k | 0 <= k < |h.passes| ensures PassInv(h'.passes[k], h', h'.pushed[k]) {
      assert PassInv(h.passes[k], h, h.pushed[k]);
    }
    forall k | 0 <= k < fin ensures Complete(h'.passes[k]) {
      assert Complete(h.passes[k]);
    }
  }

  /** As long as the passes stay due what they are, no occurrence is lost and none is new. */
  lemma OnceStays(c: Callbacks, c': Callbacks, h: History, h': History)
    requires OnceMemory(c, h) && |h'.passes| == |h.passes| && h'.next == h.next && h.removed <= h'.removed
    requires forall k :: 0 <= k < |h.passes| ==> h'.passes[k].due == h.passes[k].due
    requires forall k :: 0 <= k < |h.passes| ==> h'.passes[k].args == h.passes[k].args
    requires !c'.firing ==> h'.past == [] && forall o :: o in h'.ahead ==> o in h.ahead && !c.firing
    requires c'.alive ==> c.alive
    requires (c'.alive || h.passes != []) && !c.firing ==>
      !c'.firing && forall o :: o in h.ahead ==> o in h'.ahead || o in h'.removed || Due(h, o)
    requires h.passes == [] ==> c'.memory == None
    requires h.passes != [] && c'.alive ==> c'.memory == Some(h.passes[0].args)
    requires h.passes != [] ==> forall k :: 0 <= k < |c'.queue| ==> c'.queue[k] == h.passes[0].args
    requires c'.firing ==> c'.queue == []
    ensures OnceMemory(c', h')
  {
    forall j, k | 0 <= j < k < |h.passes| ensures Before(h'.passes[j].due, h'.passes[k].due) {
      assert Before(h.passes[j].due, h.passes[k].due);
    }
    forall j | 0 <= j < |h.passes| && !c'.firing ensures Before(h'.passes[j].due, h'.ahead) {
      if !c.firing { assert Before(h.passes[j].due, h.ahead); }
    }
    forall o: nat | o < h.next && (c'.alive || h.passes != []) ensures Covered(c', h', o) {
      assert Covered(c, h, o);
      if Due(h, o) {
        var k :| 0 <= k < |h.passes| && o in h.passes[k].due;
        assert o in h'.passes[k].due;
      }
    }
  }

  // ----- the steps

  function New(options: Options): Callbacks {
    Callbacks(options, [], true, [], -1, None, false, false, [])
  }

  function Pushed(c: Callbacks, args: Args): Callbacks {
    c.(queue := c.queue + [args])
  }

  ghost function NotePush(h: History, args: Args): History {
    h.(pushed := h.pushed + [args])
  }

  /** fireWith while the list is firing: the arguments wait their turn. */
  lemma PushKeeps(c: Callbacks, h: History, args: Args)
    requires InPass(c, h) && !c.locked
    ensures InPass(Pushed(c, args), NotePush(h, args))
  {
    PushKeepsCore(c, h, args, |h.passes| - 1);
  }

  lemma PushPrimes(c: Callbacks, h: History, args: Args)
    requires Idle(c, h) && c.alive
    requires c.locked && c.options.once ==> c.memory == Some(args)
    ensures Primed(Pushed(c, args), NotePush(h, args))
  {
    PushKeepsCore(c, h, args, |h.passes|);
  }

  lemma PushKeepsCore(c: Callbacks, h: History, args: Args, fin: nat)
    requires Core(c, h, fin) && Once(c, h)
    requires c.options.once && c.options.memory ==> !c.firing && (h.passes != [] ==> args == h.passes[0].args)
    ensures Core(Pushed(c, args), NotePush(h, args), fin) && Once(Pushed(c, args), NotePush(h, args))
  {
    var c', h' := Pushed(c, args), NotePush(h, args);
    CoreStays(c, c', h, h', fin);
    if c.options.once && c.options.memory {
      OnceStays(c, c', h, h');
    }
  }

  /** add on a list that remembers and is not firing: queue the memory, to be passed to the new entries only. */
  function Remembering(c: Callbacks): Callbacks
    requires c.memory.Some?
  {
    c.(firingIndex := |c.list| - 1, queue := c.queue + [c.memory.value])
  }

  ghost function NoteRemember(h: History, args: Args): History {
    h.(past := h.ahead, ahead := [], pushed := h.pushed + [args])
  }

  lemma RememberPrimes(c: Callbacks, h: History)
    requires Idle(c, h) && c.alive && c.memory.Some?
    ensures Primed(Remembering(c), NoteRemember(h, c.memory.value))
  {
    var c', h' := Remembering(c), NoteRemember(h, c.memory.value);
    CoreStays(c, c', h, h', |h.passes|);
    if c.options.once && c.options.memory {
      OnceStays(c, c', h, h');
    }
  }

  /** Take the next arguments from the queue and start a pass with the entries after firingIndex. */
  function Begun(c: Callbacks): Callbacks
    requires c.queue != []
  {
    c.(firing := true, locked := c.locked || c.options.once, memory := Some(c.queue[0]), queue := c.queue[1..])
  }

  ghost function NoteBegin(c: Callbacks, h: History): History
    requires c.queue != []
  {
    h.(passes := h.passes + [Pass(c.queue[0], h.ahead, [], [], {})])
  }

  lemma BeginStartsPass(c: Callbacks, h: History)
    requires c.queue != [] && (Primed(c, h) || Between(c, h))
    ensures InPass(Begun(c), NoteBegin(c, h))
  {
    BeginCore(c, h);
    if c.options.once && c.options.memory {
      BeginOnce(c, h);
    }
  }

  lemma BeginCore(c: Callbacks, h: History)
    requires Core(c, h, |h.passes|) && c.alive && c.queue != []
    ensures Core(Begun(c), NoteBegin(c, h), |h.passes|)
  {
    var h', n := NoteBegin(c, h), |h.passes|;
    CallsSnoc(h.passes, h'.passes[n]);
    assert Calls(h.passes) + CallsIn(h'.passes[n]) == Calls(h.passes);
    forall k | 0 <= k <= n ensures PassInv(h'.passes[k], h', h'.pushed[k]) {
      if k < n { assert PassInv(h.passes[k], h, h.pushed[k]) && h'.passes[k] == h.passes[k]; }
    }
    forall k | 0 <= k < n ensures Complete(h'.passes[k]) {
      assert Complete(h.passes[k]) && h'.passes[k] == h.passes[k];
    }
  }

  lemma BeginOnce(c: Callbacks, h: History)
    requires c.queue != [] && Primed(c, h) && c.options.once && c.options.memory
    ensures OnceMemory(Begun(c), NoteBegin(c, h))
  {
    var h', n := NoteBegin(c, h), |h.passes|;
    assert forall k :: 0 <= k < n ==> h'.passes[k] == h.passes[k];
    forall j, k | 0 <= j < k <= n ensures Before(h'.passes[j].due, h'.passes[k].due) {
      assert if k < n then Before(h.passes[j].due, h.passes[k].due) else Before(h.passes[j].due, h.ahead);
    }
    forall o: nat | o < h.next ensures Covered(Begun(c), h', o) {
      assert Covered(c, h, o);
      if Due(h, o) {
        var k :| 0 <= k < |h.passes| && o in h.passes[k].due;
        assert o in h'.passes[k].due;
      } else if o in h.ahead {
        assert o in h'.passes[n].due;
      }
    }
  }

  /** Run the callback at the next index. */
  function Advanced(c: Callbacks): Callbacks {
    var i := c.firingIndex + 1;
    c.(firingIndex := i,
       made := c.made + if 0 <= i < |c.list| && c.memory.Some? then [Made(c.list[i], c.memory.value)] else [])
  }

  ghost function NoteCall(h: History): History
    requires h.passes != [] && h.ahead != []
  {
    var n := |h.passes| - 1;
    h.(past := h.past + [h.ahead[0]], ahead := h.ahead[1..],
       passes := h.passes[n := Ahead(h.passes[n], h.names, h.ahead[0])])
  }

  ghost function Ahead(p: Pass, names: seq<Entry>, o: nat): Pass {
    p.(called := p.called + [o], ran := p.ran + if o < |names| then [names[o]] else [])
  }

  lemma CallKeeps(c: Callbacks, h: History)
    requires InPass(c, h) && c.firingIndex + 1 < |c.list|
    ensures h.ahead != [] && InPass(Advanced(c), NoteCall(h))
  {
    var n := |h.passes| - 1;
    var h' := NoteCall(h);
    assert PassInv(h.passes[n], h, h.pushed[n]);
    NumberingAdvances(h);
    LabelsAdvance(c, h);
    CallsOneMore(h.passes, h'.passes[n], h.names[h.ahead[0]]);
    LastPassChanged(c, Advanced(c), h, h', n);
    TrackAdvances(h.passes[n], h.ahead, h.names);
  }

  lemma LabelsAdvance(c: Callbacks, h: History)
    requires Labelled(c, h) && h.ahead != [] && h.passes != []
    ensures Labelled(Advanced(c), NoteCall(h))
    ensures h.ahead[0] < |h.names| && h.names[h.ahead[0]] == c.list[c.firingIndex + 1]
  {
    var h' := NoteCall(h);
    assert c.list[|h.past| + 0] == h.names[h.ahead[0]];
    forall k | 0 <= k < |h'.ahead| ensures h'.ahead[k] < |h.names| && h.names[h'.ahead[k]] == c.list[|h'.past| + k] {
      assert h'.ahead[k] == h.ahead[k + 1];
      assert c.list[|h.past| + (k + 1)] == h.names[h.ahead[k + 1]];
    }
  }

  lemma FirstAndRest(s: seq<nat>)
    requires s != [] && Ascending(s)
    ensures Ascending(s[1..]) && Before([s[0]], s[1..])
    ensures forall o {:trigger o in s[1..]} :: o in s <==> o == s[0] || o in s[1..]
  {
    assert s == [s[0]] + s[1..];
  }

  lemma NumberingAdvances(h: History)
    requires Numbering(h) && h.ahead != [] && h.passes != []
    ensures Numbering(NoteCall(h))
  {
    FirstAndRest(h.ahead);
    assert h.ahead[0] in h.ahead;
    assert forall i :: 0 <= i < |h.past| ==> h.past[i] in h.past;
  }

  lemma TrackAdvances(p: Pass, ahead: seq<nat>, names: seq<Entry>)
    requires OnTrack(p, ahead) && ahead != [] && Ascending(ahead)
    ensures OnTrack(Ahead(p, names, ahead[0]), ahead[1..])
  {
    var p' := Ahead(p, names, ahead[0]);
    FirstAndRest(ahead);
    assert forall i :: 0 <= i < |p.called| ==> p.called[i] in p.called;
    assert ahead[0] in ahead;
    forall o ensures Accounted(p', ahead[1..], o) {
      assert Accounted(p, ahead, o);
      assert o in ahead[1..] ==> o in ahead;
    }
  }

  /** Rewriting the record of the current pass keeps the rest, if the pass stays due what it is. */
  lemma LastPassChanged(c: Callbacks, c': Callbacks, h: History, h': History, n: nat)
    requires Core(c, h, n) && Once(c, h) && n == |h.passes| - 1 && c.firing && c.alive
    requires c' == c.(firingIndex := c'.firingIndex, list := c'.list, made := c'.made)
    requires Labelled(c', h') && Numbering(h') && h'.names == h.names
    requires h'.next == h.next && h.removed <= h'.removed && h'.pushed == h.pushed
    requires forall o :: o in h'.removed ==> o < h.next
    requires |h'.passes| == n + 1 && h'.passes == h.passes[n := h'.passes[n]] && c'.made == Calls(h'.passes)
    requires h'.passes[n].due == h.passes[n].due && h'.passes[n].args == h.passes[n].args && Ran(h'.passes[n], h.names)
    requires forall o :: o in h'.passes[n].skipped ==> o in h'.removed
    ensures Core(c', h', n) && Once(c', h')
  {
    forall k | 0 <= k < n ensures Complete(h'.passes[k]) {
      assert Complete(h.passes[k]);
    }
    forall k | 0 <= k <= n ensures PassInv(h'.passes[k], h', h'.pushed[k]) {
      assert PassInv(h.passes[k], h, h.pushed[k]);
    }
    if c.options.once && c.options.memory {
      OnceStays(c, c', h, h');
    }
  }

  function PassEnded(c: Callbacks): Callbacks {
    c.(firingIndex := -1)
  }

  ghost function NoteEnd(h: History): History {
    h.(past := [], ahead := h.past)
  }

  lemma EndCompletesPass(c: Callbacks, h: History)
    requires InPass(c, h) && c.firingIndex + 1 == |c.list|
    ensures Between(PassEnded(c), NoteEnd(h))
  {
    var c', h' := PassEnded(c), NoteEnd(h);
    CoreStays(c, c', h, h', |h.passes| - 1);
    assert h.ahead == [];
    if c.options.once && c.options.memory {
      OnceStays(c, c', h, h');
    }
  }

  /** The end of the firing function: forget, and clean up if firing for good is over. */
  function Finished(c: Callbacks): Callbacks {
    var memory := if c.options.memory then c.memory else None;
    var c1 := c.(memory := memory, firing := false);
    if !c.locked then c1 else c1.(list := [], alive := memory.Some?)
  }

  ghost function NoteFinish(c: Callbacks, h: History): History {
    if !c.locked then h else Emptied(h)
  }

  ghost function Emptied(h: History): History {
    h.(past := [], ahead := [])
  }

  lemma FinishIsIdle(c: Callbacks, h: History)
    requires Between(c, h) && c.queue == []
    ensures Idle(Finished(c), NoteFinish(c, h))
  {
    var c', h' := Finished(c), NoteFinish(c, h);
    CoreStays(c, c', h, h', |h.passes|);
    if c.options.once && c.options.memory {
      OnceStays(c, c', h, h');
    }
  }

  /** lock: no more firing, and nothing queued; without memory the list is spent unless it is firing. */
  function LockedUp(c: Callbacks): Callbacks {
    var c1 := c.(locked := true, queue := []);
    if c.memory.None? && !c.firing then c1.(list := [], alive := false) else c1
  }

  ghost function NoteLock(c: Callbacks, h: History): History {
    var h1 := h.(pushed := h.pushed[..if |h.passes| <= |h.pushed| then |h.passes| else |h.pushed|]);
    if c.memory.None? && !c.firing then Emptied(h1) else h1
  }

  lemma LockKeeps(c: Callbacks, h: History)
    requires ListInv(c, h)
    ensures ListInv(LockedUp(c), NoteLock(c, h))
  {
    var c', h' := LockedUp(c), NoteLock(c, h);
    CoreStays(c, c', h, h', if c.firing then |h.passes| - 1 else |h.passes|);
    if c.options.once && c.options.memory {
      OnceStays(c, c', h, h');
    }
  }

  /** disable, for a list that is not firing. */
  function Disabled(c: Callbacks): Callbacks {
    c.(locked := true, queue := [], list := [], alive := false, memory := None)
  }

  lemma DisableKeeps(c: Callbacks, h: History)
    requires Idle(c, h)
    ensures Idle(Disabled(c), Emptied(h))
  {
    var c', h' := Disabled(c), Emptied(h);
    CoreStays(c, c', h, h', |h.passes|);
    if c.options.once && c.options.memory {
      OnceStays(c, c', h, h');
    }
  }

  /** One function pushed onto the list by add. */
  function Appended(c: Callbacks, e: Entry): Callbacks {
    c.(list := c.list + [e])
  }

  ghost function NoteAppend(c: Callbacks, h: History, e: Entry): History {
    var h1 := h.(names := h.names + [e], ahead := h.ahead + [h.next], next := h.next + 1);
    if c.firing && h.passes != [] then
      var n := |h.passes| - 1;
      h1.(passes := h.passes[n := h.passes[n].(due := h.passes[n].due + [h.next])])
    else h1
  }

  /** An entry added during a pass is due in it. */
  lemma AppendKeepsPass(c: Callbacks, h: History, e: Entry)
    requires InPass(c, h)
    ensures InPass(Appended(c, e), NoteAppend(c, h, e))
  {
    var n := |h.passes| - 1;
    AppendCore(c, h, e, n);
    AppendOnce(c, h, e);
    assert PassInv(h.passes[n], h, h.pushed[n]);
    TrackGrows(h.passes[n], h.ahead, h.next);
  }

  lemma AppendCore(c: Callbacks, h: History, e: Entry, fin: nat)
    requires Core(c, h, fin) && c.alive && fin == if c.firing then |h.passes| - 1 else |h.passes|
    ensures Core(Appended(c, e), NoteAppend(c, h, e), fin)
  {
    var h' := NoteAppend(c, h, e);
    AppendLabels(c, h, e);
    if c.firing {
      CallsSame(h.passes, h'.passes[fin]);
    }
    forall k | 0 <= k < |h.passes| ensures PassInv(h'.passes[k], h', h'.pushed[k]) {
      assert PassInv(h.passes[k], h, h.pushed[k]);
    }
    forall k | 0 <= k < fin ensures Complete(h'.passes[k]) {
      assert Complete(h.passes[k]);
    }
  }

  lemma AppendLabels(c: Callbacks, h: History, e: Entry)
    requires Labelled(c, h)
    ensures Labelled(Appended(c, e), NoteAppend(c, h, e))
  {
  }

  lemma TrackGrows(p: Pass, ahead: seq<nat>, next: nat)
    requires OnTrack(p, ahead) && Bounded(p.due, next) && next !in p.skipped
    ensures OnTrack(p.(due := p.due + [next]), ahead + [next])
  {
    forall o ensures Accounted(p.(due := p.due + [next]), ahead + [next], o) {
      assert Accounted(p, ahead, o);
    }
    forall o | o in p.called ensures o < next {
      assert Accounted(p, ahead, o);
    }
  }

  lemma AppendOnce(c: Callbacks, h: History, e: Entry)
    requires c.firing ==> h.passes != []
    requires Once(c, h) && Core(c, h, if c.firing then |h.passes| - 1 else |h.passes|) && c.alive
    ensures Once(Appended(c, e), NoteAppend(c, h, e))
  {
    var h' := NoteAppend(c, h, e);
    if c.options.once && c.options.memory {
      forall j, k | 0 <= j < k < |h'.passes| ensures Before(h'.passes[j].due, h'.passes[k].due) {
        assert Before(h.passes[j].due, h.passes[k].due);
        DueIsNumbered(h, j);
      }
      forall j | !c.firing && 0 <= j < |h'.passes| ensures Before(h'.passes[j].due, h'.ahead) {
        assert Before(h.passes[j].due, h.ahead);
        DueIsNumbered(h, j);
      }
      forall o: nat | o < h'.next ensures Covered(Appended(c, e), h', o) {
        if o == h.next {
          if c.firing { assert o in h'.passes[|h.passes| - 1].due; } else { assert h'.ahead[|h.ahead|] == o; }
        } else {
          assert Covered(c, h, o);
          if Due(h, o) {
            var k :| 0 <= k < |h.passes| && o in h.passes[k].due;
            assert o in h'.passes[k].due;
          }
        }
      }
    }
  }

  lemma DueIsNumbered(h: History, k: nat)
    requires k < |h.passes| <= |h.pushed| && PassInv(h.passes[k], h, h.pushed[k])
    ensures forall o :: o in h.passes[k].due ==> o < h.next
  {
  }

  /** Adding to a list that does not fire, be it idle without memory or primed to fire afterwards. */
  lemma AppendKeepsIdle(c: Callbacks, h: History, e: Entry)
    requires c.alive && (Primed(c, h) || (Idle(c, h) && c.memory.None?))
    ensures if Primed(c, h) then Primed(Appended(c, e), NoteAppend(c, h, e))
      else Idle(Appended(c, e), NoteAppend(c, h, e))
  {
    AppendCore(c, h, e, |h.passes|);
    AppendOnce(c, h, e);
  }

  function Spliced(list: seq<Entry>, i: nat): (r: seq<Entry>)
    requires i < |list|
    ensures |r| == |list| - 1 && forall k :: 0 <= k < |r| ==> r[k] == list[if k < i then k else k + 1]
  {
    list[..i] + list[i + 1..]
  }

  /** One entry spliced out by remove, which also steps firingIndex back if the entry is not after it. */
  function SplicedOut(c: Callbacks, i: nat): Callbacks
    requires i < |c.list|
  {
    c.(list := Spliced(c.list, i), firingIndex := if i <= c.firingIndex then c.firingIndex - 1 else c.firingIndex)
  }

  ghost function NoteRemove(c: Callbacks, h: History, i: nat): History
    requires i < |h.past| + |h.ahead|
  {
    if i < |h.past| then
      h.(past := Splice(h.past, i), removed := h.removed + {h.past[i]})
    else
      var j := i - |h.past|;
      var h1 := h.(ahead := Splice(h.ahead, j), removed := h.removed + {h.ahead[j]});
      if c.firing && h.passes != [] then
        var n := |h.passes| - 1;
        h1.(passes := h.passes[n := h.passes[n].(skipped := h.passes[n].skipped + {h.ahead[j]})])
      else h1
  }

  function Splice(s: seq<nat>, i: nat): seq<nat>
    requires i < |s|
  {
    s[..i] + s[i + 1..]
  }

  lemma SpliceFacts(s: seq<nat>, i: nat, bound: nat)
    requires i < |s| && Ascending(s) && Bounded(s, bound)
    ensures var s' := Splice(s, i);
      |s'| == |s| - 1 && Ascending(s') && Bounded(s', bound) && forall o :: o in s' <==> o in s && o != s[i]
  {
    var s' := Splice(s, i);
    assert forall k :: 0 <= k < |s'| ==> s'[k] == s[if k < i then k else k + 1];
    forall o ensures o in s' <==> o in s && o != s[i] {
      if o in s && o != s[i] {
        var k :| 0 <= k < |s| && s[k] == o;
        assert s'[if k < i then k else k - 1] == o;
      }
    }
  }

  /** Removing an entry, even the running one, neither repeats nor loses any other call. */
  lemma RemoveKeeps(c: Callbacks, h: History, i: nat)
    requires ListInv(c, h) && i < |c.list|
    ensures ListInv(SplicedOut(c, i), NoteRemove(c, h, i))
  {
    RemoveNumbers(c, h, i);
    RemoveLabels(c, h, i);
    if c.firing {
      RemoveInPass(c, h, i);
    } else {
      RemoveIdle(c, h, i);
    }
  }

  lemma RemoveNumbers(c: Callbacks, h: History, i: nat)
    requires Numbering(h) && i < |h.past| + |h.ahead|
    ensures Numbering(NoteRemove(c, h, i)) && h.removed <= NoteRemove(c, h, i).removed
  {
    if i < |h.past| {
      SpliceFacts(h.past, i, h.next);
    } else {
      SpliceFacts(h.ahead, i - |h.past|, h.next);
    }
  }

  lemma RemoveLabels(c: Callbacks, h: History, i: nat)
    requires Labelled(c, h) && i < |h.past| + |h.ahead|
    ensures Labelled(SplicedOut(c, i), NoteRemove(c, h, i))
  {
    var n := |h.past|;
    if i < n {
      LabelSplice(h.names, h.past, c.list, 0, i);
      LabelAfterSplice(h.names, h.ahead, c.list, n, i);
    } else {
      LabelBeforeSplice(h.names, h.past, c.list, 0, i);
      LabelSplice(h.names, h.ahead, c.list, n, i - n);
    }
  }

  lemma LabelSplice(names: seq<Entry>, numbers: seq<nat>, list: seq<Entry>, i: nat, j: nat)
    requires Label(names, numbers, list, i) && j < |numbers|
    ensures Label(names, Splice(numbers, j), Spliced(list, i + j), i)
  {
    var s := Splice(numbers, j);
    forall k | 0 <= k < |s| ensures s[k] < |names| && names[s[k]] == Spliced(list, i + j)[i + k] {
      var m := if k < j then k else k + 1;
      assert s[k] == numbers[m];
      assert names[numbers[m]] == list[i + m];
    }
  }

  lemma LabelBeforeSplice(names: seq<Entry>, numbers: seq<nat>, list: seq<Entry>, i: nat, m: nat)
    requires Label(names, numbers, list, i) && i + |numbers| <= m < |list|
    ensures Label(names, numbers, Spliced(list, m), i)
  {
  }

  lemma LabelAfterSplice(names: seq<Entry>, numbers: seq<nat>, list: seq<Entry>, i: nat, m: nat)
    requires Label(names, numbers, list, i) && m < i && m < |list|
    ensures Label(names, numbers, Spliced(list, m), i - 1)
  {
    forall k | 0 <= k < |numbers| ensures names[numbers[k]] == Spliced(list, m)[i - 1 + k] {
      assert names[numbers[k]] == list[i + k];
    }
  }

  lemma RemoveIdle(c: Callbacks, h: History, i: nat)
    requires Idle(c, h) && i < |c.list|
    requires Numbering(NoteRemove(c, h, i)) && Labelled(SplicedOut(c, i), NoteRemove(c, h, i))
    ensures Idle(SplicedOut(c, i), NoteRemove(c, h, i))
  {
    var c', h' := SplicedOut(c, i), NoteRemove(c, h, i);
    SpliceFacts(h.ahead, i, h.next);
    forall k | 0 <= k < |h.passes| ensures PassInv(h'.passes[k], h', h'.pushed[k]) {
      assert PassInv(h.passes[k], h, h.pushed[k]);
    }
    forall k | 0 <= k < |h.passes| ensures Complete(h'.passes[k]) {
      assert Complete(h.passes[k]);
    }
    if c.options.once && c.options.memory {
      OnceStays(c, c', h, h');
    }
  }

  lemma RemoveInPass(c: Callbacks, h: History, i: nat)
    requires InPass(c, h) && i < |c.list|
    requires Numbering(NoteRemove(c, h, i)) && Labelled(SplicedOut(c, i), NoteRemove(c, h, i))
    requires h.removed <= NoteRemove(c, h, i).removed
    ensures InPass(SplicedOut(c, i), NoteRemove(c, h, i))
  {
    var n := |h.passes| - 1;
    assert PassInv(h.passes[n], h, h.pushed[n]);
    CallsSame(h.passes, NoteRemove(c, h, i).passes[n]);
    LastPassChanged(c, SplicedOut(c, i), h, NoteRemove(c, h, i), n);
    if i >= |h.past| {
      SpliceFacts(h.ahead, i - |h.past|, h.next);
      TrackShrinks(h.passes[n], h.ahead, i - |h.past|);
    }
  }

  lemma TrackShrinks(p: Pass, ahead: seq<nat>, j: nat)
    requires OnTrack(p, ahead) && j < |ahead|
    requires forall o :: o in Splice(ahead, j) <==> o in ahead && o != ahead[j]
    ensures OnTrack(p.(skipped := p.skipped + {ahead[j]}), Splice(ahead, j))
  {
    var p' := p.(skipped := p.skipped + {ahead[j]});
    assert ahead[j] in ahead;
    forall o ensures Accounted(p', Splice(ahead, j), o) {
      assert Accounted(p, ahead, o);
    }
  }

  // ----- what the invariant means for callers

  /** The calls made on a list are those of its passes, one pass after the other, each with its pass's arguments;
      passes take their arguments in the order of the fireWith calls. */
  lemma CallsAreThoseOfPasses(c: Callbacks, h: History)
    requires ListInv(c, h)
    ensures c.made == Calls(h.passes) && |h.passes| <= |h.pushed|
    ensures forall k :: 0 <= k < |h.passes| ==> h.passes[k].args == h.pushed[k] && Ran(h.passes[k], h.names)
  {
    forall k | 0 <= k < |h.passes| ensures h.passes[k].args == h.pushed[k] && Ran(h.passes[k], h.names) {
      assert PassInv(h.passes[k], h, h.pushed[k]);
    }
  }

  /** A finished pass calls the entries due in it and not removed before their turn: each once, in list order. */
  lemma PassCallsEachOnce(c: Callbacks, h: History, k: nat)
    requires ListInv(c, h) && k < (if c.firing then |h.passes| - 1 else |h.passes|)
    ensures Ascending(h.passes[k].called)
    ensures forall o :: o in h.passes[k].called <==> o in h.passes[k].due && o !in h.passes[k].skipped
    ensures h.passes[k].args == h.pushed[k]
  {
    var p := h.passes[k];
    assert PassInv(p, h, h.pushed[k]) && Complete(p);
    assert forall o {:trigger o in p.called} {:trigger o in p.due} :: Accounted(p, [], o);
  }

  ghost predicate CalledOnlyIn(h: History, o: nat, k: nat) {
    forall j :: 0 <= j < |h.passes| ==> (o in h.passes[j].called <==> j == k)
  }

  /** Once a "once memory" list has fired, every occurrence ever added and never removed has been called in exactly
      one pass, and all passes carry the first arguments. */
  lemma OnceMemoryCallsEachOnce(c: Callbacks, h: History, o: nat)
    requires Idle(c, h) && c.options.once && c.options.memory && h.passes != []
    requires o < h.next && o !in h.removed
    ensures exists k :: 0 <= k < |h.passes| && CalledOnlyIn(h, o, k)
    ensures forall k :: 0 <= k < |h.passes| ==> h.passes[k].args == h.pushed[0]
  {
    assert Covered(c, h, o);
    var k :| 0 <= k < |h.passes| && o in h.passes[k].due;
    assert PassInv(h.passes[k], h, h.pushed[k]) && PassInv(h.passes[0], h, h.pushed[0]);
    PassCallsEachOnce(c, h, k);
    forall j | 0 <= j < |h.passes| ensures o in h.passes[j].called <==> j == k {
      PassCallsEachOnce(c, h, j);
      assert j < k ==> Before(h.passes[j].due, h.passes[k].due);
      assert k < j ==> Before(h.passes[k].due, h.passes[j].due);
    }
    assert CalledOnlyIn(h, o, k);
  }
}
