/** The callback lists of one jQuery.Deferred, and any number of plain ones beside them: what holds of all of them
    together whenever user code runs, and what every step keeps of it. */
module DeferredState {
  import opened Optional
  import opened CallbackLists

  // lists of the Deferred: progress, done and fail callbacks, then the handlers that then() adds for each
  const PROGRESS: nat := 0
  const DONE: nat := 1
  const FAIL: nat := 2
  const HANDLERS: nat := 3
  const PLAIN: nat := 6

  function Final(w: nat): State {
    if w == DONE then Resolved else Rejected
  }

  function Other(w: nat): nat {
    if w == DONE then FAIL else DONE
  }

  /** The functions the constructor adds to the done or fail list before anybody else can. */
  function Prefix(w: nat): seq<Entry> {
    [SetState(Final(w)), Disable(Other(w)), Disable(Other(w) + HANDLERS), Lock(PROGRESS), Lock(HANDLERS),
     FireList(w + HANDLERS)]
  }

  predicate AllUsers(list: seq<Entry>) {
    forall i :: 0 <= i < |list| ==> list[i].User?
  }

  predicate HasPrefix(list: seq<Entry>, w: nat) {
    |list| >= 6 && list[..6] == Prefix(w) && AllUsers(list[6..])
  }

  function OptionsOf(l: nat): Options {
    Options(l == 1 || l == 2 || l == 4 || l == 5, true, false)
  }

  /** How far settling has come: the list that fired first (0 for none), how many of the constructor's functions
      have run, and the arguments it settled with. */
  datatype Settling = Settling(winner: nat, done: nat, args: Args)

  ghost predicate ListConfig(l: nat, c: Callbacks, h: History, s: Settling) {
    && (l < PLAIN ==> c.options == OptionsOf(l) && h.removed == {})
    && (l >= HANDLERS ==> AllUsers(c.list))
    && (l == PROGRESS ==> forall i :: 0 <= i < |c.list| ==> c.list[i].User? || c.list[i] == FireList(HANDLERS))
    && (l == PROGRESS && s.winner != 0 && s.done >= 4 ==> c.locked)
    && (l == HANDLERS && s.winner != 0 && s.done >= 5 ==> c.locked)
    && (l == DONE || l == FAIL ==> MainConfig(l, c, h, s))
    && (l == DONE + HANDLERS || l == FAIL + HANDLERS ==> HandlerConfig(l - HANDLERS, c, h, s))
  }

  /** The done and fail lists. */
  ghost predicate MainConfig(w: nat, c: Callbacks, h: History, s: Settling) {
    if s.winner == 0 then h.passes == [] && c.alive && !c.locked && HasPrefix(c.list, w)
    else if s.winner == w then
      h.passes != [] && h.passes[0].args == s.args
      && if c.firing && |h.passes| == 1 then HasPrefix(c.list, w) else s.done == 6 && AllUsers(c.list)
    else h.passes == [] && if s.done < 2 then HasPrefix(c.list, w) else !c.alive
  }

  /** The handler lists behind them. */
  ghost predicate HandlerConfig(w: nat, c: Callbacks, h: History, s: Settling) {
    if s.winner == 0 then h.passes == [] && c.alive && !c.locked
    else if s.winner == w then
      && (s.done < 5 ==> h.passes == [] && c.alive && !c.locked)
      && (s.done == 6 ==> h.passes != [])
      && (h.passes != [] ==> h.passes[0].args == s.args)
    else h.passes == [] && (s.done >= 3 ==> !c.alive)
  }

  ghost predicate StateConfig(state: State, s: Settling) {
    && s.winner <= 2 && s.done <= 6
    && state == (if s.winner != 0 && s.done > 0 then Final(s.winner) else Pending)
  }

  /** The fields of the world at one moment. */
  datatype Snapshot = Snapshot(lists: seq<Callbacks>, hist: seq<History>, state: State, settling: Settling)

  /** The invariant, except that list l itself may be in the middle of a change. */
  ghost predicate InvBut(w: Snapshot, l: nat) {
    && |w.hist| == |w.lists| >= PLAIN
    && (forall k {:trigger ListInv(w.lists[k], w.hist[k])} ::
      0 <= k < |w.lists| && k != l ==> ListInv(w.lists[k], w.hist[k]))
    && (forall k {:trigger ListConfig(k, w.lists[k], w.hist[k], w.settling)} ::
      0 <= k < |w.lists| ==> ListConfig(k, w.lists[k], w.hist[k], w.settling))
    && StateConfig(w.state, w.settling)
  }

  ghost predicate Inv(w: Snapshot) {
    InvBut(w, |w.lists|)
  }

  /** User code runs only before settling or after the constructor's functions have done their work. */
  ghost predicate Stable(s: Settling) {
    s.winner == 0 || s.done >= 5
  }

  /** The first pass of list l is still within the constructor's functions. */
  ghost predicate Advancing(s: Settling, l: nat) {
    l == s.winner != 0 && s.done < 6
  }

  /** What a call made while lists are firing leaves alone: it may queue, add and remove, but the passes under
      way stay under way, what they have called stays called, and no pass's arguments change. Only list l may start or
      stop firing. */
  ghost predicate Kept(a: Snapshot, b: Snapshot, l: nat) {
    && |a.lists| == |b.lists| && |a.hist| == |a.lists| && |b.hist| == |b.lists|
    && forall k {:trigger b.lists[k]} {:trigger b.hist[k]} :: 0 <= k < |b.lists| ==>
      PassesGrew(a.lists[k], b.lists[k], a.hist[k], b.hist[k])
      && (k != l ==> SamePass(k, a.lists[k], b.lists[k], a.hist[k], b.hist[k]))
  }

  ghost predicate PassesGrew(c0: Callbacks, c: Callbacks, h0: History, h: History) {
    && c.options == c0.options && (c0.locked ==> c.locked) && |h.passes| >= |h0.passes| && h.next >= h0.next
    && forall j {:trigger h.passes[j]} :: 0 <= j < |h0.passes| ==> SameTask(h0.passes[j], h.passes[j], h0.next)
  }

  /** A pass keeps its arguments, and what it has to call can only grow at the end, by new occurrences. */
  ghost predicate SameTask(p0: Pass, p: Pass, next: nat) {
    p.args == p0.args && p0.due <= p.due && forall i :: |p0.due| <= i < |p.due| ==> p.due[i] >= next
  }

  ghost predicate SamePass(k: nat, c0: Callbacks, c: Callbacks, h0: History, h: History) {
    && c.firing == c0.firing
    && (c.firing && h.passes != [] ==> |h.passes| == |h0.passes|)
    && (c.firing && h.passes != [] ==> h.passes[|h.passes| - 1].called == h0.passes[|h0.passes| - 1].called)
    && (c.firing && k < PLAIN ==> c.firingIndex == c0.firingIndex)
  }

  /** Once settled, always settled the same way. */
  ghost predicate SettledKept(a: Settling, b: Settling) {
    a.winner != 0 ==> b == a
  }

  /** The same, while the winner's first pass proceeds. */
  ghost predicate SameWinner(a: Settling, b: Settling) {
    a.winner != 0 ==> b.winner == a.winner && b.args == a.args && b.done >= a.done
  }

  /** List l is between two calls of its pass. */
  ghost predicate AtTurn(w: Snapshot, l: nat) {
    && Inv(w) && Alive(w, l) && w.lists[l].firing && InStep(w, l, w.lists[l].firingIndex + 1)
    && -1 <= w.lists[l].firingIndex < |w.lists[l].list| && (Advancing(w.settling, l) || Stable(w.settling))
  }

  /** List l has finished a pass. */
  ghost predicate PassOver(w: Snapshot, l: nat) {
    && InvBut(w, l) && Alive(w, l) && Between(w.lists[l], w.hist[l])
    && Stable(w.settling) && !Advancing(w.settling, l)
    && (l == DONE || l == FAIL ==> w.state == Final(l))
  }

  /** What the calls of a pass over list l leave alone. */
  ghost predicate PassKept(a: Snapshot, b: Snapshot, l: nat) {
    && Kept(a, b, l) && SameWinner(a.settling, b.settling)
    && (!Advancing(a.settling, l) ==> SettledKept(a.settling, b.settling) && !Advancing(b.settling, l))
  }

  lemma PassKeptTransitive(a: Snapshot, b: Snapshot, c: Snapshot, l: nat)
    requires PassKept(a, b, l) && PassKept(b, c, l)
    ensures PassKept(a, c, l)
  {
    KeptTransitive(a, b, c, l);
  }

  /** Only list l differs. */
  ghost predicate OthersSame(a: seq<Callbacks>, b: seq<Callbacks>, l: nat) {
    |a| == |b| && forall k :: 0 <= k < |a| && k != l ==> b[k] == a[k]
  }

  /** What calls of the constructor's functions and of idle callbacks leave alone: no list but those behind a
      Deferred's main list changes, and nothing is queued. */
  ghost predicate Quiet(a: Snapshot, b: Snapshot, l: nat) {
    && l < |a.lists| == |b.lists| && b.lists[l].queue == a.lists[l].queue
    && (l >= HANDLERS ==> OthersSame(a.lists, b.lists, l))
  }

  lemma QuietTransitive(a: Snapshot, b: Snapshot, c: Snapshot, l: nat)
    requires Quiet(a, b, l) && Quiet(b, c, l)
    ensures Quiet(a, c, l)
  {
  }

  lemma KeptTransitive(a: Snapshot, b: Snapshot, c: Snapshot, l: nat)
    requires Kept(a, b, l) && (Kept(b, c, l) || Kept(b, c, |b.lists|))
    ensures Kept(a, c, l)
  {
    forall k | 0 <= k < |c.lists|
      ensures PassesGrew(a.lists[k], c.lists[k], a.hist[k], c.hist[k])
      ensures k != l ==> SamePass(k, a.lists[k], c.lists[k], a.hist[k], c.hist[k])
    {
      assert PassesGrew(a.lists[k], b.lists[k], a.hist[k], b.hist[k]);
      assert PassesGrew(b.lists[k], c.lists[k], b.hist[k], c.hist[k]);
      forall j | 0 <= j < |a.hist[k].passes|
        ensures SameTask(a.hist[k].passes[j], c.hist[k].passes[j], a.hist[k].next)
      {
        assert SameTask(a.hist[k].passes[j], b.hist[k].passes[j], a.hist[k].next);
        assert SameTask(b.hist[k].passes[j], c.hist[k].passes[j], b.hist[k].next);
      }
      if k != l {
        assert SamePass(k, a.lists[k], b.lists[k], a.hist[k], b.hist[k]);
        assert SamePass(k, b.lists[k], c.lists[k], b.hist[k], c.hist[k]);
      }
    }
  }

  lemma KeptReflexive(a: Snapshot, l: nat)
    requires |a.hist| == |a.lists|
    ensures Kept(a, a, l)
  {
  }

  /** A list that was not firing before and is not firing now counts as left alone. */
  lemma KeptClosed(a: Snapshot, b: Snapshot, l: nat)
    requires Kept(a, b, l) && (l < |a.lists| ==> !a.lists[l].firing && !b.lists[l].firing)
    ensures Kept(a, b, |a.lists|)
  {
  }

  function Put(w: Snapshot, t: nat, c: Callbacks, h: History, s: Settling): Snapshot
    requires t < |w.lists| && t < |w.hist|
  {
    w.(lists := w.lists[t := c], hist := w.hist[t := h], settling := s)
  }

  /** List t gets new values that fit, and nothing else changes. */
  lemma PutKeeps(w: Snapshot, t: nat, c: Callbacks, h: History)
    requires InvBut(w, t) && t < |w.lists| && ListConfig(t, c, h, w.settling)
    ensures InvBut(Put(w, t, c, h, w.settling), t)
    ensures ListInv(c, h) ==> Inv(Put(w, t, c, h, w.settling))
  {
    var w' := Put(w, t, c, h, w.settling);
    forall k | 0 <= k < |w.lists| ensures ListConfig(k, w'.lists[k], w'.hist[k], w'.settling) {
      assert ListConfig(k, w.lists[k], w.hist[k], w.settling);
    }
    forall k | 0 <= k < |w.lists| && k != t ensures ListInv(w'.lists[k], w'.hist[k]) {
      assert ListInv(w.lists[k], w.hist[k]);
    }
  }

  lemma PutIsKept(w: Snapshot, t: nat, c: Callbacks, h: History, s: Settling)
    requires t < |w.lists| == |w.hist| && PassesGrew(w.lists[t], c, w.hist[t], h)
    ensures Kept(w, Put(w, t, c, h, s), t)
    ensures SamePass(t, w.lists[t], c, w.hist[t], h) ==> Kept(w, Put(w, t, c, h, s), |w.lists|)
  {
  }

  /** How settling proceeds suits every list but t, which gets new values. */
  lemma PutSettles(w: Snapshot, t: nat, c: Callbacks, h: History, s: Settling)
    requires InvBut(w, t) && t < |w.lists| && ListConfig(t, c, h, s) && StateConfig(w.state, s) && ListInv(c, h)
    requires forall k {:trigger ListConfig(k, w.lists[k], w.hist[k], s)} ::
      0 <= k < |w.lists| && k != t ==> ListConfig(k, w.lists[k], w.hist[k], s)
    ensures Inv(Put(w, t, c, h, s))
  {
    var w' := Put(w, t, c, h, s);
    forall k | 0 <= k < |w.lists| ensures ListConfig(k, w'.lists[k], w'.hist[k], s) {
      assert k != t ==> ListConfig(k, w.lists[k], w.hist[k], s);
    }
    forall k | 0 <= k < |w.lists| && k != t ensures ListInv(w'.lists[k], w'.hist[k]) {
      assert ListInv(w.lists[k], w.hist[k]);
    }
  }

  // ----- settling, function by function

  /** The first pass of the done or fail list decides. */
  ghost function AfterBegin(l: nat, c: Callbacks, h: History, s: Settling): Settling
    requires c.queue != []
  {
    if (l == DONE || l == FAIL) && h.passes == [] then Settling(l, 0, c.queue[0]) else s
  }

  lemma ConfigBegins(l: nat, c: Callbacks, h: History, s: Settling)
    requires ListConfig(l, c, h, s) && c.queue != []
    requires c.alive && (s.winner == 0 || s.done >= 5)
    requires c.firing ==> h.passes != [] && !(l == s.winner != 0 && s.done < 6)
    requires (l == DONE || l == FAIL) && h.passes != [] ==> l == s.winner && s.done == 6 && AllUsers(c.list)
    requires l == DONE + HANDLERS || l == FAIL + HANDLERS ==>
      s.winner == l - HANDLERS && (h.passes == [] ==> c.queue[0] == s.args)
    ensures ListConfig(l, Begun(c), NoteBegin(c, h), AfterBegin(l, c, h, s))
  {
  }

  lemma OtherConfigBegins(k: nat, ck: Callbacks, hk: History, l: nat, c: Callbacks, h: History, s: Settling)
    requires ListConfig(k, ck, hk, s) && ListConfig(l, c, h, s) && k != l && c.queue != [] && c.alive
    requires s.winner == 0 || s.done >= 5
    ensures ListConfig(k, ck, hk, AfterBegin(l, c, h, s))
  {
  }

  /** The list on which the constructor's next function acts. */
  function Target(s: Settling): nat {
    if s.done == 1 then Other(s.winner) else if s.done == 2 then Other(s.winner) + HANDLERS
    else if s.done == 3 then PROGRESS else HANDLERS
  }

  /** For all other lists it makes no difference that the function has run. */
  lemma ConfigAdvances(k: nat, c: Callbacks, h: History, s: Settling)
    requires ListConfig(k, c, h, s) && (s.winner == DONE || s.winner == FAIL) && s.done < 5
    requires s.done > 0 ==> k != Target(s)
    requires k == s.winner ==> c.firing && |h.passes| == 1
    requires k == s.winner + HANDLERS ==> h.passes == [] && c.alive && !c.locked
    ensures ListConfig(k, c, h, s.(done := s.done + 1))
  {
  }

  ghost predicate Alive(w: Snapshot, l: nat) {
    l < |w.lists| == |w.hist|
  }

  /** List l is in a pass and its entry at firingIndex is being called. */
  ghost predicate Running(w: Snapshot, l: nat) {
    Alive(w, l) && w.lists[l].firing && 0 <= w.lists[l].firingIndex < |w.lists[l].list|
  }

  /** The handlers of the winning list have not been touched yet. */
  ghost predicate HandlersFresh(w: Snapshot) {
    var t := w.settling.winner + HANDLERS;
    Alive(w, t) && w.hist[t].passes == [] && w.lists[t].alive && !w.lists[t].locked
  }

  /** In the winner's first pass, i of the constructor's functions have run, 6 once i is past them. */
  ghost predicate InStep(w: Snapshot, l: nat, i: int) {
    && Alive(w, l)
    && (l == w.settling.winner != 0 && |w.hist[l].passes| == 1 ==> w.settling.done == if i < 6 then i else 6)
    && (Advancing(w.settling, l) ==> |w.hist[l].passes| == 1 && HandlersFresh(w))
  }

  function Next(s: Settling): Settling {
    s.(done := s.done + 1)
  }

  /** The functions of the constructor that record the state, disable the opposite lists and lock progress. */
  ghost function AfterSettle(w: Snapshot, entry: Entry): Snapshot
  {
    match entry
    case SetState(to) => w.(state := to, settling := Next(w.settling))
    case Disable(t) =>
      if !Alive(w, t) then w else Put(w, t, Disabled(w.lists[t]), Emptied(w.hist[t]), Next(w.settling))
    case Lock(t) =>
      if !Alive(w, t) then w else Put(w, t, LockedUp(w.lists[t]), NoteLock(w.lists[t], w.hist[t]), Next(w.settling))
    case _ => w
  }

  /** An entry that is no user's and fires no handlers is the constructor's next function. */
  lemma NextFunction(w: Snapshot, l: nat)
    requires Inv(w) && Running(w, l) && InStep(w, l, w.lists[l].firingIndex)
    requires var entry := w.lists[l].list[w.lists[l].firingIndex]; !entry.User? && !entry.FireList?
    ensures Advancing(w.settling, l) && w.settling.done < 5 && HandlersFresh(w) && (l == DONE || l == FAIL)
    ensures w.lists[l].list[w.lists[l].firingIndex] == Prefix(l)[w.settling.done]
    ensures w.hist[Other(l)].passes == [] && |w.hist[l].passes| == 1
  {
    assert ListInv(w.lists[l], w.hist[l]) && ListConfig(l, w.lists[l], w.hist[l], w.settling);
    var o := Other(l);
    assert ListInv(w.lists[o], w.hist[o]) && ListConfig(o, w.lists[o], w.hist[o], w.settling);
  }

  lemma OthersAdvance(w: Snapshot, l: nat)
    requires Inv(w) && Alive(w, l) && Advancing(w.settling, l) && w.settling.done < 5 && HandlersFresh(w)
    requires (l == DONE || l == FAIL) && w.lists[l].firing && |w.hist[l].passes| == 1
    ensures forall k {:trigger ListConfig(k, w.lists[k], w.hist[k], Next(w.settling))} ::
      0 <= k < |w.lists| && (w.settling.done > 0 ==> k != Target(w.settling)) ==>
        ListConfig(k, w.lists[k], w.hist[k], Next(w.settling))
  {
    forall k | 0 <= k < |w.lists| && (w.settling.done > 0 ==> k != Target(w.settling))
      ensures ListConfig(k, w.lists[k], w.hist[k], Next(w.settling))
    {
      assert ListConfig(k, w.lists[k], w.hist[k], w.settling);
      ConfigAdvances(k, w.lists[k], w.hist[k], w.settling);
    }
  }

  lemma SettleKeeps(w: Snapshot, l: nat)
    requires Inv(w) && Running(w, l) && InStep(w, l, w.lists[l].firingIndex)
    requires var entry := w.lists[l].list[w.lists[l].firingIndex]; !entry.User? && !entry.FireList?
    ensures var entry := w.lists[l].list[w.lists[l].firingIndex];
      && (entry.Disable? || entry.Lock? ==> Alive(w, entry.target) && entry.target != l)
      && var w' := AfterSettle(w, entry);
      Inv(w') && Kept(w, w', |w.lists|) && HandlersFresh(w') && w'.settling == Next(w.settling)
    ensures Advancing(w.settling, l)
  {
    NextFunction(w, l);
    OthersAdvance(w, l);
    var entry := w.lists[l].list[w.lists[l].firingIndex];
    if entry.SetState? {
      RecordKeeps(w, entry.to);
    } else {
      TargetSettles(w, l, entry);
    }
  }

  lemma RecordKeeps(w: Snapshot, to: State)
    requires Inv(w) && w.settling.done == 0 && 1 <= w.settling.winner <= 2 && to == Final(w.settling.winner)
    requires forall k {:trigger ListConfig(k, w.lists[k], w.hist[k], Next(w.settling))} ::
      0 <= k < |w.lists| ==> ListConfig(k, w.lists[k], w.hist[k], Next(w.settling))
    ensures var w' := w.(state := to, settling := Next(w.settling)); Inv(w') && Kept(w, w', |w.lists|)
  {
    var w' := w.(state := to, settling := Next(w.settling));
    forall k | 0 <= k < |w.lists| ensures ListConfig(k, w'.lists[k], w'.hist[k], w'.settling) {
      assert ListConfig(k, w.lists[k], w.hist[k], Next(w.settling));
    }
    forall k | 0 <= k < |w.lists| ensures ListInv(w'.lists[k], w'.hist[k]) {
      assert ListInv(w.lists[k], w.hist[k]);
    }
  }

  /** The constructor's functions after the first act on the lists that Target names. */
  lemma PrefixTargets(l: nat, s: Settling)
    requires l == s.winner && (l == DONE || l == FAIL) && 1 <= s.done < 5
    ensures Prefix(l)[s.done] == (if s.done <= 2 then Disable(Target(s)) else Lock(Target(s)))
  {
  }

  lemma TargetSettles(w: Snapshot, l: nat, entry: Entry)
    requires Inv(w) && Alive(w, l) && (l == DONE || l == FAIL) && Advancing(w.settling, l) && HandlersFresh(w)
    requires 1 <= w.settling.done < 5 && entry == Prefix(l)[w.settling.done] && w.hist[Other(l)].passes == []
    requires forall k {:trigger ListConfig(k, w.lists[k], w.hist[k], Next(w.settling))} ::
      0 <= k < |w.lists| && k != Target(w.settling) ==> ListConfig(k, w.lists[k], w.hist[k], Next(w.settling))
    ensures (entry.Disable? || entry.Lock?) && Alive(w, entry.target) && entry.target != l
    ensures var w' := AfterSettle(w, entry); Inv(w') && Kept(w, w', |w.lists|) && HandlersFresh(w')
  {
    PrefixTargets(l, w.settling);
    var t := Target(w.settling);
    var c, h := w.lists[t], w.hist[t];
    Facts(w, t);
    if entry.Disable? {
      TargetDisabled(c, h, t, w.settling);
      TargetPut(w, t, Disabled(c), Emptied(h));
      assert AfterSettle(w, entry) == Put(w, t, Disabled(c), Emptied(h), Next(w.settling));
    } else {
      TargetLocked(c, h, t, w.settling);
      TargetPut(w, t, LockedUp(c), NoteLock(c, h));
      assert AfterSettle(w, entry) == Put(w, t, LockedUp(c), NoteLock(c, h), Next(w.settling));
    }
  }

  lemma TargetPut(w: Snapshot, t: nat, c: Callbacks, h: History)
    requires Inv(w) && HandlersFresh(w) && t == Target(w.settling)
    requires 1 <= w.settling.winner <= 2 && 1 <= w.settling.done < 5
    requires ListInv(c, h) && ListConfig(t, c, h, Next(w.settling))
    requires PassesGrew(w.lists[t], c, w.hist[t], h) && SamePass(t, w.lists[t], c, w.hist[t], h)
    requires forall k {:trigger ListConfig(k, w.lists[k], w.hist[k], Next(w.settling))} ::
      0 <= k < |w.lists| && k != t ==> ListConfig(k, w.lists[k], w.hist[k], Next(w.settling))
    ensures var w' := Put(w, t, c, h, Next(w.settling)); Inv(w') && Kept(w, w', |w.lists|) && HandlersFresh(w')
  {
    PutSettles(w, t, c, h, Next(w.settling));
    PutIsKept(w, t, c, h, Next(w.settling));
  }

  lemma TargetDisabled(c: Callbacks, h: History, t: nat, s: Settling)
    requires ListInv(c, h) && ListConfig(t, c, h, s) && t == Target(s) && 1 <= s.winner <= 2 && 1 <= s.done <= 2
    ensures ListInv(Disabled(c), Emptied(h)) && ListConfig(t, Disabled(c), Emptied(h), Next(s))
    ensures PassesGrew(c, Disabled(c), h, Emptied(h)) && SamePass(t, c, Disabled(c), h, Emptied(h))
  {
    DisableKeeps(c, h);
  }

  lemma TargetLocked(c: Callbacks, h: History, t: nat, s: Settling)
    requires ListInv(c, h) && ListConfig(t, c, h, s) && t == Target(s) && 1 <= s.winner <= 2 && 3 <= s.done <= 4
    ensures ListInv(LockedUp(c), NoteLock(c, h)) && ListConfig(t, LockedUp(c), NoteLock(c, h), Next(s))
    ensures PassesGrew(c, LockedUp(c), h, NoteLock(c, h)) && SamePass(t, c, LockedUp(c), h, NoteLock(c, h))
  {
    LockKeeps(c, h);
  }

  // ----- firing

  ghost function Queued(w: Snapshot, l: nat, args: Args): Snapshot
    requires Alive(w, l)
  {
    Put(w, l, Pushed(w.lists[l], args), NotePush(w.hist[l], args), w.settling)
  }

  lemma QueueKeeps(w: Snapshot, l: nat, args: Args)
    requires Inv(w) && Alive(w, l) && w.lists[l].alive
    requires w.lists[l].locked ==> !w.lists[l].firing && w.lists[l].memory == Some(args)
    ensures var w' := Queued(w, l, args);
      InvBut(w', l) && Kept(w, w', |w.lists|) && if w.lists[l].firing then Inv(w') else Primed(w'.lists[l], w'.hist[l])
  {
    var c, h := w.lists[l], w.hist[l];
    Facts(w, l);
    QueueSteps(l, c, h, w.settling, args);
    PutKeeps(w, l, Pushed(c, args), NotePush(h, args));
    PutIsKept(w, l, Pushed(c, args), NotePush(h, args), w.settling);
  }

  lemma QueueSteps(l: nat, c: Callbacks, h: History, s: Settling, args: Args)
    requires ListInv(c, h) && ListConfig(l, c, h, s) && c.alive
    requires c.locked ==> !c.firing && c.memory == Some(args)
    ensures ListConfig(l, Pushed(c, args), NotePush(h, args), s)
    ensures if c.firing then ListInv(Pushed(c, args), NotePush(h, args)) else Primed(Pushed(c, args), NotePush(h, args))
    ensures PassesGrew(c, Pushed(c, args), h, NotePush(h, args))
    ensures SamePass(l, c, Pushed(c, args), h, NotePush(h, args))
  {
    if c.firing { PushKeeps(c, h, args); } else { PushPrimes(c, h, args); }
  }

  ghost function Started(w: Snapshot, l: nat): Snapshot
    requires Alive(w, l) && w.lists[l].queue != []
  {
    var c, h := w.lists[l], w.hist[l];
    Put(w, l, Begun(c), NoteBegin(c, h), AfterBegin(l, c, h, w.settling))
  }

  /** Something is queued on list l, and if it is a handler list, its main list has settled with those arguments. */
  ghost predicate CanStart(w: Snapshot, l: nat) {
    && InvBut(w, l) && Alive(w, l) && w.lists[l].queue != [] && Stable(w.settling)
    && (Primed(w.lists[l], w.hist[l]) || (Between(w.lists[l], w.hist[l]) && !Advancing(w.settling, l)))
    && (l == DONE + HANDLERS || l == FAIL + HANDLERS ==>
      w.settling.winner == l - HANDLERS && (w.hist[l].passes == [] ==> w.lists[l].queue[0] == w.settling.args))
  }

  lemma StartKeeps(w: Snapshot, l: nat)
    requires CanStart(w, l)
    ensures var w' := Started(w, l); Inv(w') && Kept(w, w', l) && InStep(w', l, w'.lists[l].firingIndex + 1)
    ensures var s' := Started(w, l).settling;
      SettledKept(w.settling, s') && (Advancing(s', l) || (s' == w.settling && Stable(s')))
  {
    var c, h := w.lists[l], w.hist[l];
    OthersBegin(w, l);
    ThisBegins(w, l);
    ThisConfigBegins(w, l);
    PutSettles(w, l, Begun(c), NoteBegin(c, h), AfterBegin(l, c, h, w.settling));
    StartsInStep(w, l);
    BeginGrew(c, h);
    PutIsKept(w, l, Begun(c), NoteBegin(c, h), AfterBegin(l, c, h, w.settling));
  }

  lemma BeginGrew(c: Callbacks, h: History)
    requires c.queue != []
    ensures PassesGrew(c, Begun(c), h, NoteBegin(c, h))
  {
    var h' := NoteBegin(c, h);
    assert forall j :: 0 <= j < |h.passes| ==> h'.passes[j] == h.passes[j];
  }

  lemma ThisBegins(w: Snapshot, l: nat)
    requires CanStart(w, l)
    ensures ListInv(Begun(w.lists[l]), NoteBegin(w.lists[l], w.hist[l]))
  {
    BeginStartsPass(w.lists[l], w.hist[l]);
  }

  lemma ThisConfigBegins(w: Snapshot, l: nat)
    requires CanStart(w, l)
    ensures var c, h := w.lists[l], w.hist[l];
      && ListConfig(l, Begun(c), NoteBegin(c, h), AfterBegin(l, c, h, w.settling))
      && StateConfig(w.state, AfterBegin(l, c, h, w.settling))
  {
    var c, h := w.lists[l], w.hist[l];
    assert ListConfig(l, c, h, w.settling);
    assert l == DONE || l == FAIL ==> Primed(c, h);
    ConfigBegins(l, c, h, w.settling);
  }

  lemma StartsInStep(w: Snapshot, l: nat)
    requires CanStart(w, l)
    ensures var w' := Started(w, l); InStep(w', l, w'.lists[l].firingIndex + 1)
    ensures var s' := Started(w, l).settling;
      SettledKept(w.settling, s') && (Advancing(s', l) || (s' == w.settling && Stable(s')))
  {
    assert ListConfig(l, w.lists[l], w.hist[l], w.settling);
    if l == DONE || l == FAIL {
      assert ListConfig(l + HANDLERS, w.lists[l + HANDLERS], w.hist[l + HANDLERS], w.settling);
      assert Primed(w.lists[l], w.hist[l]);
    }
  }

  lemma OthersBegin(w: Snapshot, l: nat)
    requires CanStart(w, l)
    ensures var next := AfterBegin(l, w.lists[l], w.hist[l], w.settling);
      forall k {:trigger ListConfig(k, w.lists[k], w.hist[k], next)} ::
        0 <= k < |w.lists| && k != l ==> ListConfig(k, w.lists[k], w.hist[k], next)
  {
    var c, h := w.lists[l], w.hist[l];
    assert ListConfig(l, c, h, w.settling);
    forall k | 0 <= k < |w.lists| && k != l
      ensures ListConfig(k, w.lists[k], w.hist[k], AfterBegin(l, c, h, w.settling))
    {
      assert ListConfig(k, w.lists[k], w.hist[k], w.settling);
      OtherConfigBegins(k, w.lists[k], w.hist[k], l, c, h, w.settling);
    }
  }

  /** The last call on record is that of the entry at firingIndex with the arguments of the pass. */
  predicate JustCalled(c: Callbacks) {
    && 0 <= c.firingIndex < |c.list| && c.memory.Some? && c.made != []
    && c.made[|c.made| - 1] == Made(c.list[c.firingIndex], c.memory.value)
  }

  /** ++firingIndex, and the call that follows. */
  ghost function Calling(w: Snapshot, l: nat): Snapshot
    requires Alive(w, l) && w.hist[l].passes != [] && w.hist[l].ahead != []
  {
    Put(w, l, Advanced(w.lists[l]), NoteCall(w.hist[l]), w.settling)
  }

  lemma CallingKeeps(w: Snapshot, l: nat)
    requires Inv(w) && Alive(w, l) && w.lists[l].firing && w.lists[l].firingIndex + 1 < |w.lists[l].list|
    requires InStep(w, l, w.lists[l].firingIndex + 1)
    ensures w.hist[l].passes != [] && w.hist[l].ahead != []
    ensures Inv(Calling(w, l)) && Kept(w, Calling(w, l), l)
    ensures var w' := Calling(w, l); Running(w', l) && InStep(w', l, w'.lists[l].firingIndex)
    ensures JustCalled(Calling(w, l).lists[l])
  {
    var c, h := w.lists[l], w.hist[l];
    Facts(w, l);
    CallSteps(l, c, h, w.settling);
    PutKeeps(w, l, Advanced(c), NoteCall(h));
    PutIsKept(w, l, Advanced(c), NoteCall(h), w.settling);
    CallingInStep(w, l);
  }

  lemma CallSteps(l: nat, c: Callbacks, h: History, s: Settling)
    requires ListInv(c, h) && ListConfig(l, c, h, s) && c.firing && c.firingIndex + 1 < |c.list|
    ensures h.passes != [] && h.ahead != []
    ensures ListInv(Advanced(c), NoteCall(h)) && ListConfig(l, Advanced(c), NoteCall(h), s)
    ensures PassesGrew(c, Advanced(c), h, NoteCall(h)) && JustCalled(Advanced(c)) && Advanced(c).firing
  {
    CallKeeps(c, h);
    CallGrew(c, h);
    CallConfig(l, c, h, s);
  }

  lemma CallingInStep(w: Snapshot, l: nat)
    requires Alive(w, l) && w.hist[l].passes != [] && w.hist[l].ahead != [] && w.lists[l].firing
    requires InStep(w, l, w.lists[l].firingIndex + 1) && JustCalled(Advanced(w.lists[l]))
    ensures var w' := Calling(w, l); Running(w', l) && InStep(w', l, w'.lists[l].firingIndex)
  {
    if Advancing(w.settling, l) {
      assert HandlersFresh(Calling(w, l));
    }
  }

  lemma CallGrew(c: Callbacks, h: History)
    requires h.passes != [] && h.ahead != []
    ensures PassesGrew(c, Advanced(c), h, NoteCall(h))
  {
    var h' := NoteCall(h);
    forall j | 0 <= j < |h.passes| ensures SameTask(h.passes[j], h'.passes[j], h.next) {
      if j < |h.passes| - 1 { assert h'.passes[j] == h.passes[j]; }
    }
  }

  lemma CallConfig(l: nat, c: Callbacks, h: History, s: Settling)
    requires ListConfig(l, c, h, s) && c.firing && h.passes != [] && h.ahead != []
    ensures ListConfig(l, Advanced(c), NoteCall(h), s)
  {
    assert |h.passes| > 1 ==> NoteCall(h).passes[0] == h.passes[0];
  }

  ghost function Ended(w: Snapshot, l: nat): Snapshot
    requires Alive(w, l)
  {
    Put(w, l, PassEnded(w.lists[l]), NoteEnd(w.hist[l]), w.settling)
  }

  /** The winner's first pass does not end before all of the constructor's functions have run. */
  lemma EndKeeps(w: Snapshot, l: nat)
    requires AtTurn(w, l) && w.lists[l].firingIndex + 1 == |w.lists[l].list|
    ensures PassOver(Ended(w, l), l) && Kept(w, Ended(w, l), l)
  {
    var c, h := w.lists[l], w.hist[l];
    assert ListInv(c, h) && ListConfig(l, c, h, w.settling);
    EndCompletesPass(c, h);
    PutKeeps(w, l, PassEnded(c), NoteEnd(h));
    PutIsKept(w, l, PassEnded(c), NoteEnd(h), w.settling);
  }

  ghost function Over(w: Snapshot, l: nat): Snapshot
    requires Alive(w, l)
  {
    Put(w, l, Finished(w.lists[l]), NoteFinish(w.lists[l], w.hist[l]), w.settling)
  }

  lemma FinishKeeps(w: Snapshot, l: nat)
    requires InvBut(w, l) && Alive(w, l) && Between(w.lists[l], w.hist[l])
    requires w.lists[l].queue == [] && !Advancing(w.settling, l)
    ensures var w' := Over(w, l); Inv(w') && Kept(w, w', l) && !w'.lists[l].firing
  {
    var c, h := w.lists[l], w.hist[l];
    assert ListConfig(l, c, h, w.settling);
    FinishIsIdle(c, h);
    PutKeeps(w, l, Finished(c), NoteFinish(c, h));
    PutIsKept(w, l, Finished(c), NoteFinish(c, h), w.settling);
  }

  /** The handlers have been fired. */
  lemma HandlersDone(w: Snapshot)
    requires Inv(w) && 1 <= w.settling.winner <= 2 && w.settling.done == 5
    requires w.hist[w.settling.winner + HANDLERS].passes != []
    requires w.lists[w.settling.winner].firing && |w.hist[w.settling.winner].passes| == 1
    ensures Inv(w.(settling := Next(w.settling)))
  {
    var w' := w.(settling := Next(w.settling));
    forall k | 0 <= k < |w.lists| ensures ListConfig(k, w'.lists[k], w'.hist[k], w'.settling) {
      assert ListConfig(k, w.lists[k], w.hist[k], w.settling);
    }
    forall k | 0 <= k < |w.lists| ensures ListInv(w'.lists[k], w'.hist[k]) {
      assert ListInv(w.lists[k], w.hist[k]);
    }
  }

  // ----- add, remove and lock

  /** The list takes one more entry now: in a pass, about to fire, or idle with nothing to fire with. */
  ghost predicate Open(c: Callbacks, h: History) {
    c.alive && (if c.firing then InPass(c, h) else Primed(c, h) || (Idle(c, h) && c.memory.None?))
  }

  ghost function WithEntry(w: Snapshot, l: nat, e: Entry): Snapshot
    requires Alive(w, l)
  {
    Put(w, l, Appended(w.lists[l], e), NoteAppend(w.lists[l], w.hist[l], e), w.settling)
  }

  lemma AppendSteps(c: Callbacks, h: History, e: Entry)
    requires Open(c, h)
    ensures Open(Appended(c, e), NoteAppend(c, h, e)) && (Primed(c, h) ==> Primed(Appended(c, e), NoteAppend(c, h, e)))
    ensures PassesGrew(c, Appended(c, e), h, NoteAppend(c, h, e))
    ensures SamePass(0, c, Appended(c, e), h, NoteAppend(c, h, e))
  {
    if c.firing { AppendKeepsPass(c, h, e); } else { AppendKeepsIdle(c, h, e); }
    var h' := NoteAppend(c, h, e);
    forall j | 0 <= j < |h.passes| ensures SameTask(h.passes[j], h'.passes[j], h.next) {
      if c.firing && j < |h.passes| - 1 { assert h'.passes[j] == h.passes[j]; }
    }
  }

  lemma AppendConfig(l: nat, c: Callbacks, h: History, s: Settling, id: nat)
    requires ListConfig(l, c, h, s) && c.alive && (c.firing ==> h.passes != [])
    ensures ListConfig(l, Appended(c, User(id)), NoteAppend(c, h, User(id)), s)
  {
    var list := c.list + [User(id)];
    assert |c.list| >= 6 ==> list[..6] == c.list[..6] && list[6..] == c.list[6..] + [User(id)];
    assert c.firing && |h.passes| > 1 ==> NoteAppend(c, h, User(id)).passes[0] == h.passes[0];
  }

  lemma AppendKeeps(w: Snapshot, l: nat, id: nat)
    requires InvBut(w, l) && Alive(w, l) && Open(w.lists[l], w.hist[l])
    ensures var w' := WithEntry(w, l, User(id));
      InvBut(w', l) && Kept(w, w', |w.lists|) && Open(w'.lists[l], w'.hist[l])
      && (Primed(w.lists[l], w.hist[l]) ==> Primed(w'.lists[l], w'.hist[l]))
  {
    var c, h := w.lists[l], w.hist[l];
    assert ListConfig(l, c, h, w.settling);
    AppendSteps(c, h, User(id));
    AppendConfig(l, c, h, w.settling, id);
    PutKeeps(w, l, Appended(c, User(id)), NoteAppend(c, h, User(id)));
    PutIsKept(w, l, Appended(c, User(id)), NoteAppend(c, h, User(id)), w.settling);
  }

  /** What the entries given to add become. */
  function Extended(list: seq<Entry>, ids: seq<nat>, unique: bool): seq<Entry> {
    if ids == [] then list
    else
      var n := |ids| - 1;
      var before := Extended(list, ids[..n], unique);
      if unique && User(ids[n]) in before then before else before + [User(ids[n])]
  }

  function WithAdded(c: Callbacks, ids: seq<nat>): Callbacks {
    c.(list := Extended(c.list, ids, c.options.unique))
  }

  /** From a to b, ids were added to list l: appended to it unless it is unique and has them already, each as a
      new occurrence. No pass begins. */
  ghost predicate Grown(a: Snapshot, b: Snapshot, l: nat, ids: seq<nat>) {
    && Alive(a, l) && InvBut(b, l) && Alive(b, l) && Open(b.lists[l], b.hist[l])
    && (Primed(a.lists[l], a.hist[l]) ==> Primed(b.lists[l], b.hist[l]))
    && b.settling == a.settling && b.state == a.state
    && b.lists == a.lists[l := WithAdded(a.lists[l], ids)]
    && b.hist == a.hist[l := b.hist[l]] && OccurrencesGrew(a.lists[l], a.hist[l], b.hist[l])
    && |b.hist[l].past| + |b.hist[l].ahead| == |b.lists[l].list|
  }

  ghost predicate OccurrencesGrew(c: Callbacks, h0: History, h: History) {
    && (!c.firing ==> h.passes == h0.passes) && h.past == h0.past && h0.ahead <= h.ahead
    && h0.next <= h.next && h.pushed == h0.pushed
    && forall k :: |h0.ahead| <= k < |h.ahead| ==> h.ahead[k] >= h0.next
  }

  /** Every id is appended, or, on a unique list, each that is not there yet, once. */
  lemma {:induction false} ExtendedMeans(list: seq<Entry>, ids: seq<nat>, unique: bool)
    ensures list <= Extended(list, ids, unique)
    ensures !unique ==> Extended(list, ids, unique) == list + seq(|ids|, i requires 0 <= i < |ids| => User(ids[i]))
    ensures forall e :: e in Extended(list, ids, unique) <==> e in list || (e.User? && e.id in ids)
    ensures unique ==> forall i, j :: 0 <= i < j < |Extended(list, ids, unique)| && |list| <= j ==>
      Extended(list, ids, unique)[i] != Extended(list, ids, unique)[j]
    decreases |ids|
  {
    if ids != [] {
      var n := |ids| - 1;
      ExtendedMeans(list, ids[..n], unique);
      assert ids == ids[..n] + [ids[n]];
      var users := seq(|ids|, i requires 0 <= i < |ids| => User(ids[i]));
      assert users == seq(n, i requires 0 <= i < n => User(ids[..n][i])) + [User(ids[n])];
    }
  }

  /** If the list does not have to fire then, that is all. */
  lemma GrownOpen(a: Snapshot, b: Snapshot, l: nat, ids: seq<nat>)
    requires Grown(a, b, l, ids) && Inv(a) && (a.lists[l].firing || a.lists[l].memory.None?)
    ensures Inv(b)
  {
    Facts(a, l);
  }

  lemma NothingAppended(a: Snapshot, l: nat)
    requires InvBut(a, l) && Alive(a, l) && Open(a.lists[l], a.hist[l])
    ensures Grown(a, a, l, [])
  {
    assert WithAdded(a.lists[l], []) == a.lists[l];
  }

  lemma ExtendedSnoc(list: seq<Entry>, ids: seq<nat>, id: nat, unique: bool)
    ensures var before := Extended(list, ids, unique);
      Extended(list, ids + [id], unique) == if unique && User(id) in before then before else before + [User(id)]
  {
    assert (ids + [id])[..|ids|] == ids;
  }

  lemma NoneAppended(a: Snapshot, b: Snapshot, l: nat, ids: seq<nat>, id: nat)
    requires Grown(a, b, l, ids) && b.lists[l].options.unique && User(id) in b.lists[l].list
    ensures Grown(a, b, l, ids + [id])
  {
    ExtendedSnoc(a.lists[l].list, ids, id, a.lists[l].options.unique);
  }

  lemma OneAppended(a: Snapshot, b: Snapshot, l: nat, ids: seq<nat>, id: nat)
    requires Grown(a, b, l, ids) && (!b.lists[l].options.unique || User(id) !in b.lists[l].list)
    ensures Grown(a, WithEntry(b, l, User(id)), l, ids + [id])
  {
    var b' := WithEntry(b, l, User(id));
    ExtendedSnoc(a.lists[l].list, ids, id, a.lists[l].options.unique);
    AppendKeeps(b, l, id);
    OccurrenceAdded(a.lists[l], b.lists[l], a.hist[l], b.hist[l], User(id));
  }

  lemma OccurrenceAdded(c0: Callbacks, c: Callbacks, h0: History, h: History, e: Entry)
    requires OccurrencesGrew(c0, h0, h) && c.firing == c0.firing
    ensures OccurrencesGrew(c0, h0, NoteAppend(c, h, e))
  {
  }

  ghost function Rekindled(w: Snapshot, l: nat): Snapshot
    requires Alive(w, l) && w.lists[l].memory.Some?
  {
    Put(w, l, Remembering(w.lists[l]), NoteRemember(w.hist[l], w.lists[l].memory.value), w.settling)
  }

  lemma RekindleKeeps(w: Snapshot, l: nat)
    requires Inv(w) && Alive(w, l) && !w.lists[l].firing && w.lists[l].memory.Some? && w.lists[l].alive
    ensures var w' := Rekindled(w, l); InvBut(w', l) && Kept(w, w', |w.lists|) && Primed(w'.lists[l], w'.hist[l])
    ensures w.hist[l].passes != []
  {
    var c, h := w.lists[l], w.hist[l];
    assert ListInv(c, h) && ListConfig(l, c, h, w.settling);
    RememberPrimes(c, h);
    PutKeeps(w, l, Remembering(c), NoteRemember(h, c.memory.value));
    PutIsKept(w, l, Remembering(c), NoteRemember(h, c.memory.value), w.settling);
  }

  /** The memorized arguments went to the entries added now, and to none that was in the list before. */
  ghost predicate FiredNewOnly(c0: Callbacks, h0: History, h: History, ids: seq<nat>) {
    var n := |h0.passes|;
    && n < |h.passes| && c0.memory == Some(h.passes[n].args)
    && |h.passes[n].due| >= |Extended(c0.list, ids, c0.options.unique)| - |c0.list|
    && forall i :: 0 <= i < |h.passes[n].due| ==> h.passes[n].due[i] >= h0.next
  }

  /** A pass with these arguments was made; what it had to call are these occurrences and ones added meanwhile. */
  ghost predicate NewPass(h0: History, h: History, args: Args, due: seq<nat>) {
    var n := |h0.passes|;
    && n < |h.passes| && h.passes[n].args == args && due <= h.passes[n].due
    && forall i :: |due| <= i < |h.passes[n].due| ==> h.passes[n].due[i] >= h0.next
  }

  lemma AnotherPass(w: Snapshot, l: nat)
    requires PassOver(w, l) && w.lists[l].queue != []
    ensures CanStart(w, l)
  {
    Facts(w, l);
  }

  lemma NewOnly(a: Snapshot, b: Snapshot, c: Snapshot, l: nat, ids: seq<nat>)
    requires Inv(a) && Alive(a, l) && !a.lists[l].firing && a.lists[l].memory.Some? && a.lists[l].alive
    requires Grown(Rekindled(a, l), b, l, ids) && Fired(b, c, l)
    ensures FiredNewOnly(a.lists[l], a.hist[l], c.hist[l], ids)
  {
    Facts(a, l);
  }

  lemma LoadedCanStart(a: Snapshot, b: Snapshot, l: nat, ids: seq<nat>)
    requires Inv(a) && Stable(a.settling) && Alive(a, l)
    requires a.lists[l].alive && !a.lists[l].firing && a.lists[l].memory.Some?
    requires Grown(Rekindled(a, l), b, l, ids)
    ensures CanStart(b, l) && Primed(b.lists[l], b.hist[l])
  {
    RekindleKeeps(a, l);
    Facts(a, l);
  }

  ghost function Shortened(w: Snapshot, l: nat, i: nat): Snapshot
    requires Alive(w, l) && i < |w.lists[l].list| && i < |w.hist[l].past| + |w.hist[l].ahead|
  {
    Put(w, l, SplicedOut(w.lists[l], i), NoteRemove(w.lists[l], w.hist[l], i), w.settling)
  }

  lemma RemoveGrew(c: Callbacks, h: History, i: nat)
    requires ListInv(c, h) && i < |c.list|
    ensures PassesGrew(c, SplicedOut(c, i), h, NoteRemove(c, h, i))
    ensures SamePass(PLAIN, c, SplicedOut(c, i), h, NoteRemove(c, h, i))
  {
  }

  lemma ShortenKeeps(w: Snapshot, l: nat, i: nat)
    requires Inv(w) && Alive(w, l) && l >= PLAIN && i < |w.lists[l].list|
    ensures i < |w.hist[l].past| + |w.hist[l].ahead|
    ensures var w' := Shortened(w, l, i); Inv(w') && Kept(w, w', |w.lists|)
  {
    var c, h := w.lists[l], w.hist[l];
    assert ListInv(c, h) && ListConfig(l, c, h, w.settling);
    RemoveKeeps(c, h, i);
    RemoveGrew(c, h, i);
    assert AllUsers(SplicedOut(c, i).list);
    PutKeeps(w, l, SplicedOut(c, i), NoteRemove(c, h, i));
    PutIsKept(w, l, SplicedOut(c, i), NoteRemove(c, h, i), w.settling);
  }

  ghost function Locked(w: Snapshot, l: nat): Snapshot
    requires Alive(w, l)
  {
    Put(w, l, LockedUp(w.lists[l]), NoteLock(w.lists[l], w.hist[l]), w.settling)
  }

  lemma LockListKeeps(w: Snapshot, l: nat)
    requires Inv(w) && Alive(w, l) && l >= PLAIN
    ensures Inv(Locked(w, l)) && Kept(w, Locked(w, l), |w.lists|)
  {
    var c, h := w.lists[l], w.hist[l];
    assert ListInv(c, h) && ListConfig(l, c, h, w.settling);
    LockKeeps(c, h);
    PutKeeps(w, l, LockedUp(c), NoteLock(c, h));
    PutIsKept(w, l, LockedUp(c), NoteLock(c, h), w.settling);
  }

  /** After a call, the count of functions run is in step with the next index. */
  lemma InvokedInStep(a: Snapshot, b: Snapshot, l: nat)
    requires Inv(a) && Inv(b) && Kept(a, b, |a.lists|) && Running(a, l) && InStep(a, l, a.lists[l].firingIndex)
    requires Advancing(b.settling, l) ==> HandlersFresh(b)
    requires if Advancing(a.settling, l) then b.settling == Next(a.settling)
      else SettledKept(a.settling, b.settling) && Stable(b.settling)
    ensures Alive(b, l) && b.lists[l].firing && InStep(b, l, b.lists[l].firingIndex + 1)
    ensures -1 <= b.lists[l].firingIndex < |b.lists[l].list|
    ensures !Advancing(a.settling, l) ==> !Advancing(b.settling, l)
    ensures Advancing(b.settling, l) || Stable(b.settling)
  {
    assert ListInv(a.lists[l], a.hist[l]) && ListConfig(l, a.lists[l], a.hist[l], a.settling);
    assert ListInv(b.lists[l], b.hist[l]) && ListConfig(l, b.lists[l], b.hist[l], b.settling);
  }

  /** What the invocation leaves alone, the turn leaves alone. */
  lemma InvokedKeeps(a: Snapshot, b: Snapshot, l: nat)
    requires AtTurn(a, l) && a.lists[l].firingIndex + 1 < |a.lists[l].list|
    requires a.hist[l].passes != [] && a.hist[l].ahead != [] && Kept(a, Calling(a, l), l)
    requires Inv(Calling(a, l)) && Running(Calling(a, l), l)
    requires InStep(Calling(a, l), l, Calling(a, l).lists[l].firingIndex)
    requires Inv(b) && Kept(Calling(a, l), b, |a.lists|)
    requires Advancing(b.settling, l) ==> HandlersFresh(b)
    requires if Advancing(a.settling, l) then b.settling == Next(a.settling)
      else SettledKept(a.settling, b.settling) && Stable(b.settling)
    ensures AtTurn(b, l) && PassKept(a, b, l)
  {
    KeptTransitive(a, Calling(a, l), b, l);
    InvokedInStep(Calling(a, l), b, l);
  }

  // ----- what the invariant says of one list

  lemma Facts(w: Snapshot, l: nat)
    requires InvBut(w, l) && Alive(w, l)
    ensures Inv(w) ==> ListInv(w.lists[l], w.hist[l])
    ensures ListConfig(l, w.lists[l], w.hist[l], w.settling)
  {
    assert ListConfig(l, w.lists[l], w.hist[l], w.settling);
    if Inv(w) { assert ListInv(w.lists[l], w.hist[l]); }
  }

  /** The entry that fires handlers. */
  lemma FireListFacts(w: Snapshot, l: nat, target: nat)
    requires Inv(w) && Running(w, l) && InStep(w, l, w.lists[l].firingIndex)
    requires w.lists[l].list[w.lists[l].firingIndex] == FireList(target)
    ensures l < HANDLERS && target == l + HANDLERS && w.lists[l].memory.Some?
    ensures l == PROGRESS || (Advancing(w.settling, l) && w.settling.done == 5 && |w.hist[l].passes| == 1)
    ensures l != PROGRESS ==> w.lists[l].memory.value == w.settling.args && !w.lists[target].firing
  {
    Facts(w, l);
    FiresHandlers(l, w.lists[l], w.hist[l], w.settling, target);
    if l != PROGRESS {
      Facts(w, target);
      NotFiring(w.lists[target], w.hist[target]);
    }
  }

  /** In the done and fail lists it is the constructor's last function. */
  lemma FiresHandlers(l: nat, c: Callbacks, h: History, s: Settling, target: nat)
    requires ListInv(c, h) && ListConfig(l, c, h, s) && c.firing && 0 <= c.firingIndex < |c.list|
    requires c.list[c.firingIndex] == FireList(target)
    ensures l < HANDLERS && target == l + HANDLERS && c.memory.Some?
    ensures l != PROGRESS ==> c.firingIndex == 5 && l == s.winner && |h.passes| == 1 && c.memory.value == s.args
  {
  }

  /** A list that has never begun a pass is not firing. */
  lemma NotFiring(c: Callbacks, h: History)
    requires ListInv(c, h) && h.passes == []
    ensures !c.firing
  {
  }

  /** A user's entry comes after the constructor's, and settling cannot begin on a list that is firing already. */
  lemma UserFacts(w: Snapshot, l: nat)
    requires Inv(w) && Running(w, l) && InStep(w, l, w.lists[l].firingIndex)
    ensures w.lists[l].list[w.lists[l].firingIndex].User? ==> !Advancing(w.settling, l)
    ensures w.settling.winner == 0 ==> l != DONE && l != FAIL
    ensures l >= HANDLERS ==> w.lists[l].list[w.lists[l].firingIndex].User?
  {
    Facts(w, l);
  }

  /** List l made the pass that the first arguments in its queue were waiting for, over the entries after
      firingIndex. */
  ghost predicate Fired(a: Snapshot, b: Snapshot, l: nat) {
    && Kept(a, b, l) && SettledKept(a.settling, b.settling)
    && Alive(a, l) && Alive(b, l) && a.lists[l].queue != []
    && NewPass(a.hist[l], b.hist[l], a.lists[l].queue[0], a.hist[l].ahead)
  }

  lemma FiredStays(a: Snapshot, b: Snapshot, c: Snapshot, l: nat)
    requires Fired(a, b, l) && Kept(b, c, l) && SettledKept(b.settling, c.settling)
    ensures Fired(a, c, l)
  {
    KeptTransitive(a, b, c, l);
    NewPassStays(a.hist[l], b, c, l, a.lists[l].queue[0], a.hist[l].ahead);
  }

  lemma NewPassStays(h0: History, b: Snapshot, c: Snapshot, l: nat, args: Args, due: seq<nat>)
    requires Kept(b, c, l) && Alive(b, l) && h0.next <= b.hist[l].next && NewPass(h0, b.hist[l], args, due)
    ensures NewPass(h0, c.hist[l], args, due)
  {
    assert SameTask(b.hist[l].passes[|h0.passes|], c.hist[l].passes[|h0.passes|], b.hist[l].next);
  }

  // ----- a new Deferred

  /** A list to which the constructor has added some functions. */
  function Loaded(options: Options, entries: seq<Entry>): Callbacks {
    New(options).(list := entries)
  }

  ghost function LoadedHistory(entries: seq<Entry>): History {
    History(entries, [], seq(|entries|, i => i), |entries|, {}, [], [])
  }

  function FirstEntries(l: nat): seq<Entry> {
    if l == PROGRESS then [FireList(HANDLERS)] else if l < HANDLERS then Prefix(l) else []
  }

  function NewLists(plain: seq<Options>): seq<Callbacks> {
    seq(PLAIN + |plain|, l requires 0 <= l < PLAIN + |plain| =>
      Loaded(if l < PLAIN then OptionsOf(l) else plain[l - PLAIN], FirstEntries(l)))
  }

  ghost function NewHistories(n: nat): seq<History> {
    seq(n, l requires 0 <= l < n => LoadedHistory(FirstEntries(l)))
  }

  lemma NewDeferred(plain: seq<Options>)
    ensures Inv(Snapshot(NewLists(plain), NewHistories(PLAIN + |plain|), Pending, Settling(0, 0, 0)))
  {
    var w := Snapshot(NewLists(plain), NewHistories(PLAIN + |plain|), Pending, Settling(0, 0, 0));
    forall k | 0 <= k < |w.lists|
      ensures ListInv(w.lists[k], w.hist[k]) && ListConfig(k, w.lists[k], w.hist[k], w.settling)
    {
      NewListIsIdle(w.lists[k].options, FirstEntries(k));
      NewListConfig(k, w.lists[k].options);
    }
  }

  lemma NewListIsIdle(options: Options, entries: seq<Entry>)
    ensures Idle(Loaded(options, entries), LoadedHistory(entries))
  {
    var numbers := LoadedHistory(entries).ahead;
    forall o: nat | o < |entries| ensures o in numbers {
      assert numbers[o] == o;
    }
  }

  lemma NewListConfig(l: nat, options: Options)
    requires l < PLAIN ==> options == OptionsOf(l)
    ensures ListConfig(l, Loaded(options, FirstEntries(l)), LoadedHistory(FirstEntries(l)), Settling(0, 0, 0))
  {
  }

  // ----- what the invariant says of a Deferred

  /** The state is told by which of the two lists has fired, and never have both. */
  lemma StateTellsWhoFired(w: Snapshot)
    requires Inv(w) && Stable(w.settling)
    ensures w.state == Resolved <==> w.hist[DONE].passes != []
    ensures w.state == Rejected <==> w.hist[FAIL].passes != []
  {
    Facts(w, DONE);
    Facts(w, FAIL);
  }

  /** The lists of the Deferred: progress callbacks and their handlers "memory", the others "once memory". */
  lemma ListOptions(w: Snapshot, l: nat)
    requires Inv(w) && l < PLAIN
    ensures w.lists[l].options.memory && !w.lists[l].options.unique
    ensures w.lists[l].options.once <==> l == DONE || l == FAIL || l == DONE + HANDLERS || l == FAIL + HANDLERS
  {
    Facts(w, l);
  }

  /** Once no longer pending, the state never changes again. */
  lemma StateIsFinal(a: Snapshot, b: Snapshot)
    requires Inv(a) && Stable(a.settling) && Inv(b) && Stable(b.settling) && SettledKept(a.settling, b.settling)
    requires a.state != Pending
    ensures b.state == a.state
  {
    Facts(a, DONE);
  }

  /** From then on resolve, reject and notify find their lists locked, so that they do nothing. */
  lemma SettledIsLocked(w: Snapshot, l: nat)
    requires Inv(w) && Stable(w.settling) && w.state != Pending && l <= HANDLERS
    ensures w.lists[l].locked
  {
    Facts(w, l);
  }

  /** When the done list of a resolved Deferred or the fail list of a rejected one is not firing, every function ever
      added to it has been called, in exactly one pass, with the arguments of the call that settled the Deferred;
      the opposite list has called nothing. */
  lemma CallbacksRunOnce(w: Snapshot, l: nat, o: nat)
    requires Inv(w) && Stable(w.settling) && (l == DONE || l == FAIL) && w.state == Final(l)
    requires !w.lists[l].firing && o < w.hist[l].next
    ensures exists k :: 0 <= k < |w.hist[l].passes| && CalledOnlyIn(w.hist[l], o, k)
    ensures forall k :: 0 <= k < |w.hist[l].passes| ==> w.hist[l].passes[k].args == w.settling.args
    ensures w.hist[Other(l)].passes == []
  {
    StateTellsWhoFired(w);
    Facts(w, l);
    OnceMemoryCallsEachOnce(w.lists[l], w.hist[l], o);
  }

  /** The same for the handlers that then() has added, when neither list is firing: they run with those arguments too,
      once each. */
  lemma HandlersRunOnce(w: Snapshot, l: nat, o: nat)
    requires Inv(w) && Stable(w.settling) && (l == DONE || l == FAIL) && w.state == Final(l)
    requires !w.lists[l].firing && !w.lists[l + HANDLERS].firing && o < w.hist[l + HANDLERS].next
    ensures var h := w.hist[l + HANDLERS];
      exists k :: 0 <= k < |h.passes| && CalledOnlyIn(h, o, k)
    ensures var h := w.hist[l + HANDLERS];
      forall k :: 0 <= k < |h.passes| ==> h.passes[k].args == w.settling.args
    ensures w.hist[Other(l) + HANDLERS].passes == []
  {
    StateTellsWhoFired(w);
    Facts(w, l);
    Facts(w, l + HANDLERS);
    Facts(w, Other(l) + HANDLERS);
    OnceMemoryCallsEachOnce(w.lists[l + HANDLERS], w.hist[l + HANDLERS], o);
  }
}
