/** jQuery.Callbacks lists at work: firing calls user callbacks, and these call back into any list, the one that is
    firing included. What user callbacks do is read from a script, so that every finite run is some script's run. */
module Deferred {
  import opened Optional
  import opened CallbackLists
  import opened DeferredState
  import opened Lists

  /** What user code can do: a Deferred hands out add for its lists and fireWith for three of them. */
  datatype Action =
    | Add(l: nat, ids: seq<nat>)
    | Remove(l: nat, ids: seq<nat>)
    | FireWith(l: nat, args: Args)
    | LockList(l: nat)

  /** The script of all user callbacks together, in the order in which they run. */
  datatype Event = Do(action: Action) | Return

  predicate Allowed(a: Action, n: nat) {
    match a
    case Add(l, _) => l < n
    case Remove(l, _) => PLAIN <= l < n
    case FireWith(l, _) => l < HANDLERS || PLAIN <= l < n
    case LockList(l) => PLAIN <= l < n
  }

  predicate ScriptAllowed(script: seq<Event>, n: nat) {
    forall i :: 0 <= i < |script| && script[i].Do? ==> Allowed(script[i].action, n)
  }

  function Rank(l: nat): nat {
    if l < HANDLERS then 1 else 0
  }

  class World {
    var lists: seq<Callbacks>
    ghost var hist: seq<History>
    var state: State
    var script: seq<Event>
    ghost var settling: Settling

    ghost function Now(): Snapshot
      reads this
    {
      Snapshot(lists, hist, state, settling)
    }

    /** Holds whenever user code runs. */
    ghost predicate Valid()
      reads this
    {
      Inv(Now()) && Stable(settling) && ScriptAllowed(script, |lists|)
    }

    /** A new Deferred, with other callback lists beside it. */
    constructor (plain: seq<Options>)
      ensures Valid() && state == Pending && |lists| == PLAIN + |plain|
      ensures lists == NewLists(plain) && forall l :: 0 <= l < |hist| ==> hist[l].passes == []
    {
      lists, hist := NewLists(plain), NewHistories(PLAIN + |plain|);
      state, script, settling := Pending, [], Settling(0, 0, 0);
      NewDeferred(plain);
    }

    /** What a client does, user callbacks acting as events says. */
    method Call(action: Action, events: seq<Event>)
      requires Valid() && Allowed(action, |lists|) && ScriptAllowed(events, |lists|)
      modifies this
      ensures Valid() && Kept(old(Now()), Now(), |lists|) && SettledKept(old(settling), settling)
      ensures old(state) != Pending ==> state == old(state)
    {
      ghost var before := Now();
      script := events;
      Perform(action);
      if before.state != Pending {
        StateIsFinal(before, Now());
      }
    }

    /** fireWith */
    method FireWith(l: nat, args: Args)
      requires Valid() && l < |lists|
      requires l == DONE + HANDLERS || l == FAIL + HANDLERS ==>
        settling.winner == l - HANDLERS && settling.done == 5 && args == settling.args && HandlersFresh(Now())
      modifies this
      ensures Valid() && Kept(old(Now()), Now(), |lists|) && SettledKept(old(settling), settling)
      ensures |script| <= old(|script|)
      ensures |script| == old(|script|) && l >= HANDLERS ==> OthersSame(old(lists), lists, l)
      ensures old(lists[l].locked) ==> Now() == old(Now()) && script == old(script)
      ensures old(!lists[l].locked && lists[l].firing) ==>
        lists == old(lists)[l := Pushed(old(lists[l]), args)] && state == old(state) && script == old(script)
      ensures old(!lists[l].locked && !lists[l].firing) ==>
        NewPass(old(hist[l]), hist[l], args, old(hist[l].ahead)) && (l == DONE || l == FAIL ==> state == Final(l))
      decreases |script|, Rank(l), 10
    {
      Facts(Now(), l);
      if !lists[l].locked {
        Queue(l, args);
        if !lists[l].firing {
          ghost var queued := Now();
          Fire(l);
          KeptTransitive(old(Now()), queued, Now(), |lists|);
        }
      }
    }

    method Queue(l: nat, args: Args)
      requires Inv(Now()) && Alive(Now(), l) && lists[l].alive && !lists[l].locked
      modifies this
      ensures InvBut(Now(), l) && Kept(old(Now()), Now(), |lists|)
      ensures Now() == old(Queued(Now(), l, args)) && script == old(script)
      ensures if lists[l].firing then Inv(Now()) else Primed(lists[l], hist[l])
    {
      QueueKeeps(Now(), l, args);
      hist, lists := hist[l := NotePush(hist[l], args)], lists[l := Pushed(lists[l], args)];
    }

    /** The firing function: passes over the list until nothing is queued. */
    method Fire(l: nat)
      requires CanStart(Now(), l) && Primed(lists[l], hist[l]) && ScriptAllowed(script, |lists|)
      modifies this
      ensures Valid() && Kept(old(Now()), Now(), |lists|) && Fired(old(Now()), Now(), l)
      ensures |script| <= old(|script|)
      ensures |script| == old(|script|) && l >= HANDLERS ==> OthersSame(old(lists), lists, l)
      ensures l == DONE || l == FAIL ==> state == Final(l)
      decreases |script|, Rank(l), 9
    {
      FireQueue(l);
      ghost var before := Now();
      FinishFiring(l);
      FiredStays(old(Now()), before, Now(), l);
      KeptClosed(old(Now()), Now(), l);
    }

    method FireQueue(l: nat)
      requires CanStart(Now(), l) && ScriptAllowed(script, |lists|)
      modifies this
      ensures PassOver(Now(), l) && Fired(old(Now()), Now(), l) && lists[l].queue == []
      ensures ScriptAllowed(script, |lists|) && |script| <= old(|script|)
      ensures |script| == old(|script|) && l >= HANDLERS ==> OthersSame(old(lists), lists, l)
      decreases |script|, Rank(l), 8
    {
      OnePass(l);
      while lists[l].queue != []
        invariant PassOver(Now(), l) && Fired(old(Now()), Now(), l)
        invariant ScriptAllowed(script, |lists|) && |script| <= old(|script|)
        invariant |script| == old(|script|) && l >= HANDLERS ==> OthersSame(old(lists), lists, l)
        decreases |script|, |lists[l].queue|
      {
        ghost var before := Now();
        AnotherPass(Now(), l);
        OnePass(l);
        FiredStays(old(Now()), before, Now(), l);
      }
    }

    method FinishFiring(l: nat)
      requires PassOver(Now(), l) && lists[l].queue == []
      modifies this
      ensures Inv(Now()) && (l == DONE || l == FAIL ==> state == Final(l)) && Kept(old(Now()), Now(), l)
      ensures !lists[l].firing && settling == old(settling) && script == old(script) && OthersSame(old(lists), lists, l)
    {
      FinishKeeps(Now(), l);
      hist, lists := hist[l := NoteFinish(lists[l], hist[l])], lists[l := Finished(lists[l])];
    }

    /** Take the next arguments and pass over the list. */
    method OnePass(l: nat)
      requires CanStart(Now(), l) && ScriptAllowed(script, |lists|)
      modifies this
      ensures PassOver(Now(), l) && Fired(old(Now()), Now(), l)
      ensures ScriptAllowed(script, |lists|) && |script| <= old(|script|)
      ensures |script| == old(|script|) ==> |lists[l].queue| < old(|lists[l].queue|)
      ensures |script| == old(|script|) && l >= HANDLERS ==> OthersSame(old(lists), lists, l)
      decreases |script|, Rank(l), 7
    {
      StartPass(l);
      ghost var started := Now();
      CallAll(l);
      KeptTransitive(old(Now()), started, Now(), l);
    }

    method CallAll(l: nat)
      requires AtTurn(Now(), l) && ScriptAllowed(script, |lists|)
      modifies this
      ensures PassOver(Now(), l) && Kept(old(Now()), Now(), l) && SameWinner(old(settling), settling)
      ensures !old(Advancing(settling, l)) ==> SettledKept(old(settling), settling)
      ensures ScriptAllowed(script, |lists|) && |script| <= old(|script|)
      ensures |script| == old(|script|) ==> Quiet(old(Now()), Now(), l)
      decreases |script|, Rank(l), 6
    {
      RunPass(l);
      ghost var ran := Now();
      EndPass(l);
      KeptTransitive(old(Now()), ran, Now(), l);
    }

    method StartPass(l: nat)
      requires CanStart(Now(), l) && ScriptAllowed(script, |lists|)
      modifies this
      ensures Now() == old(Started(Now(), l))
      ensures AtTurn(Now(), l) && Kept(old(Now()), Now(), l) && script == old(script)
      ensures SettledKept(old(settling), settling) && (Advancing(settling, l) || settling == old(settling))
    {
      StartKeeps(Now(), l);
      settling := AfterBegin(l, lists[l], hist[l], settling);
      hist, lists := hist[l := NoteBegin(lists[l], hist[l])], lists[l := Begun(lists[l])];
    }

    /** The inner loop of firing: call the entry at the next index while there is one. */
    method RunPass(l: nat)
      requires AtTurn(Now(), l) && ScriptAllowed(script, |lists|)
      modifies this
      ensures AtTurn(Now(), l) && ScriptAllowed(script, |lists|) && PassKept(old(Now()), Now(), l)
      ensures lists[l].firingIndex + 1 == |lists[l].list|
      ensures |script| <= old(|script|) && (|script| == old(|script|) ==> Quiet(old(Now()), Now(), l))
      decreases |script|, Rank(l), 5
    {
      KeptReflexive(Now(), l);
      while lists[l].firingIndex + 1 < |lists[l].list|
        invariant AtTurn(Now(), l) && ScriptAllowed(script, |lists|) && PassKept(old(Now()), Now(), l)
        invariant |script| <= old(|script|) && (|script| == old(|script|) ==> Quiet(old(Now()), Now(), l))
        decreases |script|, |lists[l].list| - lists[l].firingIndex
      {
        ghost var before, still := Now(), |script| == old(|script|);
        CallNext(l);
        PassKeptTransitive(old(Now()), before, Now(), l);
        if |script| == old(|script|) {
          QuietTransitive(old(Now()), before, Now(), l);
        }
      }
    }

    method EndPass(l: nat)
      requires AtTurn(Now(), l) && lists[l].firingIndex + 1 == |lists[l].list|
      modifies this
      ensures PassOver(Now(), l) && Kept(old(Now()), Now(), l)
      ensures Now() == old(Ended(Now(), l)) && script == old(script)
    {
      EndKeeps(Now(), l);
      hist, lists := hist[l := NoteEnd(hist[l])], lists[l := PassEnded(lists[l])];
    }

    /** One turn of that loop. */
    method CallNext(l: nat)
      requires AtTurn(Now(), l) && ScriptAllowed(script, |lists|) && lists[l].firingIndex + 1 < |lists[l].list|
      modifies this
      ensures AtTurn(Now(), l) && ScriptAllowed(script, |lists|) && PassKept(old(Now()), Now(), l)
      ensures |script| <= old(|script|)
      ensures |script| == old(|script|) ==> Quiet(old(Now()), Now(), l) && lists[l] == Advanced(old(lists[l]))
      decreases |script|, Rank(l), 4
    {
      var call := TakeNext(l);
      Invoke(l, call.entry, call.args);
      InvokedKeeps(old(Now()), Now(), l);
    }

    /** ++firingIndex: the next call goes on record. */
    method TakeNext(l: nat) returns (call: Made)
      requires AtTurn(Now(), l) && lists[l].firingIndex + 1 < |lists[l].list|
      modifies this
      ensures old(hist[l].passes != [] && hist[l].ahead != [])
      ensures Now() == old(Calling(Now(), l)) && script == old(script)
      ensures Inv(Now()) && Kept(old(Now()), Now(), l) && Running(Now(), l) && InStep(Now(), l, lists[l].firingIndex)
      ensures call.entry == lists[l].list[lists[l].firingIndex] && lists[l].memory == Some(call.args)
      ensures lists[l] == Advanced(old(lists[l])) && OthersSame(old(lists), lists, l)
    {
      CallingKeeps(Now(), l);
      hist, lists := hist[l := NoteCall(hist[l])], lists[l := Advanced(lists[l])];
      call := lists[l].made[|lists[l].made| - 1];
    }

    /** The call on record takes place: that of the entry at firingIndex with the arguments of the pass. */
    method Invoke(l: nat, entry: Entry, args: Args)
      requires Inv(Now()) && Running(Now(), l) && InStep(Now(), l, lists[l].firingIndex)
      requires entry == lists[l].list[lists[l].firingIndex] && lists[l].memory == Some(args)
      requires Advancing(settling, l) || Stable(settling)
      requires ScriptAllowed(script, |lists|)
      modifies this
      ensures Inv(Now()) && Kept(old(Now()), Now(), |lists|)
      ensures ScriptAllowed(script, |lists|) && |script| <= old(|script|)
      ensures Advancing(settling, l) ==> HandlersFresh(Now())
      ensures if old(Advancing(settling, l)) then settling == Next(old(settling))
        else SettledKept(old(settling), settling) && Stable(settling)
      ensures |script| == old(|script|) ==> lists[l] == old(lists[l])
      ensures |script| == old(|script|) && l >= HANDLERS ==> lists == old(lists)
      decreases |script|, Rank(l), 3
    {
      UserFacts(Now(), l);
      if entry.User? {
        RunUser();
      } else if entry.FireList? {
        FireHandlers(l, entry.target, args);
      } else {
        Settle(l, entry);
      }
    }

    /** The constructor's functions: record the state, disable the opposite lists, lock the progress lists. */
    method Settle(l: nat, entry: Entry)
      requires Inv(Now()) && Running(Now(), l) && InStep(Now(), l, lists[l].firingIndex)
      requires entry == lists[l].list[lists[l].firingIndex] && !entry.User? && !entry.FireList?
      modifies this
      ensures Inv(Now()) && Kept(old(Now()), Now(), |lists|) && HandlersFresh(Now()) && script == old(script)
      ensures old(Advancing(settling, l)) && Now() == old(AfterSettle(Now(), entry)) && |lists| == old(|lists|)
      ensures l < |lists| && lists[l] == old(lists[l]) && settling == Next(old(settling))
    {
      SettleKeeps(Now(), l);
      match entry
      case SetState(to) =>
        state, settling := to, Next(settling);
      case Disable(t) =>
        hist, lists, settling := hist[t := Emptied(hist[t])], lists[t := Disabled(lists[t])], Next(settling);
      case Lock(t) =>
        hist, lists, settling := hist[t := NoteLock(lists[t], hist[t])], lists[t := LockedUp(lists[t])], Next(settling);
    }

    /** tuple[3].fire: pass the arguments on to the handlers. */
    method FireHandlers(l: nat, target: nat, args: Args)
      requires Inv(Now()) && Running(Now(), l) && InStep(Now(), l, lists[l].firingIndex)
      requires lists[l].memory == Some(args)
      requires Advancing(settling, l) || Stable(settling)
      requires lists[l].list[lists[l].firingIndex] == FireList(target) && ScriptAllowed(script, |lists|)
      modifies this
      ensures Inv(Now()) && Kept(old(Now()), Now(), |lists|)
      ensures ScriptAllowed(script, |lists|) && |script| <= old(|script|)
      ensures !Advancing(settling, l) && Stable(settling)
      ensures if old(Advancing(settling, l)) then settling == Next(old(settling))
        else SettledKept(old(settling), settling)
      ensures |script| == old(|script|) ==> lists[l] == old(lists[l])
      decreases |script|, Rank(l), 2
    {
      FireListFacts(Now(), l, target);
      ghost var advancing := Advancing(settling, l);
      FireWith(target, args);
      if advancing {
        HandlersDone(Now());
        settling := Next(settling);
      }
    }

    /** A user callback: it acts as the script says until it returns. */
    method RunUser()
      requires Valid()
      modifies this
      ensures Valid() && Kept(old(Now()), Now(), |lists|) && SettledKept(old(settling), settling)
      ensures |script| <= old(|script|) && (|script| == old(|script|) ==> lists == old(lists))
      decreases |script|, 0, 2
    {
      KeptReflexive(Now(), |lists|);
      while script != []
        invariant Valid() && Kept(old(Now()), Now(), |lists|) && SettledKept(old(settling), settling)
        invariant |script| <= old(|script|) && (|script| == old(|script|) ==> lists == old(lists))
        decreases |script|
      {
        var event := script[0];
        script := script[1..];
        if event.Return? {
          break;
        }
        ghost var before := Now();
        Perform(event.action);
        KeptTransitive(old(Now()), before, Now(), |lists|);
      }
    }

    /** An action of user code. */
    method Perform(a: Action)
      requires Valid() && Allowed(a, |lists|)
      modifies this
      ensures Valid() && Kept(old(Now()), Now(), |lists|) && SettledKept(old(settling), settling)
      ensures |script| <= old(|script|)
      decreases |script|, 2
    {
      match a
      case Add(l, ids) => AddAll(l, ids);
      case Remove(l, ids) => RemoveAll(l, ids);
      case FireWith(l, args) => FireWith(l, args);
      case LockList(l) => LockList(l);
    }

    /** lock */
    method LockList(l: nat)
      requires Valid() && PLAIN <= l < |lists|
      modifies this
      ensures Valid() && Kept(old(Now()), Now(), |lists|) && settling == old(settling) && state == old(state)
      ensures lists == old(lists)[l := LockedUp(old(lists[l]))] && script == old(script)
    {
      LockListKeeps(Now(), l);
      hist, lists := hist[l := NoteLock(lists[l], hist[l])], lists[l := LockedUp(lists[l])];
    }

    /** add: a list that remembers and is not firing passes its memory to the new entries only. */
    method AddAll(l: nat, ids: seq<nat>)
      requires Valid() && l < |lists|
      modifies this
      ensures Valid() && Kept(old(Now()), Now(), |lists|) && SettledKept(old(settling), settling)
      ensures |script| <= old(|script|)
      ensures !old(lists[l].alive) ==> Now() == old(Now()) && script == old(script)
      ensures old(lists[l].alive && (lists[l].firing || lists[l].memory.None?)) ==>
        lists == old(lists)[l := WithAdded(old(lists[l]), ids)] && state == old(state) && script == old(script)
      ensures old(lists[l].alive && !lists[l].firing && lists[l].memory.Some?) ==>
        FiredNewOnly(old(lists[l]), old(hist[l]), hist[l], ids)
      decreases |script|, 1, 12
    {
      if lists[l].alive {
        var fires := lists[l].memory.Some? && !lists[l].firing;
        if fires {
          AddAndFire(l, ids);
        } else {
          AddOnly(l, ids);
        }
      }
    }

    method AddOnly(l: nat, ids: seq<nat>)
      requires Valid() && l < |lists| && lists[l].alive && (lists[l].firing || lists[l].memory.None?)
      modifies this
      ensures Valid() && Kept(old(Now()), Now(), |lists|) && settling == old(settling)
      ensures lists == old(lists)[l := WithAdded(old(lists[l]), ids)] && state == old(state) && script == old(script)
    {
      Facts(Now(), l);
      AppendAll(l, ids);
      GrownOpen(old(Now()), Now(), l, ids);
    }

    /** add, if the list has memory from a past run: fire after adding. */
    method AddAndFire(l: nat, ids: seq<nat>)
      requires Valid() && l < |lists| && lists[l].alive && !lists[l].firing && lists[l].memory.Some?
      modifies this
      ensures Valid() && Kept(old(Now()), Now(), |lists|) && SettledKept(old(settling), settling)
      ensures |script| <= old(|script|)
      ensures FiredNewOnly(old(lists[l]), old(hist[l]), hist[l], ids)
      decreases |script|, 1, 11
    {
      RekindleKeeps(Now(), l);
      hist, lists := hist[l := NoteRemember(hist[l], lists[l].memory.value)], lists[l := Remembering(lists[l])];
      ghost var primed := Now();
      AppendAll(l, ids);
      ghost var loaded := Now();
      KeptTransitive(old(Now()), primed, loaded, |lists|);
      LoadedCanStart(old(Now()), loaded, l, ids);
      Fire(l);
      KeptTransitive(old(Now()), loaded, Now(), |lists|);
      NewOnly(old(Now()), loaded, Now(), l, ids);
    }

    /** list.push */
    method Append(l: nat, id: nat)
      requires InvBut(Now(), l) && Alive(Now(), l) && Open(lists[l], hist[l])
      modifies this
      ensures Now() == old(WithEntry(Now(), l, User(id))) && Kept(old(Now()), Now(), |lists|) && script == old(script)
    {
      AppendKeeps(Now(), l, id);
      hist, lists := hist[l := NoteAppend(lists[l], hist[l], User(id))], lists[l := Appended(lists[l], User(id))];
    }

    /** The inner function of add. */
    method AppendAll(l: nat, ids: seq<nat>)
      requires InvBut(Now(), l) && Alive(Now(), l) && Open(lists[l], hist[l])
      modifies this
      ensures Grown(old(Now()), Now(), l, ids) && Kept(old(Now()), Now(), |lists|) && script == old(script)
    {
      NothingAppended(Now(), l);
      KeptReflexive(Now(), |lists|);
      var i := 0;
      while i < |ids|
        invariant 0 <= i <= |ids| && Grown(old(Now()), Now(), l, ids[..i]) && script == old(script)
        invariant Kept(old(Now()), Now(), |lists|)
      {
        if !lists[l].options.unique || User(ids[i]) !in lists[l].list {
          ghost var before := Now();
          OneAppended(old(Now()), Now(), l, ids[..i], ids[i]);
          Append(l, ids[i]);
          KeptTransitive(old(Now()), before, Now(), |lists|);
        } else {
          NoneAppended(old(Now()), Now(), l, ids[..i], ids[i]);
        }
        assert ids[..i + 1] == ids[..i] + [ids[i]];
        i := i + 1;
      }
      assert ids[..i] == ids;
    }

    /** remove: every occurrence of the given functions goes. */
    method RemoveAll(l: nat, ids: seq<nat>)
      requires Valid() && PLAIN <= l < |lists|
      modifies this
      ensures Valid() && Kept(old(Now()), Now(), |lists|) && settling == old(settling) && state == old(state)
      ensures script == old(script) && OthersSame(old(lists), lists, l)
      ensures lists[l].list == WithoutAll(old(lists[l].list), ids)
    {
      KeptReflexive(Now(), |lists|);
      var i := 0;
      while i < |ids|
        invariant 0 <= i <= |ids| && Valid() && Kept(old(Now()), Now(), |lists|)
        invariant settling == old(settling) && state == old(state) && script == old(script)
        invariant OthersSame(old(lists), lists, l) && lists[l].list == WithoutAll(old(lists[l].list), ids[..i])
      {
        ghost var before := Now();
        RemoveOne(l, User(ids[i]));
        KeptTransitive(old(Now()), before, Now(), |lists|);
        assert ids[..i + 1][..i] == ids[..i];
        i := i + 1;
      }
      assert ids[..i] == ids;
    }

    /** Search on from the index of the last hit and splice. */
    method RemoveOne(l: nat, e: Entry)
      requires Valid() && PLAIN <= l < |lists|
      modifies this
      ensures Valid() && Kept(old(Now()), Now(), |lists|) && settling == old(settling) && state == old(state)
      ensures script == old(script) && OthersSame(old(lists), lists, l)
      ensures lists[l].list == Without(old(lists[l].list), e)
    {
      KeptReflexive(Now(), |lists|);
      var index := IndexOf(lists[l].list, e, 0);
      while index > -1
        invariant Valid() && Kept(old(Now()), Now(), |lists|) && settling == old(settling) && state == old(state)
        invariant script == old(script) && OthersSame(old(lists), lists, l)
        invariant -1 <= index < |lists[l].list| && (index > -1 ==> lists[l].list[index] == e)
        invariant e !in lists[l].list[..if index == -1 then |lists[l].list| else index]
        invariant Without(lists[l].list, e) == Without(old(lists[l].list), e)
        decreases |lists[l].list|
      {
        ghost var before := Now();
        ShortenKeeps(before, l, index);
        SplitAt(lists[l].list, index);
        WithoutOne(lists[l].list[..index], e, lists[l].list[index + 1..]);
        hist, lists := hist[l := NoteRemove(lists[l], hist[l], index)], lists[l := SplicedOut(lists[l], index)];
        KeptTransitive(old(Now()), before, Now(), |lists|);
        index := IndexOf(lists[l].list, e, index);
      }
      assert lists[l].list[..|lists[l].list|] == lists[l].list;
      WithoutAbsent(lists[l].list, e);
    }
  }

  /** jQuery.inArray */
  method IndexOf(list: seq<Entry>, e: Entry, from: nat) returns (index: int)
    requires from <= |list|
    ensures index == -1 || from <= index < |list|
    ensures index > -1 ==> list[index] == e
    ensures e !in list[from..if index == -1 then |list| else index]
  {
    index := from;
    while index < |list|
      invariant from <= index <= |list| && e !in list[from..index]
    {
      if list[index] == e {
        return;
      }
      assert list[from..index + 1] == list[from..index] + [list[index]];
      index := index + 1;
    }
    index := -1;
  }

  function WithoutAll(list: seq<Entry>, ids: seq<nat>): seq<Entry> {
    if ids == [] then list
    else Without(WithoutAll(list, ids[..|ids| - 1]), User(ids[|ids| - 1]))
  }

  lemma SplitAt(list: seq<Entry>, i: nat)
    requires i < |list|
    ensures list == list[..i] + [list[i]] + list[i + 1..]
  {
  }
}
