/** The keyed mutation coordinator: an asynchronous first-come-first-served mutex
    per session, with re-entry for the owner that holds the turn.  A call is cut
    at its `await`: it enters, is granted, and releases, in any interleaving. */
module Coordinator {
  import opened AuthorityTypes

  type Owner = nat
  type TurnId = nat

  datatype Phase = Waiting | Running | Released

  /** `pred` is the turn whose tail this one awaits; a turn's tail promise is named by the turn. */
  datatype Turn = Turn(key: string, owner: Owner, coordinator: nat, pred: Option<TurnId>, phase: Phase)

  datatype Coordination = Coordination(owner: Option<Owner>, tail: TurnId)

  /** `entries` is the shared map; `objects` holds every coordinator ever made, also those dropped from the map. */
  datatype State = State(entries: map<string, nat>, objects: seq<Coordination>, turns: seq<Turn>)

  const START := State(map[], [], [])

  /** A tail promise is settled once its own turn is released and the tail before it is settled. */
  predicate Settled(turns: seq<Turn>, t: TurnId)
    decreases t
  {
    && t < |turns| && turns[t].phase.Released?
    && (turns[t].pred.Some? ==> turns[t].pred.value < t && Settled(turns, turns[t].pred.value))
  }

  // ------------------------------------------------------------------ steps

  datatype Entry = Mismatch | Reentered | Queued(turn: TurnId)

  datatype Entered = Entered(state: State, entry: Entry)

  function Active(s: State, key: string): Option<Coordination> {
    if key in s.entries && s.entries[key] < |s.objects| then Some(s.objects[s.entries[key]]) else None
  }

  /** From the call to its `await`.  `ambient` is the owner whose turn the caller runs inside. */
  function Enter(s: State, key: string, owner: Owner, ambient: Option<Owner>): Entered {
    if ambient.Some? && ambient.value != owner then Entered(s, Mismatch)
    else
      var active := Active(s, key);
      if active.Some? && active.value.owner == Some(owner) && ambient == Some(owner) then Entered(s, Reentered)
      else
        var t := |s.turns|;
        if active.None? then
          Entered(State(s.entries[key := |s.objects|], s.objects + [Coordination(None, t)],
                        s.turns + [Turn(key, owner, |s.objects|, None, Waiting)]), Queued(t))
        else
          var c := s.entries[key];
          Entered(State(s.entries, s.objects[c := active.value.(tail := t)],
                        s.turns + [Turn(key, owner, c, Some(active.value.tail), Waiting)]), Queued(t))
  }

  predicate Grantable(s: State, t: TurnId) {
    && t < |s.turns| && s.turns[t].phase.Waiting?
    && (s.turns[t].pred.Some? ==> Settled(s.turns, s.turns[t].pred.value))
    && s.turns[t].coordinator < |s.objects|
  }

  /** Behind the `await`: the turn takes ownership and starts its effect. */
  function Grant(s: State, t: TurnId): State
    requires Grantable(s, t)
  {
    var c := s.turns[t].coordinator;
    s.(objects := s.objects[c := s.objects[c].(owner := Some(s.turns[t].owner))],
       turns := s.turns[t := s.turns[t].(phase := Running)])
  }

  predicate Releasable(s: State, t: TurnId) {
    t < |s.turns| && s.turns[t].phase.Running? && s.turns[t].coordinator < |s.objects|
  }

  /** The effect has ended, either way. */
  function Release(s: State, t: TurnId): State
    requires Releasable(s, t)
  {
    var c := s.turns[t].coordinator;
    State(if s.objects[c].tail == t then s.entries - {s.turns[t].key} else s.entries,
          s.objects[c := s.objects[c].(owner := None)],
          s.turns[t := s.turns[t].(phase := Released)])
  }

  datatype Event = Call(key: string, owner: Owner, ambient: Option<Owner>) | Wake(t: TurnId) | End(t: TurnId)

  predicate Enabled(s: State, e: Event) {
    match e
    case Call(_, _, _) => true
    case Wake(t) => Grantable(s, t)
    case End(t) => Releasable(s, t)
  }

  function Next(s: State, e: Event): State
    requires Enabled(s, e)
  {
    match e
    case Call(key, owner, ambient) => Enter(s, key, owner, ambient).state
    case Wake(t) => Grant(s, t)
    case End(t) => Release(s, t)
  }

  /** Any interleaving of calls, wake-ups and endings. */
  ghost predicate Reaches(s: State, events: seq<Event>, s': State)
    decreases |events|
  {
    if events == [] then s' == s
    else Enabled(s, events[0]) && Reaches(Next(s, events[0]), events[1..], s')
  }

  // -------------------------------------------------------------- invariant

  predicate Outstanding(s: State, t: TurnId) {
    t < |s.turns| && !s.turns[t].phase.Released?
  }

  /** Turns of a key run in the order of their calls, one at a time. */
  ghost predicate Fifo(s: State) {
    forall i, j :: 0 <= i < j < |s.turns| && s.turns[i].key == s.turns[j].key && !s.turns[j].phase.Waiting? ==>
      s.turns[i].phase.Released?
  }

  predicate NoneBetween(turns: seq<Turn>, lo: int, hi: int, key: string) {
    forall i :: 0 <= i < |turns| && lo < i < hi ==> turns[i].key != key
  }

  predicate AllReleased(turns: seq<Turn>, hi: int, key: string) {
    forall i :: 0 <= i < |turns| && i < hi && turns[i].key == key ==> turns[i].phase.Released?
  }

  /** A queued turn awaits exactly the one before it on its coordinator. */
  predicate Linked(turns: seq<Turn>, t: TurnId)
    requires t < |turns|
  {
    match turns[t].pred
    case None => AllReleased(turns, t, turns[t].key)
    case Some(p) =>
      p < t && turns[p].coordinator == turns[t].coordinator && turns[p].key == turns[t].key
      && NoneBetween(turns, p, t, turns[t].key)
  }

  ghost predicate Chained(s: State) {
    forall t: TurnId :: t < |s.turns| ==> Linked(s.turns, t)
  }

  predicate TurnMapped(s: State, t: TurnId)
    requires t < |s.turns|
  {
    && s.turns[t].coordinator < |s.objects|
    && (Outstanding(s, t) ==> s.turns[t].key in s.entries && s.entries[s.turns[t].key] == s.turns[t].coordinator)
  }

  predicate EntryMapped(s: State, key: string)
    requires key in s.entries
  {
    && s.entries[key] < |s.objects|
    && Outstanding(s, s.objects[s.entries[key]].tail)
    && s.turns[s.objects[s.entries[key]].tail].key == key
    && NoneBetween(s.turns, s.objects[s.entries[key]].tail, |s.turns|, key)
  }

  /** The map holds a key exactly while a turn of it is outstanding, under that turn's coordinator. */
  ghost predicate Mapped(s: State) {
    && (forall t: TurnId :: t < |s.turns| ==> TurnMapped(s, t))
    && (forall key :: key in s.entries ==> EntryMapped(s, key))
  }

  /** A coordinator names an owner exactly while a turn of it runs. */
  ghost predicate Owned(s: State) {
    && (forall t :: 0 <= t < |s.turns| && s.turns[t].phase.Running? && s.turns[t].coordinator < |s.objects| ==>
          s.objects[s.turns[t].coordinator].owner == Some(s.turns[t].owner))
    && (forall key :: key in s.entries && s.entries[key] < |s.objects| && s.objects[s.entries[key]].owner.Some? ==>
          HasRunning(s, key))
  }

  ghost predicate HasRunning(s: State, key: string) {
    exists t: TurnId :: t < |s.turns| && s.turns[t].key == key && s.turns[t].phase.Running?
  }

  ghost predicate Inv(s: State) {
    Fifo(s) && Chained(s) && Mapped(s) && Owned(s)
  }

  lemma {:induction false} SettledIsReleased(s: State, t: TurnId)
    requires Fifo(s) && Chained(s) && t < |s.turns|
    ensures Settled(s.turns, t) <==> s.turns[t].phase.Released?
    decreases t
  {
    assert Linked(s.turns, t);
    if s.turns[t].pred.Some? {
      SettledIsReleased(s, s.turns[t].pred.value);
    }
  }

  lemma MappedTurn(s: State, t: TurnId)
    requires Mapped(s) && Outstanding(s, t)
    ensures s.turns[t].coordinator < |s.objects|
    ensures s.turns[t].key in s.entries && s.entries[s.turns[t].key] == s.turns[t].coordinator
    ensures EntryMapped(s, s.turns[t].key) && t <= s.objects[s.turns[t].coordinator].tail
  {
    assert TurnMapped(s, t);
  }

  lemma EntriesApart(s: State, j: string, k: string)
    requires Mapped(s) && j in s.entries && k in s.entries
    ensures s.entries[j] == s.entries[k] ==> j == k
  {
    assert EntryMapped(s, j) && EntryMapped(s, k);
  }

  // ------------------------------------------------------- a call is queued

  lemma EnterChained(s: State, key: string, owner: Owner, ambient: Option<Owner>)
    requires Inv(s)
    ensures Chained(Enter(s, key, owner, ambient).state) && Fifo(Enter(s, key, owner, ambient).state)
  {
    var s' := Enter(s, key, owner, ambient).state;
    assert forall t :: 0 <= t < |s.turns| ==> s'.turns[t] == s.turns[t];
    forall t: TurnId | t < |s'.turns|
      ensures Linked(s'.turns, t)
    {
      if t < |s.turns| {
        assert Linked(s.turns, t);
      } else if key in s.entries {
        assert EntryMapped(s, key);
        MappedTurn(s, s.objects[s.entries[key]].tail);
      } else {
        assert forall i: TurnId :: i < |s.turns| && s.turns[i].key == key ==> TurnMapped(s, i);
      }
    }
  }

  lemma EnterMapped(s: State, key: string, owner: Owner, ambient: Option<Owner>)
    requires Inv(s)
    ensures Mapped(Enter(s, key, owner, ambient).state)
  {
    var s' := Enter(s, key, owner, ambient).state;
    assert forall t :: 0 <= t < |s.turns| ==> s'.turns[t] == s.turns[t];
    forall t: TurnId | t < |s'.turns|
      ensures TurnMapped(s', t)
    {
      assert t < |s.turns| ==> TurnMapped(s, t);
      assert key in s.entries ==> EntryMapped(s, key);
    }
    forall k | k in s'.entries
      ensures EntryMapped(s', k)
    {
      assert k in s.entries ==> EntryMapped(s, k);
      if k in s.entries && key in s.entries {
        EntriesApart(s, k, key);
      }
    }
  }

  lemma EnterOwned(s: State, key: string, owner: Owner, ambient: Option<Owner>)
    requires Inv(s)
    ensures Owned(Enter(s, key, owner, ambient).state)
  {
    var s' := Enter(s, key, owner, ambient).state;
    forall t: TurnId | t < |s'.turns| && s'.turns[t].phase.Running? && s'.turns[t].coordinator < |s'.objects|
      ensures s'.objects[s'.turns[t].coordinator].owner == Some(s'.turns[t].owner)
    {
      assert TurnMapped(s, t);
    }
    forall k | k in s'.entries && s'.entries[k] < |s'.objects| && s'.objects[s'.entries[k]].owner.Some?
      ensures HasRunning(s', k)
    {
      assert k in s.entries ==> EntryMapped(s, k);
      assert HasRunning(s, k);
      var t: TurnId :| t < |s.turns| && s.turns[t].key == k && s.turns[t].phase.Running?;
      assert s'.turns[t] == s.turns[t];
    }
  }

  // ------------------------------------------------------ a turn is granted

  lemma GrantedIsNext(s: State, t: TurnId)
    requires Inv(s) && Grantable(s, t)
    ensures AllReleased(s.turns, t, s.turns[t].key)
  {
    assert Linked(s.turns, t);
    if s.turns[t].pred.Some? {
      SettledIsReleased(s, s.turns[t].pred.value);
    }
  }

  /** Only the phase of one turn changes. */
  predicate SameQueue(a: seq<Turn>, b: seq<Turn>) {
    |a| == |b| && forall i :: 0 <= i < |a| ==>
      a[i].key == b[i].key && a[i].coordinator == b[i].coordinator && a[i].pred == b[i].pred
      && (a[i].phase.Released? ==> b[i].phase.Released?)
  }

  lemma SameQueueChained(s: State, s': State)
    requires Chained(s) && SameQueue(s.turns, s'.turns)
    ensures Chained(s')
  {
    forall t: TurnId | t < |s'.turns|
      ensures Linked(s'.turns, t)
    {
      assert Linked(s.turns, t);
    }
  }

  lemma GrantFifo(s: State, t: TurnId)
    requires Inv(s) && Grantable(s, t)
    ensures Fifo(Grant(s, t)) && Chained(Grant(s, t))
  {
    GrantedIsNext(s, t);
    SameQueueChained(s, Grant(s, t));
  }

  lemma GrantMapped(s: State, t: TurnId)
    requires Inv(s) && Grantable(s, t)
    ensures Mapped(Grant(s, t))
  {
    var s' := Grant(s, t);
    forall i: TurnId | i < |s'.turns|
      ensures TurnMapped(s', i)
    {
      assert TurnMapped(s, i);
    }
    forall k | k in s'.entries
      ensures EntryMapped(s', k)
    {
      assert EntryMapped(s, k);
    }
  }

  lemma OneRunner(s: State, i: TurnId, t: TurnId)
    requires Inv(s) && Outstanding(s, i) && Outstanding(s, t) && s.turns[i].coordinator == s.turns[t].coordinator
    requires s.turns[i].phase.Running? && AllReleased(s.turns, t, s.turns[t].key)
    ensures i == t
  {
    MappedTurn(s, i);
    MappedTurn(s, t);
    EntriesApart(s, s.turns[i].key, s.turns[t].key);
  }

  lemma GrantOwned(s: State, t: TurnId)
    requires Inv(s) && Grantable(s, t)
    ensures Owned(Grant(s, t))
  {
    var s' := Grant(s, t);
    GrantedIsNext(s, t);
    forall i: TurnId | i < |s'.turns| && s'.turns[i].phase.Running? && s'.turns[i].coordinator < |s'.objects|
      ensures s'.objects[s'.turns[i].coordinator].owner == Some(s'.turns[i].owner)
    {
      if i != t && s.turns[i].coordinator == s.turns[t].coordinator {
        OneRunner(s, i, t);
        assert false;
      }
    }
    MappedTurn(s, t);
    forall k | k in s'.entries && s'.entries[k] < |s'.objects| && s'.objects[s'.entries[k]].owner.Some?
      ensures HasRunning(s', k)
    {
      if k == s.turns[t].key {
        assert s'.turns[t].phase.Running?;
      } else {
        EntriesApart(s, k, s.turns[t].key);
        StillRunning(s, s', k, t);
      }
    }
  }

  lemma StillRunning(s: State, s': State, k: string, t: TurnId)
    requires t < |s.turns| && s.turns[t].key != k && HasRunning(s, k)
    requires |s'.turns| == |s.turns| && forall i :: 0 <= i < |s.turns| && i != t ==> s'.turns[i] == s.turns[i]
    ensures HasRunning(s', k)
  {
    var i: TurnId :| i < |s.turns| && s.turns[i].key == k && s.turns[i].phase.Running?;
    assert s'.turns[i] == s.turns[i];
  }

  // ----------------------------------------------------- a turn is released

  lemma RunningIsFirst(s: State, t: TurnId)
    requires Inv(s) && Releasable(s, t)
    ensures AllReleased(s.turns, t, s.turns[t].key)
  {
  }

  lemma ReleaseFifo(s: State, t: TurnId)
    requires Inv(s) && Releasable(s, t)
    ensures Fifo(Release(s, t)) && Chained(Release(s, t))
  {
    SameQueueChained(s, Release(s, t));
  }

  lemma ReleaseMapped(s: State, t: TurnId)
    requires Inv(s) && Releasable(s, t)
    ensures Mapped(Release(s, t))
  {
    var s' := Release(s, t);
    RunningIsFirst(s, t);
    MappedTurn(s, t);
    forall i: TurnId | i < |s'.turns|
      ensures TurnMapped(s', i)
    {
      assert TurnMapped(s, i);
    }
    forall k | k in s'.entries
      ensures EntryMapped(s', k)
    {
      assert EntryMapped(s, k);
    }
  }

  lemma ReleaseOwned(s: State, t: TurnId)
    requires Inv(s) && Releasable(s, t)
    ensures Owned(Release(s, t))
  {
    var s' := Release(s, t);
    RunningIsFirst(s, t);
    MappedTurn(s, t);
    forall i: TurnId | i < |s'.turns| && s'.turns[i].phase.Running? && s'.turns[i].coordinator < |s'.objects|
      ensures s'.objects[s'.turns[i].coordinator].owner == Some(s'.turns[i].owner)
    {
      if s.turns[i].coordinator == s.turns[t].coordinator {
        OneRunner(s, i, t);
        assert false;
      }
    }
    forall k | k in s'.entries && s'.entries[k] < |s'.objects| && s'.objects[s'.entries[k]].owner.Some?
      ensures HasRunning(s', k)
    {
      if s.entries[k] != s.turns[t].coordinator {
        StillRunning(s, s', k, t);
      }
    }
  }

  lemma NextKeeps(s: State, e: Event)
    requires Inv(s) && Enabled(s, e)
    ensures Inv(Next(s, e))
  {
    match e
    case Call(key, owner, ambient) =>
      EnterChained(s, key, owner, ambient);
      EnterMapped(s, key, owner, ambient);
      EnterOwned(s, key, owner, ambient);
    case Wake(t) =>
      GrantFifo(s, t);
      GrantMapped(s, t);
      GrantOwned(s, t);
    case End(t) =>
      ReleaseFifo(s, t);
      ReleaseMapped(s, t);
      ReleaseOwned(s, t);
  }

  lemma {:induction false} RunKeeps(s: State, events: seq<Event>, s': State)
    requires Inv(s) && Reaches(s, events, s')
    ensures Inv(s')
    decreases |events|
  {
    if events != [] {
      NextKeeps(s, events[0]);
      RunKeeps(Next(s, events[0]), events[1..], s');
    }
  }

  // ------------------------------------------------------------ the promises

  /** In every reachable state at most one outermost turn of a key runs, every earlier call
      on the key is finished by then, and the map knows a key exactly while a turn of it is
      outstanding. */
  lemma OneAtATimeInOrder(events: seq<Event>, s: State)
    requires Reaches(START, events, s)
    ensures forall i, j :: 0 <= i < j < |s.turns| && s.turns[i].key == s.turns[j].key ==>
              !(s.turns[i].phase.Running? && s.turns[j].phase.Running?)
    ensures forall i, j :: 0 <= i < j < |s.turns| && s.turns[i].key == s.turns[j].key && !s.turns[j].phase.Waiting? ==>
              s.turns[i].phase.Released?
    ensures forall key :: key in s.entries <==> exists t: TurnId :: Outstanding(s, t) && s.turns[t].key == key
  {
    RunKeeps(START, events, s);
    forall key
      ensures key in s.entries <==> exists t: TurnId :: Outstanding(s, t) && s.turns[t].key == key
    {
      assert key in s.entries ==> EntryMapped(s, key);
      if t: TurnId :| Outstanding(s, t) && s.turns[t].key == key {
        MappedTurn(s, t);
      }
    }
  }

  /** A call made from inside a running turn of the same session and owner never waits. */
  lemma NestedNeverWaits(events: seq<Event>, s: State, t: TurnId)
    requires Reaches(START, events, s) && t < |s.turns| && s.turns[t].phase.Running?
    ensures Enter(s, s.turns[t].key, s.turns[t].owner, Some(s.turns[t].owner)) == Entered(s, Reentered)
  {
    RunKeeps(START, events, s);
    MappedTurn(s, t);
  }

  /** Only the holder's own context re-enters: a call re-enters exactly when a turn of its
      session runs under the very owner it carries. */
  lemma ReentersIffHolding(events: seq<Event>, s: State, key: string, owner: Owner, ambient: Option<Owner>)
    requires Reaches(START, events, s)
    ensures Enter(s, key, owner, ambient).entry.Reentered? <==> ambient == Some(owner) && Holding(s, key, owner)
  {
    RunKeeps(START, events, s);
    if Active(s, key).Some? && Active(s, key).value.owner == Some(owner) {
      assert HasRunning(s, key);
      var t: TurnId :| t < |s.turns| && s.turns[t].key == key && s.turns[t].phase.Running?;
      MappedTurn(s, t);
    }
    if Holding(s, key, owner) {
      var t: TurnId :| t < |s.turns| && s.turns[t].key == key && s.turns[t].phase.Running? && s.turns[t].owner == owner;
      MappedTurn(s, t);
    }
  }

  /** What a call does: it is refused inside another owner's turn, re-enters for the holder, and otherwise
      queues one turn of its own behind all there are, and touches no other. */
  lemma CallsExact(events: seq<Event>, s: State, key: string, owner: Owner, ambient: Option<Owner>)
    requires Reaches(START, events, s)
    ensures var entered := Enter(s, key, owner, ambient);
            && (ambient.Some? && ambient.value != owner ==> entered == Entered(s, Mismatch))
            && (ambient == Some(owner) && Holding(s, key, owner) ==> entered == Entered(s, Reentered))
            && (!(ambient.Some? && ambient.value != owner) && !(ambient == Some(owner) && Holding(s, key, owner)) ==>
                  && entered.entry == Queued(|s.turns|) && |entered.state.turns| == |s.turns| + 1
                  && (forall t :: 0 <= t < |s.turns| ==> entered.state.turns[t] == s.turns[t])
                  && var turn := entered.state.turns[|s.turns|];
                     turn.key == key && turn.owner == owner && turn.phase.Waiting?)
  {
    ReentersIffHolding(events, s, key, owner, ambient);
  }

  /** A waiting turn can be granted exactly when every earlier turn of its key is released; granting and
      releasing move that turn alone. */
  lemma TurnsExact(events: seq<Event>, s: State, t: TurnId)
    requires Reaches(START, events, s) && t < |s.turns|
    ensures Grantable(s, t) <==>
            s.turns[t].phase.Waiting? &&
            forall i :: 0 <= i < t && s.turns[i].key == s.turns[t].key ==> s.turns[i].phase.Released?
    ensures Grantable(s, t) ==> Grant(s, t).turns == s.turns[t := s.turns[t].(phase := Running)]
    ensures Releasable(s, t) <==> s.turns[t].phase.Running?
    ensures Releasable(s, t) ==> Release(s, t).turns == s.turns[t := s.turns[t].(phase := Released)]
  {
    RunKeeps(START, events, s);
    assert Linked(s.turns, t) && TurnMapped(s, t);
    match s.turns[t].pred
    case None =>
    case Some(p) =>
      SettledIsReleased(s, p);
      ReleasedUpTo(s, p);
      assert NoneBetween(s.turns, p, t, s.turns[t].key);
  }

  /** Behind a released turn every earlier one of its key is released, too. */
  lemma ReleasedUpTo(s: State, p: TurnId)
    requires Fifo(s) && p < |s.turns|
    ensures s.turns[p].phase.Released? ==>
              forall i :: 0 <= i < p && s.turns[i].key == s.turns[p].key ==> s.turns[i].phase.Released?
  {
  }

  ghost predicate Holding(s: State, key: string, owner: Owner) {
    exists t: TurnId :: t < |s.turns| && s.turns[t].key == key && s.turns[t].phase.Running? && s.turns[t].owner == owner
  }

  lemma {:induction false} EarliestOutstanding(s: State, key: string, t: TurnId) returns (first: TurnId)
    requires Outstanding(s, t) && s.turns[t].key == key
    ensures Outstanding(s, first) && s.turns[first].key == key && AllReleased(s.turns, first, key)
    decreases t
  {
    if i: TurnId :| i < t && Outstanding(s, i) && s.turns[i].key == key {
      first := EarliestOutstanding(s, key, i);
    } else {
      first := t;
      assert forall i: TurnId :: i < t && s.turns[i].key == key ==> !Outstanding(s, i);
    }
  }

  /** No wake-up is lost: while turns of a key are outstanding, one of them runs or can be granted. */
  lemma NeverStuck(events: seq<Event>, s: State, key: string)
    requires Reaches(START, events, s) && key in s.entries
    ensures exists t: TurnId :: t < |s.turns| && s.turns[t].key == key && (s.turns[t].phase.Running? || Grantable(s, t))
  {
    RunKeeps(START, events, s);
    assert EntryMapped(s, key);
    var first := EarliestOutstanding(s, key, s.objects[s.entries[key]].tail);
    assert Linked(s.turns, first) && TurnMapped(s, first);
    if s.turns[first].pred.Some? {
      SettledIsReleased(s, s.turns[first].pred.value);
    }
    assert s.turns[first].phase.Running? || Grantable(s, first);
  }

  // ------------------------------------------------------------ the program

  /** The module's shared state, updated at the points between awaits. */
  class SessionMutationCoordinators {
    var coordinators: map<string, nat>
    var objects: seq<Coordination>
    var turns: seq<Turn>

    function View(): State
      reads this
    {
      State(coordinators, objects, turns)
    }

    constructor ()
      ensures View() == START && Inv(View())
    {
      coordinators, objects, turns := map[], [], [];
    }

    method WithCoordinator(key: string, owner: Owner, ambientOwner: Option<Owner>) returns (entry: Entry)
      requires Inv(View())
      modifies this
      ensures Entered(View(), entry) == Enter(old(View()), key, owner, ambientOwner)
      ensures Inv(View())
    {
      EnterChained(View(), key, owner, ambientOwner);
      EnterMapped(View(), key, owner, ambientOwner);
      EnterOwned(View(), key, owner, ambientOwner);
      assert key in coordinators ==> EntryMapped(View(), key);
      if ambientOwner.Some? && ambientOwner.value != owner {
        return Mismatch;
      }
      if key in coordinators && objects[coordinators[key]].owner == Some(owner) && ambientOwner == Some(owner) {
        return Reentered;
      }
      var turn := |turns|;
      var predecessor := None;
      if key in coordinators {
        var c := coordinators[key];
        predecessor := Some(objects[c].tail);
        objects := objects[c := objects[c].(tail := turn)];
      } else {
        coordinators := coordinators[key := |objects|];
        objects := objects + [Coordination(None, turn)];
      }
      turns := turns + [Turn(key, owner, coordinators[key], predecessor, Waiting)];
      return Queued(turn);
    }

    method TakeTurn(t: TurnId)
      requires Inv(View()) && Grantable(View(), t)
      modifies `objects, `turns
      ensures View() == Grant(old(View()), t) && Inv(View())
    {
      NextKeeps(View(), Wake(t));
      var c := turns[t].coordinator;
      objects := objects[c := objects[c].(owner := Some(turns[t].owner))];
      turns := turns[t := turns[t].(phase := Running)];
    }

    method ReleaseTurn(t: TurnId)
      requires Inv(View()) && Releasable(View(), t)
      modifies this
      ensures View() == Release(old(View()), t) && Inv(View())
    {
      NextKeeps(View(), End(t));
      var c := turns[t].coordinator;
      objects := objects[c := objects[c].(owner := None)];
      turns := turns[t := turns[t].(phase := Released)];
      if objects[c].tail == t {
        coordinators := coordinators - {turns[t].key};
      }
    }
  }
}
