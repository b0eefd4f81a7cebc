// The per-target lock of the filesystem provider (src/fs-provider.ts): a map from
// target key to the promise of the last queued call, and a gate per call.
//
// A run is a sequence of events of the JavaScript event loop. Between two awaits
// the code is atomic, so each event is one synchronous stretch: a call enters,
// its await of the previous promise returns, its finally block runs, or the
// promise it queued settles.
module TargetLock {
  import opened Options

  datatype Phase = Waiting | Running | Finished

  // One call of withTargetLock, named by its arrival number. previous is the call
  // whose queued promise it awaits, or None for the already resolved one; its own
  // queued promise is previous followed by its gate, which opens when it finishes.
  datatype Call = Call(key: string, previous: Option<nat>, phase: Phase, settled: bool)

  datatype Locks = Locks(calls: seq<Call>, targets: map<string, nat>)

  const Unlocked := Locks([], map[])

  predicate IsCall(s: Locks, t: nat) {
    t < |s.calls|
  }

  predicate Passed(s: Locks, previous: Option<nat>) {
    match previous
    case None => true
    case Some(p) => IsCall(s, p) && s.calls[p].settled
  }

  datatype Event =
    | Enter(key: string)
    | Acquire(call: nat)
    | Release(call: nat)
    | Settle(call: nat)

  predicate Enabled(s: Locks, e: Event) {
    match e
    case Enter(_) => true
    case Acquire(t) => IsCall(s, t) && s.calls[t].phase == Waiting && Passed(s, s.calls[t].previous)
    case Release(t) => IsCall(s, t) && s.calls[t].phase == Running
    case Settle(t) =>
      && IsCall(s, t) && s.calls[t].phase == Finished && !s.calls[t].settled
      && Passed(s, s.calls[t].previous)
  }

  function Next(s: Locks, e: Event): Locks
    requires Enabled(s, e)
  {
    match e
    case Enter(key) =>
      var previous := if key in s.targets then Some(s.targets[key]) else None;
      Locks(s.calls + [Call(key, previous, Waiting, false)], s.targets[key := |s.calls|])
    case Acquire(t) =>
      s.(calls := s.calls[t := s.calls[t].(phase := Running)])
    case Release(t) =>
      var key := s.calls[t].key;
      Locks(
        s.calls[t := s.calls[t].(phase := Finished)],
        if key in s.targets && s.targets[key] == t then s.targets - {key} else s.targets)
    case Settle(t) =>
      s.(calls := s.calls[t := s.calls[t].(settled := true)])
  }

  // ----- The invariant -----

  // previous names the call on the same key that arrived last before t, and None
  // only when every earlier call on the key was already finished.
  ghost predicate Linked(s: Locks, t: nat)
    requires IsCall(s, t)
  {
    match s.calls[t].previous
    case None => forall u :: 0 <= u < t && s.calls[u].key == s.calls[t].key ==> s.calls[u].phase == Finished
    case Some(p) =>
      && p < t && s.calls[p].key == s.calls[t].key
      && forall u :: p < u < t ==> s.calls[u].key != s.calls[t].key
  }

  ghost predicate Ordered(s: Locks, t: nat)
    requires IsCall(s, t)
  {
    && (s.calls[t].phase != Waiting ==> Passed(s, s.calls[t].previous))
    && (s.calls[t].settled ==> s.calls[t].phase == Finished && Passed(s, s.calls[t].previous))
  }

  // The map holds, for each key, the last call on it while that is unfinished.
  ghost predicate Mapped(s: Locks) {
    && (forall key :: key in s.targets ==>
          && IsCall(s, s.targets[key]) && s.calls[s.targets[key]].key == key
          && s.calls[s.targets[key]].phase != Finished
          && forall u :: s.targets[key] < u < |s.calls| ==> s.calls[u].key != key)
    && (forall u :: 0 <= u < |s.calls| && s.calls[u].key !in s.targets ==> s.calls[u].phase == Finished)
  }

  ghost predicate Inv(s: Locks) {
    && (forall t :: 0 <= t < |s.calls| ==> Linked(s, t))
    && (forall t :: 0 <= t < |s.calls| ==> Ordered(s, t))
    && Mapped(s)
  }

  // ----- What the invariant says -----

  // A settled promise means every call on its key up to it has finished.
  lemma {:induction false} SettledFinishesEarlier(s: Locks, t: nat, u: nat)
    requires Inv(s) && IsCall(s, t) && u <= t && s.calls[u].key == s.calls[t].key
    requires s.calls[t].settled
    ensures s.calls[u].phase == Finished
    decreases t
  {
    assert Linked(s, t) && Ordered(s, t);
    if u < t && s.calls[t].previous.Some? {
      SettledFinishesEarlier(s, s.calls[t].previous.value, u);
    }
  }

  // First come, first served: a call that got past its await has every earlier
  // call on its key behind it.
  lemma ArrivalOrder(s: Locks, t: nat, u: nat)
    requires Inv(s) && IsCall(s, t) && u < t && s.calls[u].key == s.calls[t].key
    requires s.calls[t].phase != Waiting || Enabled(s, Acquire(t))
    ensures s.calls[u].phase == Finished
  {
    assert Linked(s, t) && Ordered(s, t);
    if s.calls[t].previous.Some? {
      SettledFinishesEarlier(s, s.calls[t].previous.value, u);
    }
  }

  lemma MutualExclusion(s: Locks, t: nat, u: nat)
    requires Inv(s) && IsCall(s, t) && IsCall(s, u)
    requires s.calls[t].phase == Running && s.calls[u].phase == Running
    requires s.calls[t].key == s.calls[u].key
    ensures t == u
  {
    if u < t {
      ArrivalOrder(s, t, u);
    } else if t < u {
      ArrivalOrder(s, u, t);
    }
  }

  ghost predicate Unfinished(s: Locks, key: string) {
    exists t: nat :: IsCall(s, t) && s.calls[t].key == key && s.calls[t].phase != Finished
  }

  // A key has an entry exactly while some call on it is unfinished.
  lemma MapIsExact(s: Locks, key: string)
    requires Inv(s)
    ensures key in s.targets <==> Unfinished(s, key)
  {
    if key in s.targets {
      var t := s.targets[key];
      assert IsCall(s, t) && s.calls[t].phase != Finished;
    }
  }

  // ----- Every event keeps it -----

  lemma EnterKeeps(s: Locks, key: string)
    requires Inv(s)
    ensures Inv(Next(s, Enter(key)))
  {
    var s' := Next(s, Enter(key));
    var n := |s.calls|;
    forall t | 0 <= t < |s'.calls| ensures Linked(s', t) && Ordered(s', t) {
      if t < n {
        assert Linked(s, t) && Ordered(s, t) && s'.calls[t] == s.calls[t];
      }
    }
  }

  lemma AcquireKeeps(s: Locks, t: nat)
    requires Inv(s) && Enabled(s, Acquire(t))
    ensures Inv(Next(s, Acquire(t)))
  {
    var s' := Next(s, Acquire(t));
    forall u | 0 <= u < |s'.calls| ensures Linked(s', u) && Ordered(s', u) {
      assert Linked(s, u) && Ordered(s, u);
    }
  }

  lemma SettleKeeps(s: Locks, t: nat)
    requires Inv(s) && Enabled(s, Settle(t))
    ensures Inv(Next(s, Settle(t)))
  {
    var s' := Next(s, Settle(t));
    forall u | 0 <= u < |s'.calls| ensures Linked(s', u) && Ordered(s', u) {
      assert Linked(s, u) && Ordered(s, u);
    }
  }

  lemma ReleaseKeeps(s: Locks, t: nat)
    requires Inv(s) && Enabled(s, Release(t))
    ensures Inv(Next(s, Release(t)))
  {
    var s' := Next(s, Release(t));
    forall u | 0 <= u < |s'.calls| ensures Linked(s', u) && Ordered(s', u) {
      assert Linked(s, u) && Ordered(s, u);
    }
    forall u | 0 <= u < |s'.calls| && s'.calls[u].key !in s'.targets ensures s'.calls[u].phase == Finished {
      if s.calls[u].key in s.targets && u != t {
        assert s.targets[s.calls[u].key] == t;
        assert u < t;
        ArrivalOrder(s, t, u);
      }
    }
  }

  lemma EveryEventKeeps(s: Locks, e: Event)
    requires Inv(s) && Enabled(s, e)
    ensures Inv(Next(s, e))
  {
    match e {
      case Enter(key) => EnterKeeps(s, key);
      case Acquire(t) => AcquireKeeps(s, t);
      case Release(t) => ReleaseKeeps(s, t);
      case Settle(t) => SettleKeeps(s, t);
    }
  }

  // ----- Whole runs -----

  ghost predicate IsRun(s: Locks, events: seq<Event>)
    decreases |events|
  {
    events == [] || (Enabled(s, events[0]) && IsRun(Next(s, events[0]), events[1..]))
  }

  ghost function AfterRun(s: Locks, events: seq<Event>): Locks
    requires IsRun(s, events)
    decreases |events|
  {
    if events == [] then s else AfterRun(Next(s, events[0]), events[1..])
  }

  lemma {:induction false} RunsKeep(s: Locks, events: seq<Event>)
    requires Inv(s) && IsRun(s, events)
    ensures Inv(AfterRun(s, events))
    decreases |events|
  {
    if events != [] {
      EveryEventKeeps(s, events[0]);
      RunsKeep(Next(s, events[0]), events[1..]);
    }
  }

  ghost predicate BothRunning(s: Locks, t: nat, u: nat) {
    && IsCall(s, t) && IsCall(s, u) && s.calls[t].key == s.calls[u].key
    && s.calls[t].phase == Running && s.calls[u].phase == Running
  }

  // u arrived before t on the same key, and t is past its await.
  ghost predicate Overtaken(s: Locks, t: nat, u: nat) {
    IsCall(s, t) && u < t && s.calls[t].key == s.calls[u].key && s.calls[t].phase != Waiting
  }

  // In every interleaving of any number of calls: one call per key at a time, in
  // arrival order, and the map holds exactly the keys with a call to finish.
  lemma LockIsCorrect(events: seq<Event>)
    requires IsRun(Unlocked, events)
    ensures var s := AfterRun(Unlocked, events);
            && (forall t: nat, u: nat :: BothRunning(s, t, u) ==> t == u)
            && (forall t: nat, u: nat :: Overtaken(s, t, u) ==> s.calls[u].phase == Finished)
            && (forall key :: key in s.targets <==> Unfinished(s, key))
  {
    var s := AfterRun(Unlocked, events);
    RunsKeep(Unlocked, events);
    forall t: nat, u: nat | BothRunning(s, t, u) ensures t == u {
      MutualExclusion(s, t, u);
    }
    forall t: nat, u: nat | Overtaken(s, t, u) ensures s.calls[u].phase == Finished {
      ArrivalOrder(s, t, u);
    }
    forall key ensures key in s.targets <==> Unfinished(s, key) {
      MapIsExact(s, key);
    }
  }

  // ----- No deadlock, and no call waits on another key -----

  ghost predicate Own(s: Locks, key: string, e: Event) {
    && !e.Enter? && IsCall(s, e.call) && s.calls[e.call].key == key && Enabled(s, e)
  }

  // A key with an unfinished call always has an event of its own that can happen.
  lemma {:induction false} KeyMoves(s: Locks, t: nat) returns (e: Event)
    requires Inv(s) && IsCall(s, t) && s.calls[t].phase != Finished
    ensures Own(s, s.calls[t].key, e)
    decreases t
  {
    assert Linked(s, t);
    if s.calls[t].phase == Running {
      e := Release(t);
    } else if Passed(s, s.calls[t].previous) {
      e := Acquire(t);
    } else {
      var p := s.calls[t].previous.value;
      if s.calls[p].phase != Finished {
        e := KeyMoves(s, p);
      } else {
        assert Ordered(s, p);
        e := Settle(p);
      }
    }
  }

  // The events a call still has ahead of it.
  function Ahead(c: Call): nat {
    match c.phase
    case Waiting => 3
    case Running => 2
    case Finished => if c.settled then 0 else 1
  }

  function Remaining(calls: seq<Call>): nat {
    if calls == [] then 0 else Ahead(calls[0]) + Remaining(calls[1..])
  }

  lemma {:induction false} RemainingUpdate(calls: seq<Call>, t: nat, c: Call)
    requires t < |calls|
    ensures Remaining(calls[t := c]) == Remaining(calls) - Ahead(calls[t]) + Ahead(c)
  {
    if t > 0 {
      RemainingUpdate(calls[1..], t - 1, c);
      assert calls[t := c][1..] == calls[1..][t - 1 := c];
    } else {
      assert calls[t := c][1..] == calls[1..];
    }
  }

  // Every event after the last arrival uses up one of a fixed number of steps.
  lemma EventsAreUsedUp(s: Locks, e: Event)
    requires Inv(s) && Enabled(s, e) && !e.Enter?
    ensures Remaining(Next(s, e).calls) == Remaining(s.calls) - 1
  {
    RemainingUpdate(s.calls, e.call, Next(s, e).calls[e.call]);
    assert Ordered(s, e.call);
  }

  // Once no more calls arrive, every run is at most that long, and one that can
  // go no further has finished every call and emptied the map.
  lemma {:induction false} RunsDrain(s: Locks, events: seq<Event>)
    requires Inv(s) && IsRun(s, events) && forall e: Event :: e in events ==> !e.Enter?
    ensures |events| <= Remaining(s.calls)
    ensures var s' := AfterRun(s, events);
            (forall e: Event :: !e.Enter? ==> !Enabled(s', e)) ==>
              s'.targets == map[] && forall c :: c in s'.calls ==> c.phase == Finished
    decreases |events|
  {
    if events == [] {
      if forall e: Event :: !e.Enter? ==> !Enabled(s, e) {
        forall t | 0 <= t < |s.calls| ensures s.calls[t].phase == Finished {
          if s.calls[t].phase != Finished {
            var e := KeyMoves(s, t);
          }
        }
        forall key | key in s.targets ensures false {
          MapIsExact(s, key);
        }
      }
    } else {
      EveryEventKeeps(s, events[0]);
      EventsAreUsedUp(s, events[0]);
      RunsDrain(Next(s, events[0]), events[1..]);
    }
  }

  // ----- The module-level map, updated in place -----

  class TargetLocks {
    var targetLocks: map<string, nat>
    var calls: seq<Call>

    ghost function Model(): Locks
      reads this
    {
      Locks(calls, targetLocks)
    }

    ghost predicate Valid()
      reads this
    {
      Inv(Model())
    }

    constructor ()
      ensures Valid() && Model() == Unlocked
    {
      targetLocks := map[];
      calls := [];
    }

    // The stretch up to the first await: queue behind the last call on the key.
    method Enter(key: string) returns (call: nat)
      requires Valid()
      modifies this
      ensures Valid() && Model() == Next(old(Model()), Event.Enter(key))
      ensures call == |old(calls)| && calls[..call] == old(calls)
    {
      EveryEventKeeps(Model(), Event.Enter(key));
      call := |calls|;
      var previous := if key in targetLocks then Some(targetLocks[key]) else None;
      calls := calls + [Call(key, previous, Waiting, false)];
      targetLocks := targetLocks[key := call];
    }

    // The await returns: the previous promise has settled.
    method Acquire(call: nat)
      requires Valid() && Enabled(Model(), Event.Acquire(call))
      modifies this`calls
      ensures Valid() && Model() == Next(old(Model()), Event.Acquire(call))
    {
      EveryEventKeeps(Model(), Event.Acquire(call));
      calls := calls[call := calls[call].(phase := Running)];
    }

    // The finally block: open the gate, and drop the entry if nobody queued since.
    method Release(call: nat)
      requires Valid() && Enabled(Model(), Event.Release(call))
      modifies this
      ensures Valid() && Model() == Next(old(Model()), Event.Release(call))
    {
      EveryEventKeeps(Model(), Event.Release(call));
      var key := calls[call].key;
      calls := calls[call := calls[call].(phase := Finished)];
      if key in targetLocks && targetLocks[key] == call {
        targetLocks := targetLocks - {key};
      }
    }

    // The queued promise settles, in a later turn of the event loop.
    method Settle(call: nat)
      requires Valid() && Enabled(Model(), Event.Settle(call))
      modifies this`calls
      ensures Valid() && Model() == Next(old(Model()), Event.Settle(call))
    {
      EveryEventKeeps(Model(), Event.Settle(call));
      calls := calls[call := calls[call].(settled := true)];
    }
  }
}
