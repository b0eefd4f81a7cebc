// Removes beside guarded mutations (src/fs-provider.ts): remove takes no lock, so a
// run is serial only if no remove hits a mutation half way.
module RemovedFiles {
  import opened Options
  import opened Text
  import opened LineEndings
  import opened TextEdit
  import opened GuardedFiles
  import Lock = TargetLock

  // ----- What a run did, in order -----

  // A remove and what it found. The guest reports a missing target, except to a
  // recursive remove.
  datatype Removal = Removal(key: string, recursive: bool, found: bool)

  // A call takes its turn when it writes or is answered without writing, a remove
  // when it runs.
  datatype Turn = CallTurn(call: nat) | RemoveTurn(index: nat)

  datatype Trace = Trace(world: World, order: seq<Turn>, removals: seq<Removal>)

  predicate Present(s: World, key: string) {
    !StoreAt(s.stores, key).node.Absent?
  }

  function NextTrace(tr: Trace, e: Event): Trace
    requires WellFormed(tr.world) && Enabled(tr.world, e)
  {
    var s := Next(tr.world, e);
    match e
    case Stat(t) => Trace(s, if s.progress[t].Replied? then tr.order + [CallTurn(t)] else tr.order, tr.removals)
    case Read(t) => Trace(s, if s.progress[t].Replied? then tr.order + [CallTurn(t)] else tr.order, tr.removals)
    case Write(t) => Trace(s, tr.order + [CallTurn(t)], tr.removals)
    case Remove(key, recursive) =>
      Trace(s, tr.order + [RemoveTurn(|tr.removals|)],
            tr.removals + [Removal(key, recursive, Present(tr.world, key))])
    case _ => tr.(world := s)
  }

  ghost function AfterTrace(tr: Trace, events: seq<Event>): Trace
    requires IsRun(tr.world, events)
    decreases |events|
  {
    if events == [] then tr else AfterTrace(NextTrace(tr, events[0]), events[1..])
  }

  function StartTrace(initial: map<string, Store>): Trace {
    Trace(Start(initial), [], [])
  }

  // Past its stat and not yet at its final stat.
  predicate HalfWay(p: Progress) {
    p.BeforeRead? || p.BeforeWrite? || p.BeforeFinalStat?
  }

  // A remove that takes a target from under the call holding its lock half way.
  ghost predicate Hits(s: World, e: Event)
    requires WellFormed(s)
  {
    e.Remove? && Present(s, e.key) &&
    exists t: nat :: t < |s.requests| && InSection(s, t) && s.requests[t].key == e.key && HalfWay(s.progress[t])
  }

  ghost predicate NoHits(s: World, events: seq<Event>)
    requires IsRun(s, events)
    decreases |events|
  {
    events == [] || (!Hits(s, events[0]) && NoHits(Next(s, events[0]), events[1..]))
  }

  // ----- Running calls and removes one at a time -----

  // What key holds after the turns, each run alone.
  function Serial(initial: map<string, Store>, requests: seq<Request>, removals: seq<Removal>, order: seq<Turn>,
                  key: string): Store
    decreases |order|
  {
    if order == [] then StoreAt(initial, key)
    else
      var store := Serial(initial, requests, removals, order[..|order| - 1], key);
      TakeTurn(requests, removals, store, order[|order| - 1], key)
  }

  function TakeTurn(requests: seq<Request>, removals: seq<Removal>, store: Store, turn: Turn, key: string): Store {
    match turn
    case CallTurn(t) => if t < |requests| && requests[t].key == key then Alone(requests[t], store).0 else store
    case RemoveTurn(i) => if i < |removals| && removals[i].key == key then store.(node := Absent) else store
  }

  function SerialIn(tr: Trace, n: nat, key: string): Store
    requires n <= |tr.order|
  {
    Serial(tr.world.initial, tr.world.requests, tr.removals, tr.order[..n], key)
  }

  lemma SerialMore(initial: map<string, Store>, requests: seq<Request>, removals: seq<Removal>, order: seq<Turn>,
                   turn: Turn, key: string)
    ensures Serial(initial, requests, removals, order + [turn], key) ==
            TakeTurn(requests, removals, Serial(initial, requests, removals, order, key), turn, key)
  {
    assert (order + [turn])[..|order|] == order;
  }

  // Later calls and removes do not change what the turns of earlier ones leave.
  lemma {:induction false} SerialPrefix(initial: map<string, Store>, requests: seq<Request>, removals: seq<Removal>,
                                        requests': seq<Request>, removals': seq<Removal>, order: seq<Turn>, key: string)
    requires requests <= requests' && removals <= removals'
    requires forall k :: 0 <= k < |order| ==> Known(order[k], |requests|, |removals|)
    ensures Serial(initial, requests', removals', order, key) == Serial(initial, requests, removals, order, key)
    decreases |order|
  {
    if order != [] {
      SerialPrefix(initial, requests, removals, requests', removals', order[..|order| - 1], key);
      assert Known(order[|order| - 1], |requests|, |removals|);
    }
  }

  predicate Known(turn: Turn, calls: nat, removals: nat) {
    match turn
    case CallTurn(t) => t < calls
    case RemoveTurn(i) => i < removals
  }

  // ----- Without a hit, the turns are a serial order -----

  ghost predicate TakenAt(tr: Trace, t: nat, n: nat) {
    n < |tr.order| && tr.order[n] == CallTurn(t)
  }

  // A call that had its turn is, and will be, answered as if it ran alone then.
  ghost predicate Answered(tr: Trace, t: nat)
    requires WellFormed(tr.world) && t < |tr.world.requests|
  {
    var s := tr.world;
    exists n: nat :: TakenAt(tr, t, n) &&
      Complete(s.requests[t], Here(s, t), s.progress[t]).1 == Alone(s.requests[t], SerialIn(tr, n, s.requests[t].key)).1
  }

  ghost predicate TurnOk(tr: Trace, t: nat)
    requires WellFormed(tr.world) && t < |tr.world.requests|
  {
    var s := tr.world;
    match s.locks.calls[t].phase
    case Waiting => s.progress[t] == Queued && CallTurn(t) !in tr.order
    case Running =>
      (match s.progress[t]
       case BeforeFinalStat(_) => Answered(tr, t) && Present(s, s.requests[t].key)
       case Replied(_) => Answered(tr, t)
       case _ =>
         && CallTurn(t) !in tr.order
         && Complete(s.requests[t], Here(s, t), s.progress[t]) == Alone(s.requests[t], Here(s, t)))
    case Finished => s.progress[t].Replied? && Answered(tr, t)
  }

  ghost predicate RemovalOk(tr: Trace, n: nat)
    requires n < |tr.order|
  {
    tr.order[n].RemoveTurn? ==>
      var i := tr.order[n].index;
      i < |tr.removals| && tr.removals[i].found == !SerialIn(tr, n, tr.removals[i].key).node.Absent?
  }

  // Each call and each remove at most once, calls on one key as they arrived, removes
  // as they ran.
  ghost predicate InOrder(tr: Trace) {
    && (forall n :: 0 <= n < |tr.order| ==> Known(tr.order[n], |tr.world.requests|, |tr.removals|))
    && (forall m, n :: 0 <= m < n < |tr.order| ==> Precedes(tr, tr.order[m], tr.order[n]))
    && (forall i: nat :: i < |tr.removals| ==> RemoveTurn(i) in tr.order)
  }

  ghost predicate Precedes(tr: Trace, a: Turn, b: Turn) {
    match (a, b)
    case (CallTurn(t), CallTurn(u)) =>
      t != u && (t < |tr.world.requests| && u < |tr.world.requests| && tr.world.requests[t].key == tr.world.requests[u].key ==> t < u)
    case (RemoveTurn(i), RemoveTurn(j)) => i < j
    case _ => true
  }

  ghost predicate StoresOk(tr: Trace) {
    forall key: string :: StoreAt(tr.world.stores, key) == SerialIn(tr, |tr.order|, key)
  }

  ghost predicate TurnsOk(tr: Trace)
    requires WellFormed(tr.world)
  {
    forall t: nat :: t < |tr.world.requests| ==> TurnOk(tr, t)
  }

  ghost predicate RemovalsOk(tr: Trace) {
    forall n: nat :: n < |tr.order| ==> RemovalOk(tr, n)
  }

  ghost predicate Inv(tr: Trace) {
    && WellFormed(tr.world) && Lock.Inv(tr.world.locks)
    && InOrder(tr) && StoresOk(tr) && TurnsOk(tr) && RemovalsOk(tr)
  }

  // ----- What each event leaves alone -----

  ghost predicate Extends(tr: Trace, tr': Trace) {
    && tr'.world.initial == tr.world.initial && tr.world.requests <= tr'.world.requests
    && tr.removals <= tr'.removals && tr.order <= tr'.order
  }

  lemma SerialSame(tr: Trace, tr': Trace, n: nat, key: string)
    requires Extends(tr, tr') && InOrder(tr) && n <= |tr.order|
    ensures SerialIn(tr', n, key) == SerialIn(tr, n, key)
  {
    assert tr'.order[..n] == tr.order[..n];
    SerialPrefix(tr.world.initial, tr.world.requests, tr.removals, tr'.world.requests, tr'.removals, tr.order[..n], key);
  }

  lemma AnsweredStays(tr: Trace, tr': Trace, t: nat)
    requires WellFormed(tr.world) && WellFormed(tr'.world) && t < |tr.world.requests|
    requires Extends(tr, tr') && InOrder(tr) && Answered(tr, t)
    requires var r := tr.world.requests[t];
             Complete(r, Here(tr'.world, t), tr'.world.progress[t]).1 == Complete(r, Here(tr.world, t), tr.world.progress[t]).1
    ensures Answered(tr', t)
  {
    var s := tr.world;
    var n: nat :| TakenAt(tr, t, n) &&
      Complete(s.requests[t], Here(s, t), s.progress[t]).1 == Alone(s.requests[t], SerialIn(tr, n, s.requests[t].key)).1;
    SerialSame(tr, tr', n, s.requests[t].key);
    assert TakenAt(tr', t, n);
  }

  lemma RemovalStays(tr: Trace, tr': Trace, n: nat)
    requires Extends(tr, tr') && InOrder(tr) && n < |tr.order| && RemovalOk(tr, n)
    ensures RemovalOk(tr', n)
  {
    if tr.order[n].RemoveTurn? {
      SerialSame(tr, tr', n, tr.removals[tr.order[n].index].key);
    }
  }

  // A call the event does not touch, whose target it does not change either.
  lemma TurnStays(tr: Trace, tr': Trace, t: nat)
    requires WellFormed(tr.world) && WellFormed(tr'.world) && t < |tr.world.requests|
    requires Extends(tr, tr') && InOrder(tr) && TurnOk(tr, t)
    requires tr'.world.progress[t] == tr.world.progress[t]
    requires tr'.world.locks.calls[t].phase == tr.world.locks.calls[t].phase
    requires CallTurn(t) in tr'.order ==> CallTurn(t) in tr.order
    requires Here(tr'.world, t) == Here(tr.world, t) || tr.world.progress[t].Replied? ||
             tr.world.locks.calls[t].phase == Lock.Waiting
    ensures TurnOk(tr', t)
  {
    hide Complete, SerialIn;
    if Answered(tr, t) {
      if tr.world.progress[t].Replied? {
        RepliedCompletes(tr.world.requests[t], Here(tr.world, t), tr.world.progress[t]);
        RepliedCompletes(tr.world.requests[t], Here(tr'.world, t), tr.world.progress[t]);
      }
      if tr.world.progress[t].Replied? || Here(tr'.world, t) == Here(tr.world, t) {
        AnsweredStays(tr, tr', t);
      }
    }
  }

  lemma RepliedCompletes(r: Request, store: Store, p: Progress)
    requires p.Replied?
    ensures Complete(r, store, p) == (store, p.result)
  {
  }

  // ----- Events that take no turn -----

  predicate TakesNoTurn(s: World, e: Event)
    requires WellFormed(s) && Enabled(s, e)
  {
    match e
    case Acquire(_) => true
    case Stat(t) => !Next(s, e).progress[t].Replied?
    case Read(t) => !Next(s, e).progress[t].Replied?
    case FinalStat(_) => true
    case Release(_) => true
    case Settle(_) => true
    case _ => false
  }

  lemma LockEventKeeps(s: World, e: Event)
    requires WellFormed(s) && Lock.Inv(s.locks) && Enabled(s, e)
    ensures WellFormed(Next(s, e)) && Lock.Inv(Next(s, e).locks)
  {
    match e
    case Arrive(r) => Lock.EveryEventKeeps(s.locks, Lock.Enter(r.key));
    case Acquire(t) => Lock.EveryEventKeeps(s.locks, Lock.Acquire(t));
    case Release(t) => Lock.EveryEventKeeps(s.locks, Lock.Release(t));
    case Settle(t) => Lock.EveryEventKeeps(s.locks, Lock.Settle(t));
    case _ =>
  }

  lemma LookKeepsOwn(tr: Trace, e: Event)
    requires Inv(tr) && Enabled(tr.world, e) && TakesNoTurn(tr.world, e) && WellFormed(Next(tr.world, e))
    requires e.Stat? || e.Read?
    ensures TurnOk(NextTrace(tr, e), e.call)
  {
    var tr' := NextTrace(tr, e);
    var t := e.call;
    var r := tr.world.requests[t];
    assert TurnOk(tr, t);
    hide SerialIn, InOrder, StoresOk, RemovalsOk, Lock.Inv, ApplyEdit, Normalize, Alone, Answered, StoreAfterWrite, GuardDecision;
    if Answered(tr, t) {
      assert Complete(r, Here(tr'.world, t), tr'.world.progress[t]).1 == Complete(r, Here(tr.world, t), tr.world.progress[t]).1;
      AnsweredStays(tr, tr', t);
    }
  }

  lemma LockOrFinalStatKeepsOwn(tr: Trace, e: Event)
    requires Inv(tr) && Enabled(tr.world, e) && TakesNoTurn(tr.world, e) && WellFormed(Next(tr.world, e))
    requires !e.Stat? && !e.Read?
    ensures TurnOk(NextTrace(tr, e), e.call)
  {
    var tr' := NextTrace(tr, e);
    var t := e.call;
    var r := tr.world.requests[t];
    assert TurnOk(tr, t);
    hide SerialIn, InOrder, StoresOk, RemovalsOk, Lock.Inv, ApplyEdit, Normalize, Alone, Answered, StoreAfterWrite, GuardDecision;
    if Answered(tr, t) {
      assert Complete(r, Here(tr'.world, t), tr'.world.progress[t]).1 == Complete(r, Here(tr.world, t), tr.world.progress[t]).1;
      AnsweredStays(tr, tr', t);
    }
  }

  lemma NoTurnKeepsOwn(tr: Trace, e: Event)
    requires Inv(tr) && Enabled(tr.world, e) && TakesNoTurn(tr.world, e) && WellFormed(Next(tr.world, e))
    ensures TurnOk(NextTrace(tr, e), e.call)
  {
    hide Inv, TurnOk, TakesNoTurn, NextTrace;
    if e.Stat? || e.Read? {
      LookKeepsOwn(tr, e);
    } else {
      LockOrFinalStatKeepsOwn(tr, e);
    }
  }

  lemma NoTurnKeepsOthers(tr: Trace, e: Event)
    requires Inv(tr) && Enabled(tr.world, e) && TakesNoTurn(tr.world, e) && WellFormed(Next(tr.world, e))
    ensures forall t: nat :: t < |tr.world.requests| && t != e.call ==> TurnOk(NextTrace(tr, e), t)
  {
    var tr' := NextTrace(tr, e);
    hide TurnOk, RemovalsOk, StoresOk, SerialIn, Lock.Inv, AfterStat, AfterRead, AfterFinalStat;
    forall t: nat | t < |tr.world.requests| && t != e.call ensures TurnOk(tr', t) {
      assert TurnOk(tr, t);
      TurnStays(tr, tr', t);
    }
  }

  // An event that changes neither the turns nor the files.
  lemma SameTurns(tr: Trace, tr': Trace)
    requires Extends(tr, tr') && tr'.order == tr.order && tr'.removals == tr.removals
    requires tr'.world.requests == tr.world.requests && tr'.world.stores == tr.world.stores
    requires InOrder(tr) && StoresOk(tr) && RemovalsOk(tr)
    ensures InOrder(tr') && StoresOk(tr') && RemovalsOk(tr')
  {
    hide RemovalOk, SerialIn;
    forall n: nat | n < |tr'.order| ensures RemovalOk(tr', n) {
      assert RemovalOk(tr, n);
      RemovalStays(tr, tr', n);
    }
    forall key: string ensures StoreAt(tr'.world.stores, key) == SerialIn(tr', |tr'.order|, key) {
      SerialSame(tr, tr', |tr.order|, key);
    }
    forall m, n | 0 <= m < n < |tr'.order| ensures Precedes(tr', tr'.order[m], tr'.order[n]) {
      assert Precedes(tr, tr.order[m], tr.order[n]);
    }
  }

  lemma NoTurnKeeps(tr: Trace, e: Event)
    requires Inv(tr) && Enabled(tr.world, e) && TakesNoTurn(tr.world, e)
    ensures Inv(NextTrace(tr, e))
  {
    LockEventKeeps(tr.world, e);
    NoTurnKeepsOwn(tr, e);
    NoTurnKeepsOthers(tr, e);
    hide TurnOk, InOrder, RemovalsOk, StoresOk, Lock.Inv, AfterStat, AfterRead, AfterFinalStat;
    SameTurns(tr, NextTrace(tr, e));
  }

  // ----- A call takes its turn -----

  predicate TakesTurn(s: World, e: Event)
    requires WellFormed(s) && Enabled(s, e)
  {
    match e
    case Stat(t) => Next(s, e).progress[t].Replied?
    case Read(t) => Next(s, e).progress[t].Replied?
    case Write(_) => true
    case _ => false
  }

  // From the event on the call does what it would do alone.
  lemma TurnRunsAlone(s: World, e: Event)
    requires WellFormed(s) && Enabled(s, e) && TakesTurn(s, e)
    requires Complete(s.requests[e.call], Here(s, e.call), s.progress[e.call]) == Alone(s.requests[e.call], Here(s, e.call))
    ensures var s', t, r := Next(s, e), e.call, s.requests[e.call];
            && Here(s', t) == Alone(r, Here(s, t)).0
            && Complete(r, Here(s', t), s'.progress[t]).1 == Alone(r, Here(s, t)).1
            && (s'.progress[t].BeforeFinalStat? ==> Present(s', r.key))
            && (s'.progress[t].BeforeFinalStat? || s'.progress[t].Replied?)
  {
    if e.Write? {
      var t, r := e.call, s.requests[e.call];
      var p := s.progress[t];
      WriteCompletes(r, Here(s, t), p.payload, p.reply);
    }
  }

  lemma CallsInTurn(tr: Trace, t: nat, n: nat)
    requires Inv(tr) && InSection(tr.world, t) && CallTurn(t) !in tr.order && n < |tr.order|
    ensures Precedes(tr, tr.order[n], CallTurn(t))
  {
    hide SerialIn, StoresOk, RemovalsOk, Answered;
    if tr.order[n].CallTurn? {
      var u := tr.order[n].call;
      assert Known(tr.order[n], |tr.world.requests|, |tr.removals|);
      assert tr.order[n] in tr.order && TurnOk(tr, u);
      if u > t && tr.world.requests[u].key == tr.world.requests[t].key {
        Lock.ArrivalOrder(tr.world.locks, u, t);
      }
    }
  }

  lemma OrderMore(tr: Trace, tr': Trace, turn: Turn)
    requires InOrder(tr) && tr'.order == tr.order + [turn] && tr'.world.requests == tr.world.requests
    requires tr.removals <= tr'.removals && Known(turn, |tr'.world.requests|, |tr'.removals|)
    requires forall n :: 0 <= n < |tr.order| ==> Precedes(tr, tr.order[n], turn)
    requires forall i: nat :: |tr.removals| <= i < |tr'.removals| ==> turn == RemoveTurn(i)
    ensures InOrder(tr')
  {
    forall m, n | 0 <= m < n < |tr'.order| ensures Precedes(tr', tr'.order[m], tr'.order[n]) {
      assert Precedes(tr, tr'.order[m], tr'.order[n]);
    }
    forall i: nat | i < |tr'.removals| ensures RemoveTurn(i) in tr'.order {
      if i >= |tr.removals| {
        assert tr'.order[|tr.order|] == RemoveTurn(i);
      }
    }
  }

  lemma OwnTurn(tr: Trace, e: Event)
    requires Inv(tr) && Enabled(tr.world, e) && TakesTurn(tr.world, e) && WellFormed(Next(tr.world, e))
    ensures CallTurn(e.call) !in tr.order
    ensures Here(Next(tr.world, e), e.call) == Alone(tr.world.requests[e.call], Here(tr.world, e.call)).0
    ensures TurnOk(NextTrace(tr, e), e.call)
  {
    var tr', t := NextTrace(tr, e), e.call;
    var r := tr.world.requests[t];
    assert TurnOk(tr, t);
    TurnRunsAlone(tr.world, e);
    assert tr'.order == tr.order + [CallTurn(t)];
    hide Complete, Alone;
    SerialSame(tr, tr', |tr.order|, r.key);
    assert TakenAt(tr', t, |tr.order|);
  }

  lemma OtherTurns(tr: Trace, e: Event, u: nat)
    requires Inv(tr) && Enabled(tr.world, e) && TakesTurn(tr.world, e) && WellFormed(Next(tr.world, e))
    requires u < |tr.world.requests| && u != e.call
    ensures TurnOk(NextTrace(tr, e), u)
  {
    var tr', t := NextTrace(tr, e), e.call;
    assert TurnOk(tr, u);
    if tr.world.locks.calls[u].phase == Lock.Running && tr.world.requests[u].key == tr.world.requests[t].key {
      Lock.MutualExclusion(tr.world.locks, t, u);
    }
    hide TurnOk, SerialIn;
    assert TurnPhases(tr, u) by { PhaseProgress(tr, u); }
    TurnStays(tr, tr', u);
  }

  // A waiting call has not started, a finished one is answered.
  predicate TurnPhases(tr: Trace, u: nat)
    requires WellFormed(tr.world) && u < |tr.world.requests|
  {
    && (tr.world.locks.calls[u].phase == Lock.Waiting ==> tr.world.progress[u].Queued?)
    && (tr.world.locks.calls[u].phase == Lock.Finished ==> tr.world.progress[u].Replied?)
  }

  lemma PhaseProgress(tr: Trace, u: nat)
    requires WellFormed(tr.world) && u < |tr.world.requests| && TurnOk(tr, u)
    ensures TurnPhases(tr, u)
  {
  }

  lemma TurnKeepsRemovals(tr: Trace, e: Event)
    requires Inv(tr) && Enabled(tr.world, e) && TakesTurn(tr.world, e)
    ensures RemovalsOk(NextTrace(tr, e))
  {
    var tr' := NextTrace(tr, e);
    hide RemovalOk, Lock.Inv, TurnsOk, StoresOk;
    forall n: nat | n < |tr'.order| ensures RemovalOk(tr', n) {
      if n < |tr.order| {
        assert RemovalOk(tr, n);
        RemovalStays(tr, tr', n);
      } else {
        CallIsNoRemoval(tr', n);
      }
    }
  }

  lemma TurnKeepsStores(tr: Trace, e: Event)
    requires Inv(tr) && Enabled(tr.world, e) && TakesTurn(tr.world, e)
    requires Here(Next(tr.world, e), e.call) == Alone(tr.world.requests[e.call], Here(tr.world, e.call)).0
    ensures StoresOk(NextTrace(tr, e))
  {
    var tr', t := NextTrace(tr, e), e.call;
    hide Alone, Lock.Inv, TurnsOk, RemovalsOk;
    forall key: string ensures StoreAt(tr'.world.stores, key) == SerialIn(tr', |tr'.order|, key) {
      assert tr'.order[..|tr'.order|] == tr.order + [CallTurn(t)] && tr.order[..|tr.order|] == tr.order;
      SerialMore(tr.world.initial, tr.world.requests, tr.removals, tr.order, CallTurn(t), key);
      assert StoreAt(tr.world.stores, key) == SerialIn(tr, |tr.order|, key);
    }
  }

  lemma TurnKeeps(tr: Trace, e: Event)
    requires Inv(tr) && Enabled(tr.world, e) && TakesTurn(tr.world, e)
    ensures Inv(NextTrace(tr, e))
  {
    var tr', t := NextTrace(tr, e), e.call;
    LockEventKeeps(tr.world, e);
    OwnTurn(tr, e);
    TurnKeepsRemovals(tr, e);
    TurnKeepsStores(tr, e);
    hide TurnOk, StoresOk, RemovalsOk, Lock.Inv, Alone, Here;
    forall u: nat | u < |tr'.world.requests| && u != t ensures TurnOk(tr', u) {
      OtherTurns(tr, e, u);
    }
    forall n | 0 <= n < |tr.order| ensures Precedes(tr, tr.order[n], CallTurn(t)) {
      CallsInTurn(tr, t, n);
    }
    OrderMore(tr, tr', CallTurn(t));
  }

  lemma CallIsNoRemoval(tr: Trace, n: nat)
    requires n < |tr.order| && tr.order[n].CallTurn?
    ensures RemovalOk(tr, n)
  {
  }

  // ----- A remove -----

  lemma RemoveLeavesTurn(tr: Trace, e: Event, t: nat)
    requires Inv(tr) && Enabled(tr.world, e) && e.Remove? && !Hits(tr.world, e)
    requires t < |tr.world.requests| && WellFormed(Next(tr.world, e))
    ensures TurnOk(NextTrace(tr, e), t)
  {
    var tr' := NextTrace(tr, e);
    var s := tr.world;
    assert TurnOk(tr, t);
    assert CallTurn(t) in tr'.order ==> CallTurn(t) in tr.order;
    hide SerialIn, InOrder, StoresOk, RemovalsOk;
    PhaseProgress(tr, t);
    if s.locks.calls[t].phase == Lock.Running && (s.progress[t].Queued? || s.progress[t].BeforeStat?) {
      assert CallTurn(t) !in tr.order;
    } else {
      if s.requests[t].key == e.key && HalfWay(s.progress[t]) {
        assert InSection(s, t);
        assert !Present(s, e.key);
      }
      TurnStays(tr, tr', t);
    }
  }

  lemma RemoveKeeps(tr: Trace, e: Event)
    requires Inv(tr) && Enabled(tr.world, e) && e.Remove? && !Hits(tr.world, e)
    ensures Inv(NextTrace(tr, e))
  {
    var tr' := NextTrace(tr, e);
    var i := |tr.removals|;
    LockEventKeeps(tr.world, e);
    hide TurnOk, Lock.Inv, Hits;
    forall t: nat | t < |tr'.world.requests| ensures TurnOk(tr', t) {
      RemoveLeavesTurn(tr, e, t);
    }
    forall n: nat | n < |tr'.order| ensures RemovalOk(tr', n) {
      if n < |tr.order| {
        assert RemovalOk(tr, n);
        RemovalStays(tr, tr', n);
      } else {
        SerialSame(tr, tr', n, e.key);
      }
    }
    OrderMore(tr, tr', RemoveTurn(i));
    forall key: string ensures StoreAt(tr'.world.stores, key) == SerialIn(tr', |tr'.order|, key) {
      assert tr'.order[..|tr'.order|] == tr.order + [RemoveTurn(i)] && tr.order[..|tr.order|] == tr.order;
      SerialMore(tr.world.initial, tr.world.requests, tr'.removals, tr.order, RemoveTurn(i), key);
      SerialSame(tr, tr', |tr.order|, key);
    }
  }

  // ----- A call arrives -----

  lemma ArriveKeepsTurns(tr: Trace, r: Request)
    requires Inv(tr)
    ensures Inv(NextTrace(tr, Arrive(r)))
  {
    var tr' := NextTrace(tr, Arrive(r));
    LockEventKeeps(tr.world, Arrive(r));
    NewcomerWaits(tr, r);
    hide TurnOk, RemovalOk, SerialIn, Lock.Inv;
    forall t: nat | t < |tr.world.requests| ensures TurnOk(tr', t) {
      assert TurnOk(tr, t);
      TurnStays(tr, tr', t);
    }
    forall n: nat | n < |tr'.order| ensures RemovalOk(tr', n) {
      assert RemovalOk(tr, n);
      RemovalStays(tr, tr', n);
    }
    forall m, n | 0 <= m < n < |tr'.order| ensures Precedes(tr', tr'.order[m], tr'.order[n]) {
      assert Precedes(tr, tr.order[m], tr.order[n]);
      assert Known(tr.order[m], |tr.world.requests|, |tr.removals|) && Known(tr.order[n], |tr.world.requests|, |tr.removals|);
    }
    forall key: string ensures StoreAt(tr'.world.stores, key) == SerialIn(tr', |tr'.order|, key) {
      SerialSame(tr, tr', |tr.order|, key);
    }
  }

  lemma NewcomerWaits(tr: Trace, r: Request)
    requires Inv(tr) && WellFormed(Next(tr.world, Arrive(r)))
    ensures TurnOk(NextTrace(tr, Arrive(r)), |tr.world.requests|)
  {
    assert CallTurn(|tr.world.requests|) !in tr.order;
  }

  // ----- Whole runs -----

  lemma EventKeeps(tr: Trace, e: Event)
    requires Inv(tr) && Enabled(tr.world, e) && !Hits(tr.world, e)
    ensures Inv(NextTrace(tr, e))
  {
    InvIsWellFormed(tr);
    hide Inv, Hits, NextTrace;
    if TakesNoTurn(tr.world, e) {
      NoTurnKeeps(tr, e);
    } else if TakesTurn(tr.world, e) {
      TurnKeeps(tr, e);
    } else if e.Remove? {
      RemoveKeeps(tr, e);
    } else {
      ArriveKeepsTurns(tr, e.request);
    }
  }

  lemma {:induction false} TraceKeeps(tr: Trace, events: seq<Event>)
    requires Inv(tr) && IsRun(tr.world, events) && NoHits(tr.world, events)
    ensures Inv(AfterTrace(tr, events))
    decreases |events|
  {
    hide Inv, Hits;
    if events != [] {
      InvIsWellFormed(tr);
      EventKeeps(tr, events[0]);
      TraceWorld(tr, events[0]);
      TraceKeeps(NextTrace(tr, events[0]), events[1..]);
    }
  }

  lemma InvIsWellFormed(tr: Trace)
    requires Inv(tr)
    ensures WellFormed(tr.world)
  {
  }

  lemma TraceWorld(tr: Trace, e: Event)
    requires WellFormed(tr.world) && Enabled(tr.world, e)
    ensures NextTrace(tr, e).world == Next(tr.world, e)
  {
  }

  lemma {:induction false} TraceFollowsRun(tr: Trace, events: seq<Event>)
    requires IsRun(tr.world, events)
    ensures AfterTrace(tr, events).world == AfterRun(tr.world, events)
    decreases |events|
  {
    hide NextTrace;
    if events != [] {
      TraceWorld(tr, events[0]);
      TraceFollowsRun(NextTrace(tr, events[0]), events[1..]);
    }
  }

  lemma StartKeeps(initial: map<string, Store>)
    ensures Inv(StartTrace(initial))
  {
  }

  // A call answered as alone, at its place in the order.
  ghost predicate AnsweredInTurn(tr: Trace, t: nat)
    requires WellFormed(tr.world) && t < |tr.world.requests|
  {
    exists n: nat :: TakenAt(tr, t, n) &&
      tr.world.progress[t] == Replied(Alone(tr.world.requests[t], SerialIn(tr, n, tr.world.requests[t].key)).1)
  }

  // A run in which no remove hits a call half way is the same as running its calls
  // and removes one at a time, in the order they took their turns: calls on one file
  // as they arrived, removes as they ran. Every finished call is answered as it would
  // have been alone then, every remove finds what is there then, and every file holds
  // what that order leaves.
  lemma RunsWithRemovesAreSerial(initial: map<string, Store>, events: seq<Event>)
    requires IsRun(Start(initial), events) && NoHits(Start(initial), events)
    ensures var tr, s := AfterTrace(StartTrace(initial), events), AfterRun(Start(initial), events);
            && tr.world == s && WellFormed(s) && InOrder(tr)
            && (forall t: nat :: t < |s.requests| && s.locks.calls[t].phase == Lock.Finished ==> AnsweredInTurn(tr, t))
            && RemovalsOk(tr) && StoresOk(tr)
  {
    StartKeeps(initial);
    TraceKeeps(StartTrace(initial), events);
    TraceFollowsRun(StartTrace(initial), events);
    var tr := AfterTrace(StartTrace(initial), events);
    var s := tr.world;
    forall t: nat | t < |s.requests| && s.locks.calls[t].phase == Lock.Finished ensures AnsweredInTurn(tr, t) {
      assert TurnOk(tr, t);
      FinishedInTurn(tr, t);
    }
  }

  lemma FinishedInTurn(tr: Trace, t: nat)
    requires WellFormed(tr.world) && t < |tr.world.requests|
    requires tr.world.progress[t].Replied? && Answered(tr, t)
    ensures AnsweredInTurn(tr, t)
  {
    var s := tr.world;
    var n: nat :| TakenAt(tr, t, n) &&
      Complete(s.requests[t], Here(s, t), s.progress[t]).1 == Alone(s.requests[t], SerialIn(tr, n, s.requests[t].key)).1;
    RepliedCompletes(s.requests[t], Here(s, t), s.progress[t]);
  }
}
