// A remove that hits a mutation half way shows: no order of the calls and removes, one
// at a time, gives the answers and the files of the run (src/fs-provider.ts).
module RemoveHits {
  import opened Options
  import opened Text
  import opened LineEndings
  import opened TextEdit
  import opened GuardedFiles
  import opened RemovedFiles
  import Lock = TargetLock

  // ----- Serial orders -----

  // Answers alike but for the token of a version; 0 is the version of no file.
  predicate SameAnswer(a: Result, b: Result) {
    match (a, b)
    case (WroteFile(created, v, after), WroteFile(created', v', after')) =>
      created == created' && after == after' && (v == 0 <==> v' == 0)
    case (EditedFile(v, before, after), EditedFile(v', before', after')) =>
      before == before' && after == after' && (v == 0 <==> v' == 0)
    case (Rejected(code), Rejected(code')) => code == code'
    case _ => false
  }

  predicate SameNode(a: Node, b: Node) {
    match (a, b)
    case (Absent, Absent) => true
    case (Directory(_), Directory(_)) => true
    case (File(content, _), File(content', _)) => content == content'
    case _ => false
  }

  function SerialOf(tr: Trace, order: seq<Turn>, n: nat, key: string): Store
    requires n <= |order|
  {
    Serial(tr.world.initial, tr.world.requests, tr.removals, order[..n], key)
  }

  // The n-th of the order, alone in its turn, does what it did in the run. A
  // recursive remove does not tell what it found.
  ghost predicate Agrees(tr: Trace, order: seq<Turn>, n: nat)
    requires n < |order|
  {
    match order[n]
    case CallTurn(t) =>
      && t < |tr.world.requests| && t < |tr.world.progress| && tr.world.progress[t].Replied?
      && SameAnswer(tr.world.progress[t].result,
                    Alone(tr.world.requests[t], SerialOf(tr, order, n, tr.world.requests[t].key)).1)
    case RemoveTurn(i) =>
      && i < |tr.removals|
      && (tr.removals[i].recursive ||
          tr.removals[i].found == !SerialOf(tr, order, n, tr.removals[i].key).node.Absent?)
  }

  // Some order of what the run did, with its answers and its files.
  ghost predicate IsSerialOrder(tr: Trace, order: seq<Turn>) {
    && multiset(order) == multiset(tr.order)
    && (forall n: nat :: n < |order| ==> Agrees(tr, order, n))
    && (forall key: string :: SameNode(StoreAt(tr.world.stores, key).node, SerialOf(tr, order, |order|, key).node))
  }

  ghost predicate SomeSerialOrder(tr: Trace) {
    exists order :: IsSerialOrder(tr, order)
  }

  ghost predicate Drained(s: World)
    requires WellFormed(s)
  {
    forall t: nat :: t < |s.requests| ==> s.locks.calls[t].phase == Lock.Finished
  }

  lemma NoHitIsSerial(initial: map<string, Store>, events: seq<Event>)
    requires IsRun(Start(initial), events) && NoHits(Start(initial), events)
    requires var s := AfterRun(Start(initial), events); WellFormed(s) && Drained(s)
    ensures SomeSerialOrder(AfterTrace(StartTrace(initial), events))
  {
    RunsWithRemovesAreSerial(initial, events);
    var tr := AfterTrace(StartTrace(initial), events);
    hide AfterTrace, AfterRun, Precedes;
    forall n: nat | n < |tr.order| ensures Agrees(tr, tr.order, n) {
      assert RemovalOk(tr, n) && Known(tr.order[n], |tr.world.requests|, |tr.removals|);
      if tr.order[n].CallTurn? {
        AgreesInTurn(tr, tr.order[n].call, n);
      }
    }
    assert IsSerialOrder(tr, tr.order);
  }

  lemma AgreesInTurn(tr: Trace, t: nat, n: nat)
    requires WellFormed(tr.world) && t < |tr.world.requests| && InOrder(tr) && TakenAt(tr, t, n)
    requires AnsweredInTurn(tr, t)
    ensures Agrees(tr, tr.order, n)
  {
    var m: nat :| TakenAt(tr, t, m) &&
      tr.world.progress[t] == Replied(Alone(tr.world.requests[t], SerialIn(tr, m, tr.world.requests[t].key)).1);
    hide Serial, InOrder;
    if m < n { TurnsDiffer(tr, m, n); }
    if n < m { TurnsDiffer(tr, n, m); }
  }

  lemma TurnsDiffer(tr: Trace, m: nat, n: nat)
    requires InOrder(tr) && m < n < |tr.order|
    ensures tr.order[m] != tr.order[n]
  {
    assert Precedes(tr, tr.order[m], tr.order[n]);
  }

  // ----- Counting what is there -----

  function Count(store: Store): int {
    if store.node.Absent? then 0 else 1
  }

  predicate Reliable(r: Request) {
    r.guest == Guest(false, false, Stored, false)
  }

  // What a turn, going by its answer in the run, adds to the files under key.
  function Weight(tr: Trace, key: string, turn: Turn): int {
    match turn
    case CallTurn(t) =>
      if t < |tr.world.requests| && t < |tr.world.progress| && tr.world.requests[t].key == key &&
         SaysCreated(tr.world.progress[t]) then 1 else 0
    case RemoveTurn(i) =>
      if i < |tr.removals| && tr.removals[i].key == key && tr.removals[i].found then -1 else 0
  }

  predicate SaysCreated(p: Progress) {
    match p
    case BeforeFinalStat(WriteReply(created, _)) => created
    case Replied(WroteFile(created, _, _)) => created
    case _ => false
  }

  function Total(tr: Trace, key: string, order: seq<Turn>): int {
    if order == [] then 0
    else Total(tr, key, order[..|order| - 1]) + Weight(tr, key, order[|order| - 1])
  }

  lemma TotalMore(tr: Trace, key: string, order: seq<Turn>, turn: Turn)
    ensures Total(tr, key, order + [turn]) == Total(tr, key, order) + Weight(tr, key, turn)
  {
    assert (order + [turn])[..|order|] == order;
  }

  lemma {:induction false} TotalSame(tr: Trace, tr': Trace, key: string, order: seq<Turn>)
    requires forall turn :: turn in order ==> Weight(tr', key, turn) == Weight(tr, key, turn)
    ensures Total(tr', key, order) == Total(tr, key, order)
    decreases |order|
  {
    hide Weight;
    if order != [] {
      var front := order[..|order| - 1];
      assert forall turn :: turn in front ==> turn in order;
      TotalSame(tr, tr', key, front);
    }
  }

  lemma {:induction false} TotalWithout(tr: Trace, key: string, order: seq<Turn>, k: nat)
    requires k < |order|
    ensures Total(tr, key, order) == Total(tr, key, order[..k] + order[k + 1..]) + Weight(tr, key, order[k])
    decreases |order|
  {
    hide Weight;
    var front, last := order[..|order| - 1], order[|order| - 1];
    if k == |order| - 1 {
      assert order[..k] + order[k + 1..] == front;
    } else {
      TotalWithout(tr, key, front, k);
      var less := front[..k] + front[k + 1..];
      assert order[..k] + order[k + 1..] == less + [last];
      TotalMore(tr, key, less, last);
    }
  }

  lemma Without(order: seq<Turn>, k: nat)
    requires k < |order|
    ensures multiset(order) == multiset(order[..k] + order[k + 1..]) + multiset{order[k]}
  {
    assert order == order[..k] + [order[k]] + order[k + 1..];
  }

  // The total does not depend on the order.
  lemma {:induction false} TotalOfPermutation(tr: Trace, key: string, a: seq<Turn>, b: seq<Turn>)
    requires multiset(a) == multiset(b)
    ensures Total(tr, key, a) == Total(tr, key, b)
    decreases |a|
  {
    hide Weight;
    if a == [] {
      assert |multiset(b)| == |b|;
    } else {
      var last, front := a[|a| - 1], a[..|a| - 1];
      Without(a, |a| - 1);
      assert a[..|a| - 1] + a[|a|..] == front;
      assert last in multiset(b);
      var k :| 0 <= k < |b| && b[k] == last;
      var less := b[..k] + b[k + 1..];
      Without(b, k);
      assert multiset(less) == multiset(b) - multiset{last};
      assert multiset(front) == multiset(a) - multiset{last};
      TotalWithout(tr, key, b, k);
      TotalOfPermutation(tr, key, front, less);
    }
  }

  // With every request answered, a call run alone never reports an I/O error nor the
  // version of no file, and adds a file exactly if it says so.
  lemma ReliableAlone(r: Request, store: Store)
    requires Reliable(r)
    ensures var (after, result) := Alone(r, store);
            && result != Rejected(IoError)
            && (result.WroteFile? || result.EditedFile? ==> result.version != 0)
            && Count(after) == Count(store) + if result.WroteFile? && result.created then 1 else 0
  {
    hide ApplyEdit, Normalize;
    if r.op.WriteText? {
      WriteAlone(r, store);
    } else {
      EditAlone(r, store);
    }
  }

  // A serial order adds up: what is there at the end is what was there, plus what the
  // answers say.
  lemma {:induction false} SerialAddsUp(tr: Trace, order: seq<Turn>, n: nat, key: string)
    requires n <= |order| && forall k: nat :: k < |order| ==> Agrees(tr, order, k)
    requires forall r :: r in tr.world.requests ==> Reliable(r)
    requires forall m :: m in tr.removals ==> !m.recursive
    ensures Count(SerialOf(tr, order, n, key)) == Count(StoreAt(tr.world.initial, key)) + Total(tr, key, order[..n])
    decreases n
  {
    if n > 0 {
      SerialAddsUp(tr, order, n - 1, key);
      var turn, store := order[n - 1], SerialOf(tr, order, n - 1, key);
      assert order[..n] == order[..n - 1] + [turn];
      TotalMore(tr, key, order[..n - 1], turn);
      SerialMore(tr.world.initial, tr.world.requests, tr.removals, order[..n - 1], turn, key);
      assert Agrees(tr, order, n - 1);
      TurnAddsUp(tr, order, n - 1, key);
    }
  }

  lemma TurnAddsUp(tr: Trace, order: seq<Turn>, n: nat, key: string)
    requires n < |order| && Agrees(tr, order, n)
    requires forall r :: r in tr.world.requests ==> Reliable(r)
    requires forall m :: m in tr.removals ==> !m.recursive
    ensures Count(TakeTurn(tr.world.requests, tr.removals, SerialOf(tr, order, n, key), order[n], key)) ==
            Count(SerialOf(tr, order, n, key)) + Weight(tr, key, order[n])
  {
    hide Alone, Serial;
    match order[n]
    case CallTurn(t) =>
      assert tr.world.requests[t] in tr.world.requests;
      ReliableAlone(tr.world.requests[t], SerialOf(tr, order, n, tr.world.requests[t].key));
    case RemoveTurn(i) =>
      assert tr.removals[i] in tr.removals;
  }

  // ----- What a hit leaves behind -----

  predicate NoFile(s: World, key: string) {
    !Present(s, key)
  }

  // A call half way whose target is gone, or one answered so.
  predicate Scarred(s: World, t: nat)
    requires WellFormed(s) && t < |s.requests|
  {
    match s.progress[t]
    case BeforeRead => InSection(s, t) && NoFile(s, s.requests[t].key)
    case BeforeWrite(_, reply) =>
      InSection(s, t) && NoFile(s, s.requests[t].key) && !(reply.WriteReply? && reply.created)
    case BeforeFinalStat(_) => InSection(s, t) && NoFile(s, s.requests[t].key)
    case Replied(result) =>
      result == Rejected(IoError) || ((result.WroteFile? || result.EditedFile?) && result.version == 0)
    case _ => false
  }

  // Files there now beyond what was there and what the answers say.
  function Debt(tr: Trace, key: string): int {
    Count(StoreAt(tr.world.stores, key)) - Count(StoreAt(tr.world.initial, key)) - Total(tr, key, tr.order)
  }

  ghost predicate Marked(tr: Trace, key: string)
    requires WellFormed(tr.world)
  {
    Debt(tr, key) >= 1 ||
    exists t: nat :: t < |tr.world.requests| && tr.world.requests[t].key == key && Scarred(tr.world, t)
  }

  predicate Taken(p: Progress) {
    p.BeforeFinalStat? || p.Replied?
  }

  ghost predicate CallIsSound(tr: Trace, t: nat)
    requires WellFormed(tr.world) && t < |tr.world.requests|
  {
    var s := tr.world;
    && Reliable(s.requests[t])
    && (s.locks.calls[t].phase == Lock.Waiting ==> s.progress[t] == Queued)
    && (s.locks.calls[t].phase == Lock.Finished ==> s.progress[t].Replied?)
    && (CallTurn(t) in tr.order <==> Taken(s.progress[t]))
    && (match s.progress[t]
        case BeforeWrite(_, reply) =>
          InSection(s, t) && (reply.WriteReply? && reply.created ==> NoFile(s, s.requests[t].key))
        case BeforeRead => InSection(s, t)
        case BeforeFinalStat(_) => InSection(s, t)
        case _ => true)
  }

  // What holds in every run, hit or not.
  ghost predicate Sound(tr: Trace) {
    && WellFormed(tr.world) && Lock.Inv(tr.world.locks)
    && (forall t: nat :: t < |tr.world.requests| ==> CallIsSound(tr, t))
    && (forall n :: 0 <= n < |tr.order| ==> Known(tr.order[n], |tr.world.requests|, |tr.removals|))
    && (forall m :: m in tr.removals ==> !m.recursive)
  }

  predicate Plain(e: Event) {
    match e
    case Arrive(r) => Reliable(r)
    case Remove(_, recursive) => !recursive
    case _ => true
  }

  lemma StartIsSound(initial: map<string, Store>)
    ensures Sound(StartTrace(initial))
  {
  }

  // The event's own call, if it has one.
  predicate Moves(e: Event, t: nat) {
    !e.Arrive? && !e.Remove? && e.call == t
  }

  lemma OwnStaysSound(tr: Trace, e: Event, t: nat)
    requires Sound(tr) && Enabled(tr.world, e) && Moves(e, t) && WellFormed(Next(tr.world, e))
    requires t < |tr.world.requests|
    ensures CallIsSound(NextTrace(tr, e), t)
  {
    hide ApplyEdit, Normalize, Lock.Inv;
    assert CallIsSound(tr, t);
  }

  lemma OtherCallKept(s: World, e: Event, t: nat)
    requires WellFormed(s) && Lock.Inv(s.locks) && Enabled(s, e) && !Moves(e, t) && WellFormed(Next(s, e))
    requires t < |s.requests|
    ensures var s' := Next(s, e);
            && t < |s'.requests| && s'.requests[t] == s.requests[t] && s'.progress[t] == s.progress[t]
            && s'.locks.calls[t].phase == s.locks.calls[t].phase
            && (InSection(s, t) && NoFile(s, s.requests[t].key) ==> NoFile(s', s.requests[t].key))
  {
    hide AfterStat, AfterRead, AfterFinalStat, StoreAfterWrite, AfterWrite, Lock.Inv;
    if e.Write? && s.requests[e.call].key == s.requests[t].key && InSection(s, t) {
      Lock.MutualExclusion(s.locks, e.call, t);
    }
  }

  lemma OtherTurnsKept(tr: Trace, e: Event, t: nat)
    requires WellFormed(tr.world) && Enabled(tr.world, e) && !Moves(e, t)
    ensures CallTurn(t) in NextTrace(tr, e).order <==> CallTurn(t) in tr.order
  {
    hide Next;
  }

  lemma OtherStaysSound(tr: Trace, e: Event, t: nat)
    requires Sound(tr) && Enabled(tr.world, e) && !Moves(e, t) && WellFormed(Next(tr.world, e))
    requires t < |tr.world.requests|
    ensures CallIsSound(NextTrace(tr, e), t)
  {
    assert CallIsSound(tr, t);
    SoundLocks(tr);
    hide Lock.Inv, Sound, Reliable, Next, NextTrace, Present;
    OtherCallKept(tr.world, e, t);
    OtherTurnsKept(tr, e, t);
    TraceWorld(tr, e);
  }

  lemma SoundLocks(tr: Trace)
    requires Sound(tr)
    ensures Lock.Inv(tr.world.locks)
  {
  }

  lemma CallStaysSound(tr: Trace, e: Event, t: nat)
    requires Sound(tr) && Enabled(tr.world, e) && Plain(e) && WellFormed(Next(tr.world, e))
    requires t < |Next(tr.world, e).requests|
    ensures CallIsSound(NextTrace(tr, e), t)
  {
    if t >= |tr.world.requests| {
      assert CallTurn(t) !in tr.order;
    } else if Moves(e, t) {
      OwnStaysSound(tr, e, t);
    } else {
      OtherStaysSound(tr, e, t);
    }
  }

  lemma SoundStays(tr: Trace, e: Event)
    requires Sound(tr) && Enabled(tr.world, e) && Plain(e)
    ensures Sound(NextTrace(tr, e))
  {
    LockEventKeeps(tr.world, e);
    hide CallIsSound, Lock.Inv;
    forall t: nat | t < |Next(tr.world, e).requests| ensures CallIsSound(NextTrace(tr, e), t) {
      CallStaysSound(tr, e, t);
    }
    hide Next;
  }

  // ----- The debt never shrinks -----

  lemma WeightStays(tr: Trace, e: Event, key: string, turn: Turn)
    requires Sound(tr) && Enabled(tr.world, e) && Plain(e) && turn in tr.order
    ensures Weight(NextTrace(tr, e), key, turn) == Weight(tr, key, turn)
  {
    hide Lock.Inv;
    var n :| 0 <= n < |tr.order| && tr.order[n] == turn;
    assert Known(tr.order[n], |tr.world.requests|, |tr.removals|);
    if turn.CallTurn? {
      assert CallIsSound(tr, turn.call);
    }
  }

  // The turn an event takes, if it takes one.
  function Added(tr: Trace, e: Event): seq<Turn>
    requires WellFormed(tr.world) && Enabled(tr.world, e)
  {
    NextTrace(tr, e).order[|tr.order|..]
  }

  lemma TotalNext(tr: Trace, e: Event, key: string)
    requires Sound(tr) && Enabled(tr.world, e) && Plain(e)
    ensures var tr' := NextTrace(tr, e);
            || (tr'.order == tr.order && Total(tr', key, tr'.order) == Total(tr, key, tr.order))
            || (|tr'.order| == |tr.order| + 1 &&
                Total(tr', key, tr'.order) == Total(tr, key, tr.order) + Weight(tr', key, tr'.order[|tr.order|]))
  {
    var tr' := NextTrace(tr, e);
    hide Weight, Sound, Next;
    forall turn | turn in tr.order ensures Weight(tr', key, turn) == Weight(tr, key, turn) {
      WeightStays(tr, e, key, turn);
    }
    TotalSame(tr, tr', key, tr.order);
    if |tr'.order| > |tr.order| {
      var turn := tr'.order[|tr.order|];
      assert tr'.order == tr.order + [turn];
      TotalMore(tr', key, tr.order, turn);
    }
  }

  predicate Revives(s: World, e: Event, key: string)
    requires WellFormed(s) && Enabled(s, e)
  {
    e.Write? && s.requests[e.call].key == key && NoFile(s, key) &&
    !(s.progress[e.call].reply.WriteReply? && s.progress[e.call].reply.created)
  }

  lemma WriteDebt(tr: Trace, e: Event, key: string)
    requires Sound(tr) && Enabled(tr.world, e) && e.Write?
    ensures Debt(NextTrace(tr, e), key) == Debt(tr, key) + if Revives(tr.world, e, key) then 1 else 0
  {
    assert CallIsSound(tr, e.call);
    TotalNext(tr, e, key);
    hide Sound, Lock.Inv, Total;
  }

  lemma RemoveDebt(tr: Trace, e: Event, key: string)
    requires Sound(tr) && Enabled(tr.world, e) && e.Remove? && Plain(e)
    ensures Debt(NextTrace(tr, e), key) == Debt(tr, key)
  {
    TotalNext(tr, e, key);
    hide Sound, Lock.Inv, Total;
  }

  lemma OtherDebt(tr: Trace, e: Event, key: string)
    requires Sound(tr) && Enabled(tr.world, e) && Plain(e) && !e.Write? && !e.Remove?
    ensures Debt(NextTrace(tr, e), key) == Debt(tr, key)
  {
    TotalNext(tr, e, key);
    hide Sound, Lock.Inv, Total, ApplyEdit, Normalize;
  }

  lemma DebtNext(tr: Trace, e: Event, key: string)
    requires Sound(tr) && Enabled(tr.world, e) && Plain(e)
    ensures Debt(NextTrace(tr, e), key) == Debt(tr, key) + if Revives(tr.world, e, key) then 1 else 0
  {
    hide Sound, NextTrace, Debt;
    if e.Write? {
      WriteDebt(tr, e, key);
    } else if e.Remove? {
      RemoveDebt(tr, e, key);
    } else {
      OtherDebt(tr, e, key);
    }
  }

  // ----- A mark stays -----

  lemma OwnScarStays(tr: Trace, e: Event, t: nat)
    requires Sound(tr) && Enabled(tr.world, e) && Moves(e, t) && WellFormed(Next(tr.world, e))
    requires t < |tr.world.requests| && Scarred(tr.world, t)
    ensures Scarred(Next(tr.world, e), t) || Revives(tr.world, e, tr.world.requests[t].key)
  {
    assert CallIsSound(tr, t);
    hide ApplyEdit, Normalize, Lock.Inv, Sound;
  }

  lemma OtherScarStays(tr: Trace, e: Event, t: nat)
    requires Sound(tr) && Enabled(tr.world, e) && !Moves(e, t) && WellFormed(Next(tr.world, e))
    requires t < |tr.world.requests| && Scarred(tr.world, t)
    ensures Scarred(Next(tr.world, e), t)
  {
    SoundLocks(tr);
    hide Lock.Inv, Sound, Next, Present;
    OtherCallKept(tr.world, e, t);
  }

  lemma ScarStays(tr: Trace, e: Event, t: nat)
    requires Sound(tr) && Enabled(tr.world, e) && Plain(e) && WellFormed(Next(tr.world, e))
    requires t < |tr.world.requests| && Scarred(tr.world, t)
    ensures Scarred(Next(tr.world, e), t) || Revives(tr.world, e, tr.world.requests[t].key)
  {
    if Moves(e, t) {
      OwnScarStays(tr, e, t);
    } else {
      OtherScarStays(tr, e, t);
    }
  }

  lemma MarkStays(tr: Trace, e: Event, key: string)
    requires Sound(tr) && Enabled(tr.world, e) && Plain(e) && Marked(tr, key) && Debt(tr, key) >= 0
    ensures WellFormed(NextTrace(tr, e).world) && Marked(NextTrace(tr, e), key)
  {
    SoundStays(tr, e);
    DebtNext(tr, e, key);
    hide Sound, Debt, Scarred, Revives;
    if Debt(tr, key) < 1 {
      var t: nat :| t < |tr.world.requests| && tr.world.requests[t].key == key && Scarred(tr.world, t);
      ScarStays(tr, e, t);
    }
  }

  // A hit marks the file.
  lemma HitMarks(tr: Trace, e: Event)
    requires Sound(tr) && Enabled(tr.world, e) && Hits(tr.world, e)
    ensures WellFormed(NextTrace(tr, e).world) && Marked(NextTrace(tr, e), e.key)
  {
    var s := tr.world;
    var t: nat :| t < |s.requests| && InSection(s, t) && s.requests[t].key == e.key && HalfWay(s.progress[t]);
    assert CallIsSound(tr, t);
    hide Debt, Lock.Inv;
    assert Scarred(NextTrace(tr, e).world, t);
  }

  lemma {:induction false} MarkLasts(tr: Trace, events: seq<Event>, key: string)
    requires Sound(tr) && Marked(tr, key) && Debt(tr, key) >= 0
    requires IsRun(tr.world, events) && forall e :: e in events ==> Plain(e)
    ensures Sound(AfterTrace(tr, events)) && Marked(AfterTrace(tr, events), key)
    decreases |events|
  {
    hide Sound, Marked, Debt, Plain, NextTrace;
    if events != [] {
      assert events[0] in events;
      SoundIsWellFormed(tr);
      SoundStays(tr, events[0]);
      DebtNext(tr, events[0], key);
      MarkStays(tr, events[0], key);
      TraceWorld(tr, events[0]);
      MarkLasts(NextTrace(tr, events[0]), events[1..], key);
    }
  }

  lemma SoundIsWellFormed(tr: Trace)
    requires Sound(tr)
    ensures WellFormed(tr.world)
  {
  }

  lemma HitIsRemove(s: World, e: Event)
    requires WellFormed(s) && Hits(s, e)
    ensures e.Remove?
  {
  }

  lemma {:induction false} HitRunMarks(tr: Trace, events: seq<Event>) returns (key: string)
    requires Sound(tr) && forall k: string :: Debt(tr, k) >= 0
    requires IsRun(tr.world, events) && !NoHits(tr.world, events) && forall e :: e in events ==> Plain(e)
    ensures Sound(AfterTrace(tr, events)) && Marked(AfterTrace(tr, events), key)
    decreases |events|
  {
    hide Sound, Marked, Debt, Plain, NextTrace, Hits;
    var e, tr' := events[0], NextTrace(tr, events[0]);
    SoundIsWellFormed(tr);
    assert e in events;
    SoundStays(tr, e);
    TraceWorld(tr, e);
    forall k: string ensures Debt(tr', k) >= 0 {
      DebtNext(tr, e, k);
    }
    if Hits(tr.world, e) {
      HitIsRemove(tr.world, e);
      key := e.key;
      HitMarks(tr, e);
      MarkLasts(tr', events[1..], key);
    } else {
      key := HitRunMarks(tr', events[1..]);
    }
  }

  // Once every call has finished, a marked file fits no serial order: its calls were
  // answered as no call alone is, or there is more than the answers account for.
  lemma MarkedIsNotSerial(tr: Trace, key: string, order: seq<Turn>)
    requires Sound(tr) && Marked(tr, key) && Drained(tr.world)
    ensures !IsSerialOrder(tr, order)
  {
    if IsSerialOrder(tr, order) {
      SerialCounts(tr, key, order);
      var t: nat :| t < |tr.world.requests| && tr.world.requests[t].key == key && Scarred(tr.world, t);
      UnscarredInOrder(tr, order, t);
    }
  }

  lemma SerialCounts(tr: Trace, key: string, order: seq<Turn>)
    requires Sound(tr) && IsSerialOrder(tr, order)
    ensures Debt(tr, key) == 0
  {
    hide Lock.Inv, Agrees, Alone, Total, Serial;
    forall r | r in tr.world.requests ensures Reliable(r) {
      var t :| 0 <= t < |tr.world.requests| && tr.world.requests[t] == r;
      assert CallIsSound(tr, t);
    }
    SerialAddsUp(tr, order, |order|, key);
    TotalOfPermutation(tr, key, order, tr.order);
    assert order[..|order|] == order;
    assert SameNode(StoreAt(tr.world.stores, key).node, SerialOf(tr, order, |order|, key).node);
  }

  lemma UnscarredInOrder(tr: Trace, order: seq<Turn>, t: nat)
    requires Sound(tr) && IsSerialOrder(tr, order) && t < |tr.world.requests|
    requires tr.world.locks.calls[t].phase == Lock.Finished
    ensures !Scarred(tr.world, t)
  {
    hide Lock.Inv, Alone, Serial;
    assert CallIsSound(tr, t);
    assert CallTurn(t) in multiset(tr.order);
    assert CallTurn(t) in multiset(order);
    var n: nat :| n < |order| && order[n] == CallTurn(t);
    assert Agrees(tr, order, n);
    ReliableAlone(tr.world.requests[t], SerialOf(tr, order, n, tr.world.requests[t].key));
  }

  // ----- Serial, if and only if nothing was hit -----

  // In every run in which the guest answers each request and each remove tells what it
  // found, once all calls have finished: some order of the calls and removes, one at a
  // time, gives the run's answers and files if and only if no remove hit a present
  // target whose lock is held by a call past its stat and not yet at its final stat.
  lemma SerialIffNoHit(initial: map<string, Store>, events: seq<Event>)
    requires IsRun(Start(initial), events) && forall e :: e in events ==> Plain(e)
    requires var s := AfterRun(Start(initial), events); WellFormed(s) && Drained(s)
    ensures SomeSerialOrder(AfterTrace(StartTrace(initial), events)) <==> NoHits(Start(initial), events)
  {
    if NoHits(Start(initial), events) {
      NoHitIsSerial(initial, events);
    } else {
      StartIsSound(initial);
      hide IsSerialOrder, Sound, Marked, NoHits, Plain;
      var key := HitRunMarks(StartTrace(initial), events);
      TraceFollowsRun(StartTrace(initial), events);
      var tr := AfterTrace(StartTrace(initial), events);
      forall order ensures !IsSerialOrder(tr, order) {
        MarkedIsNotSerial(tr, key, order);
      }
    }
  }
}
