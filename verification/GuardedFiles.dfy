// Guarded mutations of the filesystem provider (src/fs-provider.ts): writeText
// and editText run stat, guard, read, write and stat inside the target lock. The
// awaits inside are where other calls run, so each is an event of its own.
module GuardedFiles {
  import opened Options
  import opened Text
  import opened LineEndings
  import opened TextEdit
  import Lock = TargetLock

  // ----- One target and its version guard -----

  datatype Node =
    | Absent
    | Directory(version: nat)
    | File(content: Text, version: nat)

  // A target with the number of writes it has taken. A version is an opaque token
  // that every write changes, so the count serves as one.
  datatype Store = Store(node: Node, writes: nat)

  predicate Stamped(store: Store) {
    store.node.Absent? || store.node.version == store.writes
  }

  function CurrentVersion(node: Node): Option<nat> {
    if node.Absent? then None else Some(node.version)
  }

  datatype Decision = Unchanged | Stale | Missing

  function GuardDecision(expected: Option<nat>, current: Option<nat>): Decision {
    match current
    case None => Missing
    case Some(version) =>
      if expected == None || expected == Some(version) then Unchanged else Stale
  }

  datatype Expected = Unguarded | ReplaceIfVersion(version: nat) | CreateIfAbsent

  datatype Op =
    | WriteText(content: Text, expected: Expected)
    | EditText(edit: Edit, guard: Option<nat>)

  // How the guest answers one call: which of its requests fail, and what a failed
  // write leaves behind.
  datatype WriteAnswer = Stored | Failed(left: Option<Text>)
  datatype Guest = Guest(statFails: bool, readFails: bool, write: WriteAnswer, finalStatFails: bool)

  datatype Request = Request(key: string, op: Op, guest: Guest)

  datatype ErrorCode =
    | NotRegularFile | StaleVersion | NotObserved | NotFound | NoMatch | TooManyMatches | IoError

  datatype Result =
    | WroteFile(created: bool, version: nat, after: Text)
    | EditedFile(version: nat, before: Text, after: Text)
    | Rejected(code: ErrorCode)

  // ----- The critical section, one await at a time -----

  datatype Reply = WriteReply(created: bool, after: Text) | EditReply(before: Text, after: Text)

  datatype Progress =
    | Queued
    | BeforeStat
    | BeforeRead
    | BeforeWrite(payload: Text, reply: Reply)
    | BeforeFinalStat(pending: Reply)
    | Replied(result: Result)

  function AfterStat(r: Request, node: Node): Progress {
    if r.guest.statFails then Replied(Rejected(IoError))
    else match r.op
      case WriteText(content, expected) =>
        if node.Directory? then Replied(Rejected(NotRegularFile))
        else if expected.ReplaceIfVersion? &&
                GuardDecision(Some(expected.version), CurrentVersion(node)) == Stale then
          Replied(Rejected(StaleVersion))
        else if expected.CreateIfAbsent? && !node.Absent? then Replied(Rejected(NotObserved))
        else BeforeWrite(content, WriteReply(node.Absent?, Normalize(content)))
      case EditText(_, guard) =>
        var decision := GuardDecision(guard, CurrentVersion(node));
        if decision == Missing then Replied(Rejected(NotFound))
        else if node.Directory? then Replied(Rejected(NotRegularFile))
        else if decision == Stale then Replied(Rejected(StaleVersion))
        else BeforeRead
  }

  function AfterRead(r: Request, node: Node): Progress
    requires r.op.EditText?
  {
    if r.guest.readFails || !node.File? then Replied(Rejected(IoError))
    else match ApplyEdit(node.content, r.op.edit)
      case Refused(EditNotFound) => Replied(Rejected(NoMatch))
      case Refused(AmbiguousEdit) => Replied(Rejected(TooManyMatches))
      case Edited(before, after, written) => BeforeWrite(written, EditReply(before, after))
  }

  function Put(store: Store, content: Text): Store {
    Store(File(content, store.writes + 1), store.writes + 1)
  }

  function StoreAfterWrite(r: Request, store: Store, payload: Text): Store {
    match r.guest.write
    case Stored => Put(store, payload)
    case Failed(None) => store
    case Failed(Some(left)) => Put(store, left)
  }

  function AfterWrite(r: Request, reply: Reply): Progress {
    if r.guest.write.Stored? then BeforeFinalStat(reply) else Replied(Rejected(IoError))
  }

  function AfterFinalStat(r: Request, node: Node, reply: Reply): Progress {
    if r.guest.finalStatFails then Replied(Rejected(IoError))
    else
      var version := CurrentVersion(node);
      var token := if version.Some? then version.value else 0;
      match reply
      case WriteReply(created, after) => Replied(WroteFile(created, token, after))
      case EditReply(before, after) => Replied(EditedFile(token, before, after))
  }

  // ----- The same section, run alone -----

  function Rank(p: Progress): nat {
    match p
    case Queued => 5
    case BeforeStat => 4
    case BeforeRead => 3
    case BeforeWrite(_, _) => 2
    case BeforeFinalStat(_) => 1
    case Replied(_) => 0
  }

  // What is left of a critical section, with no other call in between.
  function Complete(r: Request, store: Store, p: Progress): (Store, Result)
    requires p.BeforeRead? ==> r.op.EditText?
    decreases Rank(p)
  {
    match p
    case Queued => Complete(r, store, BeforeStat)
    case BeforeStat => Complete(r, store, AfterStat(r, store.node))
    case BeforeRead => Complete(r, store, AfterRead(r, store.node))
    case BeforeWrite(payload, reply) =>
      Complete(r, StoreAfterWrite(r, store, payload), AfterWrite(r, reply))
    case BeforeFinalStat(reply) => Complete(r, store, AfterFinalStat(r, store.node, reply))
    case Replied(result) => (store, result)
  }

  function Alone(r: Request, store: Store): (Store, Result) {
    Complete(r, store, BeforeStat)
  }

  // The target key after the first n requests, run one at a time in arrival order.
  function Replay(initial: map<string, Store>, requests: seq<Request>, key: string, n: nat): Store
    requires n <= |requests|
  {
    if n == 0 then StoreAt(initial, key)
    else
      var store := Replay(initial, requests, key, n - 1);
      if requests[n - 1].key == key then Alone(requests[n - 1], store).0 else store
  }

  function StoreAt(stores: map<string, Store>, key: string): Store {
    if key in stores then stores[key] else Store(Absent, 0)
  }

  // ----- The provider as a step system -----

  datatype World = World(
    initial: map<string, Store>,
    locks: Lock.Locks,
    requests: seq<Request>,
    progress: seq<Progress>,
    stores: map<string, Store>)

  datatype Event =
    | Arrive(request: Request)
    | Acquire(call: nat)
    | Stat(call: nat)
    | Read(call: nat)
    | Write(call: nat)
    | FinalStat(call: nat)
    | Release(call: nat)
    | Settle(call: nat)
    | Remove(key: string, recursive: bool)   // remove takes no lock

  predicate WellFormed(s: World) {
    && |s.locks.calls| == |s.requests| == |s.progress|
    && forall t :: 0 <= t < |s.requests| ==>
         && s.locks.calls[t].key == s.requests[t].key
         && (s.progress[t].BeforeRead? ==> s.requests[t].op.EditText?)
  }

  predicate InSection(s: World, t: nat)
    requires WellFormed(s)
  {
    t < |s.requests| && s.locks.calls[t].phase == Lock.Running
  }

  predicate Enabled(s: World, e: Event)
    requires WellFormed(s)
  {
    match e
    case Arrive(_) => true
    case Acquire(t) => Lock.Enabled(s.locks, Lock.Acquire(t))
    case Stat(t) => InSection(s, t) && s.progress[t].BeforeStat?
    case Read(t) => InSection(s, t) && s.progress[t].BeforeRead?
    case Write(t) => InSection(s, t) && s.progress[t].BeforeWrite?
    case FinalStat(t) => InSection(s, t) && s.progress[t].BeforeFinalStat?
    case Release(t) => InSection(s, t) && s.progress[t].Replied?
    case Settle(t) => Lock.Enabled(s.locks, Lock.Settle(t))
    case Remove(_, _) => true
  }

  function Next(s: World, e: Event): World
    requires WellFormed(s) && Enabled(s, e)
  {
    match e
    case Arrive(r) =>
      s.(locks := Lock.Next(s.locks, Lock.Enter(r.key)),
         requests := s.requests + [r],
         progress := s.progress + [Queued])
    case Acquire(t) =>
      s.(locks := Lock.Next(s.locks, Lock.Acquire(t)), progress := s.progress[t := BeforeStat])
    case Stat(t) =>
      s.(progress := s.progress[t := AfterStat(s.requests[t], Here(s, t).node)])
    case Read(t) =>
      s.(progress := s.progress[t := AfterRead(s.requests[t], Here(s, t).node)])
    case Write(t) =>
      s.(stores := s.stores[s.requests[t].key := StoreAfterWrite(s.requests[t], Here(s, t), s.progress[t].payload)],
         progress := s.progress[t := AfterWrite(s.requests[t], s.progress[t].reply)])
    case FinalStat(t) =>
      s.(progress := s.progress[t := AfterFinalStat(s.requests[t], Here(s, t).node, s.progress[t].pending)])
    case Release(t) =>
      s.(locks := Lock.Next(s.locks, Lock.Release(t)))
    case Settle(t) =>
      s.(locks := Lock.Next(s.locks, Lock.Settle(t)))
    case Remove(key, _) =>
      s.(stores := s.stores[key := StoreAt(s.stores, key).(node := Absent)])
  }

  // The target call t works on, as it is now.
  function Here(s: World, t: nat): Store
    requires t < |s.requests|
  {
    StoreAt(s.stores, s.requests[t].key)
  }

  // The target call t works on, as its predecessors left it.
  function Before(s: World, t: nat): Store
    requires t < |s.requests|
  {
    Replay(s.initial, s.requests, s.requests[t].key, t)
  }

  function Start(initial: map<string, Store>): World {
    World(initial, Lock.Unlocked, [], [], initial)
  }

  // ----- The invariant: every call behaves as if it ran alone, in its turn -----

  ghost predicate CallOk(s: World, t: nat)
    requires WellFormed(s) && t < |s.requests|
  {
    match s.locks.calls[t].phase
    case Waiting => s.progress[t] == Queued
    case Running =>
      Complete(s.requests[t], Here(s, t), s.progress[t]) == Alone(s.requests[t], Before(s, t))
    case Finished =>
      s.progress[t] == Replied(Alone(s.requests[t], Before(s, t)).1)
  }

  // The first n calls on the key are done and none of the others has started.
  ghost predicate Quiet(s: World, key: string, n: nat)
    requires WellFormed(s)
  {
    && n <= |s.requests|
    && (forall t :: 0 <= t < n && s.requests[t].key == key ==> s.locks.calls[t].phase == Lock.Finished)
    && (forall t :: n <= t < |s.requests| && s.requests[t].key == key ==> s.locks.calls[t].phase == Lock.Waiting)
  }

  ghost predicate CallsOk(s: World)
    requires WellFormed(s)
  {
    forall t :: 0 <= t < |s.requests| ==> CallOk(s, t)
  }

  ghost predicate QuietOk(s: World)
    requires WellFormed(s)
  {
    forall key, n: nat :: Quiet(s, key, n) ==>
      StoreAt(s.stores, key) == Replay(s.initial, s.requests, key, n)
  }

  ghost predicate Inv(s: World) {
    WellFormed(s) && Lock.Inv(s.locks) && CallsOk(s) && QuietOk(s)
  }

  lemma {:induction false} ReplayPrefix(initial: map<string, Store>, requests: seq<Request>, r: Request,
                                        key: string, n: nat)
    requires n <= |requests|
    ensures Replay(initial, requests + [r], key, n) == Replay(initial, requests, key, n)
  {
    if n > 0 {
      ReplayPrefix(initial, requests, r, key, n - 1);
      assert (requests + [r])[n - 1] == requests[n - 1];
    }
  }

  lemma {:induction false} ReplaySkip(initial: map<string, Store>, requests: seq<Request>, key: string, m: nat, n: nat)
    requires m <= n <= |requests|
    requires forall t :: m <= t < n ==> requests[t].key != key
    ensures Replay(initial, requests, key, n) == Replay(initial, requests, key, m)
    decreases n
  {
    if m < n {
      ReplaySkip(initial, requests, key, m, n - 1);
    }
  }

  // A call about to enter its section finds its key quiet.
  lemma QuietOnAcquire(s: World, t: nat)
    requires Inv(s) && Enabled(s, Acquire(t))
    ensures Quiet(s, s.requests[t].key, t)
  {
    var key := s.requests[t].key;
    forall u | 0 <= u < t && s.requests[u].key == key ensures s.locks.calls[u].phase == Lock.Finished {
      Lock.ArrivalOrder(s.locks, t, u);
    }
    forall u | t < u < |s.requests| && s.requests[u].key == key ensures s.locks.calls[u].phase == Lock.Waiting {
      if s.locks.calls[u].phase != Lock.Waiting {
        Lock.ArrivalOrder(s.locks, u, t);
      }
    }
  }

  lemma ArriveKeeps(s: World, r: Request)
    requires Inv(s)
    ensures Inv(Next(s, Arrive(r)))
  {
    var s' := Next(s, Arrive(r));
    Lock.EveryEventKeeps(s.locks, Lock.Enter(r.key));
    forall t | 0 <= t < |s'.requests| ensures CallOk(s', t) {
      if t < |s.requests| {
        ReplayPrefix(s.initial, s.requests, r, s.requests[t].key, t);
        assert CallOk(s, t);
      }
    }
    forall key, n: nat | Quiet(s', key, n) ensures StoreAt(s'.stores, key) == Replay(s'.initial, s'.requests, key, n) {
      var n' := if n <= |s.requests| then n else |s.requests|;
      if n > |s.requests| {
        assert s'.locks.calls[|s.requests|].phase == Lock.Waiting;
        ReplaySkip(s.initial, s'.requests, key, n', n);
      }
      forall t | 0 <= t < |s.requests| && s.requests[t].key == key
        ensures s.locks.calls[t].phase == if t < n' then Lock.Finished else Lock.Waiting
      {
        assert s'.requests[t] == s.requests[t] && s'.locks.calls[t] == s.locks.calls[t];
      }
      assert Quiet(s, key, n');
      ReplayPrefix(s.initial, s.requests, r, key, n');
    }
  }

  lemma AcquireKeeps(s: World, t: nat)
    requires Inv(s) && Enabled(s, Acquire(t))
    ensures Inv(Next(s, Acquire(t)))
  {
    Lock.EveryEventKeeps(s.locks, Lock.Acquire(t));
    AcquireKeepsCalls(s, t);
    AcquireKeepsQuiet(s, t);
  }

  lemma AcquireKeepsCalls(s: World, t: nat)
    requires Inv(s) && Enabled(s, Acquire(t)) && WellFormed(Next(s, Acquire(t)))
    ensures CallsOk(Next(s, Acquire(t)))
  {
    var s' := Next(s, Acquire(t));
    QuietOnAcquire(s, t);
    assert StoreAt(s.stores, s.requests[t].key) == Replay(s.initial, s.requests, s.requests[t].key, t);
    forall u | 0 <= u < |s'.requests| ensures CallOk(s', u) {
      assert CallOk(s, u);
    }
  }

  lemma AcquireKeepsQuiet(s: World, t: nat)
    requires Inv(s) && Enabled(s, Acquire(t)) && WellFormed(Next(s, Acquire(t)))
    ensures QuietOk(Next(s, Acquire(t)))
  {
    var s' := Next(s, Acquire(t));
    forall key, n: nat | Quiet(s', key, n) ensures StoreAt(s'.stores, key) == Replay(s'.initial, s'.requests, key, n) {
      assert s'.locks.calls[t].phase == Lock.Running;
      assert Quiet(s, key, n);
    }
  }

  // A step inside the section of call t changes nothing but t and its own target,
  // and leaves the completion of t the same.
  lemma SectionKeeps(s: World, t: nat, s': World)
    requires Inv(s) && InSection(s, t) && WellFormed(s')
    requires s'.initial == s.initial && s'.locks == s.locks && s'.requests == s.requests
    requires forall u :: 0 <= u < |s.requests| && u != t ==> s'.progress[u] == s.progress[u]
    requires forall key :: key != s.requests[t].key ==> StoreAt(s'.stores, key) == StoreAt(s.stores, key)
    requires Complete(s'.requests[t], Here(s', t), s'.progress[t]) ==
             Complete(s.requests[t], Here(s, t), s.progress[t])
    ensures Inv(s')
  {
    forall u | 0 <= u < |s'.requests| ensures CallOk(s', u) {
      assert CallOk(s, u);
      if u != t && s.locks.calls[u].phase == Lock.Running && s.requests[u].key == s.requests[t].key {
        Lock.MutualExclusion(s.locks, t, u);
      }
    }
    forall key, n: nat | Quiet(s', key, n) ensures StoreAt(s'.stores, key) == Replay(s'.initial, s'.requests, key, n) {
      assert s'.locks.calls[t].phase == Lock.Running;
      assert Quiet(s, key, n);
    }
  }

  // The target of a call about to release is what its turn leaves, and stays so
  // for as long as nobody after it on the key has started.
  lemma TurnTaken(s: World, t: nat, n: nat)
    requires WellFormed(s) && Lock.Inv(s.locks) && Enabled(s, Release(t)) && CallOk(s, t)
    requires t < n <= |s.requests|
    requires forall u :: t < u < n && s.requests[u].key == s.requests[t].key ==>
               s.locks.calls[u].phase != Lock.Waiting
    ensures Here(s, t) == Replay(s.initial, s.requests, s.requests[t].key, n)
  {
    var key := s.requests[t].key;
    forall u | t < u < n ensures s.requests[u].key != key {
      if s.requests[u].key == key {
        Lock.ArrivalOrder(s.locks, u, t);
      }
    }
    ReplaySkip(s.initial, s.requests, key, t + 1, n);
  }

  lemma QuietBeforeRelease(s: World, t: nat, key: string, n: nat)
    requires WellFormed(s) && Lock.Inv(s.locks) && Enabled(s, Release(t))
    requires WellFormed(Next(s, Release(t))) && Quiet(Next(s, Release(t)), key, n)
    ensures key != s.requests[t].key ==> Quiet(s, key, n)
    ensures key == s.requests[t].key ==> t < n
    ensures key == s.requests[t].key ==>
              forall u :: t < u < n && s.requests[u].key == key ==> s.locks.calls[u].phase != Lock.Waiting
  {
    var s' := Next(s, Release(t));
    assert s'.locks.calls[t].phase == Lock.Finished;
    forall u | 0 <= u < |s.requests| && u != t ensures s'.locks.calls[u] == s.locks.calls[u] {
    }
  }

  lemma ReleaseKeepsCalls(s: World, t: nat)
    requires Inv(s) && Enabled(s, Release(t)) && WellFormed(Next(s, Release(t)))
    ensures CallsOk(Next(s, Release(t)))
  {
    var s' := Next(s, Release(t));
    forall u | 0 <= u < |s'.requests| ensures CallOk(s', u) {
      assert CallOk(s, u);
    }
  }

  lemma ReleaseKeepsQuiet(s: World, t: nat)
    requires Inv(s) && Enabled(s, Release(t)) && WellFormed(Next(s, Release(t)))
    ensures QuietOk(Next(s, Release(t)))
  {
    var s' := Next(s, Release(t));
    forall key, n: nat | Quiet(s', key, n) ensures StoreAt(s'.stores, key) == Replay(s'.initial, s'.requests, key, n) {
      QuietBeforeRelease(s, t, key, n);
      if key == s.requests[t].key {
        TurnTaken(s, t, n);
      }
    }
  }

  lemma ReleaseKeeps(s: World, t: nat)
    requires Inv(s) && Enabled(s, Release(t))
    ensures Inv(Next(s, Release(t)))
  {
    Lock.EveryEventKeeps(s.locks, Lock.Release(t));
    ReleaseKeepsCalls(s, t);
    ReleaseKeepsQuiet(s, t);
  }

  lemma SettleKeeps(s: World, t: nat)
    requires Inv(s) && Enabled(s, Settle(t))
    ensures Inv(Next(s, Settle(t)))
  {
    var s' := Next(s, Settle(t));
    Lock.EveryEventKeeps(s.locks, Lock.Settle(t));
    forall u | 0 <= u < |s'.requests| ensures CallOk(s', u) {
      assert CallOk(s, u);
    }
    forall key, n: nat | Quiet(s', key, n) ensures StoreAt(s'.stores, key) == Replay(s'.initial, s'.requests, key, n) {
      assert Quiet(s, key, n);
    }
  }

  lemma StatKeeps(s: World, t: nat)
    requires Inv(s) && Enabled(s, Stat(t))
    ensures Inv(Next(s, Stat(t)))
  {
    SectionKeeps(s, t, Next(s, Stat(t)));
  }

  lemma ReadKeeps(s: World, t: nat)
    requires Inv(s) && Enabled(s, Read(t))
    ensures Inv(Next(s, Read(t)))
  {
    SectionKeeps(s, t, Next(s, Read(t)));
  }

  lemma WriteKeeps(s: World, t: nat)
    requires Inv(s) && Enabled(s, Write(t))
    ensures Inv(Next(s, Write(t)))
  {
    SectionKeeps(s, t, Next(s, Write(t)));
  }

  lemma FinalStatKeeps(s: World, t: nat)
    requires Inv(s) && Enabled(s, FinalStat(t))
    ensures Inv(Next(s, FinalStat(t)))
  {
    SectionKeeps(s, t, Next(s, FinalStat(t)));
  }

  lemma EveryEventKeeps(s: World, e: Event)
    requires Inv(s) && Enabled(s, e) && !e.Remove?
    ensures Inv(Next(s, e))
  {
    match e {
      case Arrive(r) => ArriveKeeps(s, r);
      case Acquire(t) => AcquireKeeps(s, t);
      case Release(t) => ReleaseKeeps(s, t);
      case Settle(t) => SettleKeeps(s, t);
      case Stat(t) => StatKeeps(s, t);
      case Read(t) => ReadKeeps(s, t);
      case Write(t) => WriteKeeps(s, t);
      case FinalStat(t) => FinalStatKeeps(s, t);
    }
  }

  // ----- Whole runs -----

  ghost predicate IsRun(s: World, events: seq<Event>)
    decreases |events|
  {
    events == [] ||
    (WellFormed(s) && Enabled(s, events[0]) && IsRun(Next(s, events[0]), events[1..]))
  }

  ghost function AfterRun(s: World, events: seq<Event>): World
    requires IsRun(s, events)
    decreases |events|
  {
    if events == [] then s else AfterRun(Next(s, events[0]), events[1..])
  }

  lemma {:induction false} RunsKeep(s: World, events: seq<Event>)
    requires Inv(s) && IsRun(s, events)
    requires forall e: Event :: e in events ==> !e.Remove?
    ensures Inv(AfterRun(s, events))
    decreases |events|
  {
    if events != [] {
      EveryEventKeeps(s, events[0]);
      RunsKeep(Next(s, events[0]), events[1..]);
    }
  }

  lemma StartIsSerial(initial: map<string, Store>)
    ensures Inv(Start(initial))
  {
    var s := Start(initial);
    forall key, n: nat | Quiet(s, key, n) ensures StoreAt(s.stores, key) == Replay(s.initial, s.requests, key, n) {
    }
  }

  // Every interleaving of guarded mutations, on any number of targets, is the
  // same as running them one at a time in the order they arrived: each finished
  // call answered as it would have alone, and a target no call is working on
  // holds what that order leaves.
  lemma RunsAreSerial(initial: map<string, Store>, events: seq<Event>)
    requires IsRun(Start(initial), events)
    requires forall e: Event :: e in events ==> !e.Remove?
    ensures var s := AfterRun(Start(initial), events);
            && WellFormed(s)
            && (forall t :: 0 <= t < |s.requests| && s.locks.calls[t].phase == Lock.Finished ==>
                  s.progress[t] == Replied(Alone(s.requests[t], Before(s, t)).1))
            && (forall key, n: nat :: Quiet(s, key, n) ==>
                  StoreAt(s.stores, key) == Replay(initial, s.requests, key, n))
  {
    StartIsSerial(initial);
    RunsKeep(Start(initial), events);
    RunKeepsInitial(Start(initial), events);
    var s := AfterRun(Start(initial), events);
    forall t | 0 <= t < |s.requests| && s.locks.calls[t].phase == Lock.Finished
      ensures s.progress[t] == Replied(Alone(s.requests[t], Before(s, t)).1)
    {
      assert CallOk(s, t);
    }
  }

  lemma {:induction false} RunKeepsInitial(s: World, events: seq<Event>)
    requires IsRun(s, events)
    ensures AfterRun(s, events).initial == s.initial
    decreases |events|
  {
    if events != [] {
      RunKeepsInitial(Next(s, events[0]), events[1..]);
    }
  }

  // ----- Every call gets its answer -----

  // A call past its await has left the queue.
  ghost predicate Begun(s: World) {
    WellFormed(s) && forall t :: 0 <= t < |s.requests| && s.locks.calls[t].phase == Lock.Running ==> !s.progress[t].Queued?
  }

  function Ranks(progress: seq<Progress>): nat {
    if progress == [] then 0 else Rank(progress[0]) + Ranks(progress[1..])
  }

  lemma {:induction false} RanksUpdate(progress: seq<Progress>, t: nat, p: Progress)
    requires t < |progress|
    ensures Ranks(progress[t := p]) == Ranks(progress) - Rank(progress[t]) + Rank(p)
  {
    hide Rank;
    if t > 0 {
      RanksUpdate(progress[1..], t - 1, p);
      assert progress[t := p][1..] == progress[1..][t - 1 := p];
    } else {
      assert progress[t := p][1..] == progress[1..];
    }
  }

  // The steps the calls still have ahead of them, at most.
  function Ahead(s: World): nat {
    Lock.Remaining(s.locks.calls) + Ranks(s.progress)
  }

  predicate Steps(e: Event) {
    !e.Arrive? && !e.Remove?
  }

  lemma RankDrops(r: Request, node: Node, p: Progress)
    ensures p.BeforeStat? ==> Rank(AfterStat(r, node)) < Rank(p)
    ensures p.BeforeRead? && r.op.EditText? ==> Rank(AfterRead(r, node)) < Rank(p)
    ensures p.BeforeWrite? ==> Rank(AfterWrite(r, p.reply)) < Rank(p)
    ensures p.BeforeFinalStat? ==> Rank(AfterFinalStat(r, node, p.pending)) < Rank(p)
    ensures p.Queued? ==> Rank(BeforeStat) < Rank(p)
  {
    hide ApplyEdit, Normalize;
  }

  lemma StepUsesUp(s: World, e: Event)
    requires Inv(s) && Begun(s) && Enabled(s, e) && Steps(e)
    ensures Ahead(Next(s, e)) < Ahead(s)
    ensures WellFormed(Next(s, e)) ==> Begun(Next(s, e))
  {
    var t := e.call;
    assert CallOk(s, t);
    RankDrops(s.requests[t], Here(s, t).node, s.progress[t]);
    hide AfterStat, AfterRead, AfterWrite, AfterFinalStat, StoreAfterWrite, Complete, QuietOk, CallsOk, Rank, Lock.Inv;
    match e
    case Acquire(_) =>
      Lock.EventsAreUsedUp(s.locks, Lock.Acquire(t));
      RanksUpdate(s.progress, t, BeforeStat);
    case Stat(_) => RanksUpdate(s.progress, t, AfterStat(s.requests[t], Here(s, t).node));
    case Read(_) => RanksUpdate(s.progress, t, AfterRead(s.requests[t], Here(s, t).node));
    case Write(_) => RanksUpdate(s.progress, t, AfterWrite(s.requests[t], s.progress[t].reply));
    case FinalStat(_) => RanksUpdate(s.progress, t, AfterFinalStat(s.requests[t], Here(s, t).node, s.progress[t].pending));
    case Release(_) => Lock.EventsAreUsedUp(s.locks, Lock.Release(t));
    case Settle(_) => Lock.EventsAreUsedUp(s.locks, Lock.Settle(t));
  }

  // While a call is unfinished some call on its file can take a step.
  lemma SomeStep(s: World, t: nat) returns (e: Event)
    requires Inv(s) && Begun(s) && t < |s.requests| && s.locks.calls[t].phase != Lock.Finished
    ensures Steps(e) && Enabled(s, e) && s.requests[e.call].key == s.requests[t].key
  {
    hide Complete, QuietOk, CallsOk, Lock.Inv;
    var own := Lock.KeyMoves(s.locks, t);
    var u := own.call;
    if own.Acquire? {
      e := Acquire(u);
    } else if own.Settle? {
      e := Settle(u);
    } else {
      match s.progress[u] {
        case BeforeStat => e := Stat(u);
        case BeforeRead => e := Read(u);
        case BeforeWrite(_, _) => e := Write(u);
        case BeforeFinalStat(_) => e := FinalStat(u);
        case Replied(_) => e := Release(u);
        case Queued => assert false;
      }
    }
  }

  lemma {:induction false} BegunRun(s: World, events: seq<Event>)
    requires Inv(s) && Begun(s) && IsRun(s, events) && forall e: Event :: e in events ==> !e.Remove?
    ensures Begun(AfterRun(s, events)) && Inv(AfterRun(s, events))
    decreases |events|
  {
    if events != [] {
      EveryEventKeeps(s, events[0]);
      if Steps(events[0]) {
        StepUsesUp(s, events[0]);
      }
      BegunRun(Next(s, events[0]), events[1..]);
    }
  }

  lemma {:induction false} StepsDrain(s: World, events: seq<Event>)
    requires Inv(s) && Begun(s) && IsRun(s, events) && forall e: Event :: e in events ==> Steps(e)
    ensures |events| <= Ahead(s)
    decreases |events|
  {
    if events != [] {
      assert Steps(events[0]) && !events[0].Remove?;
      EveryEventKeeps(s, events[0]);
      StepUsesUp(s, events[0]);
      hide Inv, Begun, Next, Ahead;
      StepsDrain(Next(s, events[0]), events[1..]);
    }
  }

  // Whatever calls have arrived and however far they are: without more of them a run is
  // bounded, and where it can go no further every call has its answer.
  lemma RunsFinish(initial: map<string, Store>, before: seq<Event>, events: seq<Event>)
    requires IsRun(Start(initial), before) && IsRun(AfterRun(Start(initial), before), events)
    requires (forall e: Event :: e in before ==> !e.Remove?) && forall e: Event :: e in events ==> Steps(e)
    ensures |events| <= Ahead(AfterRun(Start(initial), before))
    ensures var s := AfterRun(AfterRun(Start(initial), before), events);
            WellFormed(s) &&
            ((forall e: Event :: Steps(e) ==> !Enabled(s, e)) ==>
               s.locks.targets == map[] && forall t :: 0 <= t < |s.requests| ==> s.progress[t].Replied?)
  {
    StartIsSerial(initial);
    BegunRun(Start(initial), before);
    var m := AfterRun(Start(initial), before);
    StepsDrain(m, events);
    BegunRun(m, events);
    var s := AfterRun(m, events);
    if forall e: Event :: Steps(e) ==> !Enabled(s, e) {
      forall t | 0 <= t < |s.requests| ensures s.locks.calls[t].phase == Lock.Finished {
        if s.locks.calls[t].phase != Lock.Finished {
          var e := SomeStep(s, t);
        }
      }
      forall t | 0 <= t < |s.requests| ensures s.progress[t].Replied? {
        assert CallOk(s, t);
      }
      forall key | key in s.locks.targets ensures false {
        Lock.MapIsExact(s.locks, key);
      }
      assert s.locks.targets == map[];
    }
  }

  // ----- What one mutation does when it runs alone -----

  // A write that the guest answers: which writes are refused, and why, and what an
  // accepted one leaves.
  lemma WriteAlone(r: Request, store: Store)
    requires r.op.WriteText? && r.guest == Guest(false, false, Stored, false)
    ensures var (after, result) := Alone(r, store);
            match r.op.expected
            case Unguarded =>
              if store.node.Directory? then after == store && result == Rejected(NotRegularFile)
              else after == Put(store, r.op.content) && result.WroteFile?
            case ReplaceIfVersion(v) =>
              if store.node.Directory? then after == store && result == Rejected(NotRegularFile)
              else if store.node.File? && store.node.version != v then
                after == store && result == Rejected(StaleVersion)
              else after == Put(store, r.op.content) && result.WroteFile?
            case CreateIfAbsent =>
              if store.node.Directory? then after == store && result == Rejected(NotRegularFile)
              else if store.node.File? then after == store && result == Rejected(NotObserved)
              else after == Put(store, r.op.content) && result.WroteFile?
    ensures var (after, result) := Alone(r, store);
            result.WroteFile? ==>
              result == WroteFile(store.node.Absent?, after.node.version, Normalize(r.op.content))
  {
    var p := AfterStat(r, store.node);
    assert Alone(r, store) == Complete(r, store, p);
    if p.BeforeWrite? {
      var after := Put(store, r.op.content);
      assert Complete(r, store, p) == Complete(r, after, BeforeFinalStat(p.reply));
      assert Complete(r, after, BeforeFinalStat(p.reply)) ==
             Complete(r, after, AfterFinalStat(r, after.node, p.reply));
    }
  }

  lemma EditAlone(r: Request, store: Store)
    requires r.op.EditText? && r.guest == Guest(false, false, Stored, false)
    ensures var (after, result) := Alone(r, store);
            match store.node
            case Absent => after == store && result == Rejected(NotFound)
            case Directory(_) => after == store && result == Rejected(NotRegularFile)
            case File(content, version) =>
              if r.op.guard.Some? && r.op.guard.value != version then
                after == store && result == Rejected(StaleVersion)
              else match ApplyEdit(content, r.op.edit)
                case Refused(EditNotFound) => after == store && result == Rejected(NoMatch)
                case Refused(AmbiguousEdit) => after == store && result == Rejected(TooManyMatches)
                case Edited(b, a, written) =>
                  after == Put(store, written) && result == EditedFile(after.node.version, b, a)
  {
    var p := AfterStat(r, store.node);
    assert Alone(r, store) == Complete(r, store, p);
    if p.BeforeRead? {
      var q := AfterRead(r, store.node);
      assert Complete(r, store, p) == Complete(r, store, q);
      if q.BeforeWrite? {
        var after := Put(store, q.payload);
        assert Complete(r, store, q) == Complete(r, after, BeforeFinalStat(q.reply));
        assert Complete(r, after, BeforeFinalStat(q.reply)) ==
               Complete(r, after, AfterFinalStat(r, after.node, q.reply));
      }
    }
  }

  // The same call with a guest that answers every request.
  function Answering(r: Request): Request {
    r.(guest := Guest(false, false, Stored, false))
  }

  // The call gets as far as reading the file.
  predicate Reads(r: Request, store: Store) {
    r.op.EditText? && store.node.File? && (r.op.guard == None || r.op.guard == Some(store.node.version))
  }

  // A guest that fails a request makes the call an I/O error, and only a failed write or
  // one after it leaves a trace: what the write left, or the whole write. A call that
  // comes to its refusal first is refused as ever.
  lemma FaultsAre(r: Request, store: Store)
    ensures var (after, result) := Alone(r, store);
            var (whole, answer) := Alone(Answering(r), store);
            if r.guest.statFails || (Reads(r, store) && r.guest.readFails) then
              after == store && result == Rejected(IoError)
            else if answer.Rejected? then after == store && result == answer
            else
              match r.guest.write
              case Failed(None) => after == store && result == Rejected(IoError)
              case Failed(Some(left)) =>
                after == Store(File(left, store.writes + 1), store.writes + 1) && result == Rejected(IoError)
              case Stored => after == whole && result == if r.guest.finalStatFails then Rejected(IoError) else answer
  {
    var q := Answering(r);
    var p := AfterStat(q, store.node);
    assert Alone(q, store) == Complete(q, store, p);
    assert Alone(r, store) == Complete(r, store, AfterStat(r, store.node));
    if !r.guest.statFails {
      assert AfterStat(r, store.node) == p;
      if p.BeforeRead? {
        assert Complete(q, store, p) == Complete(q, store, AfterRead(q, store.node));
        assert Complete(r, store, p) == Complete(r, store, AfterRead(r, store.node));
        if !r.guest.readFails {
          FaultsAfter(r, store, AfterRead(q, store.node));
        }
      } else {
        FaultsAfter(r, store, p);
      }
    }
  }

  lemma FaultsAfter(r: Request, store: Store, p: Progress)
    requires p.BeforeWrite? || p.Replied?
    ensures p.Replied? ==> Complete(r, store, p) == (store, p.result) == Complete(Answering(r), store, p)
    ensures p.BeforeWrite? ==>
              var (after, result) := Complete(r, store, p);
              var (whole, answer) := Complete(Answering(r), store, p);
              !answer.Rejected? &&
              match r.guest.write
              case Failed(None) => after == store && result == Rejected(IoError)
              case Failed(Some(left)) =>
                after == Store(File(left, store.writes + 1), store.writes + 1) && result == Rejected(IoError)
              case Stored => after == whole && result == if r.guest.finalStatFails then Rejected(IoError) else answer
  {
    if p.BeforeWrite? {
      var q := Answering(r);
      var left, whole := StoreAfterWrite(r, store, p.payload), StoreAfterWrite(q, store, p.payload);
      assert Complete(r, store, p) == Complete(r, left, AfterWrite(r, p.reply));
      assert Complete(q, store, p) == Complete(q, whole, BeforeFinalStat(p.reply));
      assert Complete(q, whole, BeforeFinalStat(p.reply)) == Complete(q, whole, AfterFinalStat(q, whole.node, p.reply));
      if r.guest.write.Stored? {
        assert Complete(r, left, BeforeFinalStat(p.reply)) == Complete(r, left, AfterFinalStat(r, left.node, p.reply));
      }
    }
  }

  // The version a call says it observed.
  function Guard(op: Op): (guard: Option<nat>)
    ensures forall v: nat :: guard == Some(v) <==>
              (op.WriteText? && op.expected == ReplaceIfVersion(v)) || (op.EditText? && op.guard == Some(v))
  {
    match op
    case WriteText(_, ReplaceIfVersion(v)) => Some(v)
    case WriteText(_, _) => None
    case EditText(_, guard) => guard
  }

  predicate Wrote(r: Request, store: Store) {
    Alone(r, store).0.writes != store.writes
  }

  // From the write on: the store changes once or not at all, and only an answer
  // that is not an I/O error says it did.
  lemma WriteCompletes(r: Request, store: Store, payload: Text, reply: Reply)
    ensures var (after, result) := Complete(r, store, BeforeWrite(payload, reply));
            && after == StoreAfterWrite(r, store, payload)
            && (result.Rejected? ==> result.code == IoError)
            && (!result.Rejected? ==> r.guest.write == Stored)
  {
    var after, w := StoreAfterWrite(r, store, payload), AfterWrite(r, reply);
    assert Complete(r, store, BeforeWrite(payload, reply)) == Complete(r, after, w);
    if w.BeforeFinalStat? {
      assert Complete(r, after, w) == Complete(r, after, AfterFinalStat(r, after.node, w.pending));
    }
  }

  // How a call run alone reaches its write, if it does.
  lemma AloneReaches(r: Request, store: Store) returns (q: Progress)
    ensures q.BeforeWrite? || (q.Replied? && q.result.Rejected?)
    ensures Alone(r, store) == Complete(r, store, q)
    ensures q.BeforeWrite? && Guard(r.op).Some? && !store.node.Absent? ==>
              store.node.File? && store.node.version == Guard(r.op).value
    ensures q.BeforeWrite? && r.op.WriteText? && r.op.expected == CreateIfAbsent ==> store.node.Absent?
    ensures q.BeforeWrite? && r.op.EditText? ==> store.node.File?
  {
    var p := AfterStat(r, store.node);
    assert Alone(r, store) == Complete(r, store, p);
    q := if p.BeforeRead? then AfterRead(r, store.node) else p;
  }

  // However the guest answers: a call writes at most once, a guarded call writes
  // over the version it observed or creates a missing file, createIfAbsent writes
  // only where nothing was, and an answered refusal writes nothing.
  lemma OneMutation(r: Request, store: Store)
    requires Stamped(store)
    ensures var (after, result) := Alone(r, store);
            && Stamped(after)
            && (!Wrote(r, store) ==> after == store)
            && (Wrote(r, store) ==> after.node.File? && after.writes == store.writes + 1)
            && (Wrote(r, store) && Guard(r.op).Some? && !store.node.Absent? ==>
                  store.node.File? && store.node.version == Guard(r.op).value)
            && (Wrote(r, store) && r.op.WriteText? && r.op.expected == CreateIfAbsent ==> store.node.Absent?)
            && (Wrote(r, store) && r.op.EditText? ==> store.node.File?)
            && (result.Rejected? && result.code != IoError ==> !Wrote(r, store))
            && (!result.Rejected? ==> Wrote(r, store))
  {
    var q := AloneReaches(r, store);
    if q.BeforeWrite? {
      WriteCompletes(r, store, q.payload, q.reply);
    }
  }

  // ----- No lost update -----

  ghost predicate AllStamped(initial: map<string, Store>) {
    forall key :: key in initial ==> Stamped(initial[key])
  }

  lemma {:induction false} ReplayGrows(initial: map<string, Store>, requests: seq<Request>, key: string, m: nat, n: nat)
    requires AllStamped(initial) && m <= n <= |requests|
    ensures var a, b := Replay(initial, requests, key, m), Replay(initial, requests, key, n);
            && Stamped(a) && Stamped(b) && a.writes <= b.writes
            && (!a.node.Absent? ==> !b.node.Absent?)
    decreases n
  {
    if n > 0 {
      if m == n {
        ReplayGrows(initial, requests, key, m - 1, n - 1);
      } else {
        ReplayGrows(initial, requests, key, m, n - 1);
      }
      OneMutation(requests[n - 1], Replay(initial, requests, key, n - 1));
    }
  }

  function BeforeIn(initial: map<string, Store>, requests: seq<Request>, t: nat): Store
    requires t < |requests|
  {
    Replay(initial, requests, requests[t].key, t)
  }

  // Two calls on one target that observed the same version never both write over
  // it, and at most one createIfAbsent of a target ever writes. An observed version
  // is one the target had by the time the first of them had its turn; the file may
  // be gone since.
  lemma NoLostUpdate(initial: map<string, Store>, requests: seq<Request>, t: nat, u: nat)
    requires AllStamped(initial) && t < u < |requests| && requests[t].key == requests[u].key
    requires Wrote(requests[t], BeforeIn(initial, requests, t))
    requires Wrote(requests[u], BeforeIn(initial, requests, u))
    ensures Guard(requests[t].op).Some? && Guard(requests[t].op).value <= BeforeIn(initial, requests, t).writes ==>
              Guard(requests[u].op) != Guard(requests[t].op)
    ensures requests[t].op.WriteText? && requests[u].op.WriteText? ==>
              !(requests[t].op.expected == CreateIfAbsent == requests[u].op.expected)
  {
    var key := requests[t].key;
    ReplayGrows(initial, requests, key, t, t);
    ReplayGrows(initial, requests, key, t + 1, u);
    OneMutation(requests[t], BeforeIn(initial, requests, t));
    OneMutation(requests[u], BeforeIn(initial, requests, u));
  }

  predicate TurnedAway(p: Progress) {
    p.Replied? && p.result.Rejected?
  }

  // Both calls are on one target, in this order, and have finished.
  ghost predicate FinishedPair(s: World, t: nat, u: nat) {
    && WellFormed(s) && t < u < |s.requests| && s.requests[t].key == s.requests[u].key
    && s.locks.calls[t].phase == Lock.Finished && s.locks.calls[u].phase == Lock.Finished
  }

  // The same of a run: of the calls that observed one version, whether the file is
  // still there or not, at most one comes back with success.
  lemma NoLostUpdateInRuns(initial: map<string, Store>, events: seq<Event>, t: nat, u: nat)
    requires AllStamped(initial) && IsRun(Start(initial), events)
    requires forall e: Event :: e in events ==> !e.Remove?
    requires var s := AfterRun(Start(initial), events);
             && FinishedPair(s, t, u)
             && Guard(s.requests[t].op).Some? && Guard(s.requests[t].op) == Guard(s.requests[u].op)
             && Guard(s.requests[t].op).value <= Before(s, t).writes
    ensures var s := AfterRun(Start(initial), events);
            TurnedAway(s.progress[t]) || TurnedAway(s.progress[u])
  {
    RunsAreSerial(initial, events);
    RunKeepsInitial(Start(initial), events);
    var s := AfterRun(Start(initial), events);
    ReplayGrows(initial, s.requests, s.requests[t].key, t, u);
    OneMutation(s.requests[t], Before(s, t));
    OneMutation(s.requests[u], Before(s, u));
    if Wrote(s.requests[t], Before(s, t)) && Wrote(s.requests[u], Before(s, u)) {
      NoLostUpdate(initial, s.requests, t, u);
    }
  }

  predicate Creates(op: Op) {
    op.WriteText? && op.expected == CreateIfAbsent
  }

  // And of the calls that create a target if it is absent, at most one.
  lemma OneCreatorInRuns(initial: map<string, Store>, events: seq<Event>, t: nat, u: nat)
    requires AllStamped(initial) && IsRun(Start(initial), events)
    requires forall e: Event :: e in events ==> !e.Remove?
    requires var s := AfterRun(Start(initial), events);
             FinishedPair(s, t, u) && Creates(s.requests[t].op) && Creates(s.requests[u].op)
    ensures var s := AfterRun(Start(initial), events);
            TurnedAway(s.progress[t]) || TurnedAway(s.progress[u])
  {
    RunsAreSerial(initial, events);
    RunKeepsInitial(Start(initial), events);
    var s := AfterRun(Start(initial), events);
    ReplayGrows(initial, s.requests, s.requests[t].key, t, u);
    OneMutation(s.requests[t], Before(s, t));
    OneMutation(s.requests[u], Before(s, u));
    if Wrote(s.requests[t], Before(s, t)) && Wrote(s.requests[u], Before(s, u)) {
      NoLostUpdate(initial, s.requests, t, u);
    }
  }

  // ----- The provider, updating its fields in place -----

  class FilesystemProvider {
    const locks: Lock.TargetLocks
    var requests: seq<Request>
    var progress: seq<Progress>
    var files: map<string, Store>
    ghost const initial: map<string, Store>

    ghost function Model(): World
      reads this, locks
    {
      World(initial, locks.Model(), requests, progress, files)
    }

    ghost predicate Valid()
      reads this, locks
    {
      Inv(Model())
    }

    constructor (files: map<string, Store>)
      ensures Valid() && Model() == Start(files) && fresh(locks)
    {
      locks := new Lock.TargetLocks();
      requests, progress := [], [];
      this.files, initial := files, files;
      new;
      StartIsSerial(files);
    }

    // writeText or editText is called.
    method Begin(request: Request) returns (call: nat)
      requires Valid()
      modifies this, locks
      ensures Valid() && Model() == Next(old(Model()), Arrive(request)) && call == |old(requests)|
    {
      EveryEventKeeps(Model(), Arrive(request));
      call := locks.Enter(request.key);
      requests := requests + [request];
      progress := progress + [Queued];
    }

    // The lock is obtained; the stat is sent.
    method EnterSection(call: nat)
      requires Valid() && Enabled(Model(), Acquire(call))
      modifies this, locks
      ensures Valid() && Model() == Next(old(Model()), Acquire(call))
    {
      EveryEventKeeps(Model(), Acquire(call));
      locks.Acquire(call);
      progress := progress[call := BeforeStat];
    }

    // The stat answers: the guard decides.
    method OnStat(call: nat)
      requires Valid() && Enabled(Model(), Stat(call))
      modifies this
      ensures Valid() && Model() == Next(old(Model()), Stat(call))
    {
      EveryEventKeeps(Model(), Stat(call));
      progress := progress[call := AfterStat(requests[call], StoreAt(files, requests[call].key).node)];
    }

    // The read of an edit answers: the replacement is computed.
    method OnRead(call: nat)
      requires Valid() && Enabled(Model(), Read(call))
      modifies this
      ensures Valid() && Model() == Next(old(Model()), Read(call))
    {
      EveryEventKeeps(Model(), Read(call));
      progress := progress[call := AfterRead(requests[call], StoreAt(files, requests[call].key).node)];
    }

    // The guest takes, or fails, the write.
    method OnWrite(call: nat)
      requires Valid() && Enabled(Model(), Write(call))
      modifies this
      ensures Valid() && Model() == Next(old(Model()), Write(call))
    {
      EveryEventKeeps(Model(), Write(call));
      var r, key := requests[call], requests[call].key;
      files := files[key := StoreAfterWrite(r, StoreAt(files, key), progress[call].payload)];
      progress := progress[call := AfterWrite(r, progress[call].reply)];
    }

    // The final stat answers: the call has its result.
    method OnFinalStat(call: nat)
      requires Valid() && Enabled(Model(), FinalStat(call))
      modifies this
      ensures Valid() && Model() == Next(old(Model()), FinalStat(call))
    {
      EveryEventKeeps(Model(), FinalStat(call));
      var node := StoreAt(files, requests[call].key).node;
      progress := progress[call := AfterFinalStat(requests[call], node, progress[call].pending)];
    }

    // The finally block of the lock.
    method LeaveSection(call: nat)
      requires Valid() && Enabled(Model(), Release(call))
      modifies locks
      ensures Valid() && Model() == Next(old(Model()), Release(call))
    {
      EveryEventKeeps(Model(), Release(call));
      locks.Release(call);
    }

    // The promise the call queued settles.
    method OnSettled(call: nat)
      requires Valid() && Enabled(Model(), Settle(call))
      modifies locks
      ensures Valid() && Model() == Next(old(Model()), Settle(call))
    {
      EveryEventKeeps(Model(), Settle(call));
      locks.Settle(call);
    }
  }
}
