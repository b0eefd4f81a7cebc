// Three runs of one write and a remove of its file (src/fs-provider.ts): the write
// goes through a file that is gone; and why a recursive remove, or a request the guest
// fails, can hide as much.
module RemoveRuns {
  import opened Options
  import opened Text
  import opened LineEndings
  import opened GuardedFiles
  import opened RemovedFiles
  import opened RemoveHits
  import Lock = TargetLock

  // ----- One call on one file -----

  // The state of a run whose only call is r.
  function One(initial: map<string, Store>, r: Request, phase: Lock.Phase, p: Progress, store: Store,
               order: seq<Turn>, removals: seq<Removal>): Trace
  {
    Trace(World(initial,
                Lock.Locks([Lock.Call(r.key, None, phase, false)], if phase == Lock.Finished then map[] else map[r.key := 0]),
                [r], [p], initial[r.key := store]),
          order, removals)
  }

  ghost predicate Leads(tr: Trace, events: seq<Event>, last: Trace) {
    IsRun(tr.world, events) && AfterTrace(tr, events) == last
  }

  lemma Stops(tr: Trace)
    ensures Leads(tr, [], tr)
  {
  }

  lemma {:induction false} LeadsOn(tr: Trace, events: seq<Event>, mid: Trace, e: Event)
    requires Leads(tr, events, mid) && WellFormed(mid.world) && Enabled(mid.world, e)
    ensures Leads(tr, events + [e], NextTrace(mid, e))
    decreases |events|
  {
    hide NextTrace;
    if events == [] {
      assert events + [e] == [e] && [e][1..] == [];
      TraceWorld(tr, e);
      Stops(NextTrace(mid, e));
      assert IsRun(tr.world, [e]);
      assert AfterTrace(tr, [e]) == AfterTrace(NextTrace(tr, e), []);
    } else {
      TraceWorld(tr, events[0]);
      LeadsOn(NextTrace(tr, events[0]), events[1..], mid, e);
      assert (events + [e])[1..] == events[1..] + [e] && (events + [e])[0] == events[0];
    }
  }

  // A hit after some events is a hit of the run.
  lemma {:induction false} HitCounts(tr: Trace, events: seq<Event>, mid: Trace, e: Event, rest: seq<Event>)
    requires Leads(tr, events, mid) && WellFormed(mid.world) && Hits(mid.world, e)
    requires IsRun(tr.world, events + [e] + rest)
    ensures !NoHits(tr.world, events + [e] + rest)
    decreases |events|
  {
    hide NextTrace, Hits;
    var all := events + [e] + rest;
    if events == [] {
      assert all[0] == e;
    } else {
      TraceWorld(tr, events[0]);
      assert all[0] == events[0] && all[1..] == events[1..] + [e] + rest;
      HitCounts(NextTrace(tr, events[0]), events[1..], mid, e, rest);
    }
  }

  lemma Arrives(initial: map<string, Store>, r: Request)
    requires r.key in initial
    ensures Leads(StartTrace(initial), [Arrive(r)], One(initial, r, Lock.Waiting, Queued, initial[r.key], [], []))
  {
    var tr := StartTrace(initial);
    assert initial[r.key := initial[r.key]] == initial;
    assert NextTrace(tr, Arrive(r)) == One(initial, r, Lock.Waiting, Queued, initial[r.key], [], []);
    assert [Arrive(r)][1..] == [];
    TraceWorld(tr, Arrive(r));
  }

  lemma Acquires(initial: map<string, Store>, r: Request, store: Store)
    ensures var tr := One(initial, r, Lock.Waiting, Queued, store, [], []);
            && WellFormed(tr.world) && Enabled(tr.world, Acquire(0))
            && NextTrace(tr, Acquire(0)) == One(initial, r, Lock.Running, BeforeStat, store, [], [])
  {
  }

  lemma Stats(initial: map<string, Store>, r: Request, store: Store)
    requires AfterStat(r, store.node).BeforeWrite?
    ensures var tr := One(initial, r, Lock.Running, BeforeStat, store, [], []);
            && WellFormed(tr.world) && Enabled(tr.world, Stat(0))
            && NextTrace(tr, Stat(0)) == One(initial, r, Lock.Running, AfterStat(r, store.node), store, [], [])
  {
  }

  lemma Removes(initial: map<string, Store>, r: Request, phase: Lock.Phase, p: Progress, store: Store,
                order: seq<Turn>, removals: seq<Removal>, recursive: bool)
    requires p.BeforeRead? ==> r.op.EditText?
    ensures var tr := One(initial, r, phase, p, store, order, removals);
            && WellFormed(tr.world) && Enabled(tr.world, Remove(r.key, recursive))
            && NextTrace(tr, Remove(r.key, recursive)) ==
               One(initial, r, phase, p, store.(node := Absent), order + [RemoveTurn(|removals|)],
                   removals + [Removal(r.key, recursive, !store.node.Absent?)])
            && (phase == Lock.Running && HalfWay(p) && !store.node.Absent? ==> Hits(tr.world, Remove(r.key, recursive)))
  {
    var tr := One(initial, r, phase, p, store, order, removals);
    assert initial[r.key := store][r.key := store.(node := Absent)] == initial[r.key := store.(node := Absent)];
    if phase == Lock.Running && HalfWay(p) && !store.node.Absent? {
      assert InSection(tr.world, 0);
    }
  }

  lemma Writes(initial: map<string, Store>, r: Request, p: Progress, store: Store, order: seq<Turn>, removals: seq<Removal>)
    requires p.BeforeWrite?
    ensures var tr := One(initial, r, Lock.Running, p, store, order, removals);
            && WellFormed(tr.world) && Enabled(tr.world, Write(0))
            && NextTrace(tr, Write(0)) ==
               One(initial, r, Lock.Running, AfterWrite(r, p.reply), StoreAfterWrite(r, store, p.payload),
                   order + [CallTurn(0)], removals)
  {
    var after := StoreAfterWrite(r, store, p.payload);
    assert initial[r.key := store][r.key := after] == initial[r.key := after];
  }

  lemma FinalStats(initial: map<string, Store>, r: Request, p: Progress, store: Store, order: seq<Turn>, removals: seq<Removal>)
    requires p.BeforeFinalStat?
    ensures var tr := One(initial, r, Lock.Running, p, store, order, removals);
            && WellFormed(tr.world) && Enabled(tr.world, FinalStat(0))
            && NextTrace(tr, FinalStat(0)) ==
               One(initial, r, Lock.Running, AfterFinalStat(r, store.node, p.pending), store, order, removals)
  {
  }

  lemma Releases(initial: map<string, Store>, r: Request, p: Progress, store: Store, order: seq<Turn>, removals: seq<Removal>)
    requires p.Replied?
    ensures var tr := One(initial, r, Lock.Running, p, store, order, removals);
            && WellFormed(tr.world) && Enabled(tr.world, Release(0))
            && NextTrace(tr, Release(0)) == One(initial, r, Lock.Finished, p, store, order, removals)
            && Drained(NextTrace(tr, Release(0)).world) && WellFormed(NextTrace(tr, Release(0)).world)
  {
  }

  // ----- A write over a file that is gone -----

  const FILE := "f"

  function Overwrite(content: Text, write: WriteAnswer): Request {
    Request(FILE, WriteText(content, ReplaceIfVersion(1)), Guest(false, false, write, false))
  }

  function Initially(was: Text): map<string, Store> {
    map[FILE := Store(File(was, 1), 1)]
  }

  // Up to the write: the stat sees version 1, then the file is removed.
  function Opening(r: Request, recursive: bool): seq<Event> {
    [Arrive(r), Acquire(0), Stat(0), Remove(FILE, recursive)]
  }

  lemma Opens(was: Text, content: Text, write: WriteAnswer, recursive: bool)
    ensures var initial, r := Initially(was), Overwrite(content, write);
            var p := BeforeWrite(content, WriteReply(false, Normalize(content)));
            && Leads(StartTrace(initial), Opening(r, recursive),
                     One(initial, r, Lock.Running, p, Store(Absent, 1), [RemoveTurn(0)], [Removal(FILE, recursive, true)]))
            && forall rest :: IsRun(Start(initial), Opening(r, recursive) + rest) ==>
                 !NoHits(Start(initial), Opening(r, recursive) + rest)
  {
    var initial, r := Initially(was), Overwrite(content, write);
    var store := Store(File(was, 1), 1);
    var p := AfterStat(r, store.node);
    var tr0 := StartTrace(initial);
    hide NextTrace, Leads, IsRun, NoHits, One, Hits, Next, Normalize;
    Arrives(initial, r);
    Acquires(initial, r, store);
    LeadsOn(tr0, [Arrive(r)], One(initial, r, Lock.Waiting, Queued, store, [], []), Acquire(0));
    Stats(initial, r, store);
    LeadsOn(tr0, [Arrive(r)] + [Acquire(0)], One(initial, r, Lock.Running, BeforeStat, store, [], []), Stat(0));
    Removes(initial, r, Lock.Running, p, store, [], [], recursive);
    var mid, before := One(initial, r, Lock.Running, p, store, [], []), [Arrive(r)] + [Acquire(0)] + [Stat(0)];
    LeadsOn(tr0, before, mid, Remove(FILE, recursive));
    assert before + [Remove(FILE, recursive)] == Opening(r, recursive);
    assert [] + [RemoveTurn(0)] == [RemoveTurn(0)];
    assert [] + [Removal(FILE, recursive, true)] == [Removal(FILE, recursive, true)];
    forall rest | IsRun(Start(initial), Opening(r, recursive) + rest)
      ensures !NoHits(Start(initial), Opening(r, recursive) + rest)
    {
      HitCounts(tr0, before, mid, Remove(FILE, recursive), rest);
    }
  }

  // The run: the stat sees the file, the file is removed, the write and the final stat
  // go through.
  function Unnoticed(r: Request): seq<Event> {
    Opening(r, false) + [Write(0)] + [FinalStat(0)] + [Release(0)]
  }

  lemma UnnoticedRun(was: Text, content: Text)
    ensures var initial, r := Initially(was), Overwrite(content, Stored);
            && Leads(StartTrace(initial), Unnoticed(r),
                     One(initial, r, Lock.Finished, Replied(WroteFile(false, 2, Normalize(content))),
                         Store(File(content, 2), 2), [RemoveTurn(0), CallTurn(0)], [Removal(FILE, false, true)]))
            && !NoHits(Start(initial), Unnoticed(r))
  {
    var initial, r := Initially(was), Overwrite(content, Stored);
    var p := BeforeWrite(content, WriteReply(false, Normalize(content)));
    var tr0, removals := StartTrace(initial), [Removal(FILE, false, true)];
    var order, after := [RemoveTurn(0)] + [CallTurn(0)], Store(File(content, 2), 2);
    var done := Replied(WroteFile(false, 2, Normalize(content)));
    hide NextTrace, Leads, IsRun, NoHits, One, Next, Normalize;
    Opens(was, content, Stored, false);
    Writes(initial, r, p, Store(Absent, 1), [RemoveTurn(0)], removals);
    LeadsOn(tr0, Opening(r, false), One(initial, r, Lock.Running, p, Store(Absent, 1), [RemoveTurn(0)], removals), Write(0));
    var q := BeforeFinalStat(p.reply);
    FinalStats(initial, r, q, after, order, removals);
    LeadsOn(tr0, Opening(r, false) + [Write(0)], One(initial, r, Lock.Running, q, after, order, removals), FinalStat(0));
    Releases(initial, r, done, after, order, removals);
    LeadsOn(tr0, Opening(r, false) + [Write(0)] + [FinalStat(0)],
            One(initial, r, Lock.Running, done, after, order, removals), Release(0));
    assert order == [RemoveTurn(0), CallTurn(0)];
    assert Unnoticed(r) == Opening(r, false) + ([Write(0)] + [FinalStat(0)] + [Release(0)]);
    LeadsRuns(tr0, Unnoticed(r), One(initial, r, Lock.Finished, done, after, order, removals));
  }

  lemma LeadsRuns(tr: Trace, events: seq<Event>, last: Trace)
    requires Leads(tr, events, last)
    ensures IsRun(tr.world, events)
  {
  }

  // A remove between the stat and the write goes unnoticed: the call reports that it
  // updated the file, and the file is there. One at a time, the write first leaves
  // nothing, and the remove first makes the write report a creation: no order gives
  // the run.
  lemma RemoveIsNotSerialised(was: Text, content: Text)
    ensures var initial, r := Initially(was), Overwrite(content, Stored);
            && IsRun(Start(initial), Unnoticed(r))
            && var tr := AfterTrace(StartTrace(initial), Unnoticed(r));
            && WellFormed(tr.world) && Drained(tr.world)
            && tr.world.progress == [Replied(WroteFile(false, 2, Normalize(content)))]
            && StoreAt(tr.world.stores, FILE).node == File(content, 2)
            && !SomeSerialOrder(tr)
    ensures var store, r := Store(File(was, 1), 1), Overwrite(content, Stored);
            && Alone(r, store) == (Store(File(content, 2), 2), WroteFile(false, 2, Normalize(content)))
            && Alone(r, store).0.(node := Absent).node == Absent
            && Alone(r, store.(node := Absent)).1 == WroteFile(true, 2, Normalize(content))
  {
    var initial, r := Initially(was), Overwrite(content, Stored);
    var done := Replied(WroteFile(false, 2, Normalize(content)));
    UnnoticedRun(was, content);
    WriteAlone(r, Store(File(was, 1), 1));
    WriteAlone(r, Store(Absent, 1));
    var order, removals := [RemoveTurn(0), CallTurn(0)], [Removal(FILE, false, true)];
    var last := One(initial, r, Lock.Finished, done, Store(File(content, 2), 2), order, removals);
    TraceFollowsRun(StartTrace(initial), Unnoticed(r));
    assert WellFormed(last.world) && Drained(last.world);
    assert forall e :: e in Unnoticed(r) ==> Plain(e);
    hide One, IsRun, NoHits, AfterTrace, SomeSerialOrder, Unnoticed, Alone, Drained;
    SerialIffNoHit(initial, Unnoticed(r));
  }

  // ----- What can hide a hit -----

  // What the turns of one call on FILE leave elsewhere: nothing.
  lemma {:induction false} ElsewhereStays(initial: map<string, Store>, r: Request, removals: seq<Removal>,
                                          order: seq<Turn>, key: string)
    requires key != r.key && forall m :: m in removals ==> m.key == r.key
    ensures Serial(initial, [r], removals, order, key) == StoreAt(initial, key)
    decreases |order|
  {
    hide Alone;
    if order != [] {
      ElsewhereStays(initial, r, removals, order[..|order| - 1], key);
    }
  }

  // The call first, then the removes.
  lemma CallThenRemoves(was: Text, r: Request, removals: seq<Removal>, order: seq<Turn>)
    requires r.key == FILE && |order| >= 2 && order[0] == CallTurn(0) && |removals| >= 1
    requires forall i :: 1 <= i < |order| ==> order[i] == RemoveTurn(i - 1)
    requires |order| == |removals| + 1 && forall m :: m in removals ==> m.key == FILE
    ensures forall n: nat :: 1 <= n <= |order| ==>
              var store := Serial(Initially(was), [r], removals, order[..n], FILE);
              var alone := Alone(r, Store(File(was, 1), 1)).0;
              store == if n == 1 then alone else alone.(node := Absent)
    ensures Serial(Initially(was), [r], removals, order[..0], FILE) == Store(File(was, 1), 1)
  {
    CallThenRemovesTo(was, r, removals, order, |order|);
  }

  lemma {:induction false} CallThenRemovesTo(was: Text, r: Request, removals: seq<Removal>, order: seq<Turn>, k: nat)
    requires r.key == FILE && |order| >= 2 && order[0] == CallTurn(0)
    requires forall i :: 1 <= i < |order| ==> order[i] == RemoveTurn(i - 1)
    requires |order| == |removals| + 1 && forall m :: m in removals ==> m.key == FILE
    requires k <= |order|
    ensures forall n: nat :: 1 <= n <= k ==>
              var store := Serial(Initially(was), [r], removals, order[..n], FILE);
              var alone := Alone(r, Store(File(was, 1), 1)).0;
              store == if n == 1 then alone else alone.(node := Absent)
  {
    hide Alone;
    if k > 0 {
      CallThenRemovesTo(was, r, removals, order, k - 1);
      assert order[..k] == order[..k - 1] + [order[k - 1]];
      SerialMore(Initially(was), [r], removals, order[..k - 1], order[k - 1], FILE);
      if k >= 2 {
        assert removals[k - 2] in removals;
      }
    }
  }

  // A run that ends without the file, whose call was answered as if it had come first,
  // and whose first remove alone says what it found, is serial.
  lemma EndsAsCallFirst(was: Text, r: Request, done: Progress, store: Store, taken: seq<Turn>, removals: seq<Removal>,
                        order: seq<Turn>)
    requires r.key == FILE && |order| >= 2 && order[0] == CallTurn(0)
    requires forall i :: 1 <= i < |order| ==> order[i] == RemoveTurn(i - 1)
    requires |order| == |removals| + 1 && (forall m :: m in removals ==> m.key == FILE)
    requires removals[0].found && forall i :: 1 <= i < |removals| ==> removals[i].recursive
    requires multiset(order) == multiset(taken) && store.node.Absent?
    requires done == Replied(Alone(r, Store(File(was, 1), 1)).1) && !Alone(r, Store(File(was, 1), 1)).0.node.Absent?
    ensures SomeSerialOrder(One(Initially(was), r, Lock.Finished, done, store, taken, removals))
  {
    var tr := One(Initially(was), r, Lock.Finished, done, store, taken, removals);
    CallThenRemoves(was, r, removals, order);
    hide Alone, Serial;
    forall n: nat | n < |order| ensures Agrees(tr, order, n) {
      if n >= 1 {
        assert order[n] == RemoveTurn(n - 1) && removals[n - 1] in removals;
      }
    }
    forall key: string
      ensures SameNode(StoreAt(tr.world.stores, key).node, SerialOf(tr, order, |order|, key).node)
    {
      assert order[..|order|] == order;
      if key != FILE {
        ElsewhereStays(Initially(was), r, removals, order, key);
      }
    }
    assert IsSerialOrder(tr, order);
  }

  function Twice(r: Request): seq<Event> {
    Unnoticed(r) + [Remove(FILE, true)]
  }

  const BOTH: seq<Removal> := [Removal(FILE, false, true), Removal(FILE, true, true)]

  lemma TwiceRun(was: Text, content: Text)
    ensures var initial, r := Initially(was), Overwrite(content, Stored);
            && Leads(StartTrace(initial), Twice(r),
                     One(initial, r, Lock.Finished, Replied(WroteFile(false, 2, Normalize(content))),
                         Store(Absent, 2), [RemoveTurn(0), CallTurn(0), RemoveTurn(1)], BOTH))
            && !NoHits(Start(initial), Twice(r))
  {
    var initial, r := Initially(was), Overwrite(content, Stored);
    var done := Replied(WroteFile(false, 2, Normalize(content)));
    var taken, removals := [RemoveTurn(0), CallTurn(0)], [Removal(FILE, false, true)];
    var store := Store(File(content, 2), 2);
    hide NextTrace, NoHits, One, Next, Normalize, IsRun, AfterTrace, Leads;
    UnnoticedRun(was, content);
    Opens(was, content, Stored, false);
    Removes(initial, r, Lock.Finished, done, store, taken, removals, true);
    LeadsOn(StartTrace(initial), Unnoticed(r), One(initial, r, Lock.Finished, done, store, taken, removals), Remove(FILE, true));
    assert taken + [RemoveTurn(1)] == [RemoveTurn(0), CallTurn(0), RemoveTurn(1)];
    assert removals + [Removal(FILE, true, true)] == BOTH;
    LeadsTo(StartTrace(initial), Twice(r),
            One(initial, r, Lock.Finished, done, Store(Absent, 2), [RemoveTurn(0), CallTurn(0), RemoveTurn(1)], BOTH));
    assert Twice(r) == Opening(r, false) + ([Write(0)] + [FinalStat(0)] + [Release(0)] + [Remove(FILE, true)]);
  }

  // A remove that does not tell what it found can hide a hit: after a second, recursive
  // remove the run gives the answers and the files of writing first and removing twice.
  lemma RecursiveRemoveHidesHit(was: Text, content: Text)
    ensures var initial, r := Initially(was), Overwrite(content, Stored);
            && IsRun(Start(initial), Twice(r)) && !NoHits(Start(initial), Twice(r))
            && var tr := AfterTrace(StartTrace(initial), Twice(r));
            && WellFormed(tr.world) && Drained(tr.world) && SomeSerialOrder(tr)
  {
    var initial, r := Initially(was), Overwrite(content, Stored);
    var done := Replied(WroteFile(false, 2, Normalize(content)));
    var taken := [RemoveTurn(0), CallTurn(0), RemoveTurn(1)];
    var last := One(initial, r, Lock.Finished, done, Store(Absent, 2), taken, BOTH);
    TwiceRun(was, content);
    WriteAlone(r, Store(File(was, 1), 1));
    OneDrained(initial, r, done, Store(Absent, 2), taken, BOTH);
    hide NoHits, One, Normalize, Alone, IsRun, AfterTrace, Leads, Drained, Twice, SomeSerialOrder;
    LeadsTo(StartTrace(initial), Twice(r), last);
    EndsAsCallFirst(was, r, done, Store(Absent, 2), taken, BOTH, [CallTurn(0), RemoveTurn(0), RemoveTurn(1)]);
  }

  lemma OneDrained(initial: map<string, Store>, r: Request, p: Progress, store: Store, order: seq<Turn>,
                   removals: seq<Removal>)
    requires p.Replied?
    ensures var tr := One(initial, r, Lock.Finished, p, store, order, removals);
            WellFormed(tr.world) && Drained(tr.world)
  {
  }

  lemma LeadsTo(tr: Trace, events: seq<Event>, last: Trace)
    requires Leads(tr, events, last)
    ensures IsRun(tr.world, events) && AfterTrace(tr, events) == last
  {
  }

  function GivesUp(r: Request): seq<Event> {
    Opening(r, false) + [Write(0)] + [Release(0)]
  }

  lemma GivesUpRun(was: Text, content: Text)
    ensures var initial, r := Initially(was), Overwrite(content, Failed(None));
            && Leads(StartTrace(initial), GivesUp(r),
                     One(initial, r, Lock.Finished, Replied(Rejected(IoError)), Store(Absent, 1),
                         [RemoveTurn(0), CallTurn(0)], [Removal(FILE, false, true)]))
            && !NoHits(Start(initial), GivesUp(r))
  {
    var initial, r := Initially(was), Overwrite(content, Failed(None));
    var p := BeforeWrite(content, WriteReply(false, Normalize(content)));
    var done := Replied(Rejected(IoError));
    var gone, taken, removals := Store(Absent, 1), [RemoveTurn(0)] + [CallTurn(0)], [Removal(FILE, false, true)];
    hide NextTrace, NoHits, One, Next, Normalize, IsRun, AfterTrace, Leads;
    Opens(was, content, Failed(None), false);
    Writes(initial, r, p, gone, [RemoveTurn(0)], removals);
    LeadsOn(StartTrace(initial), Opening(r, false), One(initial, r, Lock.Running, p, gone, [RemoveTurn(0)], removals), Write(0));
    Releases(initial, r, done, gone, taken, removals);
    LeadsOn(StartTrace(initial), Opening(r, false) + [Write(0)],
            One(initial, r, Lock.Running, done, gone, taken, removals), Release(0));
    assert taken == [RemoveTurn(0), CallTurn(0)];
    LeadsTo(StartTrace(initial), GivesUp(r), One(initial, r, Lock.Finished, done, gone, taken, removals));
    assert GivesUp(r) == Opening(r, false) + ([Write(0)] + [Release(0)]);
  }

  // So can a write the guest fails: the run is that of the failed write and then the
  // remove.
  lemma FailedWriteHidesHit(was: Text, content: Text)
    ensures var initial, r := Initially(was), Overwrite(content, Failed(None));
            && IsRun(Start(initial), GivesUp(r)) && !NoHits(Start(initial), GivesUp(r))
            && var tr := AfterTrace(StartTrace(initial), GivesUp(r));
            && WellFormed(tr.world) && Drained(tr.world) && SomeSerialOrder(tr)
  {
    var initial, r := Initially(was), Overwrite(content, Failed(None));
    var done := Replied(Rejected(IoError));
    var taken, removals := [RemoveTurn(0), CallTurn(0)], [Removal(FILE, false, true)];
    var last := One(initial, r, Lock.Finished, done, Store(Absent, 1), taken, removals);
    GivesUpRun(was, content);
    FailsAlone(was, content);
    OneDrained(initial, r, done, Store(Absent, 1), taken, removals);
    hide NoHits, One, Normalize, Alone, IsRun, AfterTrace, Leads, Drained, GivesUp, SomeSerialOrder;
    LeadsTo(StartTrace(initial), GivesUp(r), last);
    EndsAsCallFirst(was, r, done, Store(Absent, 1), taken, removals, [CallTurn(0), RemoveTurn(0)]);
  }

  lemma FailsAlone(was: Text, content: Text)
    ensures Alone(Overwrite(content, Failed(None)), Store(File(was, 1), 1)) == (Store(File(was, 1), 1), Rejected(IoError))
  {
    var r, store := Overwrite(content, Failed(None)), Store(File(was, 1), 1);
    var p := AfterStat(r, store.node);
    assert Alone(r, store) == Complete(r, store, p);
    assert Complete(r, store, p) == Complete(r, store, AfterWrite(r, p.reply));
  }
}
