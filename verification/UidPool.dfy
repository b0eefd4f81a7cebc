// The numeric identities of control spawns (src/subprocess.ts): one per running
// child, released once however the child ends.
module UidPool {
  import opened Options

  const PTC_UID_MIN := 1001
  const PTC_UID_MAX := 10000

  // ----- The pool -----

  function LeastFrom(inUse: set<int>, id: int): Option<int>
    decreases PTC_UID_MAX - id
  {
    if id > PTC_UID_MAX then None
    else if id in inUse then LeastFrom(inUse, id + 1)
    else Some(id)
  }

  lemma {:induction false} LeastFromIs(inUse: set<int>, id: int)
    ensures var r := LeastFrom(inUse, id);
            && (r.Some? ==>
                  && id <= r.value <= PTC_UID_MAX && r.value !in inUse
                  && forall i :: id <= i < r.value ==> i in inUse)
            && (r.None? ==> forall i :: id <= i <= PTC_UID_MAX ==> i in inUse)
    decreases PTC_UID_MAX - id
  {
    if id <= PTC_UID_MAX && id in inUse {
      LeastFromIs(inUse, id + 1);
    }
  }

  class PtcUidPool {
    var inUse: set<int>

    constructor ()
      ensures inUse == {}
    {
      inUse := {};
    }

    // The lowest free id, or none when every id is taken.
    method Allocate() returns (id: Option<int>)
      modifies this
      ensures id == LeastFrom(old(inUse), PTC_UID_MIN)
      ensures inUse == old(inUse) + (if id.Some? then {id.value} else {})
    {
      var candidate := PTC_UID_MIN;
      while candidate <= PTC_UID_MAX
        invariant LeastFrom(inUse, PTC_UID_MIN) == LeastFrom(inUse, candidate)
        invariant inUse == old(inUse)
        decreases PTC_UID_MAX - candidate
      {
        if candidate in inUse {
          candidate := candidate + 1;
          continue;
        }
        inUse := inUse + {candidate};
        return Some(candidate);
      }
      return None;
    }

    method Release(id: int)
      modifies this
      ensures inUse == old(inUse) - {id}
    {
      inUse := inUse - {id};
    }
  }

  // ----- Spawns and their ends -----

  // The ids taken, and the id of each control child that has not settled.
  datatype World = World(inUse: set<int>, live: map<nat, int>, spawned: nat)

  const START := World({}, map[], 0)

  // A child settles by its exit, a stream failure or a binding that failed: the id
  // is released when its done promise settles, which it does once.
  datatype Event = Spawn | Settle(child: nat)

  predicate Enabled(w: World, e: Event) {
    e.Settle? ==> e.child in w.live
  }

  function Next(w: World, e: Event): World
    requires Enabled(w, e)
  {
    match e
    case Spawn => (
      match LeastFrom(w.inUse, PTC_UID_MIN)
      case None => w
      case Some(id) => World(w.inUse + {id}, w.live[w.spawned := id], w.spawned + 1))
    case Settle(child) => w.(inUse := w.inUse - {w.live[child]}, live := w.live - {child})
  }

  ghost predicate Reaches(w: World, events: seq<Event>, last: World)
    decreases |events|
  {
    if events == [] then w == last
    else Enabled(w, events[0]) && Reaches(Next(w, events[0]), events[1..], last)
  }

  ghost predicate Inv(w: World) {
    && w.inUse == w.live.Values
    && (forall a, b :: a in w.live && b in w.live && w.live[a] == w.live[b] ==> a == b)
    && (forall id :: id in w.inUse ==> PTC_UID_MIN <= id <= PTC_UID_MAX)
    && (forall child :: child in w.live ==> child < w.spawned)
  }

  lemma NextKeeps(w: World, e: Event)
    requires Inv(w) && Enabled(w, e)
    ensures Inv(Next(w, e))
  {
    hide LeastFrom;
    match e
    case Spawn =>
      LeastFromIs(w.inUse, PTC_UID_MIN);
      var r := LeastFrom(w.inUse, PTC_UID_MIN);
      if r.Some? {
        var next := Next(w, e);
        assert w.spawned !in w.live;
        forall id ensures id in next.inUse <==> id in next.live.Values {
          if id in w.live.Values {
            var child :| child in w.live && w.live[child] == id;
            assert next.live[child] == id;
          }
          if id == r.value {
            assert next.live[w.spawned] == id;
          }
        }
      }
    case Settle(child) =>
      var next := Next(w, e);
      forall id ensures id in next.inUse <==> id in next.live.Values {
        if id in next.inUse {
          var c :| c in w.live && w.live[c] == id;
          assert c in next.live && next.live[c] == id;
        }
      }
  }

  lemma {:induction false} RunKeeps(w: World, events: seq<Event>, last: World)
    requires Inv(w) && Reaches(w, events, last)
    ensures Inv(last)
    decreases |events|
  {
    hide Inv, Next;
    if events != [] {
      NextKeeps(w, events[0]);
      RunKeeps(Next(w, events[0]), events[1..], last);
    }
  }

  // Live children hold different ids of the range, and exactly theirs are taken.
  lemma LiveIdsAreDistinct(events: seq<Event>, w: World)
    requires Reaches(START, events, w)
    ensures w.inUse == w.live.Values
    ensures forall a, b :: a in w.live && b in w.live && a != b ==> w.live[a] != w.live[b]
    ensures forall child :: child in w.live ==> PTC_UID_MIN <= w.live[child] <= PTC_UID_MAX
  {
    RunKeeps(START, events, w);
    forall child | child in w.live ensures PTC_UID_MIN <= w.live[child] <= PTC_UID_MAX {
      assert w.live[child] in w.live.Values;
    }
  }

  // ----- Running out -----

  function Ids(low: int, high: int): (ids: set<int>)
    ensures forall id :: id in ids <==> low <= id < high
    decreases high - low
  {
    if low < high then Ids(low, high - 1) + {high - 1} else {}
  }

  lemma {:induction false} IdsSize(low: int, high: int)
    requires low <= high
    ensures |Ids(low, high)| == high - low
    decreases high - low
  {
    if low < high {
      IdsSize(low, high - 1);
    }
  }

  lemma {:induction false} ValuesSize(m: map<nat, int>)
    requires forall a, b :: a in m && b in m && m[a] == m[b] ==> a == b
    ensures |m.Values| == |m|
    decreases |m|
  {
    if m != map[] {
      var a :| a in m;
      var rest := m - {a};
      ValuesSize(rest);
      forall v ensures v in m.Values <==> v in rest.Values + {m[a]} {
        if v in m.Values {
          var b :| b in m && m[b] == v;
          assert b == a || (b in rest && rest[b] == v);
        }
      }
      assert m.Values == rest.Values + {m[a]};
      assert m[a] !in rest.Values;
      assert |rest| == |m| - 1;
    } else {
      assert m.Values == {};
    }
  }

  lemma {:induction false} FullSubset(a: set<int>, b: set<int>)
    requires a <= b
    ensures |a| <= |b| && (|a| == |b| ==> a == b)
    decreases |b|
  {
    if x :| x in b && x !in a {
      FullSubset(a, b - {x});
    } else {
      assert forall x :: x in b ==> x in a;
      assert a == b;
    }
  }

  // A spawn gets the least free id, and is refused exactly when 9000 children live.
  lemma RefusedIffFull(events: seq<Event>, w: World)
    requires Reaches(START, events, w)
    ensures LeastFrom(w.inUse, PTC_UID_MIN).None? <==> |w.live| == 9000
    ensures |w.live| <= 9000
    ensures LeastFrom(w.inUse, PTC_UID_MIN).Some? ==>
              var id := LeastFrom(w.inUse, PTC_UID_MIN).value;
              && PTC_UID_MIN <= id <= PTC_UID_MAX && id !in w.inUse
              && forall i :: PTC_UID_MIN <= i < id ==> i in w.inUse
  {
    hide LeastFrom;
    RunKeeps(START, events, w);
    ValuesSize(w.live);
    LeastFromIs(w.inUse, PTC_UID_MIN);
    FullIff(w.inUse);
  }

  lemma FullIff(inUse: set<int>)
    requires forall id :: id in inUse ==> PTC_UID_MIN <= id <= PTC_UID_MAX
    ensures |inUse| <= 9000
    ensures |inUse| == 9000 <==> LeastFrom(inUse, PTC_UID_MIN).None?
  {
    hide LeastFrom, Ids;
    var all := Ids(PTC_UID_MIN, PTC_UID_MAX + 1);
    IdsSize(PTC_UID_MIN, PTC_UID_MAX + 1);
    LeastFromIs(inUse, PTC_UID_MIN);
    assert inUse <= all;
    FullSubset(inUse, all);
    if LeastFrom(inUse, PTC_UID_MIN).None? {
      assert all <= inUse;
      assert inUse == all;
    }
  }

  // Once every child has settled, every id is free again.
  lemma SettledIsFree(events: seq<Event>, w: World)
    requires Reaches(START, events, w) && w.live == map[]
    ensures w.inUse == {} && LeastFrom(w.inUse, PTC_UID_MIN) == Some(PTC_UID_MIN)
  {
    RunKeeps(START, events, w);
    assert w.live.Values == {};
  }
}
