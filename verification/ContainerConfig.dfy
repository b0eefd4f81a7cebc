// One container's editable configuration (src/client/container-card-config.ts):
// comparing two of them, and the differences an apply has to send.
module ContainerConfig {
  import opened Sequences

  // ----- JavaScript records -----

  // A Record<string, string> with a plain prototype: its own entries in order, no
  // two under one key.
  datatype Entry = Entry(key: string, value: string)
  type Record = seq<Entry>

  predicate IsRecord(r: Record) {
    forall i, j :: 0 <= i < j < |r| ==> r[i].key != r[j].key
  }

  // The names every plain object inherits from Object.prototype; the in operator
  // finds them in any record.
  const INHERITED: set<string> := {
    "constructor", "__defineGetter__", "__defineSetter__", "hasOwnProperty",
    "__lookupGetter__", "__lookupSetter__", "isPrototypeOf", "propertyIsEnumerable",
    "toString", "valueOf", "__proto__", "toLocaleString"}

  function AsMap(r: Record): map<string, string> {
    if r == [] then map[] else AsMap(r[1..])[r[0].key := r[0].value]
  }

  function Names(r: Record): set<string> {
    set i | 0 <= i < |r| :: r[i].key
  }

  // key in record
  predicate In(key: string, r: Record) {
    key in AsMap(r) || key in INHERITED
  }

  // record[key] === value
  predicate Holds(r: Record, key: string, value: string) {
    key in AsMap(r) && AsMap(r)[key] == value
  }

  predicate RecordsEqual(a: Record, b: Record) {
    |a| == |b| && forall i :: 0 <= i < |a| ==> Holds(b, a[i].key, a[i].value)
  }

  // What the in operator finds: the entries, and the twelve members of every object.
  lemma InIs(key: string, r: Record)
    ensures In(key, r) <==>
            || key in AsMap(r)
            || key == "constructor" || key == "hasOwnProperty" || key == "isPrototypeOf" || key == "propertyIsEnumerable"
            || key == "toString" || key == "toLocaleString" || key == "valueOf" || key == "__proto__"
            || key == "__defineGetter__" || key == "__defineSetter__" || key == "__lookupGetter__" || key == "__lookupSetter__"
  {
  }

  lemma NamesCons(r: Record)
    requires IsRecord(r) && r != []
    ensures IsRecord(r[1..]) && Names(r) == Names(r[1..]) + {r[0].key} && r[0].key !in Names(r[1..])
  {
    forall name | name in Names(r) ensures name == r[0].key || name in Names(r[1..]) {
      var i :| 0 <= i < |r| && r[i].key == name;
      if i > 0 {
        assert r[1..][i - 1].key == name;
      }
    }
    forall name | name in Names(r[1..]) ensures name in Names(r) {
      var i :| 0 <= i < |r[1..]| && r[1..][i].key == name;
      assert r[i + 1].key == name;
    }
  }

  lemma {:induction false} AsMapIs(r: Record)
    requires IsRecord(r)
    ensures AsMap(r).Keys == Names(r) && |AsMap(r)| == |r|
    ensures forall i :: 0 <= i < |r| ==> Holds(r, r[i].key, r[i].value)
  {
    if r != [] {
      NamesCons(r);
      AsMapIs(r[1..]);
      forall i | 0 <= i < |r| ensures Holds(r, r[i].key, r[i].value) {
        if i > 0 {
          assert r[1..][i - 1] == r[i];
          assert Holds(r[1..], r[i].key, r[i].value);
        }
      }
    }
  }

  ghost predicate Named(r: seq<Entry>, name: string) {
    exists e :: e in r && e.key == name
  }

  lemma HoldsAt(r: Record, name: string)
    requires IsRecord(r)
    ensures name in AsMap(r) <==> Named(r, name)
    ensures forall e :: e in r && e.key == name ==> name in AsMap(r) && AsMap(r)[name] == e.value
  {
    AsMapIs(r);
    if name in AsMap(r) {
      var i :| 0 <= i < |r| && r[i].key == name;
      assert r[i] in r;
    }
  }

  lemma SubmapOfSameSize(a: map<string, string>, b: map<string, string>)
    requires |a| == |b| && forall key :: key in a ==> key in b && b[key] == a[key]
    ensures a == b
  {
    assert a.Keys <= b.Keys;
    SubsetOfSameSize(a.Keys, b.Keys);
  }

  lemma {:induction false} SubsetOfSameSize<T>(a: set<T>, b: set<T>)
    requires a <= b && |a| == |b|
    ensures a == b
  {
    if x :| x in b && x !in a {
      SubsetSize(a, b - {x});
    }
  }

  lemma {:induction false} SubsetSize<T>(a: set<T>, b: set<T>)
    requires a <= b
    ensures |a| <= |b|
  {
    if x :| x in a {
      SubsetSize(a - {x}, b - {x});
    }
  }

  // Two records compare equal exactly when they hold the same variables.
  lemma RecordsEqualIff(a: Record, b: Record)
    requires IsRecord(a) && IsRecord(b)
    ensures RecordsEqual(a, b) <==> AsMap(a) == AsMap(b)
  {
    AsMapIs(a);
    AsMapIs(b);
    if RecordsEqual(a, b) {
      forall key | key in AsMap(a) ensures key in AsMap(b) && AsMap(b)[key] == AsMap(a)[key] {
        assert key in Names(a);
        var i :| 0 <= i < |a| && a[i].key == key;
        assert Holds(a, a[i].key, a[i].value);
      }
      SubmapOfSameSize(AsMap(a), AsMap(b));
    }
  }

  // ----- Mounts -----

  datatype MountInput = MountInput(
    kind: string, project: string, destination: string, mode: string, volume: string, secret: string)

  function MountKey(m: MountInput): string {
    if m.kind == "tmpfs" then "tmpfs|" + m.destination
    else if m.kind == "volume" then "volume|" + m.volume + "|" + m.destination
    else if m.kind == "secret" then "secret|" + m.secret + "|" + m.destination
    else "project|" + m.project + "|" + m.destination
  }

  // What the key stands for: the kind, the source and the destination.
  datatype Identity = Identity(kind: string, source: string, destination: string)

  function IdentityOf(m: MountInput): Identity {
    if m.kind == "tmpfs" then Identity("tmpfs", "", m.destination)
    else if m.kind == "volume" then Identity("volume", m.volume, m.destination)
    else if m.kind == "secret" then Identity("secret", m.secret, m.destination)
    else Identity("project", m.project, m.destination)
  }

  function KeyOf(id: Identity): string {
    if id.kind == "tmpfs" then "tmpfs|" + id.destination
    else id.kind + "|" + id.source + "|" + id.destination
  }

  // A mount as the card and the host exchange it: a project mount has no destination
  // of its own, and no volume or secret name holds the separator.
  predicate Received(m: MountInput) {
    if m.kind == "tmpfs" then true
    else if m.kind == "volume" then Free(m.volume, '|')
    else if m.kind == "secret" then Free(m.secret, '|')
    else m.destination == ""
  }

  lemma BarSplits(a: string, b: string)
    requires Free(a, '|')
    ensures SplitOn(a + "|" + b, '|') == [a] + SplitOn(b, '|')
  {
    SplitOnAround(a, '|', b);
    SplitOnFree(a, '|');
  }

  lemma KeyShape(m: MountInput)
    ensures var id := IdentityOf(m);
            && Free(id.kind, '|') && MountKey(m) == KeyOf(id)
            && MountKey(m) == id.kind + "|" + Rest(id)
  {
  }

  // The key after the kind.
  function Rest(id: Identity): string {
    if id.kind == "tmpfs" then id.destination else id.source + "|" + id.destination
  }

  lemma FirstBar(a: string, x: string, b: string, y: string)
    requires Free(a, '|') && Free(b, '|')
    ensures a + "|" + x == b + "|" + y ==> a == b && x == y
  {
    BarSplits(a, x);
    BarSplits(b, y);
    JoinSplitOn(x, '|');
    JoinSplitOn(y, '|');
    hide SplitOn;
    if a + "|" + x == b + "|" + y {
      var sa, sb := [a] + SplitOn(x, '|'), [b] + SplitOn(y, '|');
      assert sa[0] == a && sb[0] == b && sa[1..] == SplitOn(x, '|') && sb[1..] == SplitOn(y, '|');
    }
  }

  lemma ReceivedShape(m: MountInput)
    requires Received(m)
    ensures var id := IdentityOf(m);
            && id.kind in {"tmpfs", "volume", "secret", "project"}
            && (id.kind == "tmpfs" ==> id.source == "")
            && (id.kind == "project" ==> id.destination == "")
            && (id.kind in {"volume", "secret"} ==> Free(id.source, '|'))
  {
  }

  // The key identifies every mount the card can hold, whatever its project is named:
  // only the two records' kinds, sources and destinations decide.
  lemma KeyIdentifies(a: MountInput, b: MountInput)
    requires Received(a) && Received(b)
    ensures MountKey(a) == MountKey(b) <==> IdentityOf(a) == IdentityOf(b)
  {
    KeyShape(a);
    KeyShape(b);
    ReceivedShape(a);
    ReceivedShape(b);
    hide MountKey, IdentityOf, KeyOf, Received;
    var ia, ib := IdentityOf(a), IdentityOf(b);
    FirstBar(ia.kind, Rest(ia), ib.kind, Rest(ib));
    if MountKey(a) == MountKey(b) {
      if ia.kind in {"volume", "secret"} {
        FirstBar(ia.source, ia.destination, ib.source, ib.destination);
      } else if ia.kind == "project" {
        assert ia.source == (ia.source + "|" + "")[..|ia.source + "|" + ""| - 1];
        assert ib.source == (ib.source + "|" + "")[..|ib.source + "|" + ""| - 1];
      }
    }
  }

  // No two mounts of a list share a key without being the same mount.
  ghost predicate KeysName(ms: seq<MountInput>) {
    forall a, b :: a in ms && b in ms && MountKey(a) == MountKey(b) ==> IdentityOf(a) == IdentityOf(b)
  }

  lemma ReceivedAreNamed(ms: seq<MountInput>)
    requires forall m :: m in ms ==> Received(m)
    ensures KeysName(ms)
  {
    hide MountKey, IdentityOf, Received;
    forall a, b | a in ms && b in ms && MountKey(a) == MountKey(b) ensures IdentityOf(a) == IdentityOf(b) {
      KeyIdentifies(a, b);
    }
  }

  predicate MountsEqual(a: seq<MountInput>, b: seq<MountInput>) {
    |a| == |b| && forall i :: 0 <= i < |a| ==> MountKey(a[i]) == MountKey(b[i]) && a[i].mode == b[i].mode
  }

  datatype MountDiff = MountDiff(added: seq<MountInput>, removed: seq<MountInput>, updated: seq<MountInput>)

  // The index of the first mount under key, or -1.
  function Find(live: seq<MountInput>, key: string): (i: int)
    ensures -1 <= i < |live|
  {
    if live == [] then -1
    else if MountKey(live[0]) == key then 0
    else var i := Find(live[1..], key); if i < 0 then -1 else i + 1
  }

  lemma {:induction false} FindIs(live: seq<MountInput>, key: string)
    ensures var i := Find(live, key);
            && (i >= 0 ==> MountKey(live[i]) == key)
            && (i < 0 ==> forall m :: m in live ==> MountKey(m) != key)
  {
    hide MountKey;
    if live != [] {
      FindIs(live[1..], key);
      assert live == [live[0]] + live[1..];
    }
  }

  function Without<T>(s: seq<T>, i: nat): seq<T>
    requires i < |s|
  {
    s[..i] + s[i + 1..]
  }

  // Each staged mount takes the first live one left under its key.
  function Pair(live: seq<MountInput>, next: seq<MountInput>): MountDiff {
    if next == [] then MountDiff([], live, [])
    else
      var i := Find(live, MountKey(next[0]));
      if i < 0 then
        var d := Pair(live, next[1..]);
        d.(added := [next[0]] + d.added)
      else
        var d := Pair(Without(live, i), next[1..]);
        if live[i].mode != next[0].mode then d.(updated := [next[0]] + d.updated) else d
  }

  // The live mounts not used yet, in their order.
  function Unused(base: seq<MountInput>, used: seq<bool>): seq<MountInput>
    requires |used| == |base|
  {
    if base == [] then []
    else if used[0] then Unused(base[1..], used[1..])
    else [base[0]] + Unused(base[1..], used[1..])
  }

  // The findIndex of mountDiff: the first unused live mount under key, or -1.
  function FindUnused(base: seq<MountInput>, used: seq<bool>, key: string): (i: int)
    requires |used| == |base|
    ensures -1 <= i < |base|
  {
    if base == [] then -1
    else if !used[0] && MountKey(base[0]) == key then 0
    else var i := FindUnused(base[1..], used[1..], key); if i < 0 then -1 else i + 1
  }

  lemma WithoutHead<T>(x: T, live: seq<T>)
    ensures Without([x] + live, 0) == live
  {
    assert ([x] + live)[1..] == live;
  }

  lemma WithoutCons<T>(x: T, live: seq<T>, k: nat)
    requires k < |live|
    ensures Without([x] + live, k + 1) == [x] + Without(live, k)
  {
    assert ([x] + live)[k + 2..] == live[k + 1..];
    assert ([x] + live)[..k + 1] == [x] + live[..k];
  }

  lemma FindCons(x: MountInput, live: seq<MountInput>, key: string)
    ensures Find([x] + live, key) ==
            if MountKey(x) == key then 0
            else if Find(live, key) < 0 then -1 else Find(live, key) + 1
  {
    hide MountKey;
    assert ([x] + live)[1..] == live;
  }

  lemma UnusedStep(base: seq<MountInput>, used: seq<bool>, i: nat)
    requires |used| == |base| && i < |base|
    ensures i == 0 ==> Unused(base, used[i := true]) == Unused(base[1..], used[1..])
    ensures i > 0 ==> Unused(base, used[i := true]) ==
                      (if used[0] then [] else [base[0]]) + Unused(base[1..], used[1..][i - 1 := true])
  {
    if i == 0 {
      assert used[0 := true][1..] == used[1..];
    } else {
      assert used[i := true][1..] == used[1..][i - 1 := true];
    }
  }

  lemma {:induction false} FindUnusedFinds(base: seq<MountInput>, used: seq<bool>, key: string)
    requires |used| == |base|
    ensures var i, live := FindUnused(base, used, key), Unused(base, used);
            var k := Find(live, key);
            && (i < 0 <==> k < 0)
            && (i >= 0 ==> base[i] == live[k] && Unused(base, used[i := true]) == Without(live, k))
  {
    hide MountKey;
    if base != [] {
      FindUnusedFinds(base[1..], used[1..], key);
      var i, live := FindUnused(base[1..], used[1..], key), Unused(base[1..], used[1..]);
      if !used[0] {
        FindCons(base[0], live, key);
        WithoutHead(base[0], live);
        if i >= 0 {
          WithoutCons(base[0], live, Find(live, key));
        }
        UnusedStep(base, used, 0);
      }
      if i >= 0 {
        UnusedStep(base, used, i + 1);
      }
    }
  }

  lemma {:induction false} NothingUsed(base: seq<MountInput>, used: seq<bool>)
    requires |used| == |base| && forall i :: 0 <= i < |used| ==> !used[i]
    ensures Unused(base, used) == base
  {
    if base != [] {
      NothingUsed(base[1..], used[1..]);
    }
  }

  lemma PairAt(live: seq<MountInput>, next: seq<MountInput>, n: nat)
    requires n < |next|
    ensures var i := Find(live, MountKey(next[n]));
            && (i < 0 ==>
                  var d := Pair(live, next[n + 1..]);
                  Pair(live, next[n..]) == d.(added := [next[n]] + d.added))
            && (i >= 0 ==>
                  var d := Pair(Without(live, i), next[n + 1..]);
                  Pair(live, next[n..]) ==
                  if live[i].mode != next[n].mode then d.(updated := [next[n]] + d.updated) else d)
  {
    hide MountKey, Without;
    assert next[n..][1..] == next[n + 1..];
  }

  lemma NothingToPair(live: seq<MountInput>, next: seq<MountInput>)
    ensures Pair(live, next[|next|..]) == MountDiff([], live, [])
  {
  }

  function Extend(added: seq<MountInput>, updated: seq<MountInput>, rest: MountDiff): MountDiff {
    MountDiff(added + rest.added, rest.removed, updated + rest.updated)
  }

  lemma ExtendNothing(rest: MountDiff)
    ensures Extend([], [], rest) == rest
  {
  }

  lemma ExtendLast(added: seq<MountInput>, updated: seq<MountInput>, live: seq<MountInput>)
    ensures Extend(added, updated, MountDiff([], live, [])) == MountDiff(added, live, updated)
  {
  }

  lemma ExtendMore(added: seq<MountInput>, updated: seq<MountInput>, m: MountInput, rest: MountDiff)
    ensures Extend(added, updated, rest.(added := [m] + rest.added)) == Extend(added + [m], updated, rest)
    ensures Extend(added, updated, rest.(updated := [m] + rest.updated)) == Extend(added, updated + [m], rest)
  {
    assert added + ([m] + rest.added) == added + [m] + rest.added;
    assert updated + ([m] + rest.updated) == updated + [m] + rest.updated;
  }

  lemma PairStep(base: seq<MountInput>, used: seq<bool>, next: seq<MountInput>, n: nat,
                 added: seq<MountInput>, updated: seq<MountInput>)
    requires |used| == |base| && n < |next|
    ensures var index := FindUnused(base, used, MountKey(next[n]));
            var used' := if index < 0 then used else used[index := true];
            Extend(added, updated, Pair(Unused(base, used), next[n..])) ==
            Extend(if index < 0 then added + [next[n]] else added,
                   if index >= 0 && base[index].mode != next[n].mode then updated + [next[n]] else updated,
                   Pair(Unused(base, used'), next[n + 1..]))
  {
    hide Pair, MountKey, FindUnused, Unused, Extend, Without;
    var index := FindUnused(base, used, MountKey(next[n]));
    var used' := if index < 0 then used else used[index := true];
    FindUnusedFinds(base, used, MountKey(next[n]));
    PairAt(Unused(base, used), next, n);
    ExtendMore(added, updated, next[n], Pair(Unused(base, used'), next[n + 1..]));
  }

  // mountDiff: one pass over the staged mounts, marking the live ones they use.
  method DiffMounts(base: seq<MountInput>, next: seq<MountInput>) returns (diff: MountDiff)
    ensures diff == Pair(base, next)
  {
    var used := new bool[|base|](_ => false);
    var added: seq<MountInput> := [];
    var updated: seq<MountInput> := [];
    NothingUsed(base, used[..]);
    hide Pair, MountKey, FindUnused, Unused, Extend;
    ExtendNothing(Pair(base, next));
    assert next[0..] == next;
    var n := 0;
    while n < |next|
      invariant 0 <= n <= |next|
      invariant Pair(base, next) == Extend(added, updated, Pair(Unused(base, used[..]), next[n..]))
    {
      var mount := next[n];
      PairStep(base, used[..], next, n, added, updated);
      var index := FindUnused(base, used[..], MountKey(mount));
      ghost var before := used[..];
      if index == -1 {
        added := added + [mount];
      } else {
        used[index] := true;
        assert used[..] == before[index := true];
        if base[index].mode != mount.mode {
          updated := updated + [mount];
        }
      }
      n := n + 1;
    }
    NothingToPair(Unused(base, used[..]), next);
    ExtendLast(added, updated, Unused(base, used[..]));
    diff := MountDiff(added, Unused(base, used[..]), updated);
  }

  // How often a key occurs in a list.
  function Count(ms: seq<MountInput>, key: string): nat {
    if ms == [] then 0 else (if MountKey(ms[0]) == key then 1 else 0) + Count(ms[1..], key)
  }

  lemma CountCons(x: MountInput, ms: seq<MountInput>, key: string)
    ensures Count([x] + ms, key) == (if MountKey(x) == key then 1 else 0) + Count(ms, key)
  {
    hide MountKey;
    assert ([x] + ms)[1..] == ms;
  }

  lemma {:induction false} CountWithout(live: seq<MountInput>, i: nat, key: string)
    requires i < |live|
    ensures Count(live, key) == Count(Without(live, i), key) + if MountKey(live[i]) == key then 1 else 0
  {
    hide MountKey;
    assert live == [live[0]] + live[1..];
    if i == 0 {
      WithoutHead(live[0], live[1..]);
    } else {
      WithoutCons(live[0], live[1..], i - 1);
      CountWithout(live[1..], i - 1, key);
      CountCons(live[0], Without(live[1..], i - 1), key);
    }
  }

  lemma {:induction false} FindCounts(live: seq<MountInput>, key: string)
    ensures Find(live, key) < 0 <==> Count(live, key) == 0
  {
    hide MountKey;
    if live != [] {
      FindCounts(live[1..], key);
    }
  }

  function Excess(a: nat, b: nat): nat {
    if a > b then a - b else 0
  }

  // Whatever the two lists hold, duplicates included, the difference removes and
  // adds under each key just the excess of one list over the other: it never
  // removes and adds under the same key.
  lemma {:induction false} DiffCountsExcess(base: seq<MountInput>, next: seq<MountInput>, key: string)
    ensures Count(Pair(base, next).removed, key) == Excess(Count(base, key), Count(next, key))
    ensures Count(Pair(base, next).added, key) == Excess(Count(next, key), Count(base, key))
    decreases |next|
  {
    hide MountKey;
    if next != [] {
      var i := Find(base, MountKey(next[0]));
      FindIs(base, MountKey(next[0]));
      FindCounts(base, MountKey(next[0]));
      if i < 0 {
        DiffCountsExcess(base, next[1..], key);
        CountCons(next[0], Pair(base, next[1..]).added, key);
      } else {
        DiffCountsExcess(Without(base, i), next[1..], key);
        CountWithout(base, i, key);
      }
    }
  }

  ghost predicate DistinctKeys(ms: seq<MountInput>) {
    forall i, j :: 0 <= i < j < |ms| ==> MountKey(ms[i]) != MountKey(ms[j])
  }

  ghost predicate HasKey(ms: seq<MountInput>, key: string) {
    exists m :: m in ms && MountKey(m) == key
  }

  ghost predicate HasMode(ms: seq<MountInput>, key: string, mode: string) {
    exists m :: m in ms && MountKey(m) == key && m.mode == mode
  }

  lemma WithoutMembers(live: seq<MountInput>, i: nat)
    requires i < |live| && DistinctKeys(live)
    ensures DistinctKeys(Without(live, i))
    ensures forall m :: m in Without(live, i) <==> m in live && MountKey(m) != MountKey(live[i])
  {
    hide MountKey;
    var w := Without(live, i);
    forall m | m in live && MountKey(m) != MountKey(live[i]) ensures m in w {
      var j :| 0 <= j < |live| && live[j] == m;
      assert w[if j < i then j else j - 1] == m;
    }
    forall m | m in w ensures m in live && MountKey(m) != MountKey(live[i]) {
      var j :| 0 <= j < |w| && w[j] == m;
      assert live[if j < i then j else j + 1] == m;
    }
  }

  lemma TailMembers(ms: seq<MountInput>)
    requires ms != [] && DistinctKeys(ms)
    ensures DistinctKeys(ms[1..])
    ensures forall m :: m in ms <==> m == ms[0] || m in ms[1..]
    ensures forall m :: m in ms[1..] ==> MountKey(m) != MountKey(ms[0])
  {
    hide MountKey;
    assert ms == [ms[0]] + ms[1..];
    forall m | m in ms[1..] ensures MountKey(m) != MountKey(ms[0]) {
      var j :| 0 <= j < |ms[1..]| && ms[1..][j] == m;
      assert ms[j + 1] == m;
    }
  }

  // With no key twice in either list, the difference is what the names say.
  lemma {:induction false} DiffIsByKey(base: seq<MountInput>, next: seq<MountInput>)
    requires DistinctKeys(base) && DistinctKeys(next)
    ensures var d := Pair(base, next);
            && (forall m :: m in d.added <==> m in next && !HasKey(base, MountKey(m)))
            && (forall m :: m in d.removed <==> m in base && !HasKey(next, MountKey(m)))
            && (forall m :: m in d.updated <==>
                  m in next && HasKey(base, MountKey(m)) && !HasMode(base, MountKey(m), m.mode))
    decreases |next|
  {
    hide MountKey;
    if next != [] {
      TailMembers(next);
      var i := Find(base, MountKey(next[0]));
      FindIs(base, MountKey(next[0]));
      if i < 0 {
        DiffIsByKey(base, next[1..]);
        assert !HasKey(base, MountKey(next[0]));
      } else {
        WithoutMembers(base, i);
        DiffIsByKey(Without(base, i), next[1..]);
        OneUnderKey(base, i, next[0].mode);
      }
    }
  }

  lemma OneUnderKey(ms: seq<MountInput>, i: nat, mode: string)
    requires DistinctKeys(ms) && i < |ms|
    ensures HasKey(ms, MountKey(ms[i]))
    ensures HasMode(ms, MountKey(ms[i]), mode) <==> ms[i].mode == mode
  {
    hide MountKey;
    assert ms[i] in ms;
  }
}
