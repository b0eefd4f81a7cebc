// Applying an edited configuration (src/client/container-card-controller.ts): the
// ordered commands that take a container from base to next.
module ApplyConfig {
  import opened Sequences
  import opened ContainerConfig

  datatype PortConfig = PortConfig(port: nat, protocol: string, suggestedHostPort: nat)

  datatype Config = Config(
    image: string, env: Record, mounts: seq<MountInput>, paths: seq<string>,
    secretEnv: Record, ports: seq<PortConfig>)

  predicate IsConfig(c: Config) {
    IsRecord(c.env) && IsRecord(c.secretEnv)
  }

  // ----- The differences of variables and ports -----

  function AddedEntries(base: Record, next: Record): seq<Entry> {
    Filter(next, (e: Entry) => !In(e.key, base))
  }

  function ChangedEntries(base: Record, next: Record): seq<Entry> {
    Filter(next, (e: Entry) => In(e.key, base) && !Holds(base, e.key, e.value))
  }

  function RemovedEntries(base: Record, next: Record): seq<Entry> {
    Filter(base, (e: Entry) => !In(e.key, next))
  }

  // envDiff: one pass over next and one over base.
  method DiffEnv(base: Record, next: Record) returns (added: seq<Entry>, changed: seq<Entry>, removed: seq<Entry>)
    ensures added == AddedEntries(base, next)
    ensures changed == ChangedEntries(base, next)
    ensures removed == RemovedEntries(base, next)
  {
    added, changed, removed := [], [], [];
    for n := 0 to |next|
      invariant added == AddedEntries(base, next[..n])
      invariant changed == ChangedEntries(base, next[..n])
    {
      assert next[..n + 1] == next[..n] + [next[n]];
      FilterAppend(next[..n], next[n], (e: Entry) => !In(e.key, base));
      FilterAppend(next[..n], next[n], (e: Entry) => In(e.key, base) && !Holds(base, e.key, e.value));
      if !In(next[n].key, base) {
        added := added + [next[n]];
      } else if !Holds(base, next[n].key, next[n].value) {
        changed := changed + [next[n]];
      }
    }
    assert next[..|next|] == next;
    for n := 0 to |base|
      invariant removed == RemovedEntries(base[..n], next)
    {
      assert base[..n + 1] == base[..n] + [base[n]];
      FilterAppend(base[..n], base[n], (e: Entry) => !In(e.key, next));
      if !In(base[n].key, next) {
        removed := removed + [base[n]];
      }
    }
    assert base[..|base|] == base;
  }

  // A port is identified by its number and protocol.
  datatype PortId = PortId(port: nat, protocol: string)

  function IdOfPort(p: PortConfig): PortId {
    PortId(p.port, p.protocol)
  }

  function PortIds(ports: seq<PortConfig>): set<PortId> {
    set p | p in ports :: IdOfPort(p)
  }

  function AddedPorts(base: seq<PortConfig>, next: seq<PortConfig>): seq<PortConfig> {
    Filter(next, (p: PortConfig) => IdOfPort(p) !in PortIds(base))
  }

  function RemovedPorts(base: seq<PortConfig>, next: seq<PortConfig>): seq<PortConfig> {
    Filter(base, (p: PortConfig) => IdOfPort(p) !in PortIds(next))
  }

  predicate PortsEqual(a: seq<PortConfig>, b: seq<PortConfig>) {
    |a| == |b| && forall i :: 0 <= i < |a| ==> IdOfPort(a[i]) == IdOfPort(b[i])
  }

  predicate ConfigsEqual(a: Config, b: Config) {
    && a.image == b.image && RecordsEqual(a.env, b.env) && MountsEqual(a.mounts, b.mounts)
    && a.paths == b.paths && RecordsEqual(a.secretEnv, b.secretEnv) && PortsEqual(a.ports, b.ports)
  }

  // ----- The commands -----

  datatype Command =
    | RemoveMount(mount: MountInput)
    | UpdateMount(mount: MountInput)
    | AddMount(mount: MountInput)
    | RemoveSecret(name: string)
    | AddSecret(name: string, secret: string)
    | SetPaths(paths: seq<string>)
    | Unpublish(id: PortId)
    | Publish(id: PortId, suggestedHostPort: nat)
    | Recreate(image: string, env: Record)

  function NeedsRecreate(base: Config, next: Config): bool {
    base.image != next.image || !RecordsEqual(base.env, next.env)
  }

  function MountCommands(base: Config, next: Config): seq<Command> {
    var diff := Pair(base.mounts, next.mounts);
    Map(diff.removed, m => RemoveMount(m)) + Map(diff.updated, m => UpdateMount(m))
    + Map(diff.added, m => AddMount(m))
  }

  // A changed variable is detached and attached again.
  function SecretCommands(base: Config, next: Config): seq<Command> {
    var added := AddedEntries(base.secretEnv, next.secretEnv);
    var changed := ChangedEntries(base.secretEnv, next.secretEnv);
    var removed := RemovedEntries(base.secretEnv, next.secretEnv);
    Map(removed + changed, (e: Entry) => RemoveSecret(e.key))
    + Map(added + changed, (e: Entry) => AddSecret(e.key, e.value))
  }

  function PathCommands(base: Config, next: Config): seq<Command> {
    if base.paths == next.paths then [] else [SetPaths(next.paths)]
  }

  function PortCommands(base: Config, next: Config): seq<Command> {
    Map(RemovedPorts(base.ports, next.ports), (p: PortConfig) => Unpublish(IdOfPort(p)))
    + Map(AddedPorts(base.ports, next.ports), (p: PortConfig) => Publish(IdOfPort(p), p.suggestedHostPort))
  }

  function RecreateCommands(base: Config, next: Config): seq<Command> {
    if NeedsRecreate(base, next) then [Recreate(next.image, next.env)] else []
  }

  function Commands(base: Config, next: Config): seq<Command> {
    MountCommands(base, next) + SecretCommands(base, next) + PathCommands(base, next)
    + PortCommands(base, next) + RecreateCommands(base, next)
  }

  // ----- A container, one item at a time -----

  datatype Container = Container(
    image: string, env: map<string, string>, mounts: map<Identity, string>, paths: seq<string>,
    secretEnv: map<string, string>, ports: set<PortId>)

  function MountMap(ms: seq<MountInput>): map<Identity, string> {
    if ms == [] then map[] else MountMap(ms[1..])[IdentityOf(ms[0]) := ms[0].mode]
  }

  function ContainerOf(c: Config): Container {
    Container(c.image, AsMap(c.env), MountMap(c.mounts), c.paths, AsMap(c.secretEnv), PortIds(c.ports))
  }

  datatype Item =
    | MountItem(id: Identity) | SecretItem(name: string) | PortItem(port: PortId)
    | PathsItem | ImageItem | EnvItem

  datatype Value = Missing | Present | Text(text: string) | Paths(paths: seq<string>) | Env(env: map<string, string>)

  function ValueOf(c: Container, x: Item): Value {
    match x
    case MountItem(id) => if id in c.mounts then Text(c.mounts[id]) else Missing
    case SecretItem(name) => if name in c.secretEnv then Text(c.secretEnv[name]) else Missing
    case PortItem(id) => if id in c.ports then Present else Missing
    case PathsItem => Paths(c.paths)
    case ImageItem => Text(c.image)
    case EnvItem => Env(c.env)
  }

  // What an accepted command does. A recreate that names no image, or no variable
  // at all, keeps what the container had: the host route leaves an empty image and
  // an empty environment out of the request (src/card-route.ts:598-603).
  function Apply(c: Container, cmd: Command): Container {
    match cmd
    case RemoveMount(m) => c.(mounts := c.mounts - {IdentityOf(m)})
    case UpdateMount(m) => c.(mounts := c.mounts[IdentityOf(m) := m.mode])
    case AddMount(m) => c.(mounts := c.mounts[IdentityOf(m) := m.mode])
    case RemoveSecret(name) => c.(secretEnv := c.secretEnv - {name})
    case AddSecret(name, secret) => c.(secretEnv := c.secretEnv[name := secret])
    case SetPaths(paths) => c.(paths := paths)
    case Unpublish(id) => c.(ports := c.ports - {id})
    case Publish(id, _) => c.(ports := c.ports + {id})
    case Recreate(image, env) =>
      c.(image := if image == "" then c.image else image, env := if env == [] then c.env else AsMap(env))
  }

  // The items a command is about, and what it leaves there.
  predicate Touches(cmd: Command, x: Item) {
    match cmd
    case RemoveMount(m) => x == MountItem(IdentityOf(m))
    case UpdateMount(m) => x == MountItem(IdentityOf(m))
    case AddMount(m) => x == MountItem(IdentityOf(m))
    case RemoveSecret(name) => x == SecretItem(name)
    case AddSecret(name, _) => x == SecretItem(name)
    case SetPaths(_) => x == PathsItem
    case Unpublish(id) => x == PortItem(id)
    case Publish(id, _) => x == PortItem(id)
    case Recreate(image, env) => (x == ImageItem && image != "") || (x == EnvItem && env != [])
  }

  function Leaves(cmd: Command, x: Item): Value
    requires Touches(cmd, x)
  {
    match cmd
    case RemoveMount(m) => Missing
    case UpdateMount(m) => Text(m.mode)
    case AddMount(m) => Text(m.mode)
    case RemoveSecret(_) => Missing
    case AddSecret(_, secret) => Text(secret)
    case SetPaths(paths) => Paths(paths)
    case Unpublish(_) => Missing
    case Publish(_, _) => Present
    case Recreate(image, env) => if x == ImageItem then Text(image) else Env(AsMap(env))
  }

  // A command changes the items it is about and no other.
  lemma ApplyIsLocal(c: Container, cmd: Command, x: Item)
    ensures ValueOf(Apply(c, cmd), x) == if Touches(cmd, x) then Leaves(cmd, x) else ValueOf(c, x)
  {
  }

  // The commands are awaited one by one; a refused one changes nothing.
  function Exec(c: Container, cmds: seq<Command>, accepted: seq<bool>): Container
    requires |accepted| == |cmds|
    decreases cmds
  {
    if cmds == [] then c
    else Exec(if accepted[0] then Apply(c, cmds[0]) else c, cmds[1..], accepted[1..])
  }

  // The same of one item.
  function Follow(v: Value, cmds: seq<Command>, accepted: seq<bool>, x: Item): Value
    requires |accepted| == |cmds|
    decreases cmds
  {
    if cmds == [] then v
    else
      Follow(if accepted[0] && Touches(cmds[0], x) then Leaves(cmds[0], x) else v,
             cmds[1..], accepted[1..], x)
  }

  lemma {:induction false} ExecFollows(c: Container, cmds: seq<Command>, accepted: seq<bool>, x: Item)
    requires |accepted| == |cmds|
    ensures ValueOf(Exec(c, cmds, accepted), x) == Follow(ValueOf(c, x), cmds, accepted, x)
    decreases cmds
  {
    if cmds != [] {
      ApplyIsLocal(c, cmds[0], x);
      ExecFollows(if accepted[0] then Apply(c, cmds[0]) else c, cmds[1..], accepted[1..], x);
    }
  }

  lemma SameItems(a: Container, b: Container)
    requires forall x :: ValueOf(a, x) == ValueOf(b, x)
    ensures a == b
  {
    forall id ensures id in a.mounts <==> id in b.mounts
      ensures id in a.mounts ==> a.mounts[id] == b.mounts[id]
    {
      assert ValueOf(a, MountItem(id)) == ValueOf(b, MountItem(id));
    }
    forall name ensures name in a.secretEnv <==> name in b.secretEnv
      ensures name in a.secretEnv ==> a.secretEnv[name] == b.secretEnv[name]
    {
      assert ValueOf(a, SecretItem(name)) == ValueOf(b, SecretItem(name));
    }
    forall id ensures id in a.ports <==> id in b.ports {
      assert ValueOf(a, PortItem(id)) == ValueOf(b, PortItem(id));
    }
    assert a.mounts == b.mounts && a.secretEnv == b.secretEnv && a.ports == b.ports;
    assert ValueOf(a, PathsItem) == ValueOf(b, PathsItem);
    assert ValueOf(a, ImageItem) == ValueOf(b, ImageItem);
    assert ValueOf(a, EnvItem) == ValueOf(b, EnvItem);
  }

  // ----- Following one item through all accepted commands -----

  function All(cmds: seq<Command>): (accepted: seq<bool>)
    ensures |accepted| == |cmds| && forall i :: 0 <= i < |cmds| ==> accepted[i]
  {
    seq(|cmds|, _ => true)
  }

  lemma {:induction false} FollowAppend(v: Value, a: seq<Command>, b: seq<Command>, x: Item)
    ensures Follow(v, a + b, All(a + b), x) == Follow(Follow(v, a, All(a), x), b, All(b), x)
    decreases a
  {
    if a == [] {
      assert a + b == b;
    } else {
      var v' := if Touches(a[0], x) then Leaves(a[0], x) else v;
      FollowAppend(v', a[1..], b, x);
      assert (a + b)[1..] == a[1..] + b;
      assert All(a + b)[1..] == All(a[1..] + b) && All(a)[1..] == All(a[1..]);
    }
  }

  ghost predicate SomeTouch(cmds: seq<Command>, x: Item) {
    exists i :: 0 <= i < |cmds| && Touches(cmds[i], x)
  }

  // Commands that agree on what they leave at x leave that, if any is about x.
  lemma {:induction false} FollowAgreed(v: Value, cmds: seq<Command>, x: Item, w: Value)
    requires forall i :: 0 <= i < |cmds| && Touches(cmds[i], x) ==> Leaves(cmds[i], x) == w
    ensures Follow(v, cmds, All(cmds), x) == if SomeTouch(cmds, x) then w else v
    decreases cmds
  {
    if cmds != [] {
      var v' := if Touches(cmds[0], x) then Leaves(cmds[0], x) else v;
      FollowAgreed(v', cmds[1..], x, w);
      assert All(cmds)[1..] == All(cmds[1..]);
      if i :| 0 <= i < |cmds| && Touches(cmds[i], x) {
        if i > 0 {
          assert cmds[1..][i - 1] == cmds[i];
        }
      }
      if i :| 0 <= i < |cmds[1..]| && Touches(cmds[1..][i], x) {
        assert cmds[i + 1] == cmds[1..][i];
      }
    }
  }

  ghost predicate NoTouch(cmds: seq<Command>, x: Item) {
    forall i :: 0 <= i < |cmds| ==> !Touches(cmds[i], x)
  }

  lemma FollowUntouched(v: Value, cmds: seq<Command>, x: Item)
    requires NoTouch(cmds, x)
    ensures Follow(v, cmds, All(cmds), x) == v
  {
    FollowAgreed(v, cmds, x, v);
  }

  // An item goes through the five groups in turn.
  lemma FollowGroups(v: Value, base: Config, next: Config, x: Item)
    ensures var v1 := Follow(v, MountCommands(base, next), All(MountCommands(base, next)), x);
            var v2 := Follow(v1, SecretCommands(base, next), All(SecretCommands(base, next)), x);
            var v3 := Follow(v2, PathCommands(base, next), All(PathCommands(base, next)), x);
            var v4 := Follow(v3, PortCommands(base, next), All(PortCommands(base, next)), x);
            Follow(v, Commands(base, next), All(Commands(base, next)), x) ==
            Follow(v4, RecreateCommands(base, next), All(RecreateCommands(base, next)), x)
  {
    var m, s, p, o, r := MountCommands(base, next), SecretCommands(base, next), PathCommands(base, next),
                         PortCommands(base, next), RecreateCommands(base, next);
    FollowAppend(v, m + s + p + o, r, x);
    FollowAppend(v, m + s + p, o, x);
    FollowAppend(v, m + s, p, x);
    FollowAppend(v, m, s, x);
  }

  // ----- What each item ends as -----

  lemma {:induction false} MountMapIs(ms: seq<MountInput>, id: Identity)
    requires DistinctKeys(ms)
    ensures id in MountMap(ms) ==> exists m :: m in ms && IdentityOf(m) == id
    ensures forall m :: m in ms && IdentityOf(m) == id ==> id in MountMap(ms) && MountMap(ms)[id] == m.mode
  {
    hide MountKey, IdentityOf;
    if ms != [] {
      TailMembers(ms);
      MountMapIs(ms[1..], id);
      forall m | m in ms && IdentityOf(m) == id
        ensures id in MountMap(ms) && MountMap(ms)[id] == m.mode
      {
        KeyShape(m);
        KeyShape(ms[0]);
        if m in ms[1..] {
          assert IdentityOf(ms[0]) != id;
        }
      }
    }
  }

  ghost predicate Sound(c: Config) {
    && IsConfig(c)
    && DistinctKeys(c.mounts)
  }

  // Two configurations of one container: no mount twice in either, and a key names one
  // mount in both.
  ghost predicate Edit(base: Config, next: Config) {
    Sound(base) && Sound(next) && KeysName(base.mounts + next.mounts)
  }

  // So it is for any two the card can hold.
  lemma ReceivedAreEdits(base: Config, next: Config)
    requires Sound(base) && Sound(next)
    requires forall m :: m in base.mounts || m in next.mounts ==> Received(m)
    ensures Edit(base, next)
  {
    ReceivedAreNamed(base.mounts + next.mounts);
  }

  lemma SameKeys(a: seq<MountInput>, b: seq<MountInput>, m: MountInput)
    requires DistinctKeys(b) && m in a && (KeysName(a + b) || KeysName(b + a))
    ensures HasKey(b, MountKey(m)) <==> IdentityOf(m) in MountMap(b)
    ensures HasMode(b, MountKey(m), m.mode) <==> IdentityOf(m) in MountMap(b) && MountMap(b)[IdentityOf(m)] == m.mode
  {
    hide MountKey, IdentityOf;
    MountMapIs(b, IdentityOf(m));
    forall x | x in b ensures MountKey(x) == MountKey(m) <==> IdentityOf(x) == IdentityOf(m) {
      KeyShape(x);
      KeyShape(m);
    }
  }

  ghost predicate Among(ms: seq<MountInput>, id: Identity) {
    exists m :: m in ms && IdentityOf(m) == id
  }

  lemma RemovalsLeave(v: Value, ms: seq<MountInput>, id: Identity)
    ensures var cmds := Map(ms, m => RemoveMount(m));
            Follow(v, cmds, All(cmds), MountItem(id)) == if Among(ms, id) then Missing else v
  {
    hide IdentityOf;
    var cmds := Map(ms, m => RemoveMount(m));
    FollowAgreed(v, cmds, MountItem(id), Missing);
    if m :| m in ms && IdentityOf(m) == id {
      var i :| 0 <= i < |ms| && ms[i] == m;
      assert Touches(cmds[i], MountItem(id));
    }
  }

  lemma UpdatesLeave(v: Value, ms: seq<MountInput>, id: Identity, w: Value)
    requires forall m :: m in ms && IdentityOf(m) == id ==> w == Text(m.mode)
    ensures var cmds := Map(ms, m => UpdateMount(m));
            Follow(v, cmds, All(cmds), MountItem(id)) == if Among(ms, id) then w else v
  {
    hide IdentityOf;
    var cmds := Map(ms, m => UpdateMount(m));
    FollowAgreed(v, cmds, MountItem(id), w);
    if m :| m in ms && IdentityOf(m) == id {
      var i :| 0 <= i < |ms| && ms[i] == m;
      assert Touches(cmds[i], MountItem(id));
    }
  }

  lemma AdditionsLeave(v: Value, ms: seq<MountInput>, id: Identity, w: Value)
    requires forall m :: m in ms && IdentityOf(m) == id ==> w == Text(m.mode)
    ensures var cmds := Map(ms, m => AddMount(m));
            Follow(v, cmds, All(cmds), MountItem(id)) == if Among(ms, id) then w else v
  {
    hide IdentityOf;
    var cmds := Map(ms, m => AddMount(m));
    FollowAgreed(v, cmds, MountItem(id), w);
    if m :| m in ms && IdentityOf(m) == id {
      var i :| 0 <= i < |ms| && ms[i] == m;
      assert Touches(cmds[i], MountItem(id));
    }
  }

  lemma FollowMounts(v: Value, base: Config, next: Config, id: Identity)
    ensures var d := Pair(base.mounts, next.mounts);
            var r, u, a := Map(d.removed, m => RemoveMount(m)), Map(d.updated, m => UpdateMount(m)),
                           Map(d.added, m => AddMount(m));
            var cmds := MountCommands(base, next);
            var x := MountItem(id);
            Follow(v, cmds, All(cmds), x) == Follow(Follow(Follow(v, r, All(r), x), u, All(u), x), a, All(a), x)
  {
    hide Pair;
    var d := Pair(base.mounts, next.mounts);
    var r, u, a := Map(d.removed, m => RemoveMount(m)), Map(d.updated, m => UpdateMount(m)),
                   Map(d.added, m => AddMount(m));
    FollowAppend(v, r + u, a, MountItem(id));
    FollowAppend(v, r, u, MountItem(id));
  }

  lemma MountEnds(base: Config, next: Config, id: Identity)
    requires Edit(base, next)
    ensures var cmds := MountCommands(base, next);
            Follow(ValueOf(ContainerOf(base), MountItem(id)), cmds, All(cmds), MountItem(id)) ==
            ValueOf(ContainerOf(next), MountItem(id))
  {
    var d := Pair(base.mounts, next.mounts);
    var v := ValueOf(ContainerOf(base), MountItem(id));
    var w := ValueOf(ContainerOf(next), MountItem(id));
    DiffSplitsIdentities(base, next, id);
    FollowMounts(v, base, next, id);
    RemovalsLeave(v, d.removed, id);
    var v1 := if Among(d.removed, id) then Missing else v;
    UpdatesLeave(v1, d.updated, id, w);
    AdditionsLeave(if Among(d.updated, id) then w else v1, d.added, id, w);
  }

  // The difference, by identity.
  lemma DiffSplitsIdentities(base: Config, next: Config, id: Identity)
    requires Edit(base, next)
    ensures var d := Pair(base.mounts, next.mounts);
            var x := MountItem(id);
            var v, w := ValueOf(ContainerOf(base), x), ValueOf(ContainerOf(next), x);
            && (Among(d.removed, id) <==> v != Missing && w == Missing)
            && (Among(d.updated, id) <==> v != Missing && w != Missing && v != w)
            && (Among(d.added, id) <==> v == Missing && w != Missing)
            && (forall m :: (m in d.updated || m in d.added) && IdentityOf(m) == id ==> w == Text(m.mode))
  {
    hide MountKey, IdentityOf;
    var d := Pair(base.mounts, next.mounts);
    DiffIsByKey(base.mounts, next.mounts);
    MountMapIs(base.mounts, id);
    MountMapIs(next.mounts, id);
    if m :| m in next.mounts && IdentityOf(m) == id {
      SameKeys(next.mounts, base.mounts, m);
    }
    if m :| m in base.mounts && IdentityOf(m) == id {
      SameKeys(base.mounts, next.mounts, m);
    }
    forall m | m in next.mounts && IdentityOf(m) == id
      ensures HasKey(base.mounts, MountKey(m)) <==> id in MountMap(base.mounts)
      ensures HasMode(base.mounts, MountKey(m), m.mode) <==>
              id in MountMap(base.mounts) && MountMap(base.mounts)[id] == m.mode
    {
      SameKeys(next.mounts, base.mounts, m);
    }
    forall m | m in base.mounts && IdentityOf(m) == id
      ensures HasKey(next.mounts, MountKey(m)) <==> id in MountMap(next.mounts)
    {
      SameKeys(base.mounts, next.mounts, m);
    }
  }

  lemma DetachLeaves(v: Value, entries: seq<Entry>, name: string)
    ensures var cmds := Map(entries, (e: Entry) => RemoveSecret(e.key));
            Follow(v, cmds, All(cmds), SecretItem(name)) == if Named(entries, name) then Missing else v
  {
    var cmds := Map(entries, (e: Entry) => RemoveSecret(e.key));
    FollowAgreed(v, cmds, SecretItem(name), Missing);
    if e :| e in entries && e.key == name {
      var i :| 0 <= i < |entries| && entries[i] == e;
      assert Touches(cmds[i], SecretItem(name));
    }
  }

  lemma AttachLeaves(v: Value, entries: seq<Entry>, name: string, w: Value)
    requires forall e :: e in entries && e.key == name ==> w == Text(e.value)
    ensures var cmds := Map(entries, (e: Entry) => AddSecret(e.key, e.value));
            Follow(v, cmds, All(cmds), SecretItem(name)) == if Named(entries, name) then w else v
  {
    var cmds := Map(entries, (e: Entry) => AddSecret(e.key, e.value));
    FollowAgreed(v, cmds, SecretItem(name), w);
    if e :| e in entries && e.key == name {
      var i :| 0 <= i < |entries| && entries[i] == e;
      assert Touches(cmds[i], SecretItem(name));
    }
  }

  // A name the in operator finds in every record is never seen as removed.
  predicate Kept(next: Config, name: string) {
    name in INHERITED && name !in AsMap(next.secretEnv)
  }

  lemma EntriesByName(base: Record, next: Record, name: string)
    requires IsRecord(base) && IsRecord(next)
    ensures Named(RemovedEntries(base, next), name) <==>
            name in AsMap(base) && name !in AsMap(next) && name !in INHERITED
    ensures Named(AddedEntries(base, next) + ChangedEntries(base, next), name) <==>
            name in AsMap(next) && !(name in AsMap(base) && AsMap(base)[name] == AsMap(next)[name])
    ensures Named(ChangedEntries(base, next), name) ==> name in AsMap(next)
    ensures forall e :: e in AddedEntries(base, next) + ChangedEntries(base, next) && e.key == name ==>
              name in AsMap(next) && AsMap(next)[name] == e.value
  {
    HoldsAt(base, name);
    HoldsAt(next, name);
    forall e: Entry ensures e in RemovedEntries(base, next) <==> e in base && !In(e.key, next) {
      Filtered(base, (e: Entry) => !In(e.key, next), e);
    }
    forall e: Entry
      ensures e in AddedEntries(base, next) <==> e in next && !In(e.key, base)
      ensures e in ChangedEntries(base, next) <==> e in next && In(e.key, base) && !Holds(base, e.key, e.value)
    {
      Filtered(next, (e: Entry) => !In(e.key, base), e);
      Filtered(next, (e: Entry) => In(e.key, base) && !Holds(base, e.key, e.value), e);
    }
    hide AddedEntries, ChangedEntries, RemovedEntries;
    if e :| e in next && e.key == name {
      assert e in AddedEntries(base, next) + ChangedEntries(base, next) <==>
             !(name in AsMap(base) && AsMap(base)[name] == e.value);
    }
    if e :| e in base && e.key == name {
      assert e in RemovedEntries(base, next) <==> !In(name, next);
    }
  }

  lemma SecretEnds(base: Config, next: Config, name: string)
    requires IsConfig(base) && IsConfig(next)
    ensures var cmds := SecretCommands(base, next);
            Follow(ValueOf(ContainerOf(base), SecretItem(name)), cmds, All(cmds), SecretItem(name)) ==
            ValueOf(ContainerOf(if Kept(next, name) then base else next), SecretItem(name))
  {
    var added := AddedEntries(base.secretEnv, next.secretEnv);
    var changed := ChangedEntries(base.secretEnv, next.secretEnv);
    var removed := RemovedEntries(base.secretEnv, next.secretEnv);
    var v := ValueOf(ContainerOf(base), SecretItem(name));
    var w := ValueOf(ContainerOf(next), SecretItem(name));
    EntriesByName(base.secretEnv, next.secretEnv, name);
    FollowAppend(v, Map(removed + changed, (e: Entry) => RemoveSecret(e.key)),
                 Map(added + changed, (e: Entry) => AddSecret(e.key, e.value)), SecretItem(name));
    DetachLeaves(v, removed + changed, name);
    AttachLeaves(if Named(removed + changed, name) then Missing else v, added + changed, name, w);
    assert Named(removed + changed, name) <==> Named(removed, name) || Named(changed, name);
  }

  lemma UnpublishLeaves(v: Value, ports: seq<PortConfig>, id: PortId)
    ensures var cmds := Map(ports, (p: PortConfig) => Unpublish(IdOfPort(p)));
            Follow(v, cmds, All(cmds), PortItem(id)) == if id in PortIds(ports) then Missing else v
  {
    var cmds := Map(ports, (p: PortConfig) => Unpublish(IdOfPort(p)));
    FollowAgreed(v, cmds, PortItem(id), Missing);
    if p :| p in ports && IdOfPort(p) == id {
      var i :| 0 <= i < |ports| && ports[i] == p;
      assert Touches(cmds[i], PortItem(id));
    }
  }

  lemma PublishLeaves(v: Value, ports: seq<PortConfig>, id: PortId)
    ensures var cmds := Map(ports, (p: PortConfig) => Publish(IdOfPort(p), p.suggestedHostPort));
            Follow(v, cmds, All(cmds), PortItem(id)) == if id in PortIds(ports) then Present else v
  {
    var cmds := Map(ports, (p: PortConfig) => Publish(IdOfPort(p), p.suggestedHostPort));
    FollowAgreed(v, cmds, PortItem(id), Present);
    if p :| p in ports && IdOfPort(p) == id {
      var i :| 0 <= i < |ports| && ports[i] == p;
      assert Touches(cmds[i], PortItem(id));
    }
  }

  lemma PortsById(base: seq<PortConfig>, next: seq<PortConfig>, id: PortId)
    ensures id in PortIds(RemovedPorts(base, next)) <==> id in PortIds(base) && id !in PortIds(next)
    ensures id in PortIds(AddedPorts(base, next)) <==> id !in PortIds(base) && id in PortIds(next)
  {
    forall p: PortConfig
      ensures p in RemovedPorts(base, next) <==> p in base && IdOfPort(p) !in PortIds(next)
      ensures p in AddedPorts(base, next) <==> p in next && IdOfPort(p) !in PortIds(base)
    {
      Filtered(base, (p: PortConfig) => IdOfPort(p) !in PortIds(next), p);
      Filtered(next, (p: PortConfig) => IdOfPort(p) !in PortIds(base), p);
    }
  }

  lemma PortEnds(base: Config, next: Config, id: PortId)
    ensures var cmds := PortCommands(base, next);
            Follow(ValueOf(ContainerOf(base), PortItem(id)), cmds, All(cmds), PortItem(id)) ==
            ValueOf(ContainerOf(next), PortItem(id))
  {
    hide AddedPorts, RemovedPorts;
    var gone, added := RemovedPorts(base.ports, next.ports), AddedPorts(base.ports, next.ports);
    var v := ValueOf(ContainerOf(base), PortItem(id));
    FollowAppend(v, Map(gone, (p: PortConfig) => Unpublish(IdOfPort(p))),
                 Map(added, (p: PortConfig) => Publish(IdOfPort(p), p.suggestedHostPort)), PortItem(id));
    UnpublishLeaves(v, gone, id);
    PublishLeaves(if id in PortIds(gone) then Missing else v, added, id);
    PortsById(base.ports, next.ports, id);
  }

  lemma PathsEnd(base: Config, next: Config)
    ensures var cmds := PathCommands(base, next);
            Follow(Paths(base.paths), cmds, All(cmds), PathsItem) == Paths(next.paths)
  {
    FollowAgreed(Paths(base.paths), PathCommands(base, next), PathsItem, Paths(next.paths));
    if base.paths != next.paths {
      assert Touches(PathCommands(base, next)[0], PathsItem);
    }
  }

  lemma RecreateEnds(base: Config, next: Config)
    requires IsConfig(base) && IsConfig(next)
    ensures var cmds := RecreateCommands(base, next);
            Follow(Text(base.image), cmds, All(cmds), ImageItem) ==
            Text(if next.image == "" then base.image else next.image)
    ensures var cmds := RecreateCommands(base, next);
            Follow(Env(AsMap(base.env)), cmds, All(cmds), EnvItem) ==
            Env(if next.env == [] then AsMap(base.env) else AsMap(next.env))
  {
    var cmds := RecreateCommands(base, next);
    RecordsEqualIff(base.env, next.env);
    hide RecordsEqual;
    FollowAgreed(Text(base.image), cmds, ImageItem, Text(next.image));
    FollowAgreed(Env(AsMap(base.env)), cmds, EnvItem, Env(AsMap(next.env)));
    if cmds != [] {
      assert next.image != "" ==> Touches(cmds[0], ImageItem);
      assert next.env != [] ==> Touches(cmds[0], EnvItem);
    }
  }

  function Group(base: Config, next: Config, x: Item): seq<Command> {
    match x
    case MountItem(_) => MountCommands(base, next)
    case SecretItem(_) => SecretCommands(base, next)
    case PathsItem => PathCommands(base, next)
    case PortItem(_) => PortCommands(base, next)
    case _ => RecreateCommands(base, next)
  }

  // Each group of commands is about its own items.
  lemma MountGroup(base: Config, next: Config, x: Item)
    ensures !x.MountItem? ==> NoTouch(MountCommands(base, next), x)
  {
    hide Pair, IdentityOf;
  }

  lemma SecretGroup(base: Config, next: Config, x: Item)
    ensures !x.SecretItem? ==> NoTouch(SecretCommands(base, next), x)
  {
    hide AddedEntries, ChangedEntries, RemovedEntries;
  }

  lemma OtherGroups(base: Config, next: Config, x: Item)
    ensures !x.MountItem? ==> NoTouch(MountCommands(base, next), x)
    ensures !x.SecretItem? ==> NoTouch(SecretCommands(base, next), x)
    ensures !x.PathsItem? ==> NoTouch(PathCommands(base, next), x)
    ensures !x.PortItem? ==> NoTouch(PortCommands(base, next), x)
    ensures !x.ImageItem? && !x.EnvItem? ==> NoTouch(RecreateCommands(base, next), x)
  {
    MountGroup(base, next, x);
    SecretGroup(base, next, x);
    hide MountCommands, SecretCommands, AddedPorts, RemovedPorts;
  }

  lemma OwnGroup(v: Value, base: Config, next: Config, x: Item)
    ensures Follow(v, Commands(base, next), All(Commands(base, next)), x) ==
            Follow(v, Group(base, next, x), All(Group(base, next, x)), x)
  {
    FollowGroups(v, base, next, x);
    OtherGroups(base, next, x);
    hide Follow, MountCommands, SecretCommands, PathCommands, PortCommands, RecreateCommands, Commands;
    forall v, cmds | NoTouch(cmds, x) ensures Follow(v, cmds, All(cmds), x) == v {
      FollowUntouched(v, cmds, x);
    }
  }

  // What the container has after all commands were accepted: next, except that an
  // empty image or environment keeps the old one, and so does an inherited name.
  function EndOf(base: Config, next: Config, x: Item): Value {
    match x
    case SecretItem(name) => ValueOf(ContainerOf(if Kept(next, name) then base else next), x)
    case ImageItem => Text(if next.image == "" then base.image else next.image)
    case EnvItem => Env(if next.env == [] then AsMap(base.env) else AsMap(next.env))
    case _ => ValueOf(ContainerOf(next), x)
  }

  lemma ItemEnds(base: Config, next: Config, x: Item)
    requires Edit(base, next)
    ensures ValueOf(Exec(ContainerOf(base), Commands(base, next), All(Commands(base, next))), x) ==
            EndOf(base, next, x)
  {
    var v := ValueOf(ContainerOf(base), x);
    ExecFollows(ContainerOf(base), Commands(base, next), All(Commands(base, next)), x);
    OwnGroup(v, base, next, x);
    hide Follow, Exec, MountCommands, SecretCommands, PathCommands, PortCommands, RecreateCommands, Commands;
    match x
    case MountItem(id) => MountEnds(base, next, id);
    case SecretItem(name) => SecretEnds(base, next, name);
    case PortItem(id) => PortEnds(base, next, id);
    case PathsItem => PathsEnd(base, next);
    case ImageItem => RecreateEnds(base, next);
    case EnvItem => RecreateEnds(base, next);
  }

  // When the edit can be carried out by these commands at all.
  ghost predicate Reachable(base: Config, next: Config) {
    && (next.image == "" ==> base.image == "")
    && (next.env == [] ==> base.env == [])
    && (forall name :: name in AsMap(base.secretEnv) && name in INHERITED ==> name in AsMap(next.secretEnv))
  }

  lemma EnvKept(base: Config, next: Config)
    requires IsConfig(base) && IsConfig(next)
    ensures AsMap(if next.env == [] then base.env else next.env) == AsMap(next.env) <==>
            (next.env == [] ==> base.env == [])
  {
    AsMapIs(base.env);
    if base.env != [] {
      assert base.env[0].key in AsMap(base.env);
    }
  }

  // The commands turn base into next, if they are all accepted, exactly for the
  // edits that empty neither the image nor the environment and detach no variable
  // named like a member of every object.
  lemma AppliesExactly(base: Config, next: Config)
    requires Edit(base, next)
    ensures Exec(ContainerOf(base), Commands(base, next), All(Commands(base, next))) == ContainerOf(next) <==>
            Reachable(base, next)
  {
    hide Exec, Commands, MountMap, AsMap;
    var c := Exec(ContainerOf(base), Commands(base, next), All(Commands(base, next)));
    var goal := ContainerOf(next);
    EnvKept(base, next);
    forall x ensures ValueOf(c, x) == EndOf(base, next, x) {
      ItemEnds(base, next, x);
    }
    if c == goal {
      assert ValueOf(goal, ImageItem) == EndOf(base, next, ImageItem);
      assert ValueOf(goal, EnvItem) == EndOf(base, next, EnvItem);
      forall name | name in AsMap(base.secretEnv) && name in INHERITED ensures name in AsMap(next.secretEnv) {
        assert ValueOf(goal, SecretItem(name)) == EndOf(base, next, SecretItem(name));
      }
    }
    if Reachable(base, next) {
      SameItems(c, goal);
    }
  }

  // ----- Refusals -----

  lemma {:induction false} FollowWithin(v: Value, cmds: seq<Command>, accepted: seq<bool>, x: Item, allowed: set<Value>)
    requires |accepted| == |cmds| && v in allowed
    requires forall i :: 0 <= i < |cmds| && Touches(cmds[i], x) ==> Leaves(cmds[i], x) in allowed
    ensures Follow(v, cmds, accepted, x) in allowed
    decreases cmds
  {
    if cmds != [] {
      FollowWithin(if accepted[0] && Touches(cmds[0], x) then Leaves(cmds[0], x) else v,
                   cmds[1..], accepted[1..], x, allowed);
    }
  }

  // A command puts only what next holds.
  ghost predicate FromNext(next: Config, cmd: Command) {
    match cmd
    case UpdateMount(m) => m in next.mounts
    case AddMount(m) => m in next.mounts
    case AddSecret(name, secret) => Entry(name, secret) in next.secretEnv
    case SetPaths(paths) => paths == next.paths
    case Publish(id, _) => id in PortIds(next.ports)
    case Recreate(image, env) => image == next.image && env == next.env
    case _ => true
  }

  lemma MountsFromNext(base: Config, next: Config, cmd: Command)
    requires Edit(base, next) && cmd in MountCommands(base, next)
    ensures FromNext(next, cmd)
  {
    hide Pair, MountKey, IdentityOf;
    DiffIsByKey(base.mounts, next.mounts);
  }

  lemma SecretsFromNext(base: Config, next: Config, cmd: Command)
    requires cmd in SecretCommands(base, next)
    ensures FromNext(next, cmd)
  {
    var added := AddedEntries(base.secretEnv, next.secretEnv);
    var changed := ChangedEntries(base.secretEnv, next.secretEnv);
    forall e: Entry | e in added + changed ensures e in next.secretEnv {
      Filtered(next.secretEnv, (e: Entry) => !In(e.key, base.secretEnv), e);
      Filtered(next.secretEnv,
               (e: Entry) => In(e.key, base.secretEnv) && !Holds(base.secretEnv, e.key, e.value), e);
    }
    hide AddedEntries, ChangedEntries, RemovedEntries;
    if cmd.AddSecret? {
      var a := Map(added + changed, (e: Entry) => AddSecret(e.key, e.value));
      var i :| 0 <= i < |a| && a[i] == cmd;
      assert (added + changed)[i] in next.secretEnv;
      assert (added + changed)[i] == Entry(cmd.name, cmd.secret);
    }
  }

  lemma PortsFromNext(base: Config, next: Config, cmd: Command)
    requires cmd in PortCommands(base, next)
    ensures FromNext(next, cmd)
  {
    forall p: PortConfig | p in AddedPorts(base.ports, next.ports) ensures p in next.ports {
      Filtered(next.ports, (p: PortConfig) => IdOfPort(p) !in PortIds(base.ports), p);
    }
    hide AddedPorts, RemovedPorts;
  }

  lemma CommandsFromNext(base: Config, next: Config, cmd: Command)
    requires Edit(base, next) && cmd in Commands(base, next)
    ensures FromNext(next, cmd)
  {
    hide FromNext, MountCommands, SecretCommands, PortCommands;
    if cmd in MountCommands(base, next) { MountsFromNext(base, next, cmd); }
    if cmd in SecretCommands(base, next) { SecretsFromNext(base, next, cmd); }
    if cmd in PortCommands(base, next) { PortsFromNext(base, next, cmd); }
    PathsFromNext(base, next);
  }

  lemma PathsFromNext(base: Config, next: Config)
    ensures forall cmd :: cmd in PathCommands(base, next) + RecreateCommands(base, next) ==> FromNext(next, cmd)
  {
  }

  // ----- Which commands are sent, and in which order -----

  // What an edit asks for, item by item. A changed variable is detached first, and so
  // is a new one that the in operator already finds.
  ghost predicate Wanted(base: Config, next: Config, cmd: Command) {
    match cmd
    case RemoveMount(m) => m in base.mounts && !Among(next.mounts, IdentityOf(m))
    case UpdateMount(m) =>
      m in next.mounts && exists b :: b in base.mounts && IdentityOf(b) == IdentityOf(m) && b.mode != m.mode
    case AddMount(m) => m in next.mounts && !Among(base.mounts, IdentityOf(m))
    case RemoveSecret(name) =>
      if Named(next.secretEnv, name) then
        (Named(base.secretEnv, name) || name in INHERITED) &&
        forall e :: e in next.secretEnv && e.key == name ==> e !in base.secretEnv
      else Named(base.secretEnv, name) && name !in INHERITED
    case AddSecret(name, secret) => Entry(name, secret) in next.secretEnv && Entry(name, secret) !in base.secretEnv
    case SetPaths(paths) => paths == next.paths && base.paths != next.paths
    case Unpublish(id) => Listed(base.ports, id) && !Listed(next.ports, id)
    case Publish(id, suggested) =>
      !Listed(base.ports, id) &&
      exists p :: p in next.ports && p.port == id.port && p.protocol == id.protocol && p.suggestedHostPort == suggested
    case Recreate(image, env) =>
      image == next.image && env == next.env && (base.image != next.image || AsMap(base.env) != AsMap(next.env))
  }

  ghost predicate Listed(ports: seq<PortConfig>, id: PortId) {
    exists p :: p in ports && p.port == id.port && p.protocol == id.protocol
  }

  // Mounts are removed, then updated, then added; variables detached, then attached;
  // then the paths; ports closed, then published; the recreate is last.
  function Stage(cmd: Command): nat {
    match cmd
    case RemoveMount(_) => 0
    case UpdateMount(_) => 1
    case AddMount(_) => 2
    case RemoveSecret(_) => 3
    case AddSecret(_, _) => 4
    case SetPaths(_) => 5
    case Unpublish(_) => 6
    case Publish(_, _) => 7
    case Recreate(_, _) => 8
  }

  lemma MapHolds<T, R>(s: seq<T>, f: T -> R, r: R)
    ensures r in Map(s, f) <==> exists x :: x in s && f(x) == r
  {
    if r in Map(s, f) {
      var i :| 0 <= i < |Map(s, f)| && Map(s, f)[i] == r;
      assert s[i] in s && f(s[i]) == r;
    }
    if x :| x in s && f(x) == r {
      var i :| 0 <= i < |s| && s[i] == x;
      assert Map(s, f)[i] == r;
    }
  }

  lemma KeyIsIdentity(ms: seq<MountInput>, others: seq<MountInput>, m: MountInput)
    requires m in others && (KeysName(ms + others) || KeysName(others + ms))
    ensures HasKey(ms, MountKey(m)) <==> Among(ms, IdentityOf(m))
    ensures (exists b :: b in ms && MountKey(b) == MountKey(m) && b.mode != m.mode) <==>
            exists b :: b in ms && IdentityOf(b) == IdentityOf(m) && b.mode != m.mode
  {
    hide MountKey, IdentityOf;
    forall b | b in ms ensures MountKey(b) == MountKey(m) <==> IdentityOf(b) == IdentityOf(m) {
      KeyShape(b);
      KeyShape(m);
    }
  }

  lemma MountIsSentIff(base: Config, next: Config, cmd: Command)
    requires Edit(base, next) && (cmd.RemoveMount? || cmd.UpdateMount? || cmd.AddMount?)
    ensures cmd in MountCommands(base, next) <==> Wanted(base, next, cmd)
  {
    hide Pair, MountKey, IdentityOf, HasKey, HasMode, Among, Map;
    var d := Pair(base.mounts, next.mounts);
    DiffIsByKey(base.mounts, next.mounts);
    MapHolds(d.removed, m => RemoveMount(m), cmd);
    MapHolds(d.updated, m => UpdateMount(m), cmd);
    MapHolds(d.added, m => AddMount(m), cmd);
    if cmd.mount in base.mounts { KeyIsIdentity(next.mounts, base.mounts, cmd.mount); }
    if cmd.mount in next.mounts {
      KeyIsIdentity(base.mounts, next.mounts, cmd.mount);
      ModeDiffers(base.mounts, cmd.mount);
    }
  }

  // With one mount a key, another mode is not the same mode.
  lemma ModeDiffers(ms: seq<MountInput>, m: MountInput)
    requires DistinctKeys(ms)
    ensures (HasKey(ms, MountKey(m)) && !HasMode(ms, MountKey(m), m.mode)) <==>
            exists b :: b in ms && MountKey(b) == MountKey(m) && b.mode != m.mode
  {
    hide MountKey;
    if b :| b in ms && MountKey(b) == MountKey(m) {
      var i :| 0 <= i < |ms| && ms[i] == b;
      OneUnderKey(ms, i, m.mode);
    }
  }

  lemma DetachIsSentIff(base: Config, next: Config, name: string)
    requires IsConfig(base) && IsConfig(next)
    ensures RemoveSecret(name) in SecretCommands(base, next) <==> Wanted(base, next, RemoveSecret(name))
  {
    var a, c, r := AddedEntries(base.secretEnv, next.secretEnv), ChangedEntries(base.secretEnv, next.secretEnv),
                   RemovedEntries(base.secretEnv, next.secretEnv);
    MapHolds(r + c, (e: Entry) => RemoveSecret(e.key), RemoveSecret(name));
    forall e: Entry
      ensures e in r + c <==>
              || (e in base.secretEnv && !Named(next.secretEnv, e.key) && e.key !in INHERITED)
              || (e in next.secretEnv && (Named(base.secretEnv, e.key) || e.key in INHERITED) && e !in base.secretEnv)
    {
      EntryDiffers(base.secretEnv, next.secretEnv, e);
    }
    hide AddedEntries, ChangedEntries, RemovedEntries, Map, INHERITED, IsConfig, PathCommands;
    OneNamed(next.secretEnv, name);
    if e :| e in next.secretEnv && e.key == name {
      assert e in r + c <==> (Named(base.secretEnv, name) || name in INHERITED) && e !in base.secretEnv;
    } else if e :| e in base.secretEnv && e.key == name {
      assert e in r + c <==> name !in INHERITED;
    }
  }

  lemma AttachIsSentIff(base: Config, next: Config, name: string, secret: string)
    requires IsConfig(base) && IsConfig(next)
    ensures AddSecret(name, secret) in SecretCommands(base, next) <==> Wanted(base, next, AddSecret(name, secret))
  {
    var a, c, e := AddedEntries(base.secretEnv, next.secretEnv), ChangedEntries(base.secretEnv, next.secretEnv), Entry(name, secret);
    MapHolds(a + c, (e: Entry) => AddSecret(e.key, e.value), AddSecret(name, secret));
    EntryDiffers(base.secretEnv, next.secretEnv, e);
    hide AddedEntries, ChangedEntries, RemovedEntries, Map, INHERITED, IsConfig;
    assert e in a + c <==> e in next.secretEnv && e !in base.secretEnv by {
      assert e in base.secretEnv ==> Named(base.secretEnv, name);
    }
    assert AddSecret(name, secret) in Map(a + c, (e: Entry) => AddSecret(e.key, e.value)) <==> e in a + c;
  }

  lemma OneNamed(r: Record, name: string)
    requires IsRecord(r)
    ensures forall e, f :: e in r && f in r && e.key == f.key == name ==> e == f
  {
    HoldsAt(r, name);
    hide IsRecord, AsMap;
  }

  lemma EntryDiffers(base: Record, next: Record, e: Entry)
    requires IsRecord(base) && IsRecord(next)
    ensures e in RemovedEntries(base, next) <==> e in base && !Named(next, e.key) && e.key !in INHERITED
    ensures e in AddedEntries(base, next) <==> e in next && !Named(base, e.key) && e.key !in INHERITED
    ensures e in ChangedEntries(base, next) <==>
            e in next && (Named(base, e.key) || e.key in INHERITED) && e !in base
  {
    HoldsAt(base, e.key);
    HoldsAt(next, e.key);
    Filtered(base, (e: Entry) => !In(e.key, next), e);
    Filtered(next, (e: Entry) => !In(e.key, base), e);
    Filtered(next, (e: Entry) => In(e.key, base) && !Holds(base, e.key, e.value), e);
    if Holds(base, e.key, e.value) {
      var f :| f in base && f.key == e.key;
      assert f == e;
    }
  }

  lemma PortIsSentIff(base: Config, next: Config, cmd: Command)
    requires cmd.Unpublish? || cmd.Publish?
    ensures cmd in PortCommands(base, next) <==> Wanted(base, next, cmd)
  {
    var gone, added := RemovedPorts(base.ports, next.ports), AddedPorts(base.ports, next.ports);
    MapHolds(gone, (p: PortConfig) => Unpublish(IdOfPort(p)), cmd);
    MapHolds(added, (p: PortConfig) => Publish(IdOfPort(p), p.suggestedHostPort), cmd);
    forall p: PortConfig
      ensures p in gone <==> p in base.ports && !Listed(next.ports, IdOfPort(p))
      ensures p in added <==> p in next.ports && !Listed(base.ports, IdOfPort(p))
    {
      Filtered(base.ports, (p: PortConfig) => IdOfPort(p) !in PortIds(next.ports), p);
      Filtered(next.ports, (p: PortConfig) => IdOfPort(p) !in PortIds(base.ports), p);
      ListedIff(base.ports, IdOfPort(p));
      ListedIff(next.ports, IdOfPort(p));
    }
    hide AddedPorts, RemovedPorts, Map;
  }

  lemma ListedIff(ports: seq<PortConfig>, id: PortId)
    ensures id in PortIds(ports) <==> Listed(ports, id)
  {
    if p :| p in ports && p.port == id.port && p.protocol == id.protocol {
      assert IdOfPort(p) == id;
    }
  }

  // A command is sent exactly when the edit asks for it: nothing is left out, nothing
  // else is sent, and a port is published with the host port suggested for it.
  lemma SentIff(base: Config, next: Config, cmd: Command)
    requires Edit(base, next)
    ensures cmd in Commands(base, next) <==> Wanted(base, next, cmd)
  {
    GroupHolds(base, next, cmd);
    hide MountCommands, SecretCommands, PortCommands;
    RecordsEqualIff(base.env, next.env);
    hide RecordsEqual, AsMap;
    match cmd
    case RemoveMount(_) => MountIsSentIff(base, next, cmd);
    case UpdateMount(_) => MountIsSentIff(base, next, cmd);
    case AddMount(_) => MountIsSentIff(base, next, cmd);
    case RemoveSecret(name) => DetachIsSentIff(base, next, name);
    case AddSecret(name, secret) => AttachIsSentIff(base, next, name, secret);
    case Unpublish(_) => PortIsSentIff(base, next, cmd);
    case Publish(_, _) => PortIsSentIff(base, next, cmd);
    case SetPaths(_) =>
    case Recreate(_, _) =>
  }

  lemma GroupHolds(base: Config, next: Config, cmd: Command)
    ensures cmd in MountCommands(base, next) ==> Stage(cmd) <= 2
    ensures cmd in SecretCommands(base, next) ==> 3 <= Stage(cmd) <= 4
    ensures cmd in PathCommands(base, next) ==> Stage(cmd) == 5
    ensures cmd in PortCommands(base, next) ==> 6 <= Stage(cmd) <= 7
    ensures cmd in RecreateCommands(base, next) ==> Stage(cmd) == 8
  {
    hide Pair, AddedEntries, ChangedEntries, RemovedEntries, AddedPorts, RemovedPorts;
  }

  ghost predicate Staged(cmds: seq<Command>) {
    forall i, j :: 0 <= i < j < |cmds| ==> Stage(cmds[i]) <= Stage(cmds[j])
  }

  lemma StagedAppend(a: seq<Command>, b: seq<Command>, at: nat)
    requires Staged(a) && Staged(b)
    requires (forall cmd :: cmd in a ==> Stage(cmd) <= at) && forall cmd :: cmd in b ==> at <= Stage(cmd)
    ensures Staged(a + b)
  {
    hide Stage;
  }

  lemma OneStage(cmds: seq<Command>, at: nat)
    requires forall i :: 0 <= i < |cmds| ==> Stage(cmds[i]) == at
    ensures Staged(cmds) && forall cmd :: cmd in cmds ==> Stage(cmd) == at
  {
    hide Stage;
  }

  lemma MountsAreStaged(base: Config, next: Config)
    ensures Staged(MountCommands(base, next))
  {
    hide Pair, Staged;
    var d := Pair(base.mounts, next.mounts);
    var m0, m1, m2 := Map(d.removed, m => RemoveMount(m)), Map(d.updated, m => UpdateMount(m)), Map(d.added, m => AddMount(m));
    OneStage(m0, 0);
    OneStage(m1, 1);
    OneStage(m2, 2);
    StagedAppend(m0, m1, 1);
    StagedAppend(m0 + m1, m2, 2);
  }

  lemma SecretsAreStaged(base: Config, next: Config)
    ensures Staged(SecretCommands(base, next))
  {
    hide AddedEntries, ChangedEntries, RemovedEntries, Staged;
    var a, c, r := AddedEntries(base.secretEnv, next.secretEnv), ChangedEntries(base.secretEnv, next.secretEnv),
                   RemovedEntries(base.secretEnv, next.secretEnv);
    var s0, s1 := Map(r + c, (e: Entry) => RemoveSecret(e.key)), Map(a + c, (e: Entry) => AddSecret(e.key, e.value));
    OneStage(s0, 3);
    OneStage(s1, 4);
    StagedAppend(s0, s1, 4);
  }

  lemma PortsAreStaged(base: Config, next: Config)
    ensures Staged(PortCommands(base, next))
  {
    hide AddedPorts, RemovedPorts, Staged;
    var p0 := Map(RemovedPorts(base.ports, next.ports), (p: PortConfig) => Unpublish(IdOfPort(p)));
    var p1 := Map(AddedPorts(base.ports, next.ports), (p: PortConfig) => Publish(IdOfPort(p), p.suggestedHostPort));
    OneStage(p0, 6);
    OneStage(p1, 7);
    StagedAppend(p0, p1, 7);
  }

  // The commands come in their stages, so a variable is never attached before it is
  // detached, and the recreate is last.
  lemma CommandsAreStaged(base: Config, next: Config)
    ensures Staged(Commands(base, next))
  {
    var m, s, d, p, r := MountCommands(base, next), SecretCommands(base, next), PathCommands(base, next),
                         PortCommands(base, next), RecreateCommands(base, next);
    MountsAreStaged(base, next);
    SecretsAreStaged(base, next);
    PortsAreStaged(base, next);
    OneStage(d, 5);
    OneStage(r, 8);
    hide MountCommands, SecretCommands, PathCommands, PortCommands, RecreateCommands, Staged, Stage;
    forall cmd: Command
      ensures cmd in m ==> Stage(cmd) <= 2
      ensures cmd in s ==> 3 <= Stage(cmd) <= 4
      ensures cmd in d ==> Stage(cmd) == 5
      ensures cmd in p ==> 6 <= Stage(cmd) <= 7
      ensures cmd in r ==> Stage(cmd) == 8
    {
      GroupHolds(base, next, cmd);
    }
    StagedAppend(m, s, 2);
    StagedAppend(m + s, d, 4);
    StagedAppend(m + s + d, p, 5);
    StagedAppend(m + s + d + p, r, 7);
  }

  lemma LeavesFromNext(next: Config, cmd: Command, x: Item)
    requires Sound(next) && FromNext(next, cmd) && Touches(cmd, x)
    ensures Leaves(cmd, x) in {Missing, ValueOf(ContainerOf(next), x)}
  {
    if x.MountItem? { MountMapIs(next.mounts, x.id); }
    if x.SecretItem? { HoldsAt(next.secretEnv, x.name); }
  }

  // At every point of every run, whatever was refused, each item holds what base or
  // next has there, or nothing: no variable ever holds a third secret.
  lemma NeverAThirdValue(base: Config, next: Config, sent: nat, accepted: seq<bool>, x: Item)
    requires Edit(base, next)
    requires |accepted| == sent <= |Commands(base, next)|
    ensures ValueOf(Exec(ContainerOf(base), Commands(base, next)[..sent], accepted), x) in
            {Missing, ValueOf(ContainerOf(base), x), ValueOf(ContainerOf(next), x)}
  {
    hide Exec, Follow, Commands, ValueOf, Touches, Leaves, ContainerOf, FromNext;
    var c := ContainerOf(base);
    var cmds := Commands(base, next)[..sent];
    ExecFollows(c, cmds, accepted, x);
    forall i | 0 <= i < |cmds| && Touches(cmds[i], x)
      ensures Leaves(cmds[i], x) in {Missing, ValueOf(ContainerOf(next), x)}
    {
      CommandsFromNext(base, next, cmds[i]);
      LeavesFromNext(next, cmds[i], x);
    }
    FollowWithin(ValueOf(c, x), cmds, accepted, x, {Missing, ValueOf(c, x), ValueOf(ContainerOf(next), x)});
  }

  lemma {:induction false} FollowSame(v: Value, cmds: seq<Command>, a: seq<bool>, b: seq<bool>, x: Item)
    requires |a| == |cmds| == |b|
    requires forall i :: 0 <= i < |cmds| && Touches(cmds[i], x) ==> a[i] == b[i]
    ensures Follow(v, cmds, a, x) == Follow(v, cmds, b, x)
    decreases cmds
  {
    if cmds != [] {
      FollowSame(if a[0] && Touches(cmds[0], x) then Leaves(cmds[0], x) else v, cmds[1..], a[1..], b[1..], x);
    }
  }

  // One refused change does not strand the rest: an item whose own commands were
  // accepted ends as if all had been.
  lemma RefusalsStayLocal(base: Config, next: Config, accepted: seq<bool>, x: Item)
    requires Edit(base, next)
    requires |accepted| == |Commands(base, next)|
    requires forall i :: 0 <= i < |accepted| && Touches(Commands(base, next)[i], x) ==> accepted[i]
    ensures ValueOf(Exec(ContainerOf(base), Commands(base, next), accepted), x) == EndOf(base, next, x)
  {
    var c := ContainerOf(base);
    var cmds := Commands(base, next);
    ExecFollows(c, cmds, accepted, x);
    ExecFollows(c, cmds, All(cmds), x);
    FollowSame(ValueOf(c, x), cmds, accepted, All(cmds), x);
    ItemEnds(base, next, x);
  }

  // ----- When nothing is sent -----

  lemma {:induction false} EqualMountsPair(base: seq<MountInput>, next: seq<MountInput>)
    requires MountsEqual(base, next)
    ensures Pair(base, next) == MountDiff([], [], [])
  {
    hide MountKey;
    if next != [] {
      EqualMountsPair(base[1..], next[1..]);
      assert Without(base, 0) == base[1..];
    }
  }

  // The same secret variables, but for those a detach would not see.
  ghost predicate SameSecrets(base: Record, next: Record) {
    forall name: string :: SameSecret(base, next, name)
  }

  predicate SameSecret(base: Record, next: Record, name: string) {
    || (name in INHERITED && name !in AsMap(next))
    || (name in AsMap(base) && name in AsMap(next) && AsMap(base)[name] == AsMap(next)[name])
    || (name !in AsMap(base) && name !in AsMap(next))
  }

  lemma NoSecretsDiffer(base: Record, next: Record)
    requires IsRecord(base) && IsRecord(next) && SameSecrets(base, next)
    ensures AddedEntries(base, next) == [] == ChangedEntries(base, next) && RemovedEntries(base, next) == []
  {
    hide AddedEntries, ChangedEntries, RemovedEntries, AsMap;
    var a, c, r := AddedEntries(base, next), ChangedEntries(base, next), RemovedEntries(base, next);
    if a != [] {
      assert a[0] in a + c && SameSecret(base, next, a[0].key);
      EntriesByName(base, next, a[0].key);
    }
    if c != [] {
      assert c[0] in a + c && SameSecret(base, next, c[0].key);
      EntriesByName(base, next, c[0].key);
    }
    if r != [] {
      assert r[0] in r && SameSecret(base, next, r[0].key);
      EntriesByName(base, next, r[0].key);
    }
  }

  lemma NoPortsDiffer(base: seq<PortConfig>, next: seq<PortConfig>)
    requires PortIds(base) == PortIds(next)
    ensures RemovedPorts(base, next) == [] == AddedPorts(base, next)
  {
    hide AddedPorts, RemovedPorts;
    var r, a := RemovedPorts(base, next), AddedPorts(base, next);
    if r != [] { assert r[0] in r; PortsById(base, next, IdOfPort(r[0])); }
    if a != [] { assert a[0] in a; PortsById(base, next, IdOfPort(a[0])); }
  }

  // Equal configurations send no command.
  lemma EqualSendsNothing(base: Config, next: Config)
    requires IsConfig(base) && IsConfig(next) && ConfigsEqual(base, next)
    ensures Commands(base, next) == []
  {
    hide RecordsEqual, AsMap, Pair, AddedEntries, ChangedEntries, RemovedEntries, AddedPorts, RemovedPorts;
    EqualMountsPair(base.mounts, next.mounts);
    RecordsEqualIff(base.secretEnv, next.secretEnv);
    NoSecretsDiffer(base.secretEnv, next.secretEnv);
    assert PortIds(base.ports) == PortIds(next.ports) by {
      forall i | 0 <= i < |base.ports| ensures base.ports[i] in base.ports && next.ports[i] in next.ports {}
    }
    NoPortsDiffer(base.ports, next.ports);
  }

  lemma NoMountsDiffer(base: Config, next: Config)
    requires Edit(base, next) && MountMap(base.mounts) == MountMap(next.mounts)
    ensures Pair(base.mounts, next.mounts) == MountDiff([], [], [])
  {
    hide Pair, MountKey, IdentityOf, MountMap;
    var d := Pair(base.mounts, next.mounts);
    if d.removed != [] {
      assert d.removed[0] in d.removed;
      DiffSplitsIdentities(base, next, IdentityOf(d.removed[0]));
    }
    if d.updated != [] {
      assert d.updated[0] in d.updated;
      DiffSplitsIdentities(base, next, IdentityOf(d.updated[0]));
    }
    if d.added != [] {
      assert d.added[0] in d.added;
      DiffSplitsIdentities(base, next, IdentityOf(d.added[0]));
    }
  }

  // The two stand for the same container, but for variables a detach would not see.
  ghost predicate Indistinct(base: Config, next: Config) {
    && base.image == next.image && AsMap(base.env) == AsMap(next.env)
    && MountMap(base.mounts) == MountMap(next.mounts) && base.paths == next.paths
    && SameSecrets(base.secretEnv, next.secretEnv) && PortIds(base.ports) == PortIds(next.ports)
  }

  // Nothing is sent exactly for those: reordered mounts, variables or ports send
  // nothing.
  lemma SilentExactly(base: Config, next: Config)
    requires Edit(base, next)
    ensures Commands(base, next) == [] <==> Indistinct(base, next)
  {
    RecordsEqualIff(base.env, next.env);
    if Indistinct(base, next) {
      hide RecordsEqual, AsMap, MountMap, PortIds, Pair, AddedEntries, ChangedEntries, RemovedEntries,
           AddedPorts, RemovedPorts, SameSecrets;
      NoMountsDiffer(base, next);
      NoSecretsDiffer(base.secretEnv, next.secretEnv);
      NoPortsDiffer(base.ports, next.ports);
    }
    if Commands(base, next) == [] {
      assert RecreateCommands(base, next) == [];
      SilentIsIndistinct(base, next);
    }
  }

  lemma SilentIsIndistinct(base: Config, next: Config)
    requires Edit(base, next) && Commands(base, next) == []
    requires base.image == next.image && AsMap(base.env) == AsMap(next.env)
    ensures Indistinct(base, next)
  {
    hide AsMap, MountMap, PortIds, Commands, Edit;
    var b, n := ContainerOf(base), ContainerOf(next);
    forall x ensures ValueOf(b, x) == EndOf(base, next, x) {
      ItemEnds(base, next, x);
      assert Exec(b, [], All(Commands(base, next))) == b;
    }
    hide Exec;
    forall name: string ensures SameSecret(base.secretEnv, next.secretEnv, name) {
      assert ValueOf(b, SecretItem(name)) == EndOf(base, next, SecretItem(name));
    }
    forall id: Identity
      ensures id in b.mounts <==> id in n.mounts
      ensures id in b.mounts ==> b.mounts[id] == n.mounts[id]
    {
      assert ValueOf(b, MountItem(id)) == EndOf(base, next, MountItem(id));
    }
    forall id: PortId ensures id in b.ports <==> id in n.ports {
      assert ValueOf(b, PortItem(id)) == EndOf(base, next, PortItem(id));
    }
    assert b.mounts == n.mounts && b.ports == n.ports;
    assert ValueOf(b, PathsItem) == EndOf(base, next, PathsItem);
  }

  // ----- The editor's change list -----

  datatype ConfigGroup = ImageGroup | EnvGroup | MountsGroup | PathsGroup | SecretEnvGroup | PortsGroup

  function ChangedGroups(base: Config, next: Config): seq<ConfigGroup> {
    (if base.image != next.image then [ImageGroup] else [])
    + (if !RecordsEqual(base.env, next.env) then [EnvGroup] else [])
    + (if !MountsEqual(base.mounts, next.mounts) then [MountsGroup] else [])
    + (if base.paths != next.paths then [PathsGroup] else [])
    + (if !RecordsEqual(base.secretEnv, next.secretEnv) then [SecretEnvGroup] else [])
    + (if !PortsEqual(base.ports, next.ports) then [PortsGroup] else [])
  }

  predicate Rebuilds(base: Config, next: Config) {
    exists g :: g in ChangedGroups(base, next) && g in {ImageGroup, EnvGroup, MountsGroup, SecretEnvGroup}
  }

  lemma NothingChangedIff(base: Config, next: Config)
    ensures ChangedGroups(base, next) == [] <==> ConfigsEqual(base, next)
  {
    hide RecordsEqual, MountsEqual, PortsEqual;
  }

  // A group is listed exactly when its part differs: the image, the variables or the
  // secret variables as maps, the mounts or the ports in order, the paths.
  lemma GroupIsListedIff(base: Config, next: Config, g: ConfigGroup)
    requires IsConfig(base) && IsConfig(next)
    ensures g in ChangedGroups(base, next) <==>
            match g
            case ImageGroup => base.image != next.image
            case EnvGroup => AsMap(base.env) != AsMap(next.env)
            case MountsGroup =>
              |base.mounts| != |next.mounts| ||
              exists i :: 0 <= i < |base.mounts| && (base.mounts[i].mode != next.mounts[i].mode ||
                                                     MountKey(base.mounts[i]) != MountKey(next.mounts[i]))
            case PathsGroup => base.paths != next.paths
            case SecretEnvGroup => AsMap(base.secretEnv) != AsMap(next.secretEnv)
            case PortsGroup =>
              |base.ports| != |next.ports| ||
              exists i :: 0 <= i < |base.ports| && (base.ports[i].port != next.ports[i].port ||
                                                    base.ports[i].protocol != next.ports[i].protocol)
  {
    RecordsEqualIff(base.env, next.env);
    RecordsEqualIff(base.secretEnv, next.secretEnv);
    hide AsMap, RecordsEqual, MountKey, IsConfig;
  }

  lemma ChangedIff(base: Config, next: Config)
    ensures Rebuilds(base, next) <==>
            || base.image != next.image || !RecordsEqual(base.env, next.env)
            || !MountsEqual(base.mounts, next.mounts) || !RecordsEqual(base.secretEnv, next.secretEnv)
  {
    hide RecordsEqual, MountsEqual, PortsEqual;
    var groups := ChangedGroups(base, next);
    assert ImageGroup in groups <==> base.image != next.image;
    assert EnvGroup in groups <==> !RecordsEqual(base.env, next.env);
    assert MountsGroup in groups <==> !MountsEqual(base.mounts, next.mounts);
    assert SecretEnvGroup in groups <==> !RecordsEqual(base.secretEnv, next.secretEnv);
  }

  predicate RunsInPlace(cmd: Command) {
    cmd.SetPaths? || cmd.Unpublish? || cmd.Publish?
  }

  // The editor announces a rebuild whenever a command that rebuilds is sent: an
  // apply without the announcement only sets paths and ports.
  lemma UnannouncedRunsInPlace(base: Config, next: Config, cmd: Command)
    requires IsConfig(base) && IsConfig(next)
    requires !Rebuilds(base, next) && cmd in Commands(base, next)
    ensures RunsInPlace(cmd)
  {
    ChangedIff(base, next);
    hide RecordsEqual, AsMap, Pair, AddedEntries, ChangedEntries, RemovedEntries, AddedPorts, RemovedPorts,
         MountsEqual, PortsEqual, Rebuilds;
    EqualMountsPair(base.mounts, next.mounts);
    RecordsEqualIff(base.secretEnv, next.secretEnv);
    NoSecretsDiffer(base.secretEnv, next.secretEnv);
  }

  // ----- Sending them -----

  // Whether the host accepts the n-th request.
  type Answers = nat -> bool

  predicate AllAccepted(answers: Answers, count: nat) {
    forall n: nat :: n < count ==> answers(n)
  }

  lemma NoneAsked(answers: Answers)
    ensures AllAccepted(answers, 0)
  {
  }

  // run: one awaited request; a refusal is remembered and does not stop the rest.
  method Run(cmd: Command, answers: Answers, sent: seq<Command>, applied: bool)
    returns (sent': seq<Command>, applied': bool)
    requires applied <==> AllAccepted(answers, |sent|)
    ensures sent' == sent + [cmd]
    ensures applied' <==> AllAccepted(answers, |sent'|)
  {
    sent' := sent + [cmd];
    applied' := applied && answers(|sent|);
  }

  method SendAll<T>(items: seq<T>, command: T -> Command, answers: Answers, sent: seq<Command>, applied: bool)
    returns (sent': seq<Command>, applied': bool)
    requires applied <==> AllAccepted(answers, |sent|)
    ensures sent' == sent + Map(items, command)
    ensures applied' <==> AllAccepted(answers, |sent'|)
  {
    sent', applied' := sent, applied;
    for n := 0 to |items|
      invariant sent' == sent + Map(items[..n], command)
      invariant applied' <==> AllAccepted(answers, |sent'|)
    {
      MapNext(items, n, command);
      sent', applied' := Run(command(items[n]), answers, sent', applied');
    }
    assert items[..|items|] == items;
  }

  // applyConfig: every command of the five groups is sent, in order, whatever the
  // earlier answers were, and the result says whether all were accepted.
  method ApplyChanges(base: Config, next: Config, answers: Answers) returns (sent: seq<Command>, applied: bool)
    ensures sent == Commands(base, next)
    ensures applied <==> AllAccepted(answers, |sent|)
  {
    hide Map, AllAccepted, Pair, AddedEntries, ChangedEntries, RemovedEntries, AddedPorts, RemovedPorts,
         RecordsEqual, PortIds;
    assert AllAccepted(answers, 0) by { NoneAsked(answers); }
    sent, applied := [], true;
    var diff := DiffMounts(base.mounts, next.mounts);
    sent, applied := SendAll(diff.removed, m => RemoveMount(m), answers, sent, applied);
    sent, applied := SendAll(diff.updated, m => UpdateMount(m), answers, sent, applied);
    sent, applied := SendAll(diff.added, m => AddMount(m), answers, sent, applied);
    assert sent == MountCommands(base, next);
    var added, changed, removed := DiffEnv(base.secretEnv, next.secretEnv);
    sent, applied := SendAll(removed + changed, (e: Entry) => RemoveSecret(e.key), answers, sent, applied);
    sent, applied := SendAll(added + changed, (e: Entry) => AddSecret(e.key, e.value), answers, sent, applied);
    assert sent == MountCommands(base, next) + SecretCommands(base, next);
    if base.paths != next.paths {
      sent, applied := Run(SetPaths(next.paths), answers, sent, applied);
    }
    sent, applied := SendAll(RemovedPorts(base.ports, next.ports),
                             (p: PortConfig) => Unpublish(IdOfPort(p)), answers, sent, applied);
    sent, applied := SendAll(AddedPorts(base.ports, next.ports),
                             (p: PortConfig) => Publish(IdOfPort(p), p.suggestedHostPort), answers, sent, applied);
    if NeedsRecreate(base, next) {
      sent, applied := Run(Recreate(next.image, next.env), answers, sent, applied);
    }
  }

  // A dispatch answers false also when its command went through and only the
  // snapshot after it failed, so the result errs one way: applied means that every
  // command took effect, and the container then is the edited one.
  lemma AppliedMeansDone(base: Config, next: Config, answers: Answers, accepted: seq<bool>)
    requires Edit(base, next) && Reachable(base, next)
    requires |accepted| == |Commands(base, next)|
    requires forall n :: 0 <= n < |accepted| && answers(n) ==> accepted[n]
    requires AllAccepted(answers, |Commands(base, next)|)
    ensures Exec(ContainerOf(base), Commands(base, next), accepted) == ContainerOf(next)
  {
    AppliesExactly(base, next);
    hide Exec, Commands;
    assert accepted == All(Commands(base, next));
  }

  // ----- Edits that do not take -----

  const PLAIN := Config("alpine", [], [], [], [], [])

  lemma PlainEdits(base: Config, next: Config)
    requires IsConfig(base) && IsConfig(next) && base.mounts == [] == next.mounts
    ensures Edit(base, next)
  {
  }

  // Removing the last variable recreates the container, which keeps the variable.
  lemma EmptiedEnvStays()
    ensures var base, next := PLAIN.(env := [Entry("A", "1")]), PLAIN;
            && Edit(base, next) && Commands(base, next) == [Recreate("alpine", [])]
            && Exec(ContainerOf(base), Commands(base, next), All(Commands(base, next))) == ContainerOf(base)
            && ContainerOf(base) != ContainerOf(next)
  {
    var base, next := PLAIN.(env := [Entry("A", "1")]), PLAIN;
    PlainEdits(base, next);
    RecordsEqualIff(base.env, next.env);
    AsMapIs(base.env);
    assert base.env[0].key in AsMap(base.env);
    NoSecretsDiffer(base.secretEnv, next.secretEnv);
    hide RecordsEqual, AddedEntries, ChangedEntries, RemovedEntries;
    var cmds := Commands(base, next);
    assert cmds == [Recreate("alpine", [])];
    assert Exec(Apply(ContainerOf(base), cmds[0]), cmds[1..], All(cmds)[1..]) == Apply(ContainerOf(base), cmds[0]);
  }

  // Detaching a secret from a variable named toString shows as a change and sends
  // nothing.
  lemma DetachedToStringStays()
    ensures var base, next := PLAIN.(secretEnv := [Entry("toString", "token")]), PLAIN;
            && Edit(base, next) && ChangedGroups(base, next) == [SecretEnvGroup]
            && Commands(base, next) == [] && ContainerOf(base) != ContainerOf(next)
  {
    var base, next := PLAIN.(secretEnv := [Entry("toString", "token")]), PLAIN;
    PlainEdits(base, next);
    RecordsEqualIff(base.secretEnv, next.secretEnv);
    RecordsEqualIff(base.env, next.env);
    AsMapIs(base.secretEnv);
    assert base.secretEnv[0].key in AsMap(base.secretEnv);
    forall name: string ensures SameSecret(base.secretEnv, next.secretEnv, name) {
    }
    assert Indistinct(base, next);
    hide RecordsEqual, Indistinct, Commands;
    SilentExactly(base, next);
  }

  // A command that went through and whose snapshot did not: the apply reports failure
  // and the container is the edited one.
  lemma AppliedAnswersFalse()
    ensures var base, next := PLAIN, PLAIN.(paths := ["/opt/bin"]);
            var accepted, answers: Answers := [true], n => false;
            && Edit(base, next) && Commands(base, next) == [SetPaths(["/opt/bin"])]
            && Exec(ContainerOf(base), Commands(base, next), accepted) == ContainerOf(next)
            && !AllAccepted(answers, |Commands(base, next)|)
  {
    var base, next := PLAIN, PLAIN.(paths := ["/opt/bin"]);
    var answers: Answers := n => false;
    PlainEdits(base, next);
    RecordsEqualIff(base.env, next.env);
    NoSecretsDiffer(base.secretEnv, next.secretEnv);
    hide RecordsEqual, AddedEntries, ChangedEntries, RemovedEntries;
    var cmds := Commands(base, next);
    assert cmds == [SetPaths(["/opt/bin"])];
    assert Exec(Apply(ContainerOf(base), cmds[0]), cmds[1..], [true][1..]) == Apply(ContainerOf(base), cmds[0]);
    assert !answers(0);
  }
}
