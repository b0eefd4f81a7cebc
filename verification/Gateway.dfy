// The gateway's lease machine (internal/gateway/gateway.go). Its methods hold one
// mutex, so a run is a sequence of whole calls.
module Gateway {
  import opened Options
  import opened Sequences
  import PathSegments

  // ----- Requests -----

  datatype Protocol = Unspecified | Tcp | Udp

  datatype Key = Key(podmanName: string, socketName: string, protocol: Protocol)

  datatype Code = InvalidArgument | FailedPrecondition | Internal

  datatype BindResponse = Bound(address: string, port: nat) | Refused(code: Code)

  const LOOPBACK := "127.0.0.1"
  const MIN_HOST_PORT := 1024
  const MAX_HOST_PORT := 65535
  const MAX_UNIX_PATH := 107

  predicate LowerOrDigit(c: char) {
    'a' <= c <= 'z' || '0' <= c <= '9'
  }

  const PODMAN_PREFIX := "dsh-podman-"

  // ^dsh-podman-[a-z0-9][a-z0-9-]{0,90}$
  predicate ValidPodmanName(s: string) {
    && |PODMAN_PREFIX| < |s| <= |PODMAN_PREFIX| + 91
    && s[..|PODMAN_PREFIX|] == PODMAN_PREFIX
    && LowerOrDigit(s[|PODMAN_PREFIX|])
    && forall i :: |PODMAN_PREFIX| <= i < |s| ==> LowerOrDigit(s[i]) || s[i] == '-'
  }

  // ^[a-z][0-9]{1,5}$
  predicate ValidSocketName(s: string) {
    && 2 <= |s| <= 6 && 'a' <= s[0] <= 'z'
    && forall i :: 1 <= i < |s| ==> '0' <= s[i] <= '9'
  }

  // The socket below the root, which is a clean path that does not end in a slash.
  function Target(root: string, k: Key): string {
    root + "/" + k.podmanName + "/" + k.socketName
  }

  function Validate(root: string, k: Key, suggested: nat): Option<Code> {
    if !ValidPodmanName(k.podmanName) || !ValidSocketName(k.socketName) then Some(InvalidArgument)
    else if k.protocol != Tcp then Some(InvalidArgument)
    else if suggested != 0 && (suggested < MIN_HOST_PORT || suggested > MAX_HOST_PORT) then Some(InvalidArgument)
    else if |Target(root, k)| > MAX_UNIX_PATH then Some(InvalidArgument)
    else None
  }

  predicate Dashed(c: char) {
    'a' <= c <= 'z' || '0' <= c <= '9' || c == '-'
  }

  // What the service accepts: a name of the plugin's containers, a socket named by a
  // letter and up to five digits, TCP, no suggested port or one from 1024 to 65535, and
  // a socket path of at most 107 bytes.
  ghost predicate Acceptable(root: string, k: Key, suggested: nat) {
    && (exists name :: k.podmanName == "dsh-podman-" + name && IsName(name))
    && (exists letter: char, digits: string ::
          && k.socketName == [letter] + digits && 'a' <= letter <= 'z' && 1 <= |digits| <= 5
          && forall i :: 0 <= i < |digits| ==> '0' <= digits[i] <= '9')
    && k.protocol == Tcp && (suggested == 0 || 1024 <= suggested < 0x1_0000)
    && |root| + |k.podmanName| + |k.socketName| <= 105
  }

  predicate IsName(name: string) {
    1 <= |name| <= 91 && name[0] != '-' && forall i :: 0 <= i < |name| ==> Dashed(name[i])
  }

  lemma PodmanNameIff(s: string)
    ensures ValidPodmanName(s) <==> exists name :: s == "dsh-podman-" + name && IsName(name)
  {
    var n := |PODMAN_PREFIX|;
    if ValidPodmanName(s) {
      assert s == s[..n] + s[n..] && IsName(s[n..]);
    }
    if name :| s == "dsh-podman-" + name && IsName(name) {
      assert s[..n] == PODMAN_PREFIX && s[n..] == name;
      forall i | n <= i < |s| ensures Dashed(s[i]) {
        assert s[i] == name[i - n];
      }
    }
  }

  lemma SocketNameIff(s: string)
    ensures ValidSocketName(s) <==>
            exists letter: char, digits: string ::
              && s == [letter] + digits && 'a' <= letter <= 'z' && 1 <= |digits| <= 5
              && forall i :: 0 <= i < |digits| ==> '0' <= digits[i] <= '9'
  {
    if ValidSocketName(s) {
      assert s == [s[0]] + s[1..];
    }
  }

  // Exactly those requests pass the checks, and every other is an invalid argument.
  lemma ValidatesIff(root: string, k: Key, suggested: nat)
    ensures Validate(root, k, suggested) == if Acceptable(root, k, suggested) then None else Some(InvalidArgument)
  {
    PodmanNameIff(k.podmanName);
    SocketNameIff(k.socketName);
    hide ValidPodmanName, ValidSocketName, Dashed;
  }

  // An accepted name cannot walk out of the socket root: both are one plain segment.
  lemma TargetStaysInside(root: string, k: Key, suggested: nat)
    requires Validate(root, k, suggested) == None
    ensures PathSegments.Plain(k.podmanName) && PathSegments.Plain(k.socketName)
  {
    forall i | 0 <= i < |k.podmanName| ensures k.podmanName[i] != '/' {
      if i < |PODMAN_PREFIX| {
        assert k.podmanName[i] == k.podmanName[..|PODMAN_PREFIX|][i] == PODMAN_PREFIX[i];
      }
    }
  }

  // ----- The machine -----

  datatype Binding = Binding(address: string, port: nat, listener: nat)

  // What the operating system answers a listen with: no listener, one without a TCP
  // port, or one on a port.
  datatype Listening = NoListener | Portless | Listener(port: nat)

  // The server, and the listeners opened for it: those open with their ports, and
  // those closed so far, oldest first.
  datatype World = World(
    bindings: map<Key, Binding>, leases: int, open: map<nat, nat>, closed: seq<nat>, made: nat)

  const START := World(map[], 0, map[], [], 0)

  datatype Event =
    | BindEvent(root: string, key: Key, suggested: nat, os: Listening)
    | UnbindEvent(key: Key)
    | BeginLeaseEvent
    | EndLeaseEvent

  // The system never hands out a port in use and binds the port it is asked for; a
  // lease ends once.
  predicate Enabled(w: World, e: Event) {
    match e
    case BindEvent(_, _, suggested, Listener(port)) =>
      port > 0 && port !in w.open.Values && (suggested != 0 ==> port == suggested)
    case EndLeaseEvent => w.leases > 0
    case _ => true
  }

  predicate Opens(w: World, root: string, key: Key, suggested: nat) {
    Validate(root, key, suggested) == None && w.leases != 0 && key !in w.bindings
  }

  function Bind(w: World, root: string, key: Key, suggested: nat, os: Listening): World {
    if !Opens(w, root, key, suggested) then w
    else
      match os
      case NoListener => w
      case Portless => w.(closed := w.closed + [w.made], made := w.made + 1)
      case Listener(port) =>
        w.(bindings := w.bindings[key := Binding(LOOPBACK, port, w.made)],
           open := w.open[w.made := port], made := w.made + 1)
  }

  function Respond(w: World, root: string, key: Key, suggested: nat, os: Listening): BindResponse {
    match Validate(root, key, suggested)
    case Some(code) => Refused(code)
    case None =>
      if w.leases == 0 then Refused(FailedPrecondition)
      else if key in w.bindings then Bound(w.bindings[key].address, w.bindings[key].port)
      else
        match os
        case NoListener => Refused(FailedPrecondition)
        case Portless => Refused(Internal)
        case Listener(port) => Bound(LOOPBACK, port)
  }

  function Unbind(w: World, key: Key): World {
    if key !in w.bindings then w
    else
      var listener := w.bindings[key].listener;
      w.(bindings := w.bindings - {key}, open := w.open - {listener}, closed := w.closed + [listener])
  }

  // Unbinding some keys, in whatever order the map gives them.
  ghost predicate UnbindsAll(w: World, keys: seq<Key>, last: World)
    decreases |keys|
  {
    if keys == [] then w == last else UnbindsAll(Unbind(w, keys[0]), keys[1..], last)
  }

  ghost predicate Lists(keys: seq<Key>, bindings: map<Key, Binding>) {
    && (forall k :: k in keys <==> k in bindings)
    && forall i, j :: 0 <= i < j < |keys| ==> keys[i] != keys[j]
  }

  ghost predicate Next(w: World, e: Event, next: World) {
    && Enabled(w, e)
    && match e
       case BindEvent(root, key, suggested, os) => next == Bind(w, root, key, suggested, os)
       case UnbindEvent(key) => next == Unbind(w, key)
       case BeginLeaseEvent => next == w.(leases := w.leases + 1)
       case EndLeaseEvent =>
         var ended := w.(leases := w.leases - 1);
         if ended.leases > 0 then next == ended
         else exists keys :: Lists(keys, w.bindings) && UnbindsAll(ended, keys, next)
  }

  ghost predicate Run(worlds: seq<World>, events: seq<Event>) {
    && |worlds| == |events| + 1
    && forall i :: 0 <= i < |events| ==> Next(worlds[i], events[i], worlds[i + 1])
  }

  // ----- The invariant -----

  ghost predicate ListenersMatch(w: World) {
    && (forall k :: k in w.bindings ==>
          && w.bindings[k].listener in w.open
          && w.open[w.bindings[k].listener] == w.bindings[k].port)
    && (forall l :: l in w.open ==> exists k :: k in w.bindings && w.bindings[k].listener == l)
    && (forall j, k :: j in w.bindings && k in w.bindings && w.bindings[j].listener == w.bindings[k].listener ==> j == k)
  }

  ghost predicate ClosedOnce(w: World) {
    && (forall l :: l in w.open ==> l < w.made)
    && (forall i :: 0 <= i < |w.closed| ==> w.closed[i] < w.made && w.closed[i] !in w.open)
    && (forall i, j :: 0 <= i < j < |w.closed| ==> w.closed[i] != w.closed[j])
    && (forall l: nat :: l < w.made ==> l in w.open || l in w.closed)
  }

  ghost predicate PortsDiffer(w: World) {
    forall l, m :: l in w.open && m in w.open && w.open[l] == w.open[m] ==> l == m
  }

  ghost predicate Kept(w: World) {
    ListenersMatch(w) && ClosedOnce(w) && PortsDiffer(w)
  }

  ghost predicate Inv(w: World) {
    Kept(w) && w.leases >= 0 && (w.leases == 0 ==> w.bindings == map[])
  }

  lemma BindKeeps(w: World, root: string, key: Key, suggested: nat, os: Listening)
    requires Kept(w) && Enabled(w, BindEvent(root, key, suggested, os))
    ensures Kept(Bind(w, root, key, suggested, os))
  {
    hide Validate, LOOPBACK;
    if Opens(w, root, key, suggested) && os.Listener? {
      var next := Bind(w, root, key, suggested, os);
      assert w.made !in w.open;
      forall l | l in next.open ensures exists k :: k in next.bindings && next.bindings[k].listener == l {
        if l == w.made {
          assert next.bindings[key].listener == l;
        } else {
          var k :| k in w.bindings && w.bindings[k].listener == l;
          assert next.bindings[k].listener == l;
        }
      }
      forall l | l in w.open ensures w.open[l] != os.port {
        assert w.open[l] in w.open.Values;
      }
    }
  }

  lemma UnbindKeeps(w: World, key: Key)
    requires Kept(w)
    ensures Kept(Unbind(w, key))
    ensures Unbind(w, key).bindings == w.bindings - {key}
    ensures Unbind(w, key).leases == w.leases && Unbind(w, key).made == w.made
  {
    if key in w.bindings {
      var next := Unbind(w, key);
      forall l | l in next.open ensures exists k :: k in next.bindings && next.bindings[k].listener == l {
        var k :| k in w.bindings && w.bindings[k].listener == l;
        assert k in next.bindings;
      }
      var gone := w.bindings[key].listener;
      assert next.closed[|w.closed|] == gone;
      forall l: nat | l < w.made ensures l in next.open || l in next.closed {
        if l in w.closed {
          var i :| 0 <= i < |w.closed| && w.closed[i] == l;
          assert next.closed[i] == l;
        }
      }
    } else {
      assert w.bindings - {key} == w.bindings;
    }
  }

  lemma {:induction false} UnbindsAllKeeps(w: World, keys: seq<Key>, last: World)
    requires Kept(w) && UnbindsAll(w, keys, last)
    ensures Kept(last) && last.leases == w.leases
    ensures forall k :: k in last.bindings <==> k in w.bindings && k !in keys
    ensures forall k :: k in last.bindings ==> last.bindings[k] == w.bindings[k]
    decreases |keys|
  {
    hide Kept, Unbind;
    if keys != [] {
      UnbindKeeps(w, keys[0]);
      UnbindsAllKeeps(Unbind(w, keys[0]), keys[1..], last);
      assert keys == [keys[0]] + keys[1..];
    }
  }

  lemma NextKeeps(w: World, e: Event, next: World)
    requires Inv(w) && Next(w, e, next)
    ensures Inv(next)
  {
    match e
    case BindEvent(root, key, suggested, os) => BindKeeps(w, root, key, suggested, os);
    case UnbindEvent(key) => UnbindKeeps(w, key);
    case BeginLeaseEvent =>
    case EndLeaseEvent =>
      var ended := w.(leases := w.leases - 1);
      assert Kept(ended);
      if ended.leases == 0 {
        var keys :| Lists(keys, w.bindings) && UnbindsAll(ended, keys, next);
        UnbindsAllKeeps(ended, keys, next);
        assert next.bindings == map[];
      }
  }

  lemma {:induction false} RunKeeps(worlds: seq<World>, events: seq<Event>, n: nat)
    requires Run(worlds, events) && worlds[0] == START && n <= |events|
    ensures Inv(worlds[n])
  {
    hide Next;
    if n > 0 {
      RunKeeps(worlds, events, n - 1);
      NextKeeps(worlds[n - 1], events[n - 1], worlds[n]);
    }
  }

  // ----- Over any run -----

  lemma OpenIsPublished(w: World)
    requires ListenersMatch(w)
    ensures w.open != map[] ==> w.bindings != map[]
  {
    if l :| l in w.open {
      var k :| k in w.bindings && w.bindings[k].listener == l;
    }
  }

  // Without a lease nothing is published; the open listeners are exactly those of
  // the published sockets, on their ports; every listener ever opened is open or was
  // closed, once.
  lemma NothingLeaks(worlds: seq<World>, events: seq<Event>, n: nat)
    requires Run(worlds, events) && worlds[0] == START && n <= |events|
    ensures var w := worlds[n];
            && (w.leases == 0 ==> w.bindings == map[] && w.open == map[])
            && (forall l :: l in w.open <==> exists k :: k in w.bindings && w.bindings[k].listener == l)
            && (forall l: nat :: l < w.made ==> (l in w.open <==> l !in w.closed))
            && (forall i, j :: 0 <= i < j < |w.closed| ==> w.closed[i] != w.closed[j])
  {
    hide Next;
    RunKeeps(worlds, events, n);
    var w := worlds[n];
    OpenIsPublished(w);
    forall l: nat | l < w.made ensures l in w.open <==> l !in w.closed {
      if l in w.closed {
        var i :| 0 <= i < |w.closed| && w.closed[i] == l;
      }
    }
  }

  lemma DistinctPorts(worlds: seq<World>, events: seq<Event>, n: nat, j: Key, k: Key)
    requires Run(worlds, events) && worlds[0] == START && n <= |events|
    requires j in worlds[n].bindings && k in worlds[n].bindings && j != k
    ensures worlds[n].bindings[j].port != worlds[n].bindings[k].port
  {
    hide Next;
    RunKeeps(worlds, events, n);
  }

  // From step m on, the key is not unbound and a lease is held throughout.
  ghost predicate Undisturbed(worlds: seq<World>, events: seq<Event>, m: nat, n: nat, key: Key)
    requires Run(worlds, events) && m <= n <= |events|
  {
    forall i :: m <= i < n ==> Calm(worlds, events, i, key)
  }

  predicate Calm(worlds: seq<World>, events: seq<Event>, i: int, key: Key) {
    0 <= i < |events| && i + 1 < |worlds| && events[i] != UnbindEvent(key) && worlds[i + 1].leases > 0
  }

  lemma NextKeepsBinding(w: World, e: Event, next: World, key: Key)
    requires Next(w, e, next) && key in w.bindings && e != UnbindEvent(key) && next.leases > 0
    requires Kept(w)
    ensures key in next.bindings && next.bindings[key] == w.bindings[key]
  {
    hide Validate, ListenersMatch, PortsDiffer, ClosedOnce;
    if e.EndLeaseEvent? && w.leases - 1 <= 0 {
      var ended := w.(leases := w.leases - 1);
      var keys :| Lists(keys, w.bindings) && UnbindsAll(ended, keys, next);
      SameKept(w, ended);
      UnbindsAllKeeps(ended, keys, next);
    }
  }

  lemma SameKept(w: World, ended: World)
    requires Kept(w) && ended == w.(leases := ended.leases)
    ensures Kept(ended)
  {
  }

  lemma {:induction false} BindingStays(worlds: seq<World>, events: seq<Event>, m: nat, n: nat, key: Key)
    requires Run(worlds, events) && worlds[0] == START && m <= n <= |events|
    requires Undisturbed(worlds, events, m, n, key) && key in worlds[m].bindings
    ensures key in worlds[n].bindings && worlds[n].bindings[key] == worlds[m].bindings[key]
  {
    hide Next, Kept;
    if n > m {
      assert Calm(worlds, events, n - 1, key);
      BindingStays(worlds, events, m, n - 1, key);
      RunKeeps(worlds, events, n - 1);
      NextKeepsBinding(worlds[n - 1], events[n - 1], worlds[n], key);
    }
  }

  // A second bind of a target moves nothing: until it is unbound or the last lease
  // ends, every accepted bind of the key answers with the first address and port,
  // whatever port it suggests and whatever the system would have given.
  lemma BindIsIdempotent(worlds: seq<World>, events: seq<Event>, m: nat, n: nat, first: Event, again: Event)
    requires Run(worlds, events) && worlds[0] == START && m < n <= |events|
    requires first.BindEvent? && events[m] == first && again.BindEvent? && again.key == first.key
    requires Undisturbed(worlds, events, m, n, first.key)
    requires Respond(worlds[m], first.root, first.key, first.suggested, first.os).Bound?
    requires Validate(again.root, again.key, again.suggested) == None
    ensures Respond(worlds[n], again.root, again.key, again.suggested, again.os) ==
            Respond(worlds[m], first.root, first.key, first.suggested, first.os)
    ensures Bind(worlds[n], again.root, again.key, again.suggested, again.os) == worlds[n]
  {
    hide Validate;
    assert Next(worlds[m], events[m], worlds[m + 1]);
    assert worlds[n].leases > 0 by {
      assert Calm(worlds, events, n - 1, first.key);
    }
    hide Next;
    assert Undisturbed(worlds, events, m + 1, n, first.key);
    BindingStays(worlds, events, m + 1, n, first.key);
  }

  // A bind answers with an address exactly when the request is acceptable, a lease is
  // held and the socket is published already or a listener was opened on a port; then
  // that is what is published for the key. Otherwise nothing published changes, and the
  // code tells a bad request, a missing lease or listener, and a listener without a port.
  lemma BoundIff(w: World, root: string, key: Key, suggested: nat, os: Listening)
    ensures var response, after := Respond(w, root, key, suggested, os), Bind(w, root, key, suggested, os).bindings;
            && (response.Bound? <==>
                Acceptable(root, key, suggested) && w.leases != 0 && (key in w.bindings || os.Listener?))
            && (response.Bound? ==>
                  && key in after && response == Bound(after[key].address, after[key].port)
                  && (key !in w.bindings ==> response == Bound("127.0.0.1", os.port)))
            && (response.Refused? ==>
                  && after == w.bindings
                  && response.code == (if !Acceptable(root, key, suggested) then InvalidArgument
                                       else if w.leases != 0 && os == Portless then Internal else FailedPrecondition))
            && (forall k :: k in w.bindings ==> k in after && after[k] == w.bindings[k])
            && (forall k :: k in after && k != key ==> k in w.bindings)
  {
    ValidatesIff(root, key, suggested);
    hide Validate, Acceptable;
  }

  ghost predicate OnLoopback(w: World) {
    forall k :: k in w.bindings ==> w.bindings[k].address == "127.0.0.1"
  }

  // Whatever is asked for, sockets are published on the loopback address only.
  lemma {:induction false} OnlyLoopback(worlds: seq<World>, events: seq<Event>, n: nat)
    requires Run(worlds, events) && worlds[0] == START && n <= |events|
    ensures OnLoopback(worlds[n])
  {
    if n == 0 {
      assert OnLoopback(START);
    } else {
      hide Next, OnLoopback;
      OnlyLoopback(worlds, events, n - 1);
      RunKeeps(worlds, events, n - 1);
      StaysOnLoopback(worlds[n - 1], events[n - 1], worlds[n]);
    }
  }

  lemma StaysOnLoopback(w: World, e: Event, next: World)
    requires OnLoopback(w) && Kept(w) && Next(w, e, next)
    ensures OnLoopback(next)
  {
    hide Validate, ListenersMatch, PortsDiffer, ClosedOnce;
    if e.EndLeaseEvent? && w.leases - 1 <= 0 {
      var ended := w.(leases := w.leases - 1);
      var keys :| Lists(keys, w.bindings) && UnbindsAll(ended, keys, next);
      SameKept(w, ended);
      UnbindsAllKeeps(ended, keys, next);
    }
  }

  // An unbind takes just its key away and closes its listener.
  lemma UnbindIs(w: World, key: Key, next: World)
    requires Kept(w) && Next(w, UnbindEvent(key), next)
    ensures next.bindings == w.bindings - {key} && next.leases == w.leases
    ensures key in w.bindings ==> next.closed == w.closed + [w.bindings[key].listener]
    ensures key !in w.bindings ==> next == w
  {
    UnbindKeeps(w, key);
  }

  function Count(events: seq<Event>, e: Event): nat {
    if events == [] then 0 else Count(events[..|events| - 1], e) + if events[|events| - 1] == e then 1 else 0
  }

  // The leases held are those begun and not ended.
  lemma {:induction false} LeasesAreCounted(worlds: seq<World>, events: seq<Event>, n: nat)
    requires Run(worlds, events) && worlds[0] == START && n <= |events|
    ensures worlds[n].leases == Count(events[..n], BeginLeaseEvent) - Count(events[..n], EndLeaseEvent)
  {
    if n > 0 {
      LeasesAreCounted(worlds, events, n - 1);
      assert events[..n][..n - 1] == events[..n - 1];
      RunKeeps(worlds, events, n - 1);
      LeasesNext(worlds[n - 1], events[n - 1], worlds[n]);
    }
  }

  lemma LeasesNext(w: World, e: Event, next: World)
    requires Kept(w) && Next(w, e, next)
    ensures next.leases == w.leases + (if e == BeginLeaseEvent then 1 else 0) - if e == EndLeaseEvent then 1 else 0
  {
    hide Validate, ListenersMatch, PortsDiffer, ClosedOnce;
    if e.EndLeaseEvent? && w.leases - 1 <= 0 {
      var ended := w.(leases := w.leases - 1);
      var keys :| Lists(keys, w.bindings) && UnbindsAll(ended, keys, next);
      SameKept(w, ended);
      UnbindsAllKeeps(ended, keys, next);
    }
  }

  // A suggested port is either the one bound or refused, and always a valid one.
  lemma SuggestionIsHonoured(w: World, root: string, key: Key, suggested: nat, os: Listening)
    requires Enabled(w, BindEvent(root, key, suggested, os)) && key !in w.bindings && suggested != 0
    requires Respond(w, root, key, suggested, os).Bound?
    ensures Respond(w, root, key, suggested, os).port == suggested
    ensures MIN_HOST_PORT <= suggested <= MAX_HOST_PORT
  {
  }

  // ----- The server -----

  class Server {
    const root: string
    var bindings: map<Key, Binding>
    var leases: int
    var made: nat                    // the next listener's number
    ghost var world: World

    ghost predicate Valid()
      reads this
    {
      bindings == world.bindings && leases == world.leases && made == world.made && Inv(world)
    }

    constructor (root: string)
      ensures Valid() && world == START && this.root == root
    {
      this.root := root;
      bindings, leases, made := map[], 0, 0;
      world := START;
    }

    method BindPort(key: Key, suggested: nat, os: Listening) returns (response: BindResponse)
      requires Valid() && Enabled(world, BindEvent(root, key, suggested, os))
      modifies this
      ensures Valid() && world == Bind(old(world), root, key, suggested, os)
      ensures response == Respond(old(world), root, key, suggested, os)
    {
      hide Validate, Kept;
      var e := BindEvent(root, key, suggested, os);
      NextKeeps(world, e, Bind(world, root, key, suggested, os));
      var refusal := Validate(root, key, suggested);
      if refusal.Some? { return Refused(refusal.value); }
      if leases == 0 { return Refused(FailedPrecondition); }
      if key in bindings { return Bound(bindings[key].address, bindings[key].port); }
      if os == NoListener { return Refused(FailedPrecondition); }
      world := Bind(world, root, key, suggested, os);
      var listener := made;
      made := made + 1;
      if os == Portless { return Refused(Internal); }
      bindings := bindings[key := Binding(LOOPBACK, os.port, listener)];
      return Bound(LOOPBACK, os.port);
    }

    // unbindLocked: the listener closed is the one the map held.
    method UnbindLocked(key: Key)
      modifies this
      requires bindings == world.bindings
      ensures world == Unbind(old(world), key) && bindings == world.bindings
      ensures leases == old(leases) && made == old(made)
    {
      world := Unbind(world, key);
      if key !in bindings { return; }
      bindings := bindings - {key};
    }

    method UnbindPort(key: Key)
      requires Valid()
      modifies this
      ensures Valid() && world == Unbind(old(world), key)
    {
      hide Kept;
      NextKeeps(world, UnbindEvent(key), Unbind(world, key));
      UnbindLocked(key);
    }

    method BeginLease()
      requires Valid()
      modifies this
      ensures Valid() && world == old(world).(leases := old(leases) + 1)
    {
      hide Kept;
      NextKeeps(world, BeginLeaseEvent, world.(leases := world.leases + 1));
      leases := leases + 1;
      world := world.(leases := world.leases + 1);
    }

    // The loop over the map unbinds every key in it once.
    method EndLease()
      requires Valid() && leases > 0
      modifies this
      ensures Valid() && Next(old(world), EndLeaseEvent, world)
    {
      hide Kept, Unbind;
      leases := leases - 1;
      world := world.(leases := world.leases - 1);
      if leases > 0 {
        NextKeeps(old(world), EndLeaseEvent, world);
        return;
      }
      ghost var ended := world;
      ghost var keys: seq<Key> := [];
      assert Kept(world) by { SameKept(old(world), world); }
      var rest := bindings.Keys;
      while rest != {}
        invariant bindings == world.bindings && leases == world.leases == ended.leases && made == world.made && Kept(world)
        invariant rest == bindings.Keys && rest <= old(bindings).Keys
        invariant forall k :: k in keys <==> k in old(bindings) && k !in rest
        invariant forall i, j :: 0 <= i < j < |keys| ==> keys[i] != keys[j]
        invariant UnbindsAll(ended, keys, world)
        decreases |rest|
      {
        var key :| key in rest;
        UnbindsMore(ended, keys, world, key);
        UnbindKeeps(world, key);
        UnbindLocked(key);
        keys := keys + [key];
        rest := rest - {key};
      }
      assert Lists(keys, old(world).bindings);
      NextKeeps(old(world), EndLeaseEvent, world);
    }

    // List: every published socket, and nothing else.
    method List() returns (listed: map<Key, (string, nat)>)
      requires Valid()
      ensures listed.Keys == bindings.Keys
      ensures forall k :: k in listed ==> listed[k] == (bindings[k].address, bindings[k].port)
    {
      listed := map k | k in bindings :: (bindings[k].address, bindings[k].port);
    }
  }

  lemma {:induction false} UnbindsMore(w: World, keys: seq<Key>, last: World, key: Key)
    requires UnbindsAll(w, keys, last)
    ensures UnbindsAll(w, keys + [key], Unbind(last, key))
    decreases |keys|
  {
    hide Unbind;
    if keys == [] {
      assert [key][1..] == [];
      assert keys + [key] == [key];
    } else {
      UnbindsMore(Unbind(w, keys[0]), keys[1..], last, key);
      assert (keys + [key])[1..] == keys[1..] + [key];
    }
  }
}
