// The binding caches of src/workspace-binding.ts: promises shared by overlapping
// calls, replaced by refreshes and dropped after mutations.
module BindingCache {
  import opened Options
  import opened Sequences
  import CommandKeys

  // ----- Keys -----

  const PTC_CONTAINER := "ptc"
  const PTC_BINDING_KEY := "ptc:shared"

  // A workspace's slug, as far as it matters: it holds no colon and is not the first part
  // of the shared key.
  predicate IsSlug(slug: string) {
    slug != "" && slug != "ptc" && Free(slug, ':')
  }

  // Slugs are UUIDs in lower case (src/workspace-binding.ts:577-587).
  lemma UuidIsSlug(slug: string)
    requires |slug| == 36
    requires forall i :: 0 <= i < 36 ==> slug[i] == '-' || '0' <= slug[i] <= '9' || 'a' <= slug[i] <= 'f'
    ensures IsSlug(slug)
  {
  }

  // A named container's key.
  function ContainerKey(slug: string, container: string): string {
    slug + ":" + container
  }

  lemma KeyOfSlug(slug: string, other: string, container: string)
    requires Free(slug, ':') && Free(other, ':')
    ensures StartsWith(ContainerKey(other, container), slug + ":") <==> other == slug
  {
    var key := ContainerKey(other, container);
    if StartsWith(key, slug + ":") {
      var rest := key[|slug| + 1..];
      assert key == key[..|slug| + 1] + rest;
      assert key == slug + ":" + rest;
      CommandKeys.FirstPart(slug, rest, other, container);
    }
    if other == slug {
      assert key[..|slug| + 1] == slug + ":";
    }
  }

  // ----- Mutations -----

  datatype Scope = OneContainer | WholeWorkspace

  const CONTAINER_METHODS: set<string> := {
    "startContainer", "recreateContainer", "removeContainer", "addContainerMount",
    "removeContainerMount", "updateContainerMount", "addContainerSecret", "removeContainerSecret"}

  function MutationScope(name: string): Option<Scope> {
    if name in CONTAINER_METHODS then Some(OneContainer)
    else if name == "removeWorkspace" then Some(WholeWorkspace)
    else None
  }

  // A control call: the method and the two fields of its request that matter; a
  // missing field reads as "".
  datatype Call = Call(name: string, slug: string, container: string)

  // Whether a successful call drops the binding cached under key.
  predicate Drops(c: Call, key: string) {
    match MutationScope(c.name)
    case None => false
    case Some(scope) =>
      if c.slug == "" then c.name == "removeContainer" && c.container == PTC_CONTAINER && key == PTC_BINDING_KEY
      else if scope == WholeWorkspace then StartsWith(key, c.slug + ":")
      else c.container != "" && key == ContainerKey(c.slug, c.container)
  }

  // The containers bindings are cached for: those of workspaces, by name, and the one
  // shared by all.
  datatype Container = Named(slug: string, name: string) | Shared

  predicate IsContainer(c: Container) {
    c.Named? ==> IsSlug(c.slug) && c.name != ""
  }

  function KeyFor(c: Container): string {
    match c
    case Named(slug, name) => ContainerKey(slug, name)
    case Shared => PTC_BINDING_KEY
  }

  // The calls that change the mounts or secrets of the container they name, restart it,
  // make it again or remove it.
  predicate ChangesOne(name: string) {
    || name == "startContainer" || name == "recreateContainer" || name == "removeContainer"
    || name == "addContainerMount" || name == "removeContainerMount" || name == "updateContainerMount"
    || name == "addContainerSecret" || name == "removeContainerSecret"
  }

  // Whether a call changes a container: it is the one named, or belongs to the
  // workspace removed. The shared one belongs to none and is only ever removed.
  predicate Mutates(c: Call, container: Container) {
    match container
    case Named(slug, name) => c.slug == slug && (c.name == "removeWorkspace" || (ChangesOne(c.name) && c.container == name))
    case Shared => c == Call("removeContainer", "", "ptc")
  }

  // The keys a successful call makes stale, whatever its fields: that of the container
  // a change names, every key of a removed workspace, and the shared one's when that is
  // removed. Calls of any other name make none stale.
  predicate Stale(c: Call, key: string) {
    || (c.slug != "" && c.container != "" && ChangesOne(c.name) && key == c.slug + ":" + c.container)
    || (c.slug != "" && c.name == "removeWorkspace" && StartsWith(key, c.slug + ":"))
    || (c == Call("removeContainer", "", "ptc") && key == "ptc:shared")
  }

  lemma DropsStale(c: Call, key: string)
    ensures Drops(c, key) <==> Stale(c, key)
  {
    hide StartsWith;
    TableIs(c.name);
    hide CONTAINER_METHODS, ChangesOne;
  }

  lemma TableIs(name: string)
    ensures name in CONTAINER_METHODS <==> ChangesOne(name)
    ensures ChangesOne("removeContainer") && !ChangesOne("removeWorkspace")
  {
  }

  // The keys a successful call drops are those of the containers it changes, and no
  // others: the shared binding outlives every workspace.
  lemma DropsWhatItMutates(c: Call, container: Container)
    requires IsContainer(container) && (c.slug == "" || IsSlug(c.slug))
    ensures Drops(c, KeyFor(container)) <==> Mutates(c, container)
  {
    assert PTC_BINDING_KEY == ContainerKey("ptc", "shared");
    var slug := if container.Named? then container.slug else "ptc";
    var name := if container.Named? then container.name else "shared";
    DropsStale(c, KeyFor(container));
    TableIs(c.name);
    hide Drops, ChangesOne;
    NamedIsNotShared(container);
    if c.slug != "" {
      KeyOfSlug(c.slug, slug, name);
      CommandKeys.FirstPart(c.slug, c.container, slug, name);
    }
  }

  lemma NamedIsNotShared(container: Container)
    requires IsContainer(container)
    ensures container.Named? ==> KeyFor(container) != PTC_BINDING_KEY
  {
    if container.Named? {
      assert PTC_BINDING_KEY == ContainerKey("ptc", "shared");
      CommandKeys.FirstPart(container.slug, container.name, "ptc", "shared");
    }
  }

  // ----- The caches and the promises in them -----

  datatype Status = Waiting | Fulfilled | Rejected

  // A named container's promise. It is issued to the orchestrator when it is made.
  datatype Binding = Binding(key: string, issued: nat, refresh: bool, status: Status)

  // A default container's promise: ensureContainer is issued only after the
  // workspace was looked up.
  datatype Default = Default(slug: string, issued: Option<nat>, status: Status)

  datatype Done = Done(call: Call, at: nat)

  datatype World = World(
    clock: nat,
    containerBindings: map<string, nat>, made: seq<Binding>,
    bindings: map<string, nat>, defaults: seq<Default>,
    history: seq<Done>)

  const START := World(0, map[], [], map[], [], [])

  datatype Event =
    | Resolve(key: string)
    | Settle(id: nat, ok: bool)
    | Refresh(id: nat)                     // by a holder of the fulfilled binding id
    | Unready(key: string)                 // the agent never answered: drop and ask again
    | Control(call: Call)                  // a control call succeeded
    | ForgetContainer(slug: string, container: string)
    | ForgetWorkspace(slug: string)
    | Dispose
    | ResolveDefault(slug: string)
    | IssueDefault(id: nat)
    | SettleDefault(id: nat, ok: bool)
    | RefreshDefault(id: nat)
    | UnreadyDefault(slug: string)

  predicate Enabled(w: World, e: Event) {
    match e
    case Settle(id, _) => id < |w.made| && w.made[id].status == Waiting
    case Refresh(id) => id < |w.made| && w.made[id].status == Fulfilled
    case IssueDefault(id) => id < |w.defaults| && w.defaults[id].status == Waiting && w.defaults[id].issued.None?
    case SettleDefault(id, ok) =>
      id < |w.defaults| && w.defaults[id].status == Waiting && (ok ==> w.defaults[id].issued.Some?)
    case RefreshDefault(id) => id < |w.defaults| && w.defaults[id].status == Fulfilled
    case _ => true
  }

  function Make(w: World, key: string, refresh: bool): World {
    w.(made := w.made + [Binding(key, w.clock, refresh, Waiting)],
       containerBindings := w.containerBindings[key := |w.made|])
  }

  function MakeDefault(w: World, slug: string): World {
    w.(defaults := w.defaults + [Default(slug, None, Waiting)],
       bindings := w.bindings[slug := |w.defaults|])
  }

  function Apply(w: World, e: Event): World
    requires Enabled(w, e)
  {
    match e
    case Resolve(key) => if key in w.containerBindings then w else Make(w, key, false)
    case Settle(id, ok) =>
      var p := w.made[id];
      var own := !ok && !p.refresh && p.key in w.containerBindings && w.containerBindings[p.key] == id;
      w.(made := w.made[id := p.(status := if ok then Fulfilled else Rejected)],
         containerBindings := if own then w.containerBindings - {p.key} else w.containerBindings)
    case Refresh(id) => Make(w, w.made[id].key, true)
    case Unready(key) => w.(containerBindings := w.containerBindings - {key})
    case Control(call) =>
      w.(containerBindings := map key | key in w.containerBindings && !Drops(call, key) :: w.containerBindings[key],
         history := w.history + [Done(call, w.clock)])
    case ForgetContainer(slug, container) =>
      w.(containerBindings := w.containerBindings - {ContainerKey(slug, container)})
    case ForgetWorkspace(slug) =>
      w.(containerBindings :=
           map key | key in w.containerBindings && !StartsWith(key, slug + ":") :: w.containerBindings[key])
    case Dispose => w.(containerBindings := map[], bindings := map[])
    case ResolveDefault(slug) => if slug in w.bindings then w else MakeDefault(w, slug)
    case IssueDefault(id) => w.(defaults := w.defaults[id := w.defaults[id].(issued := Some(w.clock))])
    case SettleDefault(id, ok) =>
      var p := w.defaults[id];
      var own := !ok && p.slug in w.bindings && w.bindings[p.slug] == id;
      w.(defaults := w.defaults[id := p.(status := if ok then Fulfilled else Rejected)],
         bindings := if own then w.bindings - {p.slug} else w.bindings)
    case RefreshDefault(id) => MakeDefault(w, w.defaults[id].slug)
    case UnreadyDefault(slug) => w.(bindings := w.bindings - {slug})
  }

  function Next(w: World, e: Event): World
    requires Enabled(w, e)
  {
    Apply(w, e).(clock := w.clock + 1)
  }

  ghost predicate Reaches(w: World, events: seq<Event>, last: World)
    decreases |events|
  {
    if events == [] then w == last
    else Enabled(w, events[0]) && Reaches(Next(w, events[0]), events[1..], last)
  }

  ghost predicate Reachable(w: World) {
    exists events: seq<Event> :: Reaches(START, events, w)
  }

  // ----- The invariant -----

  // What is cached under a key is the newest promise ever made for it.
  ghost predicate CachesNewest(w: World) {
    forall key :: key in w.containerBindings ==>
      && w.containerBindings[key] < |w.made|
      && w.made[w.containerBindings[key]].key == key
      && forall id :: w.containerBindings[key] < id < |w.made| ==> w.made[id].key != key
  }

  ghost predicate DefaultsNewest(w: World) {
    forall slug :: slug in w.bindings ==>
      && w.bindings[slug] < |w.defaults|
      && w.defaults[w.bindings[slug]].slug == slug
      && forall id :: w.bindings[slug] < id < |w.defaults| ==> w.defaults[id].slug != slug
  }

  ghost predicate RejectedIsRefresh(w: World) {
    && (forall key :: key in w.containerBindings && w.containerBindings[key] < |w.made| ==>
          var p := w.made[w.containerBindings[key]]; p.status == Rejected ==> p.refresh)
    && (forall slug :: slug in w.bindings && w.bindings[slug] < |w.defaults| ==>
          w.defaults[w.bindings[slug]].status != Rejected)
  }

  ghost predicate Past(w: World) {
    && (forall id :: 0 <= id < |w.made| ==> w.made[id].issued < w.clock)
    && (forall id :: 0 <= id < |w.defaults| && w.defaults[id].issued.Some? ==>
          w.defaults[id].issued.value < w.clock)
    && (forall i :: 0 <= i < |w.history| ==> w.history[i].at < w.clock)
  }

  // No cached binding is older than a successful call that drops its key.
  ghost predicate Fresh(w: World) {
    forall key, i :: key in w.containerBindings && 0 <= i < |w.history| ==> FreshAgainst(w, key, w.history[i])
  }

  predicate FreshAgainst(w: World, key: string, done: Done)
    requires key in w.containerBindings
  {
    var id := w.containerBindings[key];
    Drops(done.call, key) && id < |w.made| ==> done.at < w.made[id].issued
  }

  ghost predicate Inv(w: World) {
    CachesNewest(w) && DefaultsNewest(w) && RejectedIsRefresh(w) && Past(w) && Fresh(w)
  }

  lemma NextKeepsNewest(w: World, e: Event)
    requires CachesNewest(w) && Enabled(w, e)
    ensures CachesNewest(Next(w, e))
  {
    hide Drops, ContainerKey, StartsWith;
  }

  lemma NextKeepsDefaults(w: World, e: Event)
    requires DefaultsNewest(w) && Enabled(w, e)
    ensures DefaultsNewest(Next(w, e))
  {
    hide Drops, ContainerKey, StartsWith;
  }

  lemma NextKeepsPast(w: World, e: Event)
    requires Past(w) && Enabled(w, e)
    ensures Past(Next(w, e))
  {
    hide Drops, ContainerKey, StartsWith;
  }

  lemma NextKeepsRejected(w: World, e: Event)
    requires Inv(w) && Enabled(w, e)
    ensures RejectedIsRefresh(Next(w, e))
  {
    hide Drops, Fresh, ContainerKey, StartsWith;
  }

  lemma NextKeepsFresh(w: World, e: Event)
    requires Inv(w) && Enabled(w, e)
    ensures Fresh(Next(w, e))
  {
    hide Drops, RejectedIsRefresh, DefaultsNewest, ContainerKey, StartsWith;
  }

  lemma {:induction false} RunKeeps(w: World, events: seq<Event>, last: World)
    requires Inv(w) && Reaches(w, events, last)
    ensures Inv(last)
    decreases |events|
  {
    hide Inv, Next;
    if events != [] {
      NextKeeps(w, events[0]);
      RunKeeps(Next(w, events[0]), events[1..], last);
    }
  }

  lemma NextKeeps(w: World, e: Event)
    requires Inv(w) && Enabled(w, e)
    ensures Inv(Next(w, e))
  {
    NextKeepsRejected(w, e);
    NextKeepsFresh(w, e);
    NextKeepsNewest(w, e);
    NextKeepsDefaults(w, e);
    NextKeepsPast(w, e);
    hide CachesNewest, DefaultsNewest, Past, RejectedIsRefresh, Fresh;
  }

  lemma ReachableKeeps(w: World)
    requires Reachable(w)
    ensures Inv(w)
  {
    var events: seq<Event> :| Reaches(START, events, w);
    assert Inv(START);
    RunKeeps(START, events, w);
  }

  // ----- What holds in every run -----

  // The binding a resolve hands out: the cached one, or the one it makes now.
  function Served(w: World, key: string): Binding
    requires key in w.containerBindings ==> w.containerBindings[key] < |w.made|
  {
    if key in w.containerBindings then w.made[w.containerBindings[key]]
    else Binding(key, w.clock, false, Waiting)
  }

  // A container's binding is never served from before a change: whatever resolves,
  // refreshes, failures and calls overlapped, the promise a resolve hands out was
  // issued after every successful control call that changed the container, be it a
  // workspace's or the shared one.
  lemma ServedIsFresh(w: World, container: Container, i: nat)
    requires Reachable(w) && IsContainer(container)
    requires i < |w.history| && Mutates(w.history[i].call, container)
    ensures var key := KeyFor(container);
            && (key in w.containerBindings ==> w.containerBindings[key] < |w.made|)
            && w.history[i].at < Served(w, key).issued
            && Served(w, key).key == key
  {
    ReachableKeeps(w);
    var key := KeyFor(container);
    DropsWhatItMutates(w.history[i].call, container);
    hide Drops, Mutates, KeyFor;
    if key in w.containerBindings {
      assert FreshAgainst(w, key, w.history[i]);
    }
  }

  // What is cached is always the newest promise of its key.
  lemma CachedIsNewest(w: World, key: string, id: nat)
    requires Reachable(w)
    requires key in w.containerBindings && id < |w.made| && w.made[id].key == key
    ensures id <= w.containerBindings[key] < |w.made|
  {
    ReachableKeeps(w);
  }

  // A promise that settles changes the cache only by evicting itself, and only if it
  // is a failed creation.
  lemma SettleEvictsOnlyItself(w: World, id: nat, ok: bool)
    requires Inv(w) && Enabled(w, Settle(id, ok))
    ensures var after := Next(w, Settle(id, ok)).containerBindings;
            forall key :: key in w.containerBindings ==>
              (key in after <==> ok || w.made[id].refresh || w.containerBindings[key] != id) &&
              (key in after ==> after[key] == w.containerBindings[key])
    ensures Next(w, Settle(id, ok)).containerBindings.Keys <= w.containerBindings.Keys
  {
    hide Fresh, Past, RejectedIsRefresh, DefaultsNewest;
  }

  // Events after which a key may hold another promise, or none.
  predicate Renews(w: World, e: Event, key: string)
    requires Enabled(w, e)
  {
    match e
    case Settle(id, ok) => !ok && !w.made[id].refresh && w.made[id].key == key
    case Refresh(id) => w.made[id].key == key
    case Unready(k) => k == key
    case Control(call) => Drops(call, key)
    case ForgetContainer(slug, container) => ContainerKey(slug, container) == key
    case ForgetWorkspace(slug) => StartsWith(key, slug + ":")
    case Dispose => true
    case _ => false
  }

  ghost predicate Undisturbed(w: World, events: seq<Event>, key: string)
    decreases |events|
  {
    events == [] ||
    (Enabled(w, events[0]) && !Renews(w, events[0], key) && Undisturbed(Next(w, events[0]), events[1..], key))
  }

  // Calls share one promise: until the key is dropped or refreshed, every resolve of
  // it gets the promise already there and asks the orchestrator for nothing.
  lemma {:induction false} ResolvesShareOne(w: World, events: seq<Event>, last: World, key: string)
    requires Reaches(w, events, last) && Undisturbed(w, events, key) && key in w.containerBindings
    requires CachesNewest(w)
    ensures key in last.containerBindings && last.containerBindings[key] == w.containerBindings[key]
    ensures Next(last, Resolve(key)).made == last.made
    decreases |events|
  {
    if events != [] {
      NextKeepsNewest(w, events[0]);
      hide CachesNewest, ContainerKey, StartsWith, Drops;
      ResolvesShareOne(Next(w, events[0]), events[1..], last, key);
    }
  }

  // A resolve asks the orchestrator only when nothing is cached under its key, and then
  // caches the promise it hands out, as a creation; of a default container likewise, and
  // there the call goes out later.
  lemma ResolveMakes(w: World, key: string)
    requires CachesNewest(w) && DefaultsNewest(w)
    ensures var next := Next(w, Resolve(key));
            && next.made == (if key in w.containerBindings then w.made else w.made + [Binding(key, w.clock, false, Waiting)])
            && key in next.containerBindings && next.made[next.containerBindings[key]] == Served(w, key)
    ensures var next := Next(w, ResolveDefault(key));
            && next.defaults == (if key in w.bindings then w.defaults else w.defaults + [Default(key, None, Waiting)])
            && key in next.bindings && next.defaults[next.bindings[key]].slug == key
  {
    hide ContainerKey, StartsWith, Drops;
  }

  // An event that renews a key leaves no older promise behind: a refresh caches the one
  // it issues, every other drops the key, and the next resolve asks again.
  lemma RenewedIsNew(w: World, e: Event, key: string)
    requires CachesNewest(w) && Enabled(w, e) && Renews(w, e, key)
    requires e.Settle? ==> key in w.containerBindings && w.containerBindings[key] == e.id
    ensures var next := Next(w, e);
            && (key in next.containerBindings <==> e.Refresh?)
            && (e.Refresh? ==> next.containerBindings[key] == |w.made| && |next.made| == |w.made| + 1 &&
                               next.made[|w.made|] == Binding(key, w.clock, true, Waiting))
            && (!e.Refresh? ==> |next.made| == |w.made| && Served(next, key) == Binding(key, w.clock + 1, false, Waiting))
  {
    hide ContainerKey, StartsWith, Drops;
  }

  // The default container's promise likewise: it changes only when it is dropped, fails
  // or is refreshed, and then the next one is made anew.
  lemma DefaultChangesOnly(w: World, e: Event, slug: string)
    requires DefaultsNewest(w) && Enabled(w, e) && slug in w.bindings
    ensures var next := Next(w, e);
            && (e == Dispose || e == UnreadyDefault(slug) || (e.SettleDefault? && !e.ok && e.id == w.bindings[slug]) ==>
                  slug !in next.bindings && next.defaults[..|w.defaults|] ==
                  if e.SettleDefault? then w.defaults[e.id := w.defaults[e.id].(status := Rejected)] else w.defaults)
            && (e.RefreshDefault? && w.defaults[e.id].slug == slug ==>
                  slug in next.bindings && next.bindings[slug] == |w.defaults| &&
                  next.defaults == w.defaults + [Default(slug, None, Waiting)])
            && (!(e == Dispose || e == UnreadyDefault(slug) || (e.SettleDefault? && !e.ok && e.id == w.bindings[slug])
                  || (e.RefreshDefault? && w.defaults[e.id].slug == slug)) ==>
                  slug in next.bindings && next.bindings[slug] == w.bindings[slug])
  {
    hide ContainerKey, StartsWith, Drops;
  }

  // ----- Failed refreshes -----

  // A rejected promise in the cache of named containers is always a refresh: the
  // refresh stores its promise without the cleanup a creation has. The cache of
  // default containers, whose refresh goes through the creation, never holds one.
  lemma OnlyRefreshesPoison(w: World)
    requires Reachable(w)
    ensures forall key :: key in w.containerBindings ==>
              w.containerBindings[key] < |w.made| &&
              (w.made[w.containerBindings[key]].status == Rejected ==> w.made[w.containerBindings[key]].refresh)
    ensures forall slug :: slug in w.bindings ==>
              w.bindings[slug] < |w.defaults| && w.defaults[w.bindings[slug]].status != Rejected
  {
    ReachableKeeps(w);
  }

  // It does happen: create, succeed, refresh, fail. From then on a resolve hands out
  // the failure, and by ResolvesShareOne so does every later one.
  lemma RefreshPoisons(key: string)
    ensures var events := [Resolve(key), Settle(0, true), Refresh(0), Settle(1, false)];
            exists w :: Reaches(START, events, w) && key in w.containerBindings && w.containerBindings[key] == 1 &&
                        |w.made| == 2 && w.made[1].status == Rejected && Served(w, key) == w.made[1]
  {
    var w1 := Next(START, Resolve(key));
    var w2 := Next(w1, Settle(0, true));
    var w3 := Next(w2, Refresh(0));
    var w4 := Next(w3, Settle(1, false));
    ReachesSome([START, w1, w2, w3, w4], [Resolve(key), Settle(0, true), Refresh(0), Settle(1, false)]);
  }

  lemma {:induction false} ReachesSome(ws: seq<World>, events: seq<Event>)
    requires |ws| == |events| + 1
    requires forall i :: 0 <= i < |events| ==> Enabled(ws[i], events[i]) && ws[i + 1] == Next(ws[i], events[i])
    ensures Reaches(ws[0], events, ws[|events|])
    decreases |events|
  {
    hide Next, Enabled;
    if events != [] {
      ReachesSome(ws[1..], events[1..]);
    }
  }

  // ----- Forgetting a workspace -----

  // Exactly that workspace's keys go; every other one keeps its promise.
  lemma ForgetIsExact(w: World, slug: string, container: Container)
    requires IsSlug(slug) && IsContainer(container)
    ensures var key := KeyFor(container);
            var after := Next(w, ForgetWorkspace(slug)).containerBindings;
            && (key in after <==> key in w.containerBindings && !(container.Named? && container.slug == slug))
            && (key in after ==> after[key] == w.containerBindings[key])
  {
    match container
    case Named(other, name) =>
      KeyOfSlug(slug, other, name);
    case Shared =>
      assert PTC_BINDING_KEY == ContainerKey("ptc", "shared");
      KeyOfSlug(slug, "ptc", "shared");
  }

  // The shared binding outlives every workspace.
  lemma SharedBindingStays(w: World, slug: string)
    requires IsSlug(slug) && PTC_BINDING_KEY in w.containerBindings
    ensures var after := Next(w, ForgetWorkspace(slug)).containerBindings;
            PTC_BINDING_KEY in after && after[PTC_BINDING_KEY] == w.containerBindings[PTC_BINDING_KEY]
  {
    ForgetIsExact(w, slug, Shared);
  }

  // ----- Default containers -----

  // The cache of default containers takes no part in the invalidation: a binding in
  // it is older than a call that just changed the container exactly if it was cached
  // and issued when the call ended, even for a removed workspace.
  lemma DefaultsAreNotInvalidated(w: World, call: Call, slug: string)
    requires Inv(w)
    ensures var after := Next(w, Control(call));
            && after.bindings == w.bindings && after.defaults == w.defaults
            && (IssuedBefore(after, slug, w.clock) <==>
                slug in w.bindings && w.bindings[slug] < |w.defaults| && w.defaults[w.bindings[slug]].issued.Some?)
  {
    hide CachesNewest, Fresh, RejectedIsRefresh, Drops;
  }

  // It does happen: a default container is resolved and its workspace removed, and the
  // binding from before is still the one handed out.
  lemma DefaultOutlivesRemoval(slug: string)
    ensures var events := [ResolveDefault(slug), IssueDefault(0), SettleDefault(0, true),
                           Control(Call("removeWorkspace", slug, ""))];
            exists w :: Reaches(START, events, w) && slug in w.bindings && w.bindings[slug] == 0 &&
                        w.defaults == [Default(slug, Some(1), Fulfilled)] &&
                        w.history == [Done(Call("removeWorkspace", slug, ""), 3)] && Next(w, ResolveDefault(slug)).defaults == w.defaults
  {
    var e1, e2, e3 := ResolveDefault(slug), IssueDefault(0), SettleDefault(0, true);
    var e4 := Control(Call("removeWorkspace", slug, ""));
    var w1 := Next(START, e1);
    var w2 := Next(w1, e2);
    var w3 := Next(w2, e3);
    var w4 := Next(w3, e4);
    assert w1.defaults == [Default(slug, None, Waiting)] && w1.bindings == map[slug := 0];
    assert w2.defaults == [Default(slug, Some(1), Waiting)] && w2.clock == 2;
    assert w3.defaults == [Default(slug, Some(1), Fulfilled)] && w3.clock == 3;
    ReachesSome([START, w1, w2, w3, w4], [e1, e2, e3, e4]);
  }

  predicate IssuedBefore(w: World, slug: string, at: nat) {
    slug in w.bindings && w.bindings[slug] < |w.defaults| &&
    match w.defaults[w.bindings[slug]].issued case Some(time) => time < at case None => false
  }

  // ----- The resolver -----

  class WorkspaceResolver {
    var containerBindings: map<string, nat>
    var bindings: map<string, nat>
    var made: nat                    // promises made for named containers
    var madeDefaults: nat            // and for default ones
    ghost var world: World

    ghost predicate Valid()
      reads this
    {
      && containerBindings == world.containerBindings && bindings == world.bindings
      && made == |world.made| && madeDefaults == |world.defaults|
      && Inv(world)
    }

    constructor ()
      ensures Valid() && world == START
    {
      containerBindings, bindings, made, madeDefaults := map[], map[], 0, 0;
      world := START;
    }

    // resolveContainerBinding
    method ResolveContainerBinding(key: string) returns (entry: nat)
      requires Valid()
      modifies this
      ensures Valid() && world == Next(old(world), Resolve(key))
      ensures entry < |world.made| && world.made[entry].key == key
      ensures key in old(containerBindings) ==> entry == old(containerBindings)[key]
      ensures key !in old(containerBindings) ==> world.made[entry].issued == old(world).clock
    {
      NextKeeps(world, Resolve(key));
      world := Next(world, Resolve(key));
      if key in containerBindings {
        entry := containerBindings[key];
      } else {
        entry := made;
        made := made + 1;
        containerBindings := containerBindings[key := entry];
      }
    }

    // The catch of a creation; a refresh has none.
    method SettleContainerBinding(key: string, entry: nat, refresh: bool, ok: bool)
      requires Valid() && Enabled(world, Settle(entry, ok))
      requires world.made[entry].key == key && world.made[entry].refresh == refresh
      modifies this
      ensures Valid() && world == Next(old(world), Settle(entry, ok))
    {
      NextKeeps(world, Settle(entry, ok));
      world := Next(world, Settle(entry, ok));
      if !ok && !refresh && key in containerBindings && containerBindings[key] == entry {
        containerBindings := containerBindings - {key};
      }
    }

    // The refresh closure of buildContainerBinding.
    method RefreshContainerBinding(key: string, entry: nat) returns (latest: nat)
      requires Valid() && Enabled(world, Refresh(entry)) && world.made[entry].key == key
      modifies this
      ensures Valid() && world == Next(old(world), Refresh(entry))
      ensures latest == |old(world).made| && containerBindings[key] == latest
    {
      NextKeeps(world, Refresh(entry));
      world := Next(world, Refresh(entry));
      latest := made;
      made := made + 1;
      containerBindings := containerBindings[key := latest];
    }

    method Forget(slug: string, container: string)
      requires Valid()
      modifies this
      ensures Valid() && world == Next(old(world), Event.ForgetContainer(slug, container))
    {
      NextKeeps(world, Event.ForgetContainer(slug, container));
      world := Next(world, Event.ForgetContainer(slug, container));
      containerBindings := containerBindings - {ContainerKey(slug, container)};
    }

    // The loop of forgetWorkspace.
    method DropPrefix(slug: string)
      modifies this`containerBindings
      ensures containerBindings ==
              map key | key in old(containerBindings) && !StartsWith(key, slug + ":") :: old(containerBindings)[key]
    {
      hide StartsWith;
      var keys := containerBindings.Keys;
      while keys != {}
        invariant keys <= old(containerBindings).Keys
        invariant containerBindings ==
                  map key | key in old(containerBindings) && (key in keys || !StartsWith(key, slug + ":"))
                      :: old(containerBindings)[key]
        decreases |keys|
      {
        var key :| key in keys;
        if StartsWith(key, slug + ":") {
          containerBindings := containerBindings - {key};
        }
        keys := keys - {key};
      }
    }

    method ForgetAll(slug: string)
      requires Valid()
      modifies this
      ensures Valid() && world == Next(old(world), Event.ForgetWorkspace(slug))
    {
      NextKeeps(world, Event.ForgetWorkspace(slug));
      world := Next(world, Event.ForgetWorkspace(slug));
      DropPrefix(slug);
    }

    // invalidateAfter, reached only when the call succeeded.
    method InvalidateAfter(call: Call)
      requires Valid()
      modifies this
      ensures Valid() && world == Next(old(world), Control(call))
      ensures containerBindings ==
              map key | key in old(containerBindings) && !Stale(call, key) :: old(containerBindings)[key]
    {
      hide ContainerKey, Inv, CONTAINER_METHODS, Stale;
      forall key: string ensures Drops(call, key) <==> Stale(call, key) { DropsStale(call, key); }
      NextKeeps(world, Control(call));
      world := Next(world, Control(call));
      var scope := MutationScope(call.name);
      if scope == None { return; }
      if call.slug == "" {
        if call.name == "removeContainer" && call.container == PTC_CONTAINER {
          containerBindings := containerBindings - {PTC_BINDING_KEY};
        }
        return;
      }
      if scope.value == WholeWorkspace {
        DropPrefix(call.slug);
        return;
      }
      if call.container == "" { return; }
      containerBindings := containerBindings - {ContainerKey(call.slug, call.container)};
    }

    // resolveBinding
    method ResolveBinding(slug: string) returns (entry: nat)
      requires Valid()
      modifies this
      ensures Valid() && world == Next(old(world), ResolveDefault(slug))
      ensures entry < |world.defaults| && world.defaults[entry].slug == slug
      ensures slug in old(bindings) ==> entry == old(bindings)[slug]
    {
      NextKeeps(world, ResolveDefault(slug));
      world := Next(world, ResolveDefault(slug));
      if slug in bindings {
        entry := bindings[slug];
      } else {
        entry := madeDefaults;
        madeDefaults := madeDefaults + 1;
        bindings := bindings[slug := entry];
      }
    }

    method SettleBinding(slug: string, entry: nat, ok: bool)
      requires Valid() && Enabled(world, SettleDefault(entry, ok)) && world.defaults[entry].slug == slug
      modifies this
      ensures Valid() && world == Next(old(world), SettleDefault(entry, ok))
    {
      NextKeeps(world, SettleDefault(entry, ok));
      world := Next(world, SettleDefault(entry, ok));
      if !ok && slug in bindings && bindings[slug] == entry {
        bindings := bindings - {slug};
      }
    }

    // The refresh closure of create drops the entry and resolves again.
    method RefreshBinding(slug: string, entry: nat) returns (latest: nat)
      requires Valid() && Enabled(world, RefreshDefault(entry)) && world.defaults[entry].slug == slug
      modifies this
      ensures Valid() && world == Next(old(world), RefreshDefault(entry))
      ensures latest == |old(world).defaults| && bindings[slug] == latest
    {
      NextKeeps(world, RefreshDefault(entry));
      world := Next(world, RefreshDefault(entry));
      bindings := bindings - {slug};
      latest := madeDefaults;
      madeDefaults := madeDefaults + 1;
      bindings := bindings[slug := latest];
    }
  }
}
