// The settings card's controller (src/client/container-card-controller.ts): commands
// and reloads that overlap, and what the card shows meanwhile.
module CardController {
  import opened Options
  import opened Ordering
  import opened Sequences
  import opened CommandKeys

  // ----- The fields -----

  // What the host route answers with; its content does not matter here.
  datatype Snapshot = Snapshot(content: string)

  const EMPTY_SNAPSHOT := Snapshot("")

  datatype ToastKind = Ok | Warn | Error

  datatype Toast = Toast(number: nat, kind: ToastKind, text: string)

  datatype Fields = Fields(
    pending: int,
    pendingKeys: map<string, int>,
    pendingActions: seq<string>,
    generation: nat,
    snapshot: Snapshot,
    notice: string,
    noticeIsError: bool,
    orchestratorReady: bool,
    orchestratorKnown: bool,
    toast: Option<Toast>,
    toastSeq: nat,
    directoryPicker: Option<string>,
    locale: string,
    scope: string)

  // What is published; scope stands for the settings the card reads beside.
  datatype CardState = CardState(
    busy: bool, pendingActions: seq<string>, toast: Option<Toast>, notice: string,
    noticeIsError: bool, snapshot: Snapshot, orchestratorReady: bool, orchestratorKnown: bool,
    locale: string, directoryPicker: Option<string>, scope: string)

  function Project(f: Fields): CardState {
    CardState(f.pending > 0, f.pendingActions, f.toast, f.notice, f.noticeIsError, f.snapshot,
              f.orchestratorReady, f.orchestratorKnown, f.locale, f.directoryPicker, f.scope)
  }

  function Initially(scope: string): Fields {
    Fields(0, map[], [], 0, EMPTY_SNAPSHOT, "", false, false, false, None, 0, None, "", scope)
  }

  // ----- What each stretch of code between two awaits does -----

  ghost function BeginAction(f: Fields, key: string): Fields {
    var count := if key in f.pendingKeys then f.pendingKeys[key] else 0;
    var keys := f.pendingKeys[key := count + 1];
    f.(pendingKeys := keys, pendingActions := Sorted(keys.Keys))
  }

  ghost function EndAction(f: Fields, key: string): Fields {
    var remaining := (if key in f.pendingKeys then f.pendingKeys[key] else 0) - 1;
    var keys := if remaining > 0 then f.pendingKeys[key := remaining] else f.pendingKeys - {key};
    f.(pendingKeys := keys, pendingActions := Sorted(keys.Keys))
  }

  function ShowToast(f: Fields, kind: ToastKind, text: string): Fields {
    if text == "" then f
    else f.(toastSeq := f.toastSeq + 1, toast := Some(Toast(f.toastSeq + 1, kind, text)))
  }

  // How the awaited requests of an operation end.
  datatype Answer = Fetched(snapshot: Snapshot, notice: string) | Failed(error: string)

  function Counted(f: Fields): Fields {
    f.(generation := f.generation + 1, pending := f.pending + 1)
  }

  ghost function BeginDispatch(f: Fields, r: Request): Fields {
    BeginAction(Counted(f), CommandKey(r))
  }

  // What a command's answer does before the operation is counted out.
  function Answered(f: Fields, generation: nat, answer: Answer): Fields {
    match answer
    case Fetched(snapshot, notice) =>
      var known := f.(orchestratorReady := true, orchestratorKnown := true);
      if generation != f.generation then known
      else ShowToast(known.(snapshot := snapshot), Ok, notice)
    case Failed(error) =>
      if generation == f.generation then ShowToast(f, Error, error) else f
  }

  function Reloaded(f: Fields, generation: nat, answer: Answer): Fields {
    match answer
    case Fetched(snapshot, _) =>
      var known := f.(orchestratorReady := true, orchestratorKnown := true);
      if generation != f.generation then known
      else known.(snapshot := snapshot, notice := "", noticeIsError := false)
    case Failed(error) =>
      if generation != f.generation then f
      else
        ShowToast(f.(orchestratorReady := false, orchestratorKnown := true, notice := error,
                     noticeIsError := true), Error, error)
  }

  ghost function EndDispatch(f: Fields, generation: nat, r: Request, answer: Answer): Fields {
    var g := Answered(f, generation, answer);
    EndAction(g.(pending := g.pending - 1), CommandKey(r))
  }

  function EndReload(f: Fields, generation: nat, answer: Answer): Fields {
    var g := Reloaded(f, generation, answer);
    g.(pending := g.pending - 1)
  }

  // ----- Runs -----

  datatype Work = Reloading | Commanding(request: Request)

  datatype Event =
    | BeginReloadEvent
    | BeginDispatchEvent(request: Request)
    | EndEvent(ticket: nat, answer: Answer)
    | PublishTemplateEvent(kind: ToastKind, text: string)   // its toast, then a reload
    | DismissToastEvent
    | SetLocaleEvent(locale: string)
    | SetDirectoryPickerEvent(picker: Option<string>)
    | ScopeEvent(scope: string)
    | EditEvent

  // The fields, what is published, the operations in flight by generation, how the
  // others ended, and the generations whose snapshot was applied.
  datatype World = World(
    f: Fields, store: CardState, inflight: map<nat, Work>, settled: map<nat, Answer>, applied: seq<nat>)

  // The constructor publishes and starts a reload.
  ghost function Start(scope: string): World {
    var f := Initially(scope);
    Next(World(f, Project(f), map[], map[], []), BeginReloadEvent)
  }

  predicate Enabled(w: World, e: Event) {
    e.EndEvent? ==> e.ticket in w.inflight
  }

  function Published(w: World, f: Fields): World {
    w.(f := f, store := Project(f))
  }

  ghost function Begun(w: World, work: Work): World {
    var f := if work.Reloading? then Counted(w.f) else BeginDispatch(w.f, work.request);
    Published(w, f).(inflight := w.inflight[f.generation := work])
  }

  ghost function Ended(w: World, ticket: nat, answer: Answer): World
    requires ticket in w.inflight
  {
    var work := w.inflight[ticket];
    var f := if work.Reloading? then EndReload(w.f, ticket, answer)
             else EndDispatch(w.f, ticket, work.request, answer);
    Published(w, f).(
      inflight := w.inflight - {ticket},
      settled := w.settled[ticket := answer],
      applied := if answer.Fetched? && ticket == w.f.generation then w.applied + [ticket] else w.applied)
  }

  ghost function Next(w: World, e: Event): World
    requires Enabled(w, e)
  {
    match e
    case BeginReloadEvent => Begun(w, Reloading)
    case BeginDispatchEvent(r) => Begun(w, Commanding(r))
    case EndEvent(ticket, answer) => Ended(w, ticket, answer)
    case PublishTemplateEvent(kind, text) => Begun(Published(w, ShowToast(w.f, kind, text)), Reloading)
    case DismissToastEvent => Published(w, w.f.(toast := None))
    case SetLocaleEvent(locale) => if w.f.locale == locale then w else Published(w, w.f.(locale := locale))
    case SetDirectoryPickerEvent(picker) => Published(w, w.f.(directoryPicker := picker))
    case ScopeEvent(scope) => Published(w, w.f.(scope := scope))
    case EditEvent => Published(w, w.f)
  }

  // Every interleaving of the pieces of any number of operations.
  ghost predicate Reaches(w: World, events: seq<Event>, last: World)
    decreases |events|
  {
    if events == [] then w == last
    else Enabled(w, events[0]) && Reaches(Next(w, events[0]), events[1..], last)
  }

  ghost predicate Reachable(w: World) {
    exists scope, events: seq<Event> :: Reaches(Start(scope), events, w)
  }

  // ----- The invariant -----

  // The commands in flight under a key.
  ghost function Under(inflight: map<nat, Work>, key: string): set<nat> {
    set t | t in inflight && inflight[t].Commanding? && CommandKey(inflight[t].request) == key
  }

  ghost predicate CountsInFlight(keys: map<string, int>, inflight: map<nat, Work>) {
    forall key: string :: CountsUnder(keys, inflight, key)
  }

  ghost predicate Rising(s: seq<nat>) {
    forall i, j :: 0 <= i < j < |s| ==> s[i] < s[j]
  }

  // Every generation handed out is in flight or has ended, never both.
  ghost predicate Tickets(w: World) {
    forall t: nat ::
      && (t in w.inflight || t in w.settled <==> 1 <= t <= w.f.generation)
      && !(t in w.inflight && t in w.settled)
  }

  ghost predicate Shows(w: World) {
    && Rising(w.applied)
    && (forall i :: 0 <= i < |w.applied| ==> w.applied[i] in w.settled && w.settled[w.applied[i]].Fetched?)
    && w.f.snapshot == (if w.applied == [] then EMPTY_SNAPSHOT else w.settled[w.applied[|w.applied| - 1]].snapshot)
    && (w.f.generation in w.settled && w.settled[w.f.generation].Fetched? ==>
          w.applied != [] && w.applied[|w.applied| - 1] == w.f.generation)
  }

  ghost predicate Inv(w: World) {
    && w.f.pending == |w.inflight|
    && CountsInFlight(w.f.pendingKeys, w.inflight)
    && w.f.pendingActions == Sorted(w.f.pendingKeys.Keys)
    && Tickets(w)
    && Shows(w)
    && ToastCounted(w.f)
    && w.store == Project(w.f)
  }

  lemma UnderAdded(inflight: map<nat, Work>, t: nat, work: Work, key: string)
    requires t !in inflight
    ensures var now := Under(inflight[t := work], key);
            now == Under(inflight, key) + if work.Commanding? && CommandKey(work.request) == key then {t} else {}
  {
  }

  lemma UnderRemoved(inflight: map<nat, Work>, t: nat, key: string)
    requires t in inflight
    ensures Under(inflight - {t}, key) == Under(inflight, key) - {t}
    ensures t in Under(inflight, key) <==> inflight[t].Commanding? && CommandKey(inflight[t].request) == key
  {
  }

  ghost predicate CountsUnder(keys: map<string, int>, inflight: map<nat, Work>, key: string) {
    && (key in keys <==> Under(inflight, key) != {})
    && (key in keys ==> keys[key] == |Under(inflight, key)|)
  }

  lemma BeginActionAt(f: Fields, key: string, other: string)
    ensures var keys := BeginAction(f, key).pendingKeys;
            && (other in keys <==> other in f.pendingKeys || other == key)
            && (other != key && other in keys ==> keys[other] == f.pendingKeys[other])
            && (other == key ==>
                  keys[other] == (if other in f.pendingKeys then f.pendingKeys[other] else 0) + 1)
  {
    hide Sorted;
  }

  lemma BeginCounts(f: Fields, inflight: map<nat, Work>, t: nat, work: Work, key: string)
    requires CountsUnder(f.pendingKeys, inflight, key) && t !in inflight
    ensures CountsUnder(
              if work.Reloading? then f.pendingKeys else BeginAction(f, CommandKey(work.request)).pendingKeys,
              inflight[t := work], key)
  {
    UnderAdded(inflight, t, work, key);
    assert t !in Under(inflight, key);
    hide CommandKey, Under, Sorted;
    var before := Under(inflight, key);
    if work.Commanding? && CommandKey(work.request) == key {
      assert |before + {t}| == |before| + 1;
      BeginActionAt(f, key, key);
    } else {
      assert before + {} == before;
      if work.Commanding? {
        BeginActionAt(f, CommandKey(work.request), key);
      }
    }
    hide BeginAction;
  }

  lemma BeginKeepsCounts(f: Fields, inflight: map<nat, Work>, t: nat, work: Work)
    requires CountsInFlight(f.pendingKeys, inflight) && t !in inflight
    ensures CountsInFlight(
              if work.Reloading? then f.pendingKeys else BeginAction(f, CommandKey(work.request)).pendingKeys,
              inflight[t := work])
  {
    hide CommandKey, BeginAction, CountsUnder;
    var keys := if work.Reloading? then f.pendingKeys else BeginAction(f, CommandKey(work.request)).pendingKeys;
    var more := inflight[t := work];
    forall key: string ensures CountsUnder(keys, more, key)
    {
      assert CountsUnder(f.pendingKeys, inflight, key);
      BeginCounts(f, inflight, t, work, key);
    }
  }

  lemma EndCounts(f: Fields, inflight: map<nat, Work>, t: nat, key: string)
    requires t in inflight && CountsUnder(f.pendingKeys, inflight, key)
    ensures CountsUnder(
              if inflight[t].Reloading? then f.pendingKeys
              else EndAction(f, CommandKey(inflight[t].request)).pendingKeys,
              inflight - {t}, key)
  {
    UnderRemoved(inflight, t, key);
    hide CommandKey, Under, Sorted;
  }

  lemma EndKeepsCounts(f: Fields, inflight: map<nat, Work>, t: nat)
    requires CountsInFlight(f.pendingKeys, inflight) && t in inflight
    ensures CountsInFlight(
              if inflight[t].Reloading? then f.pendingKeys
              else EndAction(f, CommandKey(inflight[t].request)).pendingKeys,
              inflight - {t})
  {
    hide CommandKey, EndAction, CountsUnder;
    var keys := if inflight[t].Reloading? then f.pendingKeys
                else EndAction(f, CommandKey(inflight[t].request)).pendingKeys;
    var less := inflight - {t};
    forall key: string ensures CountsUnder(keys, less, key)
    {
      assert CountsUnder(f.pendingKeys, inflight, key);
      EndCounts(f, inflight, t, key);
    }
  }

  lemma NothingBegun(scope: string)
    ensures Inv(World(Initially(scope), Project(Initially(scope)), map[], map[], []))
  {
    EmptyElements(Sorted({}));
  }

  lemma StartKeeps(scope: string)
    ensures Inv(Start(scope))
  {
    NothingBegun(scope);
    NextKeeps(World(Initially(scope), Project(Initially(scope)), map[], map[], []), BeginReloadEvent);
  }

  lemma BegunShows(w: World, f: Fields, work: Work)
    requires Tickets(w) && Shows(w) && f.generation == w.f.generation + 1 && f.snapshot == w.f.snapshot
    ensures var next := w.(f := f, store := Project(f), inflight := w.inflight[f.generation := work]);
            Tickets(next) && Shows(next) && |next.inflight| == |w.inflight| + 1
  {
    assert f.generation !in w.inflight && f.generation !in w.settled;
  }

  lemma BegunFields(f: Fields, r: Request)
    ensures var g := BeginDispatch(f, r);
            && g.pendingKeys == BeginAction(f, CommandKey(r)).pendingKeys
            && g.pendingActions == Sorted(g.pendingKeys.Keys)
            && g.(pendingKeys := f.pendingKeys, pendingActions := f.pendingActions) == Counted(f)
  {
    hide CommandKey, Sorted;
  }

  lemma BegunKeeps(w: World, work: Work)
    requires Inv(w)
    ensures Inv(Begun(w, work))
  {
    assert w.f.generation + 1 !in w.inflight;
    hide CommandKey, Sorted, Under, CountsInFlight, Tickets, Shows, BeginAction, BeginDispatch;
    if work.Commanding? { BegunFields(w.f, work.request); }
    BeginKeepsCounts(w.f, w.inflight, w.f.generation + 1, work);
    BegunShows(w, Begun(w, work).f, work);
  }

  ghost predicate ToastCounted(f: Fields) {
    f.toast.Some? ==> 1 <= f.toast.value.number <= f.toastSeq
  }

  // An answer does not touch the counters, and sets the snapshot only if it is the
  // newest operation's.
  ghost predicate Answers(f: Fields, generation: nat, answer: Answer, g: Fields) {
    && g.generation == f.generation && g.pending == f.pending
    && g.pendingKeys == f.pendingKeys && g.pendingActions == f.pendingActions
    && g.snapshot == (if answer.Fetched? && generation == f.generation then answer.snapshot else f.snapshot)
    && (ToastCounted(f) ==> ToastCounted(g))
  }

  lemma BothAnswer(f: Fields, generation: nat, answer: Answer)
    ensures Answers(f, generation, answer, Answered(f, generation, answer))
    ensures Answers(f, generation, answer, Reloaded(f, generation, answer))
  {
  }

  lemma EndActionFields(f: Fields, key: string)
    ensures EndAction(f, key).pendingActions == Sorted(EndAction(f, key).pendingKeys.Keys)
    ensures EndAction(f, key).(pendingKeys := f.pendingKeys, pendingActions := f.pendingActions) == f
  {
    hide Sorted;
  }

  lemma SameKeysEnd(f: Fields, g: Fields, key: string)
    requires f.pendingKeys == g.pendingKeys
    ensures EndAction(f, key).pendingKeys == EndAction(g, key).pendingKeys
  {
    hide Sorted;
  }

  lemma EndedFields(w: World, ticket: nat, answer: Answer)
    requires ticket in w.inflight && w.f.pendingActions == Sorted(w.f.pendingKeys.Keys) && ToastCounted(w.f)
    ensures var f, work := Ended(w, ticket, answer).f, w.inflight[ticket];
            && f.generation == w.f.generation && f.pending == w.f.pending - 1
            && f.pendingKeys == (if work.Reloading? then w.f.pendingKeys
                                 else EndAction(w.f, CommandKey(work.request)).pendingKeys)
            && f.pendingActions == Sorted(f.pendingKeys.Keys)
            && f.snapshot == (if answer.Fetched? && ticket == w.f.generation then answer.snapshot else w.f.snapshot)
            && ToastCounted(f)
  {
    hide CommandKey, Sorted, Answered, Reloaded, EndAction, Project;
    var work := w.inflight[ticket];
    BothAnswer(w.f, ticket, answer);
    if work.Commanding? {
      var g := Answered(w.f, ticket, answer);
      var h := g.(pending := g.pending - 1);
      EndActionFields(h, CommandKey(work.request));
      SameKeysEnd(h, w.f, CommandKey(work.request));
    }
  }

  lemma EndedShows(w: World, ticket: nat, answer: Answer, f: Fields)
    requires Tickets(w) && Shows(w) && ticket in w.inflight
    requires f.generation == w.f.generation
    requires f.snapshot == (if answer.Fetched? && ticket == w.f.generation then answer.snapshot else w.f.snapshot)
    ensures var newest := answer.Fetched? && ticket == w.f.generation;
            var next := w.(f := f, store := Project(f), inflight := w.inflight - {ticket},
                           settled := w.settled[ticket := answer],
                           applied := if newest then w.applied + [ticket] else w.applied);
            Tickets(next) && Shows(next)
  {
    assert ticket !in w.settled && ticket <= w.f.generation;
    forall i | 0 <= i < |w.applied| ensures w.applied[i] != ticket && w.applied[i] <= w.f.generation {
      assert w.applied[i] in w.settled;
    }
  }

  lemma EndedKeeps(w: World, ticket: nat, answer: Answer)
    requires Inv(w) && ticket in w.inflight
    ensures Inv(Ended(w, ticket, answer))
  {
    EndKeepsCounts(w.f, w.inflight, ticket);
    EndedFields(w, ticket, answer);
    EndedShows(w, ticket, answer, Ended(w, ticket, answer).f);
    assert |w.inflight - {ticket}| == |w.inflight| - 1;
    hide CommandKey, Sorted, Under, CountsInFlight, Tickets, Shows, EndReload, EndDispatch, EndAction;
  }

  // Changing only what the card shows beside the operations.
  lemma PublishedKeeps(w: World, f: Fields)
    requires Inv(w) && ToastCounted(f)
    requires f == w.f.(toast := f.toast, toastSeq := f.toastSeq, locale := f.locale,
                       directoryPicker := f.directoryPicker, scope := f.scope)
    ensures Inv(Published(w, f))
  {
    hide Sorted, CountsInFlight;
  }

  predicate Begins(e: Event) {
    e.BeginReloadEvent? || e.BeginDispatchEvent? || e.PublishTemplateEvent?
  }

  lemma ShownKeeps(w: World, e: Event)
    requires Inv(w) && !Begins(e) && !e.EndEvent?
    ensures Inv(Next(w, e))
  {
    assert ToastCounted(w.f);
    hide Inv, Published;
    match e
    case DismissToastEvent => PublishedKeeps(w, w.f.(toast := None));
    case SetLocaleEvent(locale) => PublishedKeeps(w, w.f.(locale := locale));
    case SetDirectoryPickerEvent(picker) => PublishedKeeps(w, w.f.(directoryPicker := picker));
    case ScopeEvent(scope) => PublishedKeeps(w, w.f.(scope := scope));
    case EditEvent => PublishedKeeps(w, w.f);
  }

  lemma TemplateKeeps(w: World, kind: ToastKind, text: string)
    requires Inv(w)
    ensures Inv(Next(w, PublishTemplateEvent(kind, text)))
  {
    PublishedKeeps(w, ShowToast(w.f, kind, text));
    hide Inv, Begun, Published;
    BegunKeeps(Published(w, ShowToast(w.f, kind, text)), Reloading);
  }

  lemma NextKeeps(w: World, e: Event)
    requires Inv(w) && Enabled(w, e)
    ensures Inv(Next(w, e))
  {
    hide Inv, Begun, Ended, Published, ShowToast;
    match e
    case BeginReloadEvent => BegunKeeps(w, Reloading);
    case BeginDispatchEvent(r) => BegunKeeps(w, Commanding(r));
    case EndEvent(ticket, answer) => EndedKeeps(w, ticket, answer);
    case PublishTemplateEvent(kind, text) => TemplateKeeps(w, kind, text);
    case _ => ShownKeeps(w, e);
  }

  lemma {:induction false} RunKeeps(w: World, events: seq<Event>, last: World)
    requires Inv(w) && Reaches(w, events, last)
    ensures Inv(last)
    decreases |events|
  {
    hide Inv, Next;
    if events != [] {
      NextKeeps(w, events[0]);
      RunKeeps(Next(w, events[0]), events[1..], last);
    }
  }

  lemma ReachableKeeps(w: World)
    requires Reachable(w)
    ensures Inv(w)
  {
    hide Inv, Next;
    var scope, events: seq<Event> :| Reaches(Start(scope), events, w);
    StartKeeps(scope);
    RunKeeps(Start(scope), events, w);
  }

  // ----- What holds at every await of every run -----

  // The card is busy exactly while an operation is in flight; a key is listed, once
  // and in order, exactly while a command under it is; counts are exact.
  lemma PendingIsInFlight(w: World)
    requires Reachable(w)
    ensures w.store == Project(w.f)
    ensures w.f.pending == |w.inflight| && (w.store.busy <==> w.inflight != map[])
    ensures Increasing(w.store.pendingActions)
    ensures forall key :: key in w.store.pendingActions <==>
              exists t :: t in w.inflight && w.inflight[t].Commanding? && CommandKey(w.inflight[t].request) == key
    ensures forall key :: key in w.f.pendingKeys ==>
              w.f.pendingKeys[key] == |Under(w.inflight, key)| > 0
  {
    hide CommandKey, Sorted;
    ReachableKeeps(w);
    assert forall key :: key in w.f.pendingKeys ==> CountsUnder(w.f.pendingKeys, w.inflight, key);
    SortedIncreases(w.f.pendingKeys.Keys);
    var actions := w.f.pendingActions;
    forall key: string
      ensures key in actions <==> key in w.f.pendingKeys
      ensures key in w.f.pendingKeys <==>
              exists t :: t in w.inflight && w.inflight[t].Commanding? && CommandKey(w.inflight[t].request) == key
    {
      assert key in actions <==> key in Elements(actions);
      assert CountsUnder(w.f.pendingKeys, w.inflight, key);
      if t :| t in Under(w.inflight, key) {
      }
      if t :| t in w.inflight && w.inflight[t].Commanding? && CommandKey(w.inflight[t].request) == key {
        assert t in Under(w.inflight, key);
      }
    }
  }

  // A container row finds its command in flight exactly when one on that container
  // is, as long as no workspace holds a colon.
  lemma ContainerLookupIsExact(w: World, workspace: string, container: string)
    requires Reachable(w)
    requires Free(workspace, ':')
    requires forall t :: t in w.inflight && w.inflight[t].Commanding? ==> Scoped(w.inflight[t].request)
    ensures ContainerActionPending(w.store.pendingActions, workspace, container) <==>
            exists t :: t in w.inflight && w.inflight[t].Commanding? && ActsOn(w.inflight[t].request, workspace, container)
  {
    forall op: string ensures op in CONTAINER_OPS <==> ByContainer(op) { HalvesAgree(op); }
    hide CommandKey, Scoped, Inv, Under, TargetOf, ContainerActionKey, ByContainer, CONTAINER_OPS;
    PendingIsInFlight(w);
    var actions := w.store.pendingActions;
    if op :| op in CONTAINER_OPS && ContainerActionKey(op, workspace, container) in actions {
      var t :| t in w.inflight && w.inflight[t].Commanding? &&
               CommandKey(w.inflight[t].request) == ContainerActionKey(op, workspace, container);
      LookupFinds(w.inflight[t].request, op, workspace, container);
    }
    if t :| t in w.inflight && w.inflight[t].Commanding? && ActsOn(w.inflight[t].request, workspace, container) {
      var r := w.inflight[t].request;
      LookupFinds(r, r.op, workspace, container);
      assert ContainerActionKey(r.op, workspace, container) in actions;
    }
  }

  predicate ActsOn(r: Request, workspace: string, container: string) {
    ByContainer(r.op) && r.workspace == workspace && r.container == container
  }

  lemma LookupFinds(r: Request, op: string, workspace: string, container: string)
    requires Scoped(r) && ByContainer(op) && Free(workspace, ':')
    ensures CommandKey(r) == ContainerActionKey(op, workspace, container) <==>
            r.op == op && ActsOn(r, workspace, container)
  {
    var asked := Request(op, workspace, container, "");
    KeyIdentifies(r, asked);
    assert TargetOf(asked) == Target(op, [workspace, container]);
    OpsApart(op);
    if r.op == op {
      assert TargetOf(r).scope == [r.workspace, r.container];
      assert [r.workspace, r.container][0] == r.workspace && [r.workspace, r.container][1] == r.container;
      assert [workspace, container][0] == workspace && [workspace, container][1] == container;
    }
  }

  // The applied snapshots were asked for in strictly increasing order, and what is
  // shown is the last of them.
  lemma AppliedInOrder(w: World)
    requires Reachable(w)
    ensures Rising(w.applied)
    ensures forall i :: 0 <= i < |w.applied| ==> w.applied[i] in w.settled && w.settled[w.applied[i]].Fetched?
    ensures w.store.snapshot ==
            if w.applied == [] then EMPTY_SNAPSHOT else w.settled[w.applied[|w.applied| - 1]].snapshot
  {
    ReachableKeeps(w);
  }

  // Once the newest operation has fetched its snapshot, that is the one shown,
  // whatever older operations answered and in whatever order.
  lemma NewestWins(w: World)
    requires Reachable(w)
    requires w.f.generation in w.settled && w.settled[w.f.generation].Fetched?
    ensures w.store.snapshot == w.settled[w.f.generation].snapshot
  {
    ReachableKeeps(w);
  }

  // An answer to an operation that is no longer the newest changes nothing on the
  // card but its busy state, its keys and the orchestrator's readiness.
  lemma SupersededOnlySettles(w: World, ticket: nat, answer: Answer)
    requires Inv(w) && ticket in w.inflight && ticket != w.f.generation
    ensures var after := Next(w, EndEvent(ticket, answer)).store;
            && after.snapshot == w.store.snapshot && after.toast == w.store.toast
            && after.notice == w.store.notice && after.noticeIsError == w.store.noticeIsError
            && after.orchestratorReady == (w.store.orchestratorReady || answer.Fetched?)
            && after.orchestratorKnown == (w.store.orchestratorKnown || answer.Fetched?)
  {
    hide CommandKey, Sorted, CountsInFlight, Tickets, Shows;
  }

  // What an answer has to say: a failure its error, a command its notice, a reload
  // nothing.
  function Report(work: Work, answer: Answer): string {
    match answer
    case Failed(error) => error
    case Fetched(_, notice) => if work.Commanding? then notice else ""
  }

  // What an answer sets of what the card shows: f before and g after, with the toasts
  // counted. The newest operation's answer sets the snapshot and reports in a toast,
  // unless it has nothing to say; a newest reload also sets the notice and tells whether
  // the orchestrator is ready. An answer that fetched shows it ready whatever else began
  // meanwhile.
  ghost predicate Sets(f: CardState, seq0: nat, newest: bool, work: Work, answer: Answer, g: CardState, seq1: nat) {
    var reload, text := work.Reloading?, Report(work, answer);
    && g.snapshot == (if newest && answer.Fetched? then answer.snapshot else f.snapshot)
    && g.notice == (if newest && reload then text else f.notice)
    && g.noticeIsError == (if newest && reload then answer.Failed? else f.noticeIsError)
    && g.orchestratorReady == (if answer.Fetched? then true else if newest && reload then false else f.orchestratorReady)
    && g.orchestratorKnown == (answer.Fetched? || (newest && reload) || f.orchestratorKnown)
    && (if newest && text != "" then
          seq1 == seq0 + 1 && g.toast == Some(Toast(seq1, if answer.Failed? then Error else Ok, text))
        else seq1 == seq0 && g.toast == f.toast)
    && g.locale == f.locale && g.directoryPicker == f.directoryPicker && g.scope == f.scope
  }

  lemma AnswerSets(f: Fields, generation: nat, work: Work, answer: Answer)
    ensures var g := if work.Reloading? then Reloaded(f, generation, answer) else Answered(f, generation, answer);
            Sets(Project(f), f.toastSeq, generation == f.generation, work, answer, Project(g), g.toastSeq)
  {
  }

  // What the card shows after an answer is that, and nothing else moves but the busy
  // state and the keys.
  lemma ShownAfterAnswer(w: World, ticket: nat, answer: Answer)
    requires Inv(w) && ticket in w.inflight
    ensures var next := Next(w, EndEvent(ticket, answer));
            Sets(w.store, w.f.toastSeq, ticket == w.f.generation, w.inflight[ticket], answer, next.store, next.f.toastSeq)
  {
    hide CommandKey, Sorted, CountsInFlight, Tickets, Shows, Answered, Reloaded, EndAction;
    var work := w.inflight[ticket];
    AnswerSets(w.f, ticket, work, answer);
    if work.Commanding? {
      var g := Answered(w.f, ticket, answer);
      EndActionFields(g.(pending := g.pending - 1), CommandKey(work.request));
    }
  }

  // The card starts empty, loading, with the orchestrator not heard of.
  lemma ShownAtStart(scope: string)
    ensures Start(scope).store ==
            CardState(true, [], None, "", false, Snapshot(""), false, false, "", None, scope)
  {
  }

  // Beginning an operation shows only that the card is busy, and a command its key.
  lemma ShownAfterBegin(w: World, e: Event)
    requires Inv(w) && (e.BeginReloadEvent? || e.BeginDispatchEvent?)
    ensures var after := Next(w, e).store;
            && after.(busy := w.store.busy, pendingActions := w.store.pendingActions) == w.store
            && after.busy
            && (e.BeginReloadEvent? ==> after.pendingActions == w.store.pendingActions)
            && forall key :: key in after.pendingActions <==>
                 key in w.store.pendingActions || (e.BeginDispatchEvent? && key == CommandKey(e.request))
  {
    hide CommandKey, Sorted, CountsInFlight, Tickets, Shows;
    forall key: string, keys: set<string> ensures key in Sorted(keys) <==> key in keys {
      assert key in Sorted(keys) <==> key in Elements(Sorted(keys));
    }
  }

  // The other events show just what they set.
  lemma ShownAfterOther(w: World, e: Event)
    requires Inv(w) && !e.EndEvent? && !e.BeginReloadEvent? && !e.BeginDispatchEvent?
    ensures Next(w, e).f.toastSeq == w.f.toastSeq + if e.PublishTemplateEvent? && e.text != "" then 1 else 0
    ensures Next(w, e).store ==
            match e
            case PublishTemplateEvent(kind, text) =>
              w.store.(busy := true, toast := if text == "" then w.store.toast else Some(Toast(w.f.toastSeq + 1, kind, text)))
            case DismissToastEvent => w.store.(toast := None)
            case SetLocaleEvent(locale) => w.store.(locale := locale)
            case SetDirectoryPickerEvent(picker) => w.store.(directoryPicker := picker)
            case ScopeEvent(scope) => w.store.(scope := scope)
            case EditEvent => w.store
  {
    hide CommandKey, Sorted, CountsInFlight, Tickets, Shows;
  }

  // A single answer can name a snapshot older than one already applied only if it is
  // superseded: an applied answer is newer than everything applied before it and no
  // operation began after it.
  lemma AppliedIsNewest(w: World, ticket: nat, answer: Answer)
    requires Inv(w) && ticket in w.inflight
    requires Next(w, EndEvent(ticket, answer)).f.snapshot != w.f.snapshot
    ensures ticket == w.f.generation && answer.Fetched?
    ensures forall t :: t in w.inflight ==> t <= ticket
    ensures forall i :: 0 <= i < |w.applied| ==> w.applied[i] < ticket
  {
    hide CommandKey, Sorted, CountsInFlight;
    assert forall t: nat :: t in w.inflight ==> 1 <= t <= w.f.generation;
    forall i | 0 <= i < |w.applied| ensures w.applied[i] < ticket {
      assert w.applied[i] in w.settled;
    }
  }

  // ----- Which answers are applied -----

  ghost predicate IsTrace(worlds: seq<World>, events: seq<Event>) {
    && |worlds| == |events| + 1
    && forall k :: 0 <= k < |events| ==> Enabled(worlds[k], events[k]) && worlds[k + 1] == Next(worlds[k], events[k])
  }

  // Ticket t was handed out at step b; the first reload, by the constructor, before
  // the run.
  ghost predicate BegunAt(worlds: seq<World>, events: seq<Event>, t: nat, b: int)
    requires IsTrace(worlds, events)
  {
    if b < 0 then b == -1 && t == worlds[0].f.generation
    else b < |events| && Begins(events[b]) && worlds[b + 1].f.generation == t
  }

  lemma GenerationNext(w: World, e: Event)
    requires Enabled(w, e)
    ensures Next(w, e).f.generation == w.f.generation + if Begins(e) then 1 else 0
  {
    hide CommandKey, Sorted;
    if e.EndEvent? {
      EndStep(w, e.ticket, e.answer);
    }
  }

  // The newest generation is still t exactly if nothing began in between.
  lemma {:induction false} NewestIff(worlds: seq<World>, events: seq<Event>, m: nat, n: nat)
    requires IsTrace(worlds, events) && m <= n <= |events|
    ensures worlds[n].f.generation >= worlds[m].f.generation
    ensures worlds[n].f.generation == worlds[m].f.generation <==> forall k :: m <= k < n ==> !Begins(events[k])
    decreases n
  {
    hide Next, Enabled;
    if m < n {
      NewestIff(worlds, events, m, n - 1);
      GenerationNext(worlds[n - 1], events[n - 1]);
    }
  }

  // Every operation in flight began somewhere in the run.
  lemma {:induction false} BeganBefore(worlds: seq<World>, events: seq<Event>, t: nat, n: nat) returns (b: int)
    requires IsTrace(worlds, events) && n <= |events|
    requires worlds[0].f.generation <= t <= worlds[n].f.generation
    ensures -1 <= b < n && BegunAt(worlds, events, t, b)
    decreases n
  {
    hide Next, Enabled;
    if n == 0 {
      b := -1;
    } else {
      GenerationNext(worlds[n - 1], events[n - 1]);
      if t <= worlds[n - 1].f.generation {
        b := BeganBefore(worlds, events, t, n - 1);
      } else {
        b := n - 1;
      }
    }
  }

  // A fetched snapshot is applied if and only if no operation began between the begin
  // and the end of its own.
  lemma AppliedIffNothingBegan(worlds: seq<World>, events: seq<Event>, b: int, n: nat)
    requires IsTrace(worlds, events) && b < n < |events|
    requires events[n].EndEvent? && events[n].answer.Fetched? && BegunAt(worlds, events, events[n].ticket, b)
    ensures worlds[n + 1].applied == worlds[n].applied + [events[n].ticket] <==>
            forall k :: b < k < n ==> !Begins(events[k])
    ensures worlds[n + 1].applied != worlds[n].applied ==>
              worlds[n + 1].applied == worlds[n].applied + [events[n].ticket] &&
              worlds[n + 1].store.snapshot == events[n].answer.snapshot
  {
    NewestIff(worlds, events, b + 1, n);
    var t, answer := events[n].ticket, events[n].answer;
    hide Answered, Reloaded, EndAction, Sorted, CommandKey;
    EndStep(worlds[n], t, answer);
  }

  // From the last fetched snapshot on nothing else is applied.
  lemma {:induction false} NoneAppliedAfter(worlds: seq<World>, events: seq<Event>, m: nat, n: nat)
    requires IsTrace(worlds, events) && m <= n <= |events|
    requires forall k :: m <= k < n && events[k].EndEvent? ==> !events[k].answer.Fetched?
    ensures worlds[n].applied == worlds[m].applied && worlds[n].f.snapshot == worlds[m].f.snapshot
    decreases n
  {
    hide Next, Enabled;
    if m < n {
      NoneAppliedAfter(worlds, events, m, n - 1);
      NothingFetched(worlds[n - 1], events[n - 1]);
    }
  }

  lemma NothingFetched(w: World, e: Event)
    requires Enabled(w, e) && (e.EndEvent? ==> !e.answer.Fetched?)
    ensures Next(w, e).applied == w.applied && Next(w, e).f.snapshot == w.f.snapshot
  {
    hide CommandKey, Sorted;
    if e.EndEvent? {
      EndStep(w, e.ticket, e.answer);
    }
  }

  // So the last snapshot fetched in a run is the last one applied, and shown, if and
  // only if no operation began while its own was under way.
  lemma LastFetchedIsShownIff(worlds: seq<World>, events: seq<Event>, scope: string, b: int, n: nat)
    requires IsTrace(worlds, events) && worlds[0] == Start(scope) && b < n < |events|
    requires events[n].EndEvent? && events[n].answer.Fetched? && BegunAt(worlds, events, events[n].ticket, b)
    requires forall k :: n < k < |events| && events[k].EndEvent? ==> !events[k].answer.Fetched?
    ensures var w := worlds[|events|];
            (w.applied != [] && w.applied[|w.applied| - 1] == events[n].ticket) <==>
            forall k :: b < k < n ==> !Begins(events[k])
    ensures (forall k :: b < k < n ==> !Begins(events[k])) ==>
              worlds[|events|].f.snapshot == events[n].answer.snapshot
  {
    AppliedIffNothingBegan(worlds, events, b, n);
    NoneAppliedAfter(worlds, events, n + 1, |events|);
    TraceKeeps(worlds, events, scope, n);
    var t := events[n].ticket;
    hide CommandKey, Sorted, CountsInFlight;
    EndStep(worlds[n], t, events[n].answer);
    AppliedOrNot(worlds[n], t, events[n].answer);
  }

  lemma AppliedOrNot(w: World, ticket: nat, answer: Answer)
    requires ticket in w.inflight
    ensures Next(w, EndEvent(ticket, answer)).applied == w.applied ||
            Next(w, EndEvent(ticket, answer)).applied == w.applied + [ticket]
  {
    hide CommandKey, Sorted, Answered, Reloaded, EndAction;
  }

  lemma {:induction false} TraceKeeps(worlds: seq<World>, events: seq<Event>, scope: string, n: nat)
    requires IsTrace(worlds, events) && worlds[0] == Start(scope) && n <= |events|
    ensures Inv(worlds[n])
  {
    hide Next, Enabled, Inv, Start;
    if n == 0 {
      StartKeeps(scope);
    } else {
      TraceKeeps(worlds, events, scope, n - 1);
      NextKeeps(worlds[n - 1], events[n - 1]);
    }
  }

  // ----- What a command's two requests come to -----

  datatype CommandReply = Accepted(notice: string) | Refused(error: string)
  datatype FetchReply = Got(snapshot: Snapshot) | Lost(error: string)

  // The command is sent, and its snapshot fetched if it was accepted.
  function AnswerOf(command: CommandReply, fetch: FetchReply): Answer {
    match command
    case Refused(error) => Failed(error)
    case Accepted(notice) => (match fetch case Got(snapshot) => Fetched(snapshot, notice) case Lost(error) => Failed(error))
  }

  // A dispatch answers false though its command was accepted, and then no one can tell
  // from a refusal, exactly if the fetch after it failed.
  lemma AnswersFalseIff(command: CommandReply, fetch: FetchReply)
    ensures command.Accepted? && AnswerOf(command, fetch).Failed? <==> command.Accepted? && fetch.Lost?
    ensures command.Accepted? && fetch.Lost? ==> AnswerOf(command, fetch) == AnswerOf(Refused(fetch.error), fetch)
  {
  }

  // ----- Draining -----

  // When every operation has ended nothing is left: no busy state, no key.
  lemma SettledIsIdle(w: World)
    requires Reachable(w) && w.inflight == map[]
    ensures !w.store.busy && w.store.pendingActions == [] && w.f.pendingKeys == map[] && w.f.pending == 0
  {
    hide CommandKey, Sorted;
    ReachableKeeps(w);
    forall key: string ensures key !in w.f.pendingKeys {
      assert Under(w.inflight, key) == {};
      assert CountsUnder(w.f.pendingKeys, w.inflight, key);
    }
    EmptyElements(w.f.pendingActions);
  }

  // What the order costs: a fetched snapshot is dropped for good when the newest
  // operation fails, even if it was fetched last and everything has ended.
  lemma LateAnswerIsDropped(scope: string, request: Request, late: Snapshot, error: string)
    ensures exists w :: Reachable(w) && DropsAnswer(w, 2, late)
  {
    var w0 := Start(scope);
    StartsReloading(scope);
    hide Start, Next, Reachable, Reaches, DropsAnswer;
    StartReachable(scope);
    BeginStep(w0, Commanding(request));
    StepReachable(w0, BeginDispatchEvent(request));
    var w1 := Next(w0, BeginDispatchEvent(request));
    BeginStep(w1, Reloading);
    StepReachable(w1, BeginReloadEvent);
    var w2 := Next(w1, BeginReloadEvent);
    LateEnds(w2, Commanding(request), late, error);
    StepReachable(w2, EndEvent(1, Failed(error)));
    var w3 := Next(w2, EndEvent(1, Failed(error)));
    StepReachable(w3, EndEvent(3, Failed(error)));
    var w4 := Next(w3, EndEvent(3, Failed(error)));
    StepReachable(w4, EndEvent(2, Fetched(late, "")));
  }

  lemma StartReachable(scope: string)
    ensures Reachable(Start(scope))
  {
    assert Reaches(Start(scope), [], Start(scope));
  }

  lemma StepReachable(w: World, e: Event)
    requires Reachable(w) && Enabled(w, e)
    ensures Reachable(Next(w, e))
  {
    var scope, events: seq<Event> :| Reaches(Start(scope), events, w);
    hide Start, Next;
    ReachesMore(Start(scope), events, w, e);
    assert Reaches(Start(scope), events + [e], Next(w, e));
  }

  lemma {:induction false} ReachesMore(w: World, events: seq<Event>, last: World, e: Event)
    requires Reaches(w, events, last) && Enabled(last, e)
    ensures Reaches(w, events + [e], Next(last, e))
    decreases |events|
  {
    hide Next;
    if events == [] {
      assert events + [e] == [e] && [e][1..] == [];
    } else {
      ReachesMore(Next(w, events[0]), events[1..], last, e);
      assert (events + [e])[1..] == events[1..] + [e];
    }
  }

  lemma LateEnds(w: World, command: Work, late: Snapshot, error: string)
    requires w.f.generation == 3 && w.f.snapshot == EMPTY_SNAPSHOT
    requires w.inflight == map[1 := Reloading, 2 := command, 3 := Reloading]
    ensures var e3, e4, e5 := EndEvent(1, Failed(error)), EndEvent(3, Failed(error)), EndEvent(2, Fetched(late, ""));
            && Enabled(w, e3) && Enabled(Next(w, e3), e4) && Enabled(Next(Next(w, e3), e4), e5)
            && DropsAnswer(Next(Next(Next(w, e3), e4), e5), 2, late)
  {
    hide Next;
    EndStep(w, 1, Failed(error));
    var w3 := Next(w, EndEvent(1, Failed(error)));
    EndStep(w3, 3, Failed(error));
    var w4 := Next(w3, EndEvent(3, Failed(error)));
    EndStep(w4, 2, Fetched(late, ""));
    assert Next(w4, EndEvent(2, Fetched(late, ""))).inflight == map[];
  }

  lemma StartsReloading(scope: string)
    ensures var w := Start(scope);
            w.f.generation == 1 && w.f.snapshot == EMPTY_SNAPSHOT && w.inflight == map[1 := Reloading]
  {
  }

  lemma BeginStep(w: World, work: Work)
    ensures var next := Next(w, if work.Reloading? then BeginReloadEvent else BeginDispatchEvent(work.request));
            && next.f.generation == w.f.generation + 1 && next.f.snapshot == w.f.snapshot
            && next.inflight == w.inflight[w.f.generation + 1 := work]
            && next.settled == w.settled
  {
    hide CommandKey, Sorted;
  }

  lemma EndStep(w: World, ticket: nat, answer: Answer)
    requires ticket in w.inflight
    ensures var next := Next(w, EndEvent(ticket, answer));
            && next.f.generation == w.f.generation
            && next.inflight == w.inflight - {ticket}
            && next.settled == w.settled[ticket := answer]
            && next.store.snapshot == next.f.snapshot ==
               (if answer.Fetched? && ticket == w.f.generation then answer.snapshot else w.f.snapshot)
  {
    hide CommandKey, Sorted, EndAction, Answered, Reloaded;
    BothAnswer(w.f, ticket, answer);
    if w.inflight[ticket].Commanding? {
      var g := Answered(w.f, ticket, answer);
      EndActionFields(g.(pending := g.pending - 1), CommandKey(w.inflight[ticket].request));
    }
  }

  ghost predicate DropsAnswer(w: World, ticket: nat, late: Snapshot) {
    && w.inflight == map[]
    && ticket in w.settled && w.settled[ticket] == Fetched(late, "")
    && w.store.snapshot == EMPTY_SNAPSHOT
  }

  // ----- The controller -----

  class CardController {
    var pending: int
    var pendingKeys: map<string, int>
    var pendingActions: seq<string>
    var generation: nat
    var snapshot: Snapshot
    var notice: string
    var noticeIsError: bool
    var orchestratorReady: bool
    var orchestratorKnown: bool
    var toast: Option<Toast>
    var toastSeq: nat
    var directoryPicker: Option<string>
    var locale: string
    var scope: string
    var store: CardState
    ghost var world: World

    ghost function Contents(): Fields
      reads this
    {
      Fields(pending, pendingKeys, pendingActions, generation, snapshot, notice, noticeIsError,
             orchestratorReady, orchestratorKnown, toast, toastSeq, directoryPicker, locale, scope)
    }

    ghost predicate Valid()
      reads this
    {
      Contents() == world.f && store == world.store && Inv(world)
    }

    method Publish()
      modifies this`store
      ensures store == Project(Contents())
    {
      store := CardState(pending > 0, pendingActions, toast, notice, noticeIsError, snapshot,
                         orchestratorReady, orchestratorKnown, locale, directoryPicker, scope);
    }

    method StartAction(key: string)
      modifies this`pendingKeys, this`pendingActions
      ensures Contents() == BeginAction(old(Contents()), key)
    {
      hide Sorted;
      pendingKeys := pendingKeys[key := (if key in pendingKeys then pendingKeys[key] else 0) + 1];
      pendingActions := SortKeys(pendingKeys.Keys);
    }

    method FinishAction(key: string)
      modifies this`pendingKeys, this`pendingActions
      ensures Contents() == EndAction(old(Contents()), key)
    {
      hide Sorted;
      var remaining := (if key in pendingKeys then pendingKeys[key] else 0) - 1;
      if remaining > 0 {
        pendingKeys := pendingKeys[key := remaining];
      } else {
        pendingKeys := pendingKeys - {key};
      }
      pendingActions := SortKeys(pendingKeys.Keys);
    }

    method PutToast(kind: ToastKind, text: string)
      modifies this`toast, this`toastSeq
      ensures Contents() == ShowToast(old(Contents()), kind, text)
    {
      if text == "" { return; }
      toastSeq := toastSeq + 1;
      toast := Some(Toast(toastSeq, kind, text));
    }

    constructor (scope: string)
      ensures Valid() && world == Start(scope)
    {
      pending, pendingKeys, pendingActions, generation := 0, map[], [], 0;
      snapshot, notice, noticeIsError := EMPTY_SNAPSHOT, "", false;
      orchestratorReady, orchestratorKnown := false, false;
      toast, toastSeq, directoryPicker, locale := None, 0, None, "";
      this.scope := scope;
      store := Project(Initially(scope));
      new;
      world := World(Initially(scope), store, map[], map[], []);
      StartKeeps(scope);
      assert Inv(world) by { NothingBegun(scope); }
      var first := StartReload();
    }

    method StartReload() returns (ticket: nat)
      requires Valid()
      modifies this
      ensures Valid() && world == Next(old(world), BeginReloadEvent)
      ensures ticket == generation && world.inflight == old(world).inflight[ticket := Reloading]
    {
      hide Inv, Sorted;
      NextKeeps(world, BeginReloadEvent);
      world := Next(world, BeginReloadEvent);
      generation := generation + 1;
      pending := pending + 1;
      ticket := generation;
      Publish();
    }

    method FinishReload(ticket: nat, answer: Answer)
      requires Valid() && ticket in world.inflight && world.inflight[ticket] == Reloading
      modifies this
      ensures Valid() && world == Next(old(world), EndEvent(ticket, answer))
    {
      hide Inv, Sorted, Reloaded;
      NextKeeps(world, EndEvent(ticket, answer));
      world := Next(world, EndEvent(ticket, answer));
      TakeReload(ticket, answer);
      pending := pending - 1;
      Publish();
    }

    method TakeReload(ticket: nat, answer: Answer)
      modifies this
      ensures Contents() == Reloaded(old(Contents()), ticket, answer)
      ensures store == old(store) && world == old(world)
    {
      match answer {
        case Fetched(fetched, _) =>
          orchestratorReady, orchestratorKnown := true, true;
          if ticket == generation {
            snapshot, notice, noticeIsError := fetched, "", false;
          }
        case Failed(error) =>
          if ticket == generation {
            orchestratorReady, orchestratorKnown := false, true;
            notice, noticeIsError := error, true;
            PutToast(Error, error);
          }
      }
    }

    method StartDispatch(request: Request) returns (ticket: nat)
      requires Valid()
      modifies this
      ensures Valid() && world == Next(old(world), BeginDispatchEvent(request))
      ensures ticket == generation && world.inflight == old(world).inflight[ticket := Commanding(request)]
    {
      hide Inv, Sorted, CommandKey, BeginAction;
      NextKeeps(world, BeginDispatchEvent(request));
      world := Next(world, BeginDispatchEvent(request));
      generation := generation + 1;
      ticket := generation;
      pending := pending + 1;
      StartAction(CommandKey(request));
      Publish();
    }

    // The command was accepted exactly if it and the fetch after it were answered,
    // superseded or not.
    method FinishDispatch(ticket: nat, request: Request, answer: Answer) returns (accepted: bool)
      requires Valid() && ticket in world.inflight && world.inflight[ticket] == Commanding(request)
      modifies this
      ensures Valid() && world == Next(old(world), EndEvent(ticket, answer))
      ensures accepted <==> answer.Fetched?
    {
      hide Inv, Sorted, CommandKey, EndAction, Answered;
      NextKeeps(world, EndEvent(ticket, answer));
      world := Next(world, EndEvent(ticket, answer));
      accepted := TakeAnswer(ticket, answer);
      pending := pending - 1;
      FinishAction(CommandKey(request));
      Publish();
    }

    method TakeAnswer(ticket: nat, answer: Answer) returns (accepted: bool)
      modifies this
      ensures Contents() == Answered(old(Contents()), ticket, answer)
      ensures store == old(store) && world == old(world)
      ensures accepted <==> answer.Fetched?
    {
      match answer {
        case Fetched(fetched, text) =>
          orchestratorReady, orchestratorKnown := true, true;
          accepted := true;
          if ticket == generation {
            snapshot := fetched;
            PutToast(Ok, text);
          }
        case Failed(error) =>
          accepted := false;
          if ticket == generation {
            PutToast(Error, error);
          }
      }
    }

    method DismissToast()
      requires Valid()
      modifies this
      ensures Valid() && world == Next(old(world), DismissToastEvent)
    {
      hide Inv, Sorted;
      NextKeeps(world, DismissToastEvent);
      world := Next(world, DismissToastEvent);
      toast := None;
      Publish();
    }

    method SetLocale(locale: string)
      requires Valid()
      modifies this
      ensures Valid() && world == Next(old(world), SetLocaleEvent(locale))
    {
      hide Inv, Sorted;
      NextKeeps(world, SetLocaleEvent(locale));
      world := Next(world, SetLocaleEvent(locale));
      if this.locale == locale { return; }
      this.locale := locale;
      Publish();
    }

    method SetDirectoryPicker(picker: Option<string>)
      requires Valid()
      modifies this
      ensures Valid() && world == Next(old(world), SetDirectoryPickerEvent(picker))
    {
      hide Inv, Sorted;
      NextKeeps(world, SetDirectoryPickerEvent(picker));
      world := Next(world, SetDirectoryPickerEvent(picker));
      directoryPicker := picker;
      Publish();
    }
  }
}
