// One attempt of runExec (src/guest-rpc.ts): how it settles, and how it stops a
// command it gave up on.
module ExecAttempt {
  import opened Options

  // ----- State -----

  datatype Outcome = Exited | Failed | EndedEarly | TimedOut | Aborted

  // What an attempt does to the outside, in order. SawExit marks an exit message.
  datatype Effect = Term | Kill | CancelStream | SawExit | Settle(outcome: Outcome)

  datatype Attempt = Attempt(
    processId: Option<string>,
    timer: bool,               // the timeout is armed
    killTimer: bool,           // the grace timer is armed
    listening: bool,           // an abort would be heard
    streaming: bool,           // the stream's handlers are attached
    settled: bool,
    log: seq<Effect>)

  datatype Signal = NoSignal | Pending | AlreadyAborted

  datatype Event =
    | Data(processId: Option<string>, exit: bool)
    | StreamError
    | StreamEnd
    | Timeout
    | Abort
    | GraceOver

  // ----- The closures -----

  function Did(a: Attempt, effect: Effect): Attempt {
    a.(log := a.log + [effect])
  }

  function SettleOnce(a: Attempt, outcome: Outcome): Attempt {
    if a.settled then a
    else Did(a.(settled := true, timer := false, listening := false), Settle(outcome))
  }

  function StopProcess(a: Attempt, effect: Effect): Attempt {
    if a.processId.None? then a else Did(a, effect)
  }

  function EscalateStop(a: Attempt): Attempt {
    if a.processId.None? then Did(a, CancelStream)
    else
      var asked := StopProcess(a, Term);
      if a.killTimer then asked else asked.(killTimer := true)
  }

  function AbortWith(a: Attempt, outcome: Outcome): Attempt {
    SettleOnce(EscalateStop(a), outcome)
  }

  // Up to the first wait: arm the timeout, hear the abort, attach the handlers. An
  // already aborted signal gives up at once, with no handler attached.
  function Start(timeout: bool, signal: Signal): Attempt {
    var armed := Attempt(None, timeout, false, false, false, false, []);
    if signal == AlreadyAborted then AbortWith(armed, Aborted)
    else armed.(listening := signal == Pending, streaming := true)
  }

  // An empty process id counts as none.
  function Receive(a: Attempt, processId: Option<string>, exit: bool): Attempt {
    var known := if processId.Some? && processId.value != "" then a.(processId := processId) else a;
    if exit then SettleOnce(Did(known.(killTimer := false), SawExit), Exited) else known
  }

  // A disarmed timer does not fire, a removed listener hears nothing.
  predicate Enabled(a: Attempt, e: Event) {
    match e
    case Data(_, _) => a.streaming
    case StreamError => a.streaming
    case StreamEnd => a.streaming
    case Timeout => a.timer
    case Abort => a.listening
    case GraceOver => a.killTimer
  }

  function Next(a: Attempt, e: Event): Attempt {
    match e
    case Data(processId, exit) => Receive(a, processId, exit)
    case StreamError => SettleOnce(a, Failed)
    case StreamEnd => SettleOnce(a, EndedEarly)
    case Timeout => AbortWith(a.(timer := false), TimedOut)
    case Abort => AbortWith(a.(listening := false), Aborted)
    case GraceOver => Did(StopProcess(a.(killTimer := false), Kill), CancelStream)
  }

  ghost predicate Run(a: Attempt, events: seq<Event>, last: Attempt)
    decreases |events|
  {
    if events == [] then a == last
    else Enabled(a, events[0]) && Run(Next(a, events[0]), events[1..], last)
  }

  // ----- The invariant -----

  function Count(log: seq<Effect>, wanted: Effect -> bool): nat {
    if log == [] then 0
    else Count(log[..|log| - 1], wanted) + if wanted(log[|log| - 1]) then 1 else 0
  }

  lemma CountMore(log: seq<Effect>, effect: Effect, wanted: Effect -> bool)
    ensures Count(log + [effect], wanted) == Count(log, wanted) + if wanted(effect) then 1 else 0
  {
    assert (log + [effect])[..|log|] == log;
  }

  function Settles(log: seq<Effect>): nat {
    Count(log, (e: Effect) => e.Settle?)
  }

  function Terms(log: seq<Effect>): nat {
    Count(log, (e: Effect) => e == Term)
  }

  function Kills(log: seq<Effect>): nat {
    Count(log, (e: Effect) => e == Kill)
  }

  // Every SIGKILL came after a SIGTERM, and after no exit message.
  ghost predicate KillsLast(log: seq<Effect>) {
    forall i :: 0 <= i < |log| && log[i] == Kill ==> Term in log[..i] && SawExit !in log[..i]
  }

  ghost predicate Inv(a: Attempt) {
    && (a.settled <==> Settles(a.log) == 1) && Settles(a.log) <= 1
    && (a.settled ==> !a.timer && !a.listening)
    && Terms(a.log) <= (if a.settled then 1 else 0)
    && Kills(a.log) + (if a.killTimer then 1 else 0) <= Terms(a.log)
    && (a.killTimer ==> a.settled && a.processId.Some? && Term in a.log && SawExit !in a.log)
    && (SawExit in a.log ==> a.settled)
    && KillsLast(a.log)
  }

  lemma Counts(log: seq<Effect>, effect: Effect)
    ensures Settles(log + [effect]) == Settles(log) + if effect.Settle? then 1 else 0
    ensures Terms(log + [effect]) == Terms(log) + if effect == Term then 1 else 0
    ensures Kills(log + [effect]) == Kills(log) + if effect == Kill then 1 else 0
  {
    CountMore(log, effect, (e: Effect) => e.Settle?);
    CountMore(log, effect, (e: Effect) => e == Term);
    CountMore(log, effect, (e: Effect) => e == Kill);
  }

  lemma KillsStayLast(log: seq<Effect>, effect: Effect)
    requires KillsLast(log) && (effect == Kill ==> Term in log && SawExit !in log)
    ensures KillsLast(log + [effect])
  {
    var more := log + [effect];
    forall i | 0 <= i < |more| && more[i] == Kill ensures Term in more[..i] && SawExit !in more[..i] {
      assert more[..i] == log[..i];
      if i == |log| {
        assert log[..i] == log;
      }
    }
  }

  lemma StartKeeps(timeout: bool, signal: Signal)
    ensures Inv(Start(timeout, signal))
  {
    Counts([], CancelStream);
    Counts([] + [CancelStream], Settle(Aborted));
  }

  lemma SettleKeeps(a: Attempt, outcome: Outcome)
    requires Inv(a)
    ensures Inv(SettleOnce(a, outcome)) && SettleOnce(a, outcome).settled
  {
    hide Settles, Terms, Kills, KillsLast;
    Counts(a.log, Settle(outcome));
    KillsStayLast(a.log, Settle(outcome));
  }

  lemma ReceiveKeeps(a: Attempt, processId: Option<string>, exit: bool)
    requires Inv(a)
    ensures Inv(Receive(a, processId, exit))
  {
    hide Settles, Terms, Kills, KillsLast;
    Counts(a.log, SawExit);
    KillsStayLast(a.log, SawExit);
    Counts(a.log + [SawExit], Settle(Exited));
    KillsStayLast(a.log + [SawExit], Settle(Exited));
  }

  // Giving up happens only while the attempt is unsettled.
  lemma AbortKeeps(a: Attempt, outcome: Outcome)
    requires Inv(a) && !a.settled
    ensures Inv(AbortWith(a, outcome))
  {
    hide Settles, Terms, Kills, KillsLast;
    var effect := if a.processId.None? then CancelStream else Term;
    Counts(a.log, effect);
    KillsStayLast(a.log, effect);
    Counts(a.log + [effect], Settle(outcome));
    KillsStayLast(a.log + [effect], Settle(outcome));
  }

  lemma GraceKeeps(a: Attempt)
    requires Inv(a) && a.killTimer
    ensures Inv(Next(a, GraceOver))
  {
    hide Settles, Terms, Kills, KillsLast;
    Counts(a.log, Kill);
    KillsStayLast(a.log, Kill);
    Counts(a.log + [Kill], CancelStream);
    KillsStayLast(a.log + [Kill], CancelStream);
  }

  lemma NextKeeps(a: Attempt, e: Event)
    requires Inv(a) && Enabled(a, e)
    ensures Inv(Next(a, e))
  {
    match e
    case Data(processId, exit) => ReceiveKeeps(a, processId, exit);
    case StreamError => SettleKeeps(a, Failed);
    case StreamEnd => SettleKeeps(a, EndedEarly);
    case Timeout => AbortKeeps(a.(timer := false), TimedOut);
    case Abort => AbortKeeps(a.(listening := false), Aborted);
    case GraceOver => GraceKeeps(a);
  }

  lemma {:induction false} RunKeeps(a: Attempt, events: seq<Event>, last: Attempt)
    requires Inv(a) && Run(a, events, last)
    ensures Inv(last)
    decreases |events|
  {
    hide Inv, Next;
    if events != [] {
      NextKeeps(a, events[0]);
      RunKeeps(Next(a, events[0]), events[1..], last);
    }
  }

  // ----- In every order of events -----

  // It settles at most once, starts at most one escalation, and kills at most once:
  // only after SIGTERM, and only if no exit message had come.
  lemma StopsInOrder(timeout: bool, signal: Signal, events: seq<Event>, last: Attempt)
    requires Run(Start(timeout, signal), events, last)
    ensures Settles(last.log) <= 1 && Terms(last.log) <= 1 && Kills(last.log) <= Terms(last.log)
    ensures last.settled <==> Settles(last.log) == 1
    ensures KillsLast(last.log)
  {
    StartKeeps(timeout, signal);
    RunKeeps(Start(timeout, signal), events, last);
  }

  // The outcome an event would settle with.
  function Decides(e: Event): Option<Outcome> {
    match e
    case Data(_, exit) => if exit then Some(Exited) else None
    case StreamError => Some(Failed)
    case StreamEnd => Some(EndedEarly)
    case Timeout => Some(TimedOut)
    case Abort => Some(Aborted)
    case GraceOver => None
  }

  function FirstDecision(events: seq<Event>): Option<Outcome> {
    if events == [] then None
    else if Decides(events[0]).Some? then Decides(events[0])
    else FirstDecision(events[1..])
  }

  // The outcome in the log, if any.
  function Settlement(log: seq<Effect>): Option<Outcome> {
    if log == [] then None
    else if log[0].Settle? then Some(log[0].outcome)
    else Settlement(log[1..])
  }

  lemma {:induction false} SettlementMore(log: seq<Effect>, effect: Effect)
    ensures Settlement(log + [effect]) ==
            if Settlement(log).Some? then Settlement(log) else if effect.Settle? then Some(effect.outcome) else None
  {
    if log == [] {
      assert log + [effect] == [effect] && [effect][1..] == [];
    } else {
      assert (log + [effect])[0] == log[0] && (log + [effect])[1..] == log[1..] + [effect];
      SettlementMore(log[1..], effect);
    }
  }

  predicate Agrees(a: Attempt) {
    a.settled <==> Settlement(a.log).Some?
  }

  lemma SettleOnceSettles(a: Attempt, outcome: Outcome)
    requires Agrees(a)
    ensures Agrees(SettleOnce(a, outcome))
    ensures Settlement(SettleOnce(a, outcome).log) == if a.settled then Settlement(a.log) else Some(outcome)
  {
    SettlementMore(a.log, Settle(outcome));
  }

  lemma QuietEffect(log: seq<Effect>, effect: Effect)
    requires !effect.Settle?
    ensures Settlement(log + [effect]) == Settlement(log)
  {
    SettlementMore(log, effect);
  }

  lemma StepSettles(a: Attempt, e: Event)
    requires Inv(a) && Enabled(a, e) && Agrees(a)
    ensures Agrees(Next(a, e))
    ensures Settlement(Next(a, e).log) == (if a.settled then Settlement(a.log) else Decides(e))
  {
    TimersAre(a);
    hide Inv, Settlement, SettleOnce;
    match e
    case Data(processId, exit) =>
      if exit {
        var known := Receive(a, processId, false);
        QuietEffect(a.log, SawExit);
        SettleOnceSettles(Did(known.(killTimer := false), SawExit), Exited);
      }
    case StreamError => SettleOnceSettles(a, Failed);
    case StreamEnd => SettleOnceSettles(a, EndedEarly);
    case Timeout => AbortSettles(a.(timer := false), TimedOut);
    case Abort => AbortSettles(a.(listening := false), Aborted);
    case GraceOver =>
      QuietEffect(a.log, Kill);
      QuietEffect(a.log, CancelStream);
      QuietEffect(a.log + [Kill], CancelStream);
  }

  lemma AbortSettles(a: Attempt, outcome: Outcome)
    requires Agrees(a) && !a.settled
    ensures Agrees(AbortWith(a, outcome)) && Settlement(AbortWith(a, outcome).log) == Some(outcome)
  {
    hide Settlement, SettleOnce;
    QuietEffect(a.log, CancelStream);
    QuietEffect(a.log, Term);
    SettleOnceSettles(EscalateStop(a), outcome);
  }

  lemma TimersAre(a: Attempt)
    requires Inv(a)
    ensures a.settled ==> !a.timer && !a.listening
    ensures a.killTimer ==> a.settled
  {
  }

  lemma {:induction false} RunSettles(a: Attempt, events: seq<Event>, last: Attempt)
    requires Inv(a) && Run(a, events, last) && Agrees(a)
    ensures Settlement(last.log) == if a.settled then Settlement(a.log) else FirstDecision(events)
    ensures last.settled <==> Settlement(last.log).Some?
    decreases |events|
  {
    hide Inv, Next, Settlement, Enabled;
    if events != [] {
      StepSettles(a, events[0]);
      NextKeeps(a, events[0]);
      RunSettles(Next(a, events[0]), events[1..], last);
    }
  }

  // The caller gets the outcome of the first event that decides, and none before it:
  // an exit, an error, an end, a timeout and an abort cannot race.
  lemma FirstEventDecides(timeout: bool, signal: Signal, events: seq<Event>, last: Attempt)
    requires Run(Start(timeout, signal), events, last)
    ensures Settlement(last.log) == if signal == AlreadyAborted then Some(Aborted) else FirstDecision(events)
    ensures last.settled <==> Settlement(last.log).Some?
  {
    StartKeeps(timeout, signal);
    var a := Start(timeout, signal);
    if signal == AlreadyAborted {
      SettlementMore([], CancelStream);
      SettlementMore([] + [CancelStream], Settle(Aborted));
    }
    RunSettles(a, events, last);
  }

  // A command that said it exited is not killed afterwards, whatever comes next.
  lemma {:induction false} ExitEndsEscalation(a: Attempt, events: seq<Event>, last: Attempt)
    requires Inv(a) && SawExit in a.log && Run(a, events, last)
    ensures Kills(last.log) == Kills(a.log) && Terms(last.log) == Terms(a.log)
    decreases |events|
  {
    hide Next, Settles, Kills, Terms, KillsLast;
    if events != [] {
      NextKeeps(a, events[0]);
      QuietAfterExit(a, events[0]);
      ExitEndsEscalation(Next(a, events[0]), events[1..], last);
    }
  }

  lemma QuietAfterExit(a: Attempt, e: Event)
    requires Inv(a) && SawExit in a.log && Enabled(a, e)
    ensures SawExit in Next(a, e).log
    ensures Kills(Next(a, e).log) == Kills(a.log) && Terms(Next(a, e).log) == Terms(a.log)
  {
    hide Settles, Kills, Terms, KillsLast;
    Counts(a.log, SawExit);
  }

  // ----- What is sent, event by event -----

  predicate CarriesId(e: Event) {
    e.Data? && e.processId.Some? && e.processId.value != ""
  }

  predicate GivesUp(e: Event) {
    e == Timeout || e == Abort
  }

  // The first event that decides is a timeout or an abort, and comes with a process id
  // known or not.
  predicate GivesUpWhen(known: bool, events: seq<Event>, wanted: bool)
    decreases |events|
  {
    if events == [] then false
    else if Decides(events[0]).Some? then GivesUp(events[0]) && known == wanted
    else GivesUpWhen(known || CarriesId(events[0]), events[1..], wanted)
  }

  // Which stops were sent, and whether an exit was seen.
  datatype Sent = Sent(term: bool, kill: bool, cancel: bool, exit: bool)

  function SentIn(log: seq<Effect>): Sent {
    Sent(Term in log, Kill in log, CancelStream in log, SawExit in log)
  }

  lemma SentMore(log: seq<Effect>, effect: Effect)
    ensures SentIn(log + [effect]) ==
            var s := SentIn(log);
            Sent(s.term || effect == Term, s.kill || effect == Kill, s.cancel || effect == CancelStream, s.exit || effect == SawExit)
  {
  }

  // The grace timer runs exactly while the command was asked to end, was not killed and
  // has not said it exited.
  ghost predicate Armed(a: Attempt) {
    var s := SentIn(a.log);
    && (a.killTimer <==> s.term && !s.kill && !s.exit)
    && (a.killTimer ==> a.processId.Some?)
    && (a.settled ==> !a.timer && !a.listening)
    && (s.term || s.kill || s.exit ==> a.settled)
    && (a.processId.Some? ==> a.processId.value != "")
  }

  lemma StepSends(a: Attempt, e: Event)
    requires Armed(a) && Enabled(a, e)
    ensures var next, s, t := Next(a, e), SentIn(a.log), SentIn(Next(a, e).log);
            && Armed(next)
            && next.settled == (a.settled || Decides(e).Some?)
            && (next.processId.Some? <==> a.processId.Some? || CarriesId(e))
            && t == Sent(s.term || (GivesUp(e) && a.processId.Some?), s.kill || e == GraceOver,
                         s.cancel || e == GraceOver || (GivesUp(e) && a.processId.None?), s.exit || (e.Data? && e.exit))
  {
    hide SentIn;
    var stop := if a.processId.None? then CancelStream else Term;
    match e
    case Data(_, _) => TwoSent(a.log, SawExit, Settle(Exited));
    case StreamError => SentMore(a.log, Settle(Failed));
    case StreamEnd => SentMore(a.log, Settle(EndedEarly));
    case Timeout => TwoSent(a.log, stop, Settle(TimedOut));
    case Abort => TwoSent(a.log, stop, Settle(Aborted));
    case GraceOver => TwoSent(a.log, Kill, CancelStream);
  }

  lemma TwoSent(log: seq<Effect>, first: Effect, second: Effect)
    ensures var s := SentIn(log);
            && SentIn(log + [first]) ==
               Sent(s.term || first == Term, s.kill || first == Kill, s.cancel || first == CancelStream, s.exit || first == SawExit)
            && SentIn(log + [first] + [second]) ==
               Sent(s.term || first == Term || second == Term, s.kill || first == Kill || second == Kill,
                    s.cancel || first == CancelStream || second == CancelStream, s.exit || first == SawExit || second == SawExit)
  {
    SentMore(log, first);
    SentMore(log + [first], second);
    hide SentIn;
  }

  lemma {:induction false} RunSends(a: Attempt, events: seq<Event>, last: Attempt)
    requires Armed(a) && Run(a, events, last)
    ensures Armed(last)
    ensures var s, t := SentIn(a.log), SentIn(last.log);
            && (t.term <==> s.term || (!a.settled && GivesUpWhen(a.processId.Some?, events, true)))
            && (t.kill <==> s.kill || GraceOver in events)
            && (t.cancel <==>
                s.cancel || GraceOver in events || (!a.settled && GivesUpWhen(a.processId.Some?, events, false)))
            && (t.exit <==> s.exit || exists id :: Data(id, true) in events)
    decreases |events|
  {
    hide SentIn;
    if events != [] {
      StepSends(a, events[0]);
      assert GivesUp(events[0]) ==> !a.settled;
      hide Next, Armed, Enabled;
      RunSends(Next(a, events[0]), events[1..], last);
      assert events == [events[0]] + events[1..];
      assert events[0].Data? && events[0].exit ==> Data(events[0].processId, true) == events[0];
    }
  }

  // Which timers, listeners and handlers are attached.
  ghost predicate Attached(a: Attempt, timeout: bool, signal: Signal) {
    && (a.timer <==> timeout && !a.settled)
    && (a.listening <==> signal == Pending && !a.settled)
    && (a.streaming <==> signal != AlreadyAborted)
  }

  lemma {:induction false} RunAttached(a: Attempt, events: seq<Event>, last: Attempt, timeout: bool, signal: Signal)
    requires Attached(a, timeout, signal) && Run(a, events, last)
    ensures Attached(last, timeout, signal)
    decreases |events|
  {
    if events != [] {
      var next := Next(a, events[0]);
      assert Attached(next, timeout, signal);
      hide Next, Attached, Enabled;
      RunAttached(next, events[1..], last, timeout, signal);
    }
  }

  // What can still happen: a timeout if one was set and an abort if one can be heard,
  // until the attempt is settled; the stream's events unless it was aborted from the
  // start. What it does at the start is nothing, or to give up.
  lemma HappensExactly(timeout: bool, signal: Signal, events: seq<Event>, last: Attempt)
    requires Run(Start(timeout, signal), events, last)
    ensures Enabled(last, Timeout) <==> timeout && !last.settled
    ensures Enabled(last, Abort) <==> signal == Pending && !last.settled
    ensures forall id, exit :: Enabled(last, Data(id, exit)) <==> signal != AlreadyAborted
    ensures Enabled(last, StreamError) <==> signal != AlreadyAborted
    ensures Enabled(last, StreamEnd) <==> signal != AlreadyAborted
    ensures Start(timeout, signal).log == if signal == AlreadyAborted then [CancelStream, Settle(Aborted)] else []
  {
    assert Attached(Start(timeout, signal), timeout, signal);
    RunAttached(Start(timeout, signal), events, last, timeout, signal);
  }

  // In every order of events the command is asked to end exactly if the attempt gave up
  // knowing its process; it is killed exactly if the grace timer fired, which runs from
  // then until it fires or the command says it exited; and the stream is cancelled
  // exactly if the attempt gave up with no process known, or killed.
  lemma SendsExactly(timeout: bool, signal: Signal, events: seq<Event>, last: Attempt)
    requires Run(Start(timeout, signal), events, last)
    ensures Term in last.log <==> signal != AlreadyAborted && GivesUpWhen(false, events, true)
    ensures Kill in last.log <==> GraceOver in events
    ensures CancelStream in last.log <==>
            signal == AlreadyAborted || GraceOver in events || GivesUpWhen(false, events, false)
    ensures last.killTimer <==>
            Term in last.log && GraceOver !in events && forall id :: Data(id, true) !in events
  {
    var a := Start(timeout, signal);
    assert Armed(a);
    RunSends(a, events, last);
  }

  // ----- The attempt's handlers -----

  class Exec {
    var processId: Option<string>
    var timer: bool
    var killTimer: bool
    var listening: bool
    var streaming: bool
    var settled: bool
    var log: seq<Effect>

    function State(): Attempt
      reads this
    {
      Attempt(processId, timer, killTimer, listening, streaming, settled, log)
    }

    constructor (timeout: bool, signal: Signal)
      ensures State() == Start(timeout, signal) && Inv(State())
    {
      processId, timer, killTimer, listening, streaming, settled := None, timeout, false, false, false, false;
      log := [];
      new;
      StartKeeps(timeout, signal);
      if signal == AlreadyAborted {
        GiveUp(Aborted);
      } else {
        listening := signal == Pending;
        streaming := true;
      }
    }

    method Finish(outcome: Outcome)
      modifies this
      ensures State() == SettleOnce(old(State()), outcome)
    {
      if settled { return; }
      settled, timer, listening := true, false, false;
      log := log + [Settle(outcome)];
    }

    method GiveUp(outcome: Outcome)
      modifies this
      ensures State() == AbortWith(old(State()), outcome)
    {
      if processId.None? {
        log := log + [CancelStream];
      } else {
        log := log + [Term];
        killTimer := true;
      }
      Finish(outcome);
    }

    method Handle(e: Event)
      requires Inv(State()) && Enabled(State(), e)
      modifies this
      ensures State() == Next(old(State()), e) && Inv(State())
    {
      hide Inv, SettleOnce, AbortWith;
      NextKeeps(State(), e);
      match e {
        case Data(id, exit) =>
          if id.Some? && id.value != "" { processId := id; }
          if exit {
            killTimer := false;
            log := log + [SawExit];
            Finish(Exited);
          }
        case StreamError => Finish(Failed);
        case StreamEnd => Finish(EndedEarly);
        case Timeout =>
          timer := false;
          GiveUp(TimedOut);
        case Abort =>
          listening := false;
          GiveUp(Aborted);
        case GraceOver =>
          killTimer := false;
          if processId.Some? { log := log + [Kill]; }
          log := log + [CancelStream];
      }
    }
  }
}
