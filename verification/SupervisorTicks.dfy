/**
Whose turn it is: what one tick does while a child is bridged and while a retry
is awaited, and that everything that arrives is taken in once, in order, until
its channel closes.
*/
module SupervisorTicks {
  import opened Options
  import opened AgentEvents
  import opened Supervisor
  import opened SupervisorRuns

  // ----------------------------------------------- what waits at this tick

  function Killed(s: State, t: Tick): bool { s.caller.killSent || t.kill }

  function Interrupts(s: State, t: Tick): seq<Control> { s.caller.controls + (if s.caller.controlsClosed then [] else t.controls) }

  function Mail(s: State, t: Tick): seq<Message> { s.caller.inputs + (if s.caller.inputsClosed then [] else t.inputs) }

  function Hearable(s: State, t: Tick): seq<AgentEvent> { s.live.queue + (if s.live.closed then [] else t.events) }

  predicate Gone(s: State, t: Tick) { s.caller.inputsClosed || t.closeInputs }

  /** Neither a kill nor an interrupt, nor the end of interrupts, to attend to first. */
  predicate Calm(s: State, t: Tick) {
    && !Killed(s, t)
    && (s.controlOpen ==> Interrupts(s, t) == [] && !s.caller.controlsClosed && !t.closeControls)
  }

  /** No message was offered, no event taken and no child spawned. */
  ghost predicate Untouched(s: State, s': State) {
    && s'.past == s.past && s'.live.stdin == s.live.stdin && s'.live.received == s.live.received
    && Payload(s'.emitted) == Payload(s.emitted)
  }

  /**
  One tick with a child bridged, in the order of the biased select: a kill ends
  the run; then one interrupt goes to the child; then the first waiting message,
  and a child that does not take it ends the run; then a caller who has gone
  ends it; only then is an event heard, and a silent closed child classified.
  */
  ghost predicate Biased(p: Policy, s: State, t: Tick, s': State) {
    && (Killed(s, t) ==> s'.phase == Ended(KilledByCaller) && s'.live.killed && Untouched(s, s'))
    && (!Killed(s, t) && s.controlOpen && Interrupts(s, t) != [] ==>
          && s'.phase.Bridging? && Untouched(s, s') && s'.caller.controls == Interrupts(s, t)[1..]
          && s'.live.controls == s.live.controls + (if t.acceptsControl then [Interrupts(s, t)[0]] else []))
    && (!Killed(s, t) && s.controlOpen && Interrupts(s, t) == [] && !Calm(s, t) ==>
          s'.phase.Bridging? && Untouched(s, s') && !s'.controlOpen)
    && (Calm(s, t) && Mail(s, t) != [] && t.accepts ==>
          && s'.phase.Bridging? && s'.live.stdin == s.live.stdin + [User(Mail(s, t)[0])]
          && s'.caller.inputs == Mail(s, t)[1..] && s'.live.received == s.live.received && s'.emitted == s.emitted)
    && (Calm(s, t) && Mail(s, t) != [] && !t.accepts ==>
          s'.phase == Ended(ChildDeaf(Mail(s, t)[0])) && s'.live.killed && Untouched(s, s'))
    && (Calm(s, t) && Mail(s, t) == [] && Gone(s, t) ==>
          s'.phase == Ended(CallerGone) && s'.live.killed && Untouched(s, s'))
    && (Calm(s, t) && Mail(s, t) == [] && !Gone(s, t) && Hearable(s, t) != [] ==>
          && s'.phase.Bridging? && s'.live.received == s.live.received + [Hearable(s, t)[0]]
          && s'.live.queue == Hearable(s, t)[1..] && s'.live.stdin == s.live.stdin)
    && (Calm(s, t) && Mail(s, t) == [] && !Gone(s, t) && Hearable(s, t) == [] && (s.live.closed || t.closeEvents) ==>
          var failed := Retryable(LastTurnError(s.live.received));
          && Untouched(s, s')
          && (failed && TrailingRetries(s.emitted) < p.maxRetries ==> s'.phase.BackingOff?)
          && (failed && TrailingRetries(s.emitted) >= p.maxRetries ==> s'.phase == Ended(BudgetSpent))
          && (!failed ==> s'.phase == Ended(ChildFinished)))
    && (Calm(s, t) && Mail(s, t) == [] && !Gone(s, t) && Hearable(s, t) == [] && !s.live.closed && !t.closeEvents ==>
          s'.phase.Bridging? && Untouched(s, s') && s'.emitted == s.emitted)
  }

  lemma ArriveIs(s: State, t: Tick)
    ensures var a := Arrive(s, t);
            && a == s.(caller := a.caller, sent := a.sent, live := s.live.(queue := a.live.queue, closed := a.live.closed))
            && a.caller.killSent == Killed(s, t) && a.caller.controls == Interrupts(s, t)
            && a.caller.controlsClosed == (s.caller.controlsClosed || t.closeControls)
            && a.caller.inputs == Mail(s, t) && a.caller.inputsClosed == Gone(s, t)
            && a.live.queue == Hearable(s, t) && a.live.closed == (s.live.closed || t.closeEvents)
            && a.sent == s.sent + (if s.caller.inputsClosed then [] else t.inputs)
  {
  }

  lemma CallerComesFirst(p: Policy, s: State, t: Tick)
    requires s.phase.Bridging? && (!Calm(s, t) || Mail(s, t) != [] || Gone(s, t))
    ensures Biased(p, s, t, Step(p, s, t))
  {
    hide Arrive, EndIncarnation, TakeEvent, Payload, Killed, Interrupts, Mail, Hearable, Gone, LastTurnError, TrailingRetries, Retryable;
    ArriveIs(s, t);
  }

  lemma ThenTheChild(p: Policy, s: State, t: Tick)
    requires s.phase.Bridging? && Calm(s, t) && Mail(s, t) == [] && !Gone(s, t) && Hearable(s, t) != []
    ensures Biased(p, s, t, Step(p, s, t))
  {
    hide Arrive, EndIncarnation, TakeEvent, Payload, Killed, Interrupts, Mail, Hearable, Gone, LastTurnError, TrailingRetries, Retryable;
    ArriveIs(s, t);
    TakeEventShape(Arrive(s, t));
  }

  /** How a silent closed child is classified. */
  lemma EndIsExact(p: Policy, s: State)
    requires s.consecutive == TrailingRetries(s.emitted) && s.lastError == LastTurnError(s.live.received)
    ensures var s', failed := EndIncarnation(p, s), Retryable(LastTurnError(s.live.received));
            && s'.past == s.past && s'.live == s.live && Payload(s'.emitted) == Payload(s.emitted)
            && (failed && TrailingRetries(s.emitted) < p.maxRetries ==> s'.phase.BackingOff?)
            && (failed && TrailingRetries(s.emitted) >= p.maxRetries ==> s'.phase == Ended(BudgetSpent))
            && (!failed ==> s'.phase == Ended(ChildFinished))
  {
    hide Payload, LastTurnError, TrailingRetries, Retryable, TransientError, Backoff;
    RetryableIs(s.lastError);
    AppendEmission(s.emitted, OwnHealth(Retrying));
    AppendEmission(s.emitted, OwnNotice(GaveUp(s.consecutive, StatusOf(s))));
  }

  lemma AndThenItsEnd(p: Policy, start: Option<string>, s: State, t: Tick)
    requires s.phase.Bridging? && Calm(s, t) && Mail(s, t) == [] && !Gone(s, t) && Hearable(s, t) == [] && Good(p, start, s)
    ensures Biased(p, s, t, Step(p, s, t))
  {
    hide Arrive, TakeEvent, EndIncarnation, Payload, Killed, Interrupts, Mail, Hearable, Gone, LastTurnError, TrailingRetries,
         Retryable, Good;
    ArriveIs(s, t);
    GoodForEnding(p, start, s);
    EndIsExact(p, Arrive(s, t));
  }

  lemma {:induction false} TickIsBiased(p: Policy, start: Option<string>, script: seq<Tick>, t: Tick)
    requires Run(p, start, script).phase.Bridging?
    ensures Biased(p, Run(p, start, script), t, Run(p, start, script + [t]))
  {
    hide Step, Biased, Good, Calm, Mail, Gone, Hearable;
    assert (script + [t])[..|script|] == script;
    RunKeeps(p, start, script);
    var s := Run(p, start, script);
    if !Calm(s, t) || Mail(s, t) != [] || Gone(s, t) {
      CallerComesFirst(p, s, t);
    } else if Hearable(s, t) != [] {
      ThenTheChild(p, s, t);
    } else {
      AndThenItsEnd(p, start, s, t);
    }
  }

  /** While the schedule runs nothing is relayed, heard or said; a kill then ends the run without a respawn, unless the sleep is over. */
  ghost predicate Patient(s: State, t: Tick, s': State) {
    && (s.phase.BackingOff? ==>
          && Incarnations(s') == Incarnations(s) && s'.emitted == s.emitted && s'.caller.inputs == Mail(s, t)
          && s'.caller.controls == Interrupts(s, t)
          && (!Killed(s, t) && !t.timer ==> s'.phase == s.phase)
          && (!Killed(s, t) && t.timer ==> s'.phase.Respawning?)
          && (Killed(s, t) && !t.timer ==> s'.phase == Ended(KilledByCaller))
          && (Killed(s, t) && t.timer ==> s'.phase == Ended(KilledByCaller) || s'.phase.Respawning?))
    && (s.phase.Respawning? ==>
          && s'.caller.inputs == Mail(s, t) && s'.caller.controls == Interrupts(s, t)
          && (t.spawned.SpawnOk? ==>
                && s'.phase.Nudging? && s'.past == Incarnations(s) && s'.emitted == s.emitted
                && s'.live.stdin == [] && s'.live.received == [] && s'.live.queue == [] && !s'.live.closed && !s'.live.killed)
          && (t.spawned.SpawnErr? ==> s'.phase == Ended(RespawnFailed) && Incarnations(s') == Incarnations(s)))
    && (s.phase.Nudging? ==>
          && s'.phase.Bridging? && s'.past == s.past && s'.emitted == s.emitted
          && s'.caller.inputs == Mail(s, t) && s'.caller.controls == Interrupts(s, t)
          && |s'.live.stdin| == 1 && s'.live.received == [])
  }

  lemma WaitSteps(p: Policy, start: Option<string>, s: State, t: Tick)
    requires Good(p, start, s) && !s.phase.Ended? && !s.phase.Bridging?
    ensures Patient(s, t, Step(p, s, t))
  {
    hide Arrive, EndIncarnation, TakeEvent, Killed, Interrupts, Mail, Hearable, Good, NudgedFirst;
    ArriveIs(s, t);
    GoodIsNudged(p, start, s);
    if s.phase.BackingOff? || s.phase.Respawning? { NothingMoreToHear(s, t); }
  }

  lemma NothingMoreToHear(s: State, t: Tick)
    requires s.live.closed && s.live.queue == []
    ensures Arrive(s, t).live == s.live
  {
  }

  lemma {:induction false} WaitIsExact(p: Policy, start: Option<string>, script: seq<Tick>, t: Tick)
    requires !Run(p, start, script).phase.Bridging? && !Run(p, start, script).phase.Ended?
    ensures Patient(Run(p, start, script), t, Run(p, start, script + [t]))
  {
    hide Step, Patient, Good;
    assert (script + [t])[..|script|] == script;
    RunKeeps(p, start, script);
    WaitSteps(p, start, Run(p, start, script), t);
  }

  // ------------------------------------------------------- what is taken in

  predicate SawKill(script: seq<Tick>) { exists m :: 0 <= m < |script| && script[m].kill }

  predicate SawInputsClose(script: seq<Tick>) { exists m :: 0 <= m < |script| && script[m].closeInputs }

  predicate SawControlsClose(script: seq<Tick>) { exists m :: 0 <= m < |script| && script[m].closeControls }

  /** Tick `m` closed the channel of the child that is still the live one. */
  ghost predicate HushedAt(p: Policy, start: Option<string>, script: seq<Tick>, m: nat) {
    m < |script| && script[m].closeEvents && |Run(p, start, script[..m]).past| == |Run(p, start, script).past|
  }

  ghost predicate ChildHushed(p: Policy, start: Option<string>, script: seq<Tick>) {
    exists m: nat :: HushedAt(p, start, script, m)
  }

  /** The messages of the ticks before the run ended and before the caller's channel closed. */
  ghost function MailSent(p: Policy, start: Option<string>, script: seq<Tick>): seq<Message> {
    if script == [] then []
    else
      var n := |script| - 1;
      MailSent(p, start, script[..n]) +
      (if Run(p, start, script[..n]).phase.Ended? || SawInputsClose(script[..n]) then [] else script[n].inputs)
  }

  ghost function InterruptsSent(p: Policy, start: Option<string>, script: seq<Tick>): seq<Control> {
    if script == [] then []
    else
      var n := |script| - 1;
      InterruptsSent(p, start, script[..n]) +
      (if Run(p, start, script[..n]).phase.Ended? || SawControlsClose(script[..n]) then [] else script[n].controls)
  }

  /** The events of the ticks at which the live child's channel was open. */
  ghost function Spoken(p: Policy, start: Option<string>, script: seq<Tick>): seq<AgentEvent> {
    if script == [] then []
    else
      var n := |script| - 1;
      Spoken(p, start, script[..n]) +
      (if Run(p, start, script[..n]).phase.Ended? || ChildHushed(p, start, script[..n]) then [] else script[n].events)
  }

  function AllControls(incs: seq<Incarnation>): seq<Control> {
    if incs == [] then [] else AllControls(incs[..|incs| - 1]) + incs[|incs| - 1].controls
  }

  /** `part` is `whole` with some entries left out. */
  predicate Among(part: seq<Control>, whole: seq<Control>) {
    if part == [] then true
    else if whole == [] then false
    else
      var m, n := |part| - 1, |whole| - 1;
      (part[m] == whole[n] && Among(part[..m], whole[..n])) || Among(part, whole[..n])
  }

  /** The flags of the channels, and what has been said so far, are those of the ticks. */
  ghost predicate TakenIn(p: Policy, start: Option<string>, script: seq<Tick>) {
    var s := Run(p, start, script);
    && s.sent == MailSent(p, start, script)
    && AllProduced(Incarnations(s)) == Spoken(p, start, script)
    && (!s.phase.Ended? ==>
          && (s.caller.killSent <==> SawKill(script))
          && (s.caller.inputsClosed <==> SawInputsClose(script))
          && (s.caller.controlsClosed <==> SawControlsClose(script))
          && (s.live.closed <==> ChildHushed(p, start, script)))
  }

  /** What was sent, and the caller's channels, are as they were. */
  ghost predicate ChannelsKept(s: State, s': State) {
    && s'.sent == s.sent && s'.caller.killSent == s.caller.killSent
    && s'.caller.inputsClosed == s.caller.inputsClosed && s'.caller.controlsClosed == s.caller.controlsClosed
  }

  /** No child was added, and the live one has produced what it had. */
  ghost predicate ChildKept(s: State, s': State) {
    && s'.past == s.past && s'.live.closed == s.live.closed
    && s'.live.received + s'.live.queue == s.live.received + s.live.queue
  }

  lemma TakeKeepsChild(s: State)
    requires s.live.queue != []
    ensures ChannelsKept(s, TakeEvent(s)) && ChildKept(s, TakeEvent(s))
  {
    hide TakeEvent;
    TakeEventShape(s);
    assert [s.live.queue[0]] + s.live.queue[1..] == s.live.queue;
  }

  lemma EndKeepsChild(p: Policy, s: State)
    ensures ChannelsKept(s, EndIncarnation(p, s)) && ChildKept(s, EndIncarnation(p, s))
  {
    hide EndIncarnation;
    EndShape(p, s);
  }

  /** What an arm may do to the channels it does not read. */
  lemma FireShape(p: Policy, s: State, arm: Arm)
    requires Ready(s, arm)
    ensures var s' := Fire(p, s, arm);
            && ChannelsKept(s, s')
            && (arm == SpawnArm(SpawnOk) ==> s'.past == s.past + [s.live] && s'.live == Fresh(s.resume))
            && (arm != SpawnArm(SpawnOk) ==> ChildKept(s, s'))
  {
    hide TakeEvent, EndIncarnation;
    match arm {
      case EventArm => TakeKeepsChild(s);
      case ChannelClosedArm => EndKeepsChild(p, s);
      case _ =>
    }
  }

  lemma OneMoreProduced(s: State, events: seq<AgentEvent>, inc: Incarnation)
    requires Produced(inc) == Produced(s.live) + events
    ensures AllProduced(s.past + [inc]) == AllProduced(Incarnations(s)) + events
  {
    hide Produced, AllProduced;
    AppendIncarnation(s.past, inc);
    AppendIncarnation(s.past, s.live);
    assert AllProduced(s.past) + (Produced(s.live) + events) == AllProduced(s.past) + Produced(s.live) + events;
  }

  lemma StepProduces(p: Policy, s: State, t: Tick)
    requires !s.phase.Ended?
    ensures AllProduced(Incarnations(Step(p, s, t))) ==
            AllProduced(Incarnations(s)) + (if s.live.closed then [] else t.events)
  {
    hide Fire, AllProduced, Arrive;
    var a := Arrive(s, t);
    var events := if s.live.closed then [] else t.events;
    ArriveIs(s, t);
    assert s.live.received + (s.live.queue + events) == s.live.received + s.live.queue + events;
    OneMoreProduced(s, events, a.live);
    var arm := Select(a, t);
    var s' := Fire(p, a, arm);
    FireShape(p, a, arm);
    if arm == SpawnArm(SpawnOk) {
      AppendIncarnation(s.past + [a.live], s'.live);
      assert AllProduced(s.past + [a.live]) + [] == AllProduced(s.past + [a.live]);
    } else {
      OneMoreProduced(a, [], s'.live);
      assert AllProduced(Incarnations(a)) + [] == AllProduced(Incarnations(a));
    }
  }

  lemma StepFlags(p: Policy, s: State, t: Tick)
    requires !s.phase.Ended?
    ensures var s' := Step(p, s, t);
            && s'.sent == s.sent + (if s.caller.inputsClosed then [] else t.inputs)
            && s'.caller.killSent == (s.caller.killSent || t.kill)
            && s'.caller.inputsClosed == (s.caller.inputsClosed || t.closeInputs)
            && s'.caller.controlsClosed == (s.caller.controlsClosed || t.closeControls)
            && ((s'.past == s.past && s'.live.closed == (s.live.closed || t.closeEvents))
                || (|s'.past| == |s.past| + 1 && !s'.live.closed))
  {
    hide Fire, Arrive;
    ArriveIs(s, t);
    FireShape(p, Arrive(s, t), Select(Arrive(s, t), t));
  }

  lemma {:induction false} PastGrows(p: Policy, start: Option<string>, script: seq<Tick>, m: nat)
    requires m <= |script|
    ensures |Run(p, start, script[..m]).past| <= |Run(p, start, script).past|
  {
    if m == |script| {
      assert script[..m] == script;
    } else {
      hide Step;
      var n := |script| - 1;
      PastGrows(p, start, script[..n], m);
      assert script[..n][..m] == script[..m];
      if !Run(p, start, script[..n]).phase.Ended? {
        StepFlags(p, Run(p, start, script[..n]), script[n]);
      } else {
        EndedStep(p, Run(p, start, script[..n]), script[n]);
      }
    }
  }

  lemma HushedEarlier(p: Policy, start: Option<string>, script: seq<Tick>, m: nat)
    requires m < |script| - 1
    ensures var prev := script[..|script| - 1];
            && |Run(p, start, script[..m]).past| <= |Run(p, start, prev).past|
            && (|Run(p, start, script).past| == |Run(p, start, prev).past| ==>
                  (HushedAt(p, start, script, m) <==> HushedAt(p, start, prev, m)))
  {
    hide Run;
    var prev := script[..|script| - 1];
    assert prev[..m] == script[..m];
    PastGrows(p, start, prev, m);
  }

  lemma HushedStep(p: Policy, start: Option<string>, script: seq<Tick>)
    requires script != []
    ensures var n := |script| - 1;
            var s, s' := Run(p, start, script[..n]), Run(p, start, script);
            && (|s'.past| == |s.past| ==> (ChildHushed(p, start, script) <==> ChildHushed(p, start, script[..n]) || script[n].closeEvents))
            && (|s'.past| == |s.past| + 1 ==> !ChildHushed(p, start, script))
  {
    hide HushedAt;
    var n := |script| - 1;
    var prev := script[..n];
    forall m: nat
      ensures HushedAt(p, start, script, m) ==> m <= n
      ensures HushedAt(p, start, prev, m) ==> m < n
      ensures |Run(p, start, script).past| == |Run(p, start, prev).past| && m < n ==>
                (HushedAt(p, start, script, m) <==> HushedAt(p, start, prev, m))
      ensures |Run(p, start, script).past| == |Run(p, start, prev).past| + 1 ==> !HushedAt(p, start, script, m)
    {
      HushedOrNot(p, start, script, m);
    }
    HushedNow(p, start, script);
    hide Run;
  }

  lemma HushedOrNot(p: Policy, start: Option<string>, script: seq<Tick>, m: nat)
    requires script != []
    ensures var n := |script| - 1;
            var prev := script[..n];
            && (HushedAt(p, start, script, m) ==> m <= n) && (HushedAt(p, start, prev, m) ==> m < n)
            && (|Run(p, start, script).past| == |Run(p, start, prev).past| && m < n ==>
                  (HushedAt(p, start, script, m) <==> HushedAt(p, start, prev, m)))
            && (|Run(p, start, script).past| == |Run(p, start, prev).past| + 1 ==> !HushedAt(p, start, script, m))
  {
    hide Run;
    if m < |script| - 1 { HushedEarlier(p, start, script, m); }
  }

  lemma HushedNow(p: Policy, start: Option<string>, script: seq<Tick>)
    requires script != []
    ensures var n := |script| - 1;
            |Run(p, start, script).past| == |Run(p, start, script[..n]).past| ==>
              (HushedAt(p, start, script, n) <==> script[n].closeEvents)
  {
    hide Run;
  }

  lemma SawStep(script: seq<Tick>)
    requires script != []
    ensures var n := |script| - 1;
            && (SawKill(script) <==> SawKill(script[..n]) || script[n].kill)
            && (SawInputsClose(script) <==> SawInputsClose(script[..n]) || script[n].closeInputs)
            && (SawControlsClose(script) <==> SawControlsClose(script[..n]) || script[n].closeControls)
  {
    var prev := script[..|script| - 1];
    assert forall m :: 0 <= m < |prev| ==> prev[m] == script[m];
  }

  /**
  Everything that arrives is taken in once and in order: the messages counted as
  sent are those of the ticks before the end of the run and of their channel,
  the children's events those of the ticks at which the live one was open, and
  a closed channel or a kill is remembered.
  */
  lemma {:induction false} ArrivalsAreTaken(p: Policy, start: Option<string>, script: seq<Tick>)
    ensures TakenIn(p, start, script)
  {
    if script == [] {
      NothingTaken(p, start);
    } else {
      hide Step, AllProduced, TakenIn;
      var n := |script| - 1;
      ArrivalsAreTaken(p, start, script[..n]);
      if Run(p, start, script[..n]).phase.Ended? {
        EndedTakesNothing(p, start, script);
      } else {
        TakenStep(p, start, script);
      }
    }
  }

  lemma NothingTaken(p: Policy, start: Option<string>)
    ensures TakenIn(p, start, [])
  {
    var s := Start(start);
    assert s.past + [s.live] == [s.live] && [s.live][..0] == [];
  }

  lemma EndedTakesNothing(p: Policy, start: Option<string>, script: seq<Tick>)
    requires script != [] && Run(p, start, script[..|script| - 1]).phase.Ended? && TakenIn(p, start, script[..|script| - 1])
    ensures TakenIn(p, start, script)
  {
    hide Step, AllProduced;
    EndedStep(p, Run(p, start, script[..|script| - 1]), script[|script| - 1]);
  }

  lemma TakenStep(p: Policy, start: Option<string>, script: seq<Tick>)
    requires script != [] && !Run(p, start, script[..|script| - 1]).phase.Ended? && TakenIn(p, start, script[..|script| - 1])
    ensures TakenIn(p, start, script)
  {
    hide Step, AllProduced, ChildHushed, SawKill, SawInputsClose, SawControlsClose;
    var n := |script| - 1;
    var s := Run(p, start, script[..n]);
    SawStep(script);
    HushedStep(p, start, script);
    StepProduces(p, s, script[n]);
    StepFlags(p, s, script[n]);
  }

  // ------------------------------------------------- interrupts, over a run

  lemma AmongMore(part: seq<Control>, whole: seq<Control>, x: Control)
    requires Among(part, whole)
    ensures Among(part, whole + [x]) && Among(part + [x], whole + [x])
  {
    assert (whole + [x])[..|whole|] == whole && (part + [x])[..|part|] == part;
  }

  lemma {:induction false} AmongThem(part: seq<Control>, whole: seq<Control>, more: seq<Control>)
    requires Among(part, whole)
    ensures Among(part, whole + more)
    decreases |more|
  {
    hide Among;
    if more == [] {
      assert whole + more == whole;
    } else {
      var n := |more| - 1;
      AmongThem(part, whole, more[..n]);
      AmongMore(part, whole + more[..n], more[n]);
      assert whole + more == whole + more[..n] + [more[n]];
    }
  }

  lemma ControlsOf(past: seq<Incarnation>, live: Incarnation)
    ensures AllControls(past + [live]) == AllControls(past) + live.controls
  {
    assert (past + [live])[..|past|] == past;
  }

  /** An arm takes at most one interrupt, the first, and the child has it or it is dropped. */
  lemma FireControls(p: Policy, s: State, arm: Arm) returns (gone: seq<Control>)
    requires Ready(s, arm)
    ensures gone + Fire(p, s, arm).caller.controls == s.caller.controls && |gone| <= 1
    ensures var before, after := AllControls(Incarnations(s)), AllControls(Incarnations(Fire(p, s, arm)));
            after == before || (|gone| == 1 && after == before + gone)
  {
    hide TakeEvent, EndIncarnation, AllControls;
    var s' := Fire(p, s, arm);
    gone := [];
    ControlsOf(s.past, s.live);
    ControlsOf(s'.past, s'.live);
    match arm {
      case ControlArm(accepted) =>
        gone := [s.caller.controls[0]];
        assert gone + s.caller.controls[1..] == s.caller.controls;
        assert AllControls(s.past) + (s.live.controls + gone) == AllControls(s.past) + s.live.controls + gone;
      case EventArm => TakeEventShape(s);
      case ChannelClosedArm => EndShape(p, s);
      case SpawnArm(SpawnOk) =>
        assert s'.past == s.past + [s.live];
        assert AllControls(s'.past) + [] == AllControls(s'.past);
      case _ =>
    }
  }

  /** Of the interrupts sent, `taken` came first; the others wait; and those the children got are among the former. */
  ghost predicate InterruptsSplit(p: Policy, start: Option<string>, script: seq<Tick>, taken: seq<Control>) {
    && taken + Run(p, start, script).caller.controls == InterruptsSent(p, start, script)
    && Among(AllControls(Incarnations(Run(p, start, script))), taken)
  }

  lemma SplitStep(p: Policy, start: Option<string>, script: seq<Tick>, taken: seq<Control>) returns (now: seq<Control>)
    requires script != [] && InterruptsSplit(p, start, script[..|script| - 1], taken)
    ensures InterruptsSplit(p, start, script, now)
  {
    hide Step, AllControls, Among, SawControlsClose, TakenIn;
    var n := |script| - 1;
    var s := Run(p, start, script[..n]);
    if s.phase.Ended? {
      EndedStep(p, s, script[n]);
      now := taken;
      assert InterruptsSent(p, start, script) == InterruptsSent(p, start, script[..n]) + [];
    } else {
      ControlsClosedIs(p, start, script[..n]);
      var gone := StepControls(p, s, script[n], taken);
      var more := if s.caller.controlsClosed then [] else script[n].controls;
      now := taken + gone;
      FourPieces(taken, gone, Run(p, start, script).caller.controls, s.caller.controls, more);
    }
  }

  lemma FourPieces(taken: seq<Control>, gone: seq<Control>, left: seq<Control>, before: seq<Control>, more: seq<Control>)
    requires gone + left == before + more
    ensures (taken + gone) + left == (taken + before) + more
  {
    assert (taken + gone) + left == taken + (gone + left);
    assert (taken + before) + more == taken + (before + more);
  }

  /** Interrupts are taken in the order they were sent; the children get some of them, in that order, and no others. */
  lemma {:induction false} InterruptsInOrder(p: Policy, start: Option<string>, script: seq<Tick>) returns (taken: seq<Control>)
    ensures InterruptsSplit(p, start, script, taken)
  {
    hide InterruptsSplit;
    if script == [] {
      NoControls(p, start);
      taken := [];
    } else {
      taken := InterruptsInOrder(p, start, script[..|script| - 1]);
      taken := SplitStep(p, start, script, taken);
    }
  }

  lemma NoControls(p: Policy, start: Option<string>)
    ensures InterruptsSplit(p, start, [], [])
  {
    var s := Start(start);
    ControlsOf(s.past, s.live);
  }

  lemma ControlsClosedIs(p: Policy, start: Option<string>, script: seq<Tick>)
    requires !Run(p, start, script).phase.Ended?
    ensures Run(p, start, script).caller.controlsClosed <==> SawControlsClose(script)
  {
    hide Run, SawControlsClose;
    ArrivalsAreTaken(p, start, script);
  }

  lemma StepControls(p: Policy, s: State, t: Tick, taken: seq<Control>) returns (gone: seq<Control>)
    requires !s.phase.Ended? && Among(AllControls(Incarnations(s)), taken)
    ensures var s' := Step(p, s, t);
            && gone + s'.caller.controls == s.caller.controls + (if s.caller.controlsClosed then [] else t.controls)
            && Among(AllControls(Incarnations(s')), taken + gone)
  {
    hide Fire, AllControls, Arrive, Among;
    var a := Arrive(s, t);
    ArriveIs(s, t);
    ControlsOf(s.past, s.live);
    ControlsOf(a.past, a.live);
    gone := FireControls(p, a, Select(a, t));
    if gone == [] {
      assert taken + gone == taken;
    } else {
      assert gone == [gone[0]];
      AmongMore(AllControls(Incarnations(s)), taken, gone[0]);
    }
  }
}
