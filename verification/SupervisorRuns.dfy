/**
What every run of the retry supervisor keeps: order and conservation of
messages and events across respawns, the retry budget, and the force of a kill.
*/
module SupervisorRuns {
  import opened Options
  import opened AgentEvents
  import opened Supervisor

  // ------------------------------------------------ reading a run's history

  function Incarnations(s: State): seq<Incarnation> { s.past + [s.live] }

  /** The caller's messages among the lines offered to one child. */
  function UserLines(stdin: seq<Stdin>): seq<Message> {
    if stdin == [] then []
    else
      var last := stdin[|stdin| - 1];
      UserLines(stdin[..|stdin| - 1]) + (if last.User? then [last.msg] else [])
  }

  function AllUserLines(incs: seq<Incarnation>): seq<Message> {
    if incs == [] then [] else AllUserLines(incs[..|incs| - 1]) + UserLines(incs[|incs| - 1].stdin)
  }

  /** A child's events without its `Exited` markers. */
  function Visible(events: seq<AgentEvent>): seq<AgentEvent> {
    if events == [] then []
    else
      var last := events[|events| - 1];
      Visible(events[..|events| - 1]) + (if last.Exited? then [] else [last])
  }

  function AllVisible(incs: seq<Incarnation>): seq<AgentEvent> {
    if incs == [] then [] else AllVisible(incs[..|incs| - 1]) + Visible(incs[|incs| - 1].received)
  }

  /** Everything one child ever produced: what was taken, then what is queued. */
  function Produced(inc: Incarnation): seq<AgentEvent> { inc.received + inc.queue }

  function AllProduced(incs: seq<Incarnation>): seq<AgentEvent> {
    if incs == [] then [] else AllProduced(incs[..|incs| - 1]) + Produced(incs[|incs| - 1])
  }

  /** The caller's stream without the supervisor's own events. */
  function Payload(emitted: seq<Emission>): seq<AgentEvent> {
    if emitted == [] then []
    else
      var last := emitted[|emitted| - 1];
      Payload(emitted[..|emitted| - 1]) + (if last.Forwarded? then [last.ev] else [])
  }

  /** The error status the last finished turn left behind, if it failed. */
  function LastTurnError(events: seq<AgentEvent>): Option<nat> {
    if events == [] then None
    else
      var last := events[|events| - 1];
      if last.TurnComplete? then (if last.isError then last.apiErrorStatus else None)
      else LastTurnError(events[..|events| - 1])
  }

  /** The most recent session id announced, or the one to start from. */
  function LatestSession(start: Option<string>, events: seq<AgentEvent>): Option<string> {
    if events == [] then start
    else
      var last := events[|events| - 1];
      if last.Init? && last.sessionId.Some? then last.sessionId
      else LatestSession(start, events[..|events| - 1])
  }

  function SessionAfter(start: Option<string>, incs: seq<Incarnation>): Option<string> {
    if incs == [] then start
    else LatestSession(SessionAfter(start, incs[..|incs| - 1]), incs[|incs| - 1].received)
  }

  /** The statuses worth a retry, one by one. */
  predicate Retryable(e: Option<nat>) {
    || e == Some(408) || e == Some(425) || e == Some(429) || e == Some(500)
    || e == Some(502) || e == Some(503) || e == Some(504) || e == Some(529)
  }

  lemma RetryableIs(e: Option<nat>)
    ensures TransientError(e) <==> Retryable(e)
  {
  }

  predicate CleanTurn(e: Emission) { e.Forwarded? && e.ev.TurnComplete? && !e.ev.isError }

  function CleanTurns(emitted: seq<Emission>): nat {
    if emitted == [] then 0
    else CleanTurns(emitted[..|emitted| - 1]) + (if CleanTurn(emitted[|emitted| - 1]) then 1 else 0)
  }

  function Retries(emitted: seq<Emission>): nat {
    if emitted == [] then 0
    else Retries(emitted[..|emitted| - 1]) + (if emitted[|emitted| - 1] == OwnHealth(Retrying) then 1 else 0)
  }

  /** Retries announced since the last clean turn. */
  function TrailingRetries(emitted: seq<Emission>): nat {
    if emitted == [] then 0
    else
      var last := emitted[|emitted| - 1];
      if CleanTurn(last) then 0
      else TrailingRetries(emitted[..|emitted| - 1]) + (if last == OwnHealth(Retrying) then 1 else 0)
  }

  function LastOwnHealth(emitted: seq<Emission>): Option<Health> {
    if emitted == [] then None
    else
      var last := emitted[|emitted| - 1];
      if last.OwnHealth? then Some(last.health) else LastOwnHealth(emitted[..|emitted| - 1])
  }

  function Lost(s: State): seq<Message> {
    if s.phase.Ended? && s.phase.why.ChildDeaf? then [s.phase.why.lost] else []
  }

  // ------------------------------------------------------------ invariants

  ghost predicate InputConserved(s: State) {
    AllUserLines(s.past) + UserLines(s.live.stdin) + Lost(s) + s.caller.inputs == s.sent
  }

  ghost predicate EventsConserved(s: State) {
    AllVisible(s.past) + Visible(s.live.received) == Payload(s.emitted)
  }

  /** A respawned child is offered its nudge, once, before anything else. */
  ghost predicate NudgedFirst(stdin: seq<Stdin>, respawned: bool) {
    forall i :: 0 <= i < |stdin| ==> (stdin[i].Nudge? <==> respawned && i == 0)
  }

  ghost predicate WellNudged(s: State) {
    && (forall k :: 0 <= k < |s.past| ==> NudgedFirst(s.past[k].stdin, k > 0) && (k > 0 ==> s.past[k].stdin != []))
    && NudgedFirst(s.live.stdin, |s.past| > 0)
    && (s.phase.Nudging? ==> s.live.stdin == [] && |s.past| > 0 && s.live.received == [] && s.pendingNudge.Some?)
    && (!s.phase.Nudging? && |s.past| > 0 ==> s.live.stdin != [])
    && (s.phase.Respawning? ==> s.pendingNudge.Some?)
  }

  /** Every child but the live one has said all it will ever say. */
  ghost predicate OneAlive(s: State) {
    && (forall k :: 0 <= k < |s.past| ==> s.past[k].closed && s.past[k].queue == [])
    && (s.phase.BackingOff? || s.phase.Respawning? ==> s.live.closed && s.live.queue == [])
    && (s.phase.Ended? ==> s.live.killed || (s.live.closed && s.live.queue == []))
  }

  /** The line names the status of the error that ended the child before. */
  ghost predicate AnswersError(line: Stdin, before: Incarnation) {
    line.Nudge? && Some(line.status) == LastTurnError(before.received)
  }

  /** `lastError` is the live child's last turn, and every respawn answers a transient one. */
  ghost predicate Justified(s: State) {
    && (!s.phase.Nudging? ==> s.lastError == LastTurnError(s.live.received))
    && (s.phase.BackingOff? || s.phase.Respawning? ==> TransientError(s.lastError))
    && (s.phase.Respawning? ==> s.pendingNudge == s.lastError)
    && (s.phase.Nudging? ==> |s.past| > 0 && s.pendingNudge == LastTurnError(s.past[|s.past| - 1].received))
    && PastJustified(s.past)
    && LiveAnswers(s)
  }

  ghost predicate LiveAnswers(s: State) {
    |s.past| > 0 && s.live.stdin != [] ==> AnswersError(s.live.stdin[0], s.past[|s.past| - 1])
  }

  ghost predicate PastJustified(past: seq<Incarnation>) {
    && (forall k :: 0 <= k < |past| ==> TransientError(LastTurnError(past[k].received)))
    && (forall k :: 0 < k < |past| ==> past[k].stdin != [] && AnswersError(past[k].stdin[0], past[k - 1]))
  }

  ghost predicate Resumes(start: Option<string>, s: State) {
    && s.resume == LatestSession(SessionAfter(start, s.past), s.live.received)
    && s.live.resume == SessionAfter(start, s.past)
    && (forall k :: 0 <= k < |s.past| ==> s.past[k].resume == SessionAfter(start, s.past[..k]))
  }

  ghost predicate Budgeted(p: Policy, s: State) {
    && s.consecutive <= p.maxRetries
    && s.consecutive == TrailingRetries(s.emitted)
    && (s.consecutive > 0 <==> LastOwnHealth(s.emitted) == Some(Retrying))
    && Retries(s.emitted) <= p.maxRetries * CleanTurns(s.emitted) + s.consecutive
    && |s.past| <= Retries(s.emitted) <= |s.past| + 1
    && (s.phase.BackingOff? || s.phase.Respawning? ==> Retries(s.emitted) == |s.past| + 1)
    && (s.phase.Nudging? || s.phase.Bridging? ==> Retries(s.emitted) == |s.past|)
    && (s.phase.BackingOff? ==> s.consecutive > 0 && s.phase.delay == Backoff(p, s.consecutive))
    && (s.phase.Ended? && s.phase.why.BudgetSpent? ==>
          s.consecutive == p.maxRetries && Retries(s.emitted) == |s.past| && TransientError(LastTurnError(s.live.received)))
  }

  // ------------------------------------------- one step keeps each invariant

  lemma AppendIncarnation(past: seq<Incarnation>, live: Incarnation)
    ensures (past + [live])[..|past|] == past
    ensures AllUserLines(past + [live]) == AllUserLines(past) + UserLines(live.stdin)
    ensures AllVisible(past + [live]) == AllVisible(past) + Visible(live.received)
    ensures AllProduced(past + [live]) == AllProduced(past) + Produced(live)
    ensures forall start :: SessionAfter(start, past + [live]) == LatestSession(SessionAfter(start, past), live.received)
  {
    assert (past + [live])[..|past|] == past;
  }

  lemma AppendLine(stdin: seq<Stdin>, line: Stdin)
    ensures UserLines(stdin + [line]) == UserLines(stdin) + (if line.User? then [line.msg] else [])
  {
    assert (stdin + [line])[..|stdin|] == stdin;
  }

  lemma AppendReceived(events: seq<AgentEvent>, ev: AgentEvent)
    ensures Visible(events + [ev]) == Visible(events) + (if ev.Exited? then [] else [ev])
    ensures LastTurnError(events + [ev]) ==
            if ev.TurnComplete? then (if ev.isError then ev.apiErrorStatus else None) else LastTurnError(events)
    ensures forall start :: LatestSession(start, events + [ev]) ==
                            if ev.Init? && ev.sessionId.Some? then ev.sessionId else LatestSession(start, events)
  {
    assert (events + [ev])[..|events|] == events;
  }

  lemma AppendEmission(emitted: seq<Emission>, e: Emission)
    ensures Payload(emitted + [e]) == Payload(emitted) + (if e.Forwarded? then [e.ev] else [])
    ensures CleanTurns(emitted + [e]) == CleanTurns(emitted) + (if CleanTurn(e) then 1 else 0)
    ensures Retries(emitted + [e]) == Retries(emitted) + (if e == OwnHealth(Retrying) then 1 else 0)
    ensures TrailingRetries(emitted + [e]) ==
            if CleanTurn(e) then 0 else TrailingRetries(emitted) + (if e == OwnHealth(Retrying) then 1 else 0)
    ensures LastOwnHealth(emitted + [e]) == if e.OwnHealth? then Some(e.health) else LastOwnHealth(emitted)
  {
    assert (emitted + [e])[..|emitted|] == emitted;
  }

  /** What taking one event off the child's channel does to the logs. */
  lemma TakeEventShape(s: State)
    requires s.live.queue != []
    ensures TakeEvent(s) == s.(live := TakeEvent(s).live, consecutive := TakeEvent(s).consecutive,
                               lastError := TakeEvent(s).lastError, resume := TakeEvent(s).resume,
                               emitted := TakeEvent(s).emitted)
    ensures TakeEvent(s).live == s.live.(queue := s.live.queue[1..], received := s.live.received + [s.live.queue[0]])
    ensures var ev := s.live.queue[0];
            && TakeEvent(s).consecutive == (if CleanTurn(Forwarded(ev)) then 0 else s.consecutive)
            && TakeEvent(s).lastError == (if ev.TurnComplete? then (if ev.isError then ev.apiErrorStatus else None) else s.lastError)
            && TakeEvent(s).resume == (if ev.Init? && ev.sessionId.Some? then ev.sessionId else s.resume)
            && TakeEvent(s).emitted == (if ev.Exited? then s.emitted
                                        else if CleanTurn(Forwarded(ev)) && s.consecutive > 0 then
                                          s.emitted + [OwnHealth(Running)] + [Forwarded(ev)]
                                        else s.emitted + [Forwarded(ev)])
  {
  }

  lemma InputKept(p: Policy, s: State, arm: Arm)
    requires InputConserved(s) && Ready(s, arm) && !s.phase.Ended?
    ensures InputConserved(Fire(p, s, arm))
  {
    hide UserLines, AllUserLines, TakeEvent, EndIncarnation;
    match arm {
      case NudgeArm => AppendLine(s.live.stdin, Nudge(s.pendingNudge.value));
      case InputArm(_) => RelayKeepsInput(p, s, arm);
      case EventArm => TakeEventShape(s);
      case ChannelClosedArm => EndShape(p, s);
      case SpawnArm(_) => AppendIncarnation(s.past, s.live); NoLines();
      case _ =>
    }
  }

  lemma RelayKeepsInput(p: Policy, s: State, arm: Arm)
    requires InputConserved(s) && Ready(s, arm) && !s.phase.Ended? && arm.InputArm?
    ensures InputConserved(Fire(p, s, arm))
  {
    hide UserLines, AllUserLines;
    var msg, rest := s.caller.inputs[0], s.caller.inputs[1..];
    AppendLine(s.live.stdin, User(msg));
    assert s.caller.inputs == [msg] + rest;
    OneMessageOver(AllUserLines(s.past), UserLines(s.live.stdin), msg, rest);
  }

  /** A message taken from what waits counts the same relayed or lost. */
  lemma OneMessageOver(past: seq<Message>, live: seq<Message>, msg: Message, rest: seq<Message>)
    ensures past + (live + [msg]) + [] + rest == past + live + [] + ([msg] + rest)
    ensures past + live + [msg] + rest == past + live + [] + ([msg] + rest)
  {
  }

  lemma NoLines()
    ensures UserLines([]) == [] && Visible([]) == [] && LastTurnError([]) == None
    ensures forall start :: LatestSession(start, []) == start
  {
  }

  lemma EndShape(p: Policy, s: State)
    ensures var s' := EndIncarnation(p, s);
            && s' == s.(phase := s'.phase, consecutive := s'.consecutive, emitted := s'.emitted)
            && (s'.phase.BackingOff? || s'.phase == Ended(BudgetSpent) || s'.phase == Ended(ChildFinished))
            && (s'.emitted == s.emitted
                || s'.emitted == s.emitted + [OwnHealth(Retrying)]
                || s'.emitted == s.emitted + [OwnNotice(GaveUp(s.consecutive, StatusOf(s)))])
  {
  }

  lemma EventsKept(p: Policy, s: State, arm: Arm)
    requires EventsConserved(s) && Ready(s, arm)
    ensures EventsConserved(Fire(p, s, arm))
  {
    hide Visible, Payload, AllVisible, TakeEvent, EndIncarnation;
    match arm {
      case EventArm => TakeKeepsEvents(s);
      case ChannelClosedArm => EndKeepsEvents(p, s);
      case SpawnArm(SpawnOk) => AppendIncarnation(s.past, s.live); NoLines();
      case SpawnArm(SpawnErr(e)) => AppendEmission(s.emitted, OwnNotice(CouldNotResume(StatusOf(s), e)));
      case _ =>
    }
  }

  lemma TakeKeepsEvents(s: State)
    requires EventsConserved(s) && s.live.queue != []
    ensures EventsConserved(TakeEvent(s))
  {
    hide Visible, Payload, AllVisible, TakeEvent;
    var ev := s.live.queue[0];
    TakeEventShape(s);
    AppendReceived(s.live.received, ev);
    AppendEmission(s.emitted, Forwarded(ev));
    AppendEmission(s.emitted, OwnHealth(Running));
    AppendEmission(s.emitted + [OwnHealth(Running)], Forwarded(ev));
    EventsAppend(AllVisible(s.past), Visible(s.live.received), if ev.Exited? then [] else [ev]);
    hide EventsConserved, CleanTurn;
    assert Payload(s.emitted) + [] == Payload(s.emitted);
    assert Payload(TakeEvent(s).emitted) == Payload(s.emitted) + if ev.Exited? then [] else [ev];
    assert Visible(TakeEvent(s).live.received) == Visible(s.live.received) + if ev.Exited? then [] else [ev];
  }

  lemma EventsAppend(a: seq<AgentEvent>, b: seq<AgentEvent>, more: seq<AgentEvent>)
    ensures (a + b) + more == a + (b + more)
  {
  }

  lemma EndKeepsEvents(p: Policy, s: State)
    requires EventsConserved(s)
    ensures EventsConserved(EndIncarnation(p, s))
  {
    hide Visible, Payload, AllVisible, EndIncarnation;
    EndShape(p, s);
    AppendEmission(s.emitted, OwnHealth(Retrying));
    AppendEmission(s.emitted, OwnNotice(GaveUp(s.consecutive, StatusOf(s))));
  }

  /** With the lines offered so far unchanged, only the phase can matter. */
  lemma SameLines(s: State, s': State)
    requires WellNudged(s) && !s.phase.Nudging?
    requires s'.past == s.past && s'.live.stdin == s.live.stdin
    requires !s'.phase.Nudging? && (s'.phase.Respawning? ==> s'.pendingNudge.Some?)
    ensures WellNudged(s')
  {
    hide NudgedFirst;
  }

  lemma NudgeLine(s: State, s': State, status: nat)
    requires WellNudged(s) && s.phase.Nudging?
    requires s'.past == s.past && s'.live.stdin == s.live.stdin + [Nudge(status)] && s'.phase.Bridging?
    ensures WellNudged(s')
  {
    assert NudgedFirst(s'.live.stdin, true);
    hide NudgedFirst;
  }

  lemma UserLine(s: State, s': State, msg: Message)
    requires WellNudged(s) && s.phase.Bridging?
    requires s'.past == s.past && s'.live.stdin == s.live.stdin + [User(msg)] && s'.phase.Bridging?
    ensures WellNudged(s')
  {
    assert NudgedFirst(s'.live.stdin, |s.past| > 0);
    hide NudgedFirst;
  }

  lemma SpawnLines(s: State, s': State)
    requires WellNudged(s) && s.phase.Respawning?
    requires s'.past == s.past + [s.live] && s'.live.stdin == [] && s'.live.received == []
    requires s'.phase.Nudging? && s'.pendingNudge == s.pendingNudge
    ensures WellNudged(s')
  {
    assert NudgedFirst([], true);
    hide NudgedFirst;
    forall k | 0 <= k < |s'.past|
      ensures NudgedFirst(s'.past[k].stdin, k > 0) && (k > 0 ==> s'.past[k].stdin != [])
    {
      if k < |s.past| { assert s'.past[k] == s.past[k]; }
    }
  }

  lemma NudgesKept(p: Policy, s: State, arm: Arm)
    requires WellNudged(s) && Ready(s, arm) && !s.phase.Ended?
    ensures WellNudged(Fire(p, s, arm))
  {
    hide TakeEvent, EndIncarnation, WellNudged;
    var s' := Fire(p, s, arm);
    match arm {
      case NudgeArm => NudgeLine(s, s', s.pendingNudge.value);
      case InputArm(accepted) =>
        if accepted { UserLine(s, s', s.caller.inputs[0]); } else { SameLines(s, s'); }
      case EventArm => TakeEventShape(s); SameLines(s, s');
      case ChannelClosedArm => EndShape(p, s); SameLines(s, s');
      case NothingReady =>
      case SpawnArm(SpawnOk) => SpawnLines(s, s');
      case SpawnArm(SpawnErr(_)) => SameLines(s, s');
      case _ => SameLines(s, s');
    }
  }

  lemma OneAliveKept(p: Policy, s: State, arm: Arm)
    requires OneAlive(s) && Ready(s, arm) && !s.phase.Ended?
    ensures OneAlive(Fire(p, s, arm))
  {
    hide TakeEvent, EndIncarnation;
    if arm.EventArm? { TakeEventShape(s); }
    if arm.ChannelClosedArm? { EndShape(p, s); }
  }

  /** An arm that leaves the history and the last error alone, and does not nudge. */
  lemma SameErrors(s: State, s': State)
    requires Justified(s) && !s.phase.Nudging? && !s'.phase.Nudging?
    requires s'.past == s.past && s'.live.stdin == s.live.stdin && s'.live.received == s.live.received && s'.lastError == s.lastError
    requires s'.phase.BackingOff? || s'.phase.Respawning? ==> TransientError(s.lastError)
    requires s'.phase.Respawning? ==> s'.pendingNudge == s'.lastError
    ensures Justified(s')
  {
    hide PastJustified, AnswersError, TransientError, LastTurnError;
  }

  lemma NudgeJustified(p: Policy, s: State)
    requires Justified(s) && WellNudged(s) && Ready(s, NudgeArm)
    ensures Justified(Fire(p, s, NudgeArm))
  {
    hide PastJustified, LastTurnError, TransientError, NudgedFirst;
    NoLines();
  }

  lemma InputJustified(p: Policy, s: State, arm: Arm)
    requires Justified(s) && WellNudged(s) && Ready(s, arm) && arm.InputArm?
    ensures Justified(Fire(p, s, arm))
  {
    hide PastJustified, LastTurnError, TransientError, NudgedFirst, AnswersError;
  }

  lemma TakeJustified(s: State)
    requires Justified(s) && s.phase.Bridging? && s.live.queue != []
    ensures Justified(TakeEvent(s))
  {
    hide PastJustified, LastTurnError, TransientError, AnswersError, TakeEvent;
    TakeEventShape(s);
    AppendReceived(s.live.received, s.live.queue[0]);
  }

  lemma EndJustified(p: Policy, s: State)
    requires Justified(s) && s.phase.Bridging?
    ensures Justified(EndIncarnation(p, s))
  {
    hide Justified, IsTransient, Backoff;
    SameErrors(s, EndIncarnation(p, s));
  }

  lemma JustifiedKept(p: Policy, s: State, arm: Arm)
    requires Justified(s) && WellNudged(s) && Ready(s, arm)
    ensures Justified(Fire(p, s, arm))
  {
    match arm {
      case NudgeArm => NudgeJustified(p, s);
      case InputArm(_) => InputJustified(p, s, arm);
      case EventArm => TakeJustified(s);
      case ChannelClosedArm => EndJustified(p, s);
      case NothingReady =>
      case TimerArm => TimerJustified(p, s);
      case SpawnArm(SpawnOk) => RespawnJustified(p, s);
      case SpawnArm(SpawnErr(_)) => hide Justified; SameErrors(s, Fire(p, s, arm));
      case _ => hide Justified; SameErrors(s, Fire(p, s, arm));
    }
    hide Justified, WellNudged, TakeEvent, EndIncarnation;
  }

  lemma TimerJustified(p: Policy, s: State)
    requires Justified(s) && s.phase.BackingOff?
    ensures Justified(Fire(p, s, TimerArm))
  {
    hide PastJustified, LastTurnError, IsTransient, AnswersError;
  }

  lemma RespawnJustified(p: Policy, s: State)
    requires Justified(s) && WellNudged(s) && s.phase.Respawning?
    ensures Justified(Fire(p, s, SpawnArm(SpawnOk)))
  {
    hide LastTurnError, IsTransient, NudgedFirst, PastJustified, AnswersError;
    LongerPast(s.past, s.live);
  }

  lemma LongerPast(past: seq<Incarnation>, live: Incarnation)
    requires PastJustified(past) && TransientError(LastTurnError(live.received))
    requires |past| > 0 ==> live.stdin != [] && AnswersError(live.stdin[0], past[|past| - 1])
    ensures PastJustified(past + [live])
  {
    hide LastTurnError, TransientError, AnswersError;
    var longer := past + [live];
    forall k | 0 <= k < |longer| ensures TransientError(LastTurnError(longer[k].received)) {
      if k < |past| { assert longer[k] == past[k]; }
    }
    forall k | 0 < k < |longer| ensures longer[k].stdin != [] && AnswersError(longer[k].stdin[0], longer[k - 1]) {
      if k < |past| { assert longer[k] == past[k] && longer[k - 1] == past[k - 1]; }
    }
  }

  lemma ResumesKept(p: Policy, start: Option<string>, s: State, arm: Arm)
    requires Resumes(start, s) && Ready(s, arm)
    ensures Resumes(start, Fire(p, s, arm))
  {
    hide LatestSession, SessionAfter, TakeEvent, EndIncarnation;
    match arm {
      case EventArm => TakeEventShape(s); AppendReceived(s.live.received, s.live.queue[0]);
      case ChannelClosedArm => EndShape(p, s);
      case SpawnArm(SpawnOk) => RespawnResumes(p, start, s);
      case _ =>
    }
  }

  lemma RespawnResumes(p: Policy, start: Option<string>, s: State)
    requires Resumes(start, s) && s.phase.Respawning?
    ensures Resumes(start, Fire(p, s, SpawnArm(SpawnOk)))
  {
    hide LatestSession, SessionAfter;
    AppendIncarnation(s.past, s.live);
    NoLines();
    var s', past := Fire(p, s, SpawnArm(SpawnOk)), s.past + [s.live];
    assert s.past[..|s.past|] == s.past;
    forall k | 0 <= k < |past| ensures past[k].resume == SessionAfter(start, past[..k]) {
      assert past[..k] == s.past[..k];
    }
  }

  lemma BudgetKept(p: Policy, s: State, arm: Arm)
    requires Budgeted(p, s) && Justified(s) && Ready(s, arm)
    ensures Budgeted(p, Fire(p, s, arm))
  {
    hide TakeEvent, Payload, CleanTurns, Retries, TrailingRetries, LastOwnHealth, LastTurnError, Backoff;
    match arm {
      case EventArm => TakeEventKeepsBudget(p, s);
      case ChannelClosedArm =>
        AppendEmission(s.emitted, OwnHealth(Retrying));
        AppendEmission(s.emitted, OwnNotice(GaveUp(s.consecutive, StatusOf(s))));
      case SpawnArm(SpawnErr(e)) => AppendEmission(s.emitted, OwnNotice(CouldNotResume(StatusOf(s), e)));
      case _ =>
    }
  }

  lemma TakeEventKeepsBudget(p: Policy, s: State)
    requires Budgeted(p, s) && s.live.queue != [] && s.phase.Bridging?
    ensures Budgeted(p, TakeEvent(s))
  {
    hide TakeEvent, Payload, CleanTurns, Retries, TrailingRetries, LastOwnHealth, LastTurnError, Backoff;
    var ev := s.live.queue[0];
    TakeEventShape(s);
    AppendEmission(s.emitted, Forwarded(ev));
    AppendEmission(s.emitted, OwnHealth(Running));
    AppendEmission(s.emitted + [OwnHealth(Running)], Forwarded(ev));
    if CleanTurn(Forwarded(ev)) {
      assert p.maxRetries * (CleanTurns(s.emitted) + 1) == p.maxRetries * CleanTurns(s.emitted) + p.maxRetries;
    }
  }

  // --------------------------------------------------- theorems about runs

  ghost predicate Good(p: Policy, start: Option<string>, s: State) {
    InputConserved(s) && EventsConserved(s) && WellNudged(s) && OneAlive(s) && Justified(s) && Resumes(start, s) && Budgeted(p, s)
  }

  lemma StartGood(p: Policy, start: Option<string>)
    ensures Good(p, start, Start(start))
  {
    StartKeepsOrder(start);
    StartKeepsCount(p, start);
    hide InputConserved, EventsConserved, WellNudged, OneAlive, Justified, Resumes, Budgeted;
  }

  lemma StartKeepsOrder(start: Option<string>)
    ensures var s := Start(start); InputConserved(s) && EventsConserved(s) && WellNudged(s) && OneAlive(s)
  {
  }

  lemma StartKeepsCount(p: Policy, start: Option<string>)
    ensures var s := Start(start); Justified(s) && Resumes(start, s) && Budgeted(p, s)
  {
    hide Backoff, IsTransient;
  }

  /** What an arrival may change: the channels, and with them what was sent. */
  lemma ArriveKeepsInput(s: State, t: Tick)
    requires InputConserved(s)
    ensures InputConserved(Arrive(s, t))
  {
    hide UserLines, AllUserLines;
    var a, b, more := AllUserLines(s.past) + UserLines(s.live.stdin) + Lost(s), s.caller.inputs, Accepted(s.caller, t);
    assert (a + b) + more == a + (b + more);
  }

  lemma ArriveKeepsAlive(s: State, t: Tick)
    requires OneAlive(s)
    ensures OneAlive(Arrive(s, t))
  {
  }

  lemma ArriveKeepsNudges(s: State, t: Tick)
    requires WellNudged(s)
    ensures WellNudged(Arrive(s, t))
  {
    hide NudgedFirst;
  }

  lemma ArriveKeepsErrors(s: State, t: Tick)
    requires Justified(s)
    ensures Justified(Arrive(s, t))
  {
    hide PastJustified, LastTurnError, TransientError, AnswersError;
  }

  lemma ArriveKeepsRest(p: Policy, start: Option<string>, s: State, t: Tick)
    requires EventsConserved(s) && Resumes(start, s) && Budgeted(p, s)
    ensures var a := Arrive(s, t); EventsConserved(a) && Resumes(start, a) && Budgeted(p, a)
  {
    hide Visible, AllVisible, Payload, LastTurnError, LatestSession, SessionAfter,
         CleanTurns, Retries, TrailingRetries, LastOwnHealth, Backoff, TransientError;
  }

  /** Arrivals touch only channels: no invariant can see them, except through what was sent. */
  lemma ArriveKeeps(p: Policy, start: Option<string>, s: State, t: Tick)
    requires Good(p, start, s)
    ensures Good(p, start, Arrive(s, t))
  {
    hide Arrive, InputConserved, EventsConserved, WellNudged, OneAlive, Justified, Resumes, Budgeted;
    ArriveKeepsInput(s, t);
    ArriveKeepsAlive(s, t);
    ArriveKeepsNudges(s, t);
    ArriveKeepsErrors(s, t);
    ArriveKeepsRest(p, start, s, t);
  }

  lemma FireKeeps(p: Policy, start: Option<string>, s: State, arm: Arm)
    requires Good(p, start, s) && Ready(s, arm) && !s.phase.Ended?
    ensures Good(p, start, Fire(p, s, arm))
  {
    hide Ready, Fire, InputConserved, EventsConserved, WellNudged, OneAlive, Justified, Resumes, Budgeted;
    InputKept(p, s, arm);
    EventsKept(p, s, arm);
    NudgesKept(p, s, arm);
    OneAliveKept(p, s, arm);
    JustifiedKept(p, s, arm);
    ResumesKept(p, start, s, arm);
    BudgetKept(p, s, arm);
  }

  lemma StepKeeps(p: Policy, start: Option<string>, s: State, t: Tick)
    requires Good(p, start, s)
    ensures Good(p, start, Step(p, s, t))
  {
    hide Good, Fire;
    if !s.phase.Ended? {
      ArriveKeeps(p, start, s, t);
      FireKeeps(p, start, Arrive(s, t), Select(Arrive(s, t), t));
    }
  }

  lemma {:induction false} RunKeeps(p: Policy, start: Option<string>, script: seq<Tick>)
    ensures Good(p, start, Run(p, start, script))
  {
    hide Good;
    if script == [] {
      StartGood(p, start);
    } else {
      RunKeeps(p, start, script[..|script| - 1]);
      StepKeeps(p, start, Run(p, start, script[..|script| - 1]), script[|script| - 1]);
    }
  }

  /**
  Messages: what the children were offered, nudges aside, then the one message a
  deaf child cost, then what still waits, is exactly what the caller sent.
  */
  lemma {:induction false} RelayedOnceInOrder(p: Policy, start: Option<string>, script: seq<Tick>)
    ensures var s := Run(p, start, script);
            && AllUserLines(Incarnations(s)) + Lost(s) + s.caller.inputs == s.sent
            && (Lost(s) != [] ==> s.phase.Ended? && s.phase.why.ChildDeaf?)
  {
    hide Run, UserLines, AllUserLines;
    RunKeeps(p, start, script);
    var s := Run(p, start, script);
    AppendIncarnation(s.past, s.live);
  }

  lemma {:induction false} VisibleConcat(a: seq<AgentEvent>, b: seq<AgentEvent>)
    ensures Visible(a + b) == Visible(a) + Visible(b)
  {
    if b == [] {
      assert a + b == a;
    } else {
      var n := |b| - 1;
      assert (a + b)[..|a| + n] == a + b[..n];
      VisibleConcat(a, b[..n]);
    }
  }

  lemma {:induction false} FinishedIncarnations(incs: seq<Incarnation>)
    requires forall k :: 0 <= k < |incs| ==> incs[k].queue == []
    ensures Visible(AllProduced(incs)) == AllVisible(incs)
  {
    if incs != [] {
      var last := incs[|incs| - 1];
      FinishedIncarnations(incs[..|incs| - 1]);
      VisibleConcat(AllProduced(incs[..|incs| - 1]), Produced(last));
      assert last.received + [] == last.received;
    }
  }

  lemma GoodKeepsBudget(p: Policy, start: Option<string>, s: State)
    requires Good(p, start, s)
    ensures Budgeted(p, s)
  {
    hide Budgeted;
  }

  lemma GoodConservesEvents(p: Policy, start: Option<string>, s: State)
    requires Good(p, start, s)
    ensures EventsConserved(s) && OneAlive(s)
  {
    hide EventsConserved, OneAlive;
  }

  /**
  Events: the caller's stream without the supervisor's own events, followed by
  what is still queued, is everything every child produced, `Exited` aside.
  */
  lemma {:induction false} ForwardedInOrder(p: Policy, start: Option<string>, script: seq<Tick>)
    ensures var s := Run(p, start, script);
            && Payload(s.emitted) + Visible(s.live.queue) == Visible(AllProduced(Incarnations(s)))
            && (s.phase.Ended? && !s.live.killed ==> Payload(s.emitted) == Visible(AllProduced(Incarnations(s))))
  {
    hide Run, Visible, Payload, AllVisible, AllProduced, Good, UserLines, AllUserLines, LastTurnError, LatestSession, SessionAfter;
    RunKeeps(p, start, script);
    var s := Run(p, start, script);
    GoodConservesEvents(p, start, s);
    AppendIncarnation(s.past, s.live);
    FinishedIncarnations(s.past);
    VisibleConcat(AllProduced(s.past), Produced(s.live));
    VisibleConcat(s.live.received, s.live.queue);
    NoLines();
    assert Payload(s.emitted) + [] == Payload(s.emitted);
  }

  /** At most one child is alive, and none once the supervisor has ended. */
  lemma {:induction false} NoOrphans(p: Policy, start: Option<string>, script: seq<Tick>)
    ensures var s := Run(p, start, script);
            && (forall k :: 0 <= k < |s.past| ==> s.past[k].closed && s.past[k].queue == [])
            && (s.phase.Ended? ==> s.live.killed || (s.live.closed && s.live.queue == []))
  {
    RunKeeps(p, start, script);
  }

  /**
  A respawn answers a transient error in the last turn of the child before it,
  resumes the latest session announced, and is nudged about that very error first.
  */
  lemma {:induction false} RespawnsAreJustified(p: Policy, start: Option<string>, script: seq<Tick>, k: nat)
    requires 0 < k < |Incarnations(Run(p, start, script))|
    ensures var incs := Incarnations(Run(p, start, script));
            && Retryable(LastTurnError(incs[k - 1].received))
            && incs[k].resume == SessionAfter(start, incs[..k])
            && NudgedFirst(incs[k].stdin, true)
            && (incs[k].stdin != [] ==> AnswersError(incs[k].stdin[0], incs[k - 1]))
            && (incs[k].stdin == [] ==> k == |incs| - 1 && Run(p, start, script).phase.Nudging?)
  {
    hide LastTurnError, SessionAfter, Run, TransientError, Retryable;
    RunKeeps(p, start, script);
    var s := Run(p, start, script);
    RetryableIs(LastTurnError(Incarnations(s)[k - 1].received));
    assert Incarnations(s)[..k] == s.past[..k];
    assert s.past[..|s.past|] == s.past;
  }

  /** The budget: C clean turns allow at most 1 + maxRetries * (C + 1) children. */
  lemma {:induction false} SpawnsBounded(p: Policy, start: Option<string>, script: seq<Tick>)
    ensures var s := Run(p, start, script);
            && |Incarnations(s)| <= 1 + p.maxRetries * (CleanTurns(s.emitted) + 1)
            && s.consecutive == TrailingRetries(s.emitted) <= p.maxRetries
            && (s.consecutive > 0 <==> LastOwnHealth(s.emitted) == Some(Retrying))
            && (s.phase.BackingOff? ==> s.phase.delay == Backoff(p, TrailingRetries(s.emitted)))
  {
    hide CleanTurns, Retries, TrailingRetries, LastOwnHealth, Run, Backoff, Good, LastTurnError;
    RunKeeps(p, start, script);
    var s := Run(p, start, script);
    GoodKeepsBudget(p, start, s);
    assert p.maxRetries * (CleanTurns(s.emitted) + 1) == p.maxRetries * CleanTurns(s.emitted) + p.maxRetries;
  }

  /** It gives up only on a transient error with the whole budget spent since the last clean turn. */
  lemma {:induction false} GivesUpOnlyWhenSpent(p: Policy, start: Option<string>, script: seq<Tick>)
    ensures var s := Run(p, start, script);
            s.phase == Ended(BudgetSpent) ==>
              && TrailingRetries(s.emitted) == p.maxRetries
              && Retryable(LastTurnError(s.live.received))
              && |s.past| >= p.maxRetries
  {
    hide Run, CleanTurns, TrailingRetries, LastTurnError, TransientError, Retryable;
    RetryableIs(LastTurnError(Run(p, start, script).live.received));
    RunKeeps(p, start, script);
    TrailingAtMostAll(Run(p, start, script).emitted);
  }

  /**
  When a child's stream is drained and closed, its last turn and the retries
  since the last clean one decide alone: retry, give up, or finish.
  */
  lemma {:induction false} EndingIsExact(p: Policy, start: Option<string>, script: seq<Tick>, t: Tick)
    requires var s := Run(p, start, script); s.phase.Bridging? && Select(Arrive(s, t), t) == ChannelClosedArm
    ensures var before, after := Run(p, start, script), Run(p, start, script + [t]);
            var failed, tries := Retryable(LastTurnError(after.live.received)), TrailingRetries(before.emitted);
            && after.live.received == before.live.received
            && (after.phase.BackingOff? <==> failed && tries < p.maxRetries)
            && (after.phase == Ended(BudgetSpent) <==> failed && tries == p.maxRetries)
            && (after.phase == Ended(ChildFinished) <==> !failed)
  {
    hide Run, Good, LastTurnError, TrailingRetries, UserLines, AllUserLines, IsTransient, Retryable;
    RunKeeps(p, start, script);
    RetryableIs(LastTurnError(Run(p, start, script).live.received));
    GoodForEnding(p, start, Run(p, start, script));
    RunNext(p, start, script + [t], |script|);
    assert (script + [t])[..|script|] == script && (script + [t])[..|script| + 1] == script + [t];
  }

  lemma GoodForEnding(p: Policy, start: Option<string>, s: State)
    requires Good(p, start, s)
    ensures s.consecutive <= p.maxRetries && s.consecutive == TrailingRetries(s.emitted)
    ensures !s.phase.Nudging? ==> s.lastError == LastTurnError(s.live.received)
  {
    hide InputConserved, EventsConserved, WellNudged, OneAlive, Resumes, TrailingRetries, LastTurnError;
  }

  lemma {:induction false} TrailingAtMostAll(emitted: seq<Emission>)
    ensures TrailingRetries(emitted) <= Retries(emitted)
  {
    if emitted != [] { TrailingAtMostAll(emitted[..|emitted| - 1]); }
  }

  // ------------------------------------------------------ the force of a kill

  /** Nothing of the caller's moves from `s` to `s'`. */
  ghost predicate Quiet(s: State, s': State) {
    && AllUserLines(s'.past) + UserLines(s'.live.stdin) == AllUserLines(s.past) + UserLines(s.live.stdin)
    && Payload(s'.emitted) == Payload(s.emitted)
  }

  /** Spawns still possible once a kill is pending, and steps left until the end. */
  function SpawnsLeft(s: State): nat { if s.phase.BackingOff? || s.phase.Respawning? then 1 else 0 }

  function StepsLeft(s: State): nat {
    match s.phase
    case BackingOff(_) => 4
    case Respawning => 3
    case Nudging => 2
    case Bridging => 1
    case Ended(_) => 0
  }

  lemma GoodIsNudged(p: Policy, start: Option<string>, s: State)
    requires Good(p, start, s)
    ensures WellNudged(s) && OneAlive(s)
  {
    hide WellNudged, OneAlive;
  }

  /** The arms a pending kill leaves possible. */
  predicate KilledArm(arm: Arm) {
    arm.NudgeArm? || arm.KillArm? || arm.KillInBackoffArm? || arm.TimerArm? || arm.SpawnArm? || arm.NothingReady?
  }

  ghost predicate KilledProgress(s: State, s': State) {
    && s'.caller.killSent && Quiet(s, s')
    && |s.past| <= |s'.past| && |s'.past| + SpawnsLeft(s') <= |s.past| + SpawnsLeft(s)
  }

  lemma KilledFire(p: Policy, s: State, arm: Arm)
    requires s.caller.killSent && Ready(s, arm) && KilledArm(arm)
    ensures KilledProgress(s, Fire(p, s, arm))
    ensures !arm.NothingReady? ==> StepsLeft(Fire(p, s, arm)) < StepsLeft(s)
  {
    hide UserLines, AllUserLines, Payload;
    match arm {
      case NudgeArm => AppendLine(s.live.stdin, Nudge(s.pendingNudge.value));
      case SpawnArm(_) => SpawnIsQuiet(p, s, arm);
      case _ =>
    }
  }

  lemma SpawnIsQuiet(p: Policy, s: State, arm: Arm)
    requires arm.SpawnArm? && Ready(s, arm)
    ensures Quiet(s, Fire(p, s, arm))
  {
    hide UserLines, AllUserLines, Payload;
    if arm.spawned.SpawnOk? {
      AppendIncarnation(s.past, s.live);
      NoLines();
    } else {
      AppendEmission(s.emitted, OwnNotice(CouldNotResume(StatusOf(s), arm.spawned.error)));
    }
  }

  lemma KilledStep(p: Policy, s: State, t: Tick)
    requires s.caller.killSent && WellNudged(s)
    ensures var s' := Step(p, s, t);
            && KilledProgress(s, s')
            && StepsLeft(s') <= (if StepsLeft(s) == 0 then 0 else StepsLeft(s) - 1)
  {
    hide UserLines, AllUserLines, Payload, Fire;
    if !s.phase.Ended? {
      var a := Arrive(s, t);
      KilledFire(p, a, Select(a, t));
    }
  }

  /**
  After a kill, whatever arrives, no message is relayed and no event forwarded,
  at most one more child is spawned, and four more ticks end the run.
  */
  lemma {:induction false} KillIsFinal(p: Policy, start: Option<string>, before: seq<Tick>, after: seq<Tick>)
    requires Run(p, start, before).caller.killSent
    ensures var s, s' := Run(p, start, before), Run(p, start, before + after);
            && Quiet(s, s')
            && |s.past| <= |s'.past| <= |s.past| + 1
            && (|after| >= 4 ==> s'.phase.Ended?)
  {
    hide Run, Quiet;
    KilledSteps(p, start, before, after);
  }

  lemma {:induction false} KilledSteps(p: Policy, start: Option<string>, before: seq<Tick>, after: seq<Tick>)
    requires Run(p, start, before).caller.killSent
    ensures var s, s' := Run(p, start, before), Run(p, start, before + after);
            && s'.caller.killSent && Quiet(s, s')
            && |s.past| <= |s'.past| && |s'.past| + SpawnsLeft(s') <= |s.past| + SpawnsLeft(s)
            && (StepsLeft(s') == 0 || StepsLeft(s') + |after| <= StepsLeft(s))
  {
    hide Step, UserLines, AllUserLines, Payload, Good, WellNudged;
    if after == [] {
      assert before + after == before;
    } else {
      var n := |after| - 1;
      KilledSteps(p, start, before, after[..n]);
      RunKeeps(p, start, before + after[..n]);
      GoodIsNudged(p, start, Run(p, start, before + after[..n]));
      KilledStep(p, Run(p, start, before + after[..n]), after[n]);
      assert (before + after)[..|before| + n] == before + after[..n];
    }
  }

  // ------------------------------------------------------------- interrupts

  /** The interrupts that find room in the child's control channel. */
  function Admitted(controls: seq<Control>, ticks: seq<Tick>): seq<Control>
    requires |ticks| <= |controls|
  {
    if ticks == [] then []
    else
      var n := |ticks| - 1;
      Admitted(controls, ticks[..n]) + (if ticks[n].acceptsControl then [controls[n]] else [])
  }

  /** Since `s`, `n` waiting interrupts went to the child that was live then, and nothing else moved. */
  ghost predicate OnlyInterrupts(s: State, s': State, ticks: seq<Tick>)
    requires |ticks| <= |s.caller.controls|
  {
    && s'.phase.Bridging? && s'.controlOpen && !s'.caller.killSent
    && s'.past == s.past && s'.live.stdin == s.live.stdin && s'.live.received == s.live.received && s'.emitted == s.emitted
    && s.caller.controls[|ticks|..] <= s'.caller.controls
    && s'.live.controls == s.live.controls + Admitted(s.caller.controls, ticks)
  }

  lemma InterruptStep(p: Policy, s: State, now: State, ticks: seq<Tick>, t: Tick)
    requires |ticks| < |s.caller.controls| && OnlyInterrupts(s, now, ticks) && !t.kill
    ensures OnlyInterrupts(s, Step(p, now, t), ticks + [t])
  {
    var n := |ticks|;
    var a := Arrive(now, t);
    assert s.caller.controls[n..][1..] == s.caller.controls[n + 1..];
    assert s.caller.controls[n..] <= a.caller.controls && a.caller.controls[0] == s.caller.controls[n];
    assert (ticks + [t])[..n] == ticks;
    assert Step(p, now, t) == Fire(p, a, ControlArm(t.acceptsControl));
    hide Step, Arrive;
    if !t.acceptsControl { assert Admitted(s.caller.controls, ticks) + [] == Admitted(s.caller.controls, ticks); }
  }

  /**
  Interrupts go ahead of everything but a kill: while n of them wait, the next n
  ticks hand them, in order, to the child that is live, and no message is
  relayed and no event taken meanwhile, whatever else arrives.
  */
  lemma {:induction false} InterruptsPreempt(p: Policy, start: Option<string>, before: seq<Tick>, after: seq<Tick>)
    requires var s := Run(p, start, before);
             s.phase.Bridging? && s.controlOpen && !s.caller.killSent && |after| <= |s.caller.controls|
    requires forall k :: 0 <= k < |after| ==> !after[k].kill
    ensures OnlyInterrupts(Run(p, start, before), Run(p, start, before + after), after)
  {
    hide Step, OnlyInterrupts;
    if after == [] {
      assert before + after == before;
      NoInterruptYet(Run(p, start, before));
    } else {
      var n := |after| - 1;
      InterruptsPreempt(p, start, before, after[..n]);
      InterruptStep(p, Run(p, start, before), Run(p, start, before + after[..n]), after[..n], after[n]);
      assert (before + after)[..|before| + n] == before + after[..n] && after[..n] + [after[n]] == after;
    }
  }

  lemma NoInterruptYet(s: State)
    requires s.phase.Bridging? && s.controlOpen && !s.caller.killSent
    ensures OnlyInterrupts(s, s, [])
  {
    assert s.live.controls + [] == s.live.controls;
  }

  // -------------------------------------------------------------- no spinning

  /** What the outside world sent, counted. */
  function Arrivals(script: seq<Tick>): nat {
    if script == [] then 0
    else
      var t := script[|script| - 1];
      Arrivals(script[..|script| - 1]) + |t.controls| + |t.inputs| + |t.events|
  }

  /** Ticks at which some arm was ready and ran. */
  function Busy(p: Policy, start: Option<string>, script: seq<Tick>): nat {
    if script == [] then 0
    else
      var before, t := Run(p, start, script[..|script| - 1]), script[|script| - 1];
      Busy(p, start, script[..|script| - 1])
      + (if before.phase.Ended? || Select(Arrive(before, t), t).NothingReady? then 0 else 1)
  }

  /** Distance travelled round the retry cycle; ending costs one more. */
  function Progress(s: State): int {
    4 * |s.past| + match s.phase
    case Nudging => -1
    case Bridging => 0
    case BackingOff(_) => 1
    case Respawning => 2
    case Ended(_) => 3
  }

  function Waiting(s: State): nat {
    |s.caller.controls| + |s.caller.inputs| + |s.live.queue| + (if s.controlOpen then 1 else 0)
  }

  /** One step down: no more waits than before, less the distance gone, and something was gained. */
  predicate Gains(s: State, s': State) { Waiting(s') - Progress(s') + 1 <= Waiting(s) - Progress(s) }

  lemma TakeGains(s: State)
    requires s.phase.Bridging? && s.live.queue != []
    ensures Gains(s, TakeEvent(s))
  {
    hide TakeEvent;
    TakeEventShape(s);
  }

  lemma EndGains(p: Policy, s: State)
    requires s.phase.Bridging?
    ensures Gains(s, EndIncarnation(p, s))
  {
    hide EndIncarnation;
    EndShape(p, s);
  }

  lemma SpawnGains(p: Policy, s: State, arm: Arm)
    requires Ready(s, arm) && arm.SpawnArm?
    ensures Gains(s, Fire(p, s, arm))
  {
    assert |s.past + [s.live]| == |s.past| + 1;
  }

  lemma BusyFire(p: Policy, s: State, arm: Arm)
    requires WellNudged(s) && OneAlive(s) && Ready(s, arm) && !s.phase.Ended?
    requires arm.ControlsClosedArm? ==> s.controlOpen
    ensures var s' := Fire(p, s, arm);
            Waiting(s') - Progress(s') + (if arm.NothingReady? then 0 else 1) <= Waiting(s) - Progress(s)
  {
    hide TakeEvent, EndIncarnation, WellNudged, OneAlive;
    match arm {
      case EventArm => TakeGains(s);
      case ChannelClosedArm => EndGains(p, s);
      case SpawnArm(_) => SpawnGains(p, s, arm);
      case _ =>
    }
  }

  lemma BusyStep(p: Policy, start: Option<string>, s: State, t: Tick)
    requires Good(p, start, s) && !s.phase.Ended?
    ensures var s', a := Step(p, s, t), Arrive(s, t);
            && Waiting(a) <= Waiting(s) + |t.controls| + |t.inputs| + |t.events|
            && Progress(a) == Progress(s)
            && Waiting(s') - Progress(s') + (if Select(a, t).NothingReady? then 0 else 1) <= Waiting(a) - Progress(a)
  {
    hide Good, Fire, WellNudged, OneAlive;
    ArriveKeeps(p, start, s, t);
    GoodIsNudged(p, start, Arrive(s, t));
    BusyFire(p, Arrive(s, t), Select(Arrive(s, t), t));
  }

  /** The supervisor cannot spin: it acts at most once per arrival, plus once round the retry cycle per respawn. */
  lemma {:induction false} NoSpinning(p: Policy, start: Option<string>, script: seq<Tick>)
    ensures var s := Run(p, start, script);
            && Busy(p, start, script) + Waiting(s) <= Arrivals(script) + 1 + Progress(s)
            && Busy(p, start, script) <= Arrivals(script) + 4 * p.maxRetries * (CleanTurns(s.emitted) + 1) + 4
  {
    hide Run, Busy, CleanTurns, TrailingRetries, LastOwnHealth, Arrivals;
    BusyBound(p, start, script);
    SpawnsBounded(p, start, script);
    var n := p.maxRetries * (CleanTurns(Run(p, start, script).emitted) + 1);
    assert 4 * n == 4 * p.maxRetries * (CleanTurns(Run(p, start, script).emitted) + 1);
  }

  lemma StartBound(start: Option<string>)
    ensures Waiting(Start(start)) <= 1 + Progress(Start(start))
  {
  }

  lemma EndedStep(p: Policy, s: State, t: Tick)
    requires s.phase.Ended?
    ensures Step(p, s, t) == s
  {
  }

  lemma {:induction false} BusyBound(p: Policy, start: Option<string>, script: seq<Tick>)
    ensures var s := Run(p, start, script);
            Busy(p, start, script) + Waiting(s) <= Arrivals(script) + 1 + Progress(s)
  {
    hide Step, Good, WellNudged, OneAlive, Progress, Waiting;
    if script == [] {
      StartBound(start);
    } else {
      var n := |script| - 1;
      BusyBound(p, start, script[..n]);
      RunKeeps(p, start, script[..n]);
      var s := Run(p, start, script[..n]);
      if s.phase.Ended? { EndedStep(p, s, script[n]); }
      if !s.phase.Ended? { BusyStep(p, start, s, script[n]); }
    }
  }

  // ------------------------------------------------------------ the schedule

  lemma {:induction false} Pow2Grows(a: nat, b: nat)
    requires a <= b
    ensures Pow2(a) <= Pow2(b) && (a < b ==> 2 * Pow2(a) <= Pow2(b))
  {
    if a < b { Pow2Grows(a, b - 1); }
  }

  /**
  The documented schedule base * 2^(n-1), capped, is the one computed, except
  past retry 17 when the capped shift still stays below the cap.
  */
  lemma {:induction false} BackoffMeetsPromise(p: Policy, attempt: nat)
    requires attempt >= 1
    ensures Backoff(p, attempt) == PromisedBackoff(p, attempt) <==>
            attempt <= 17 || p.baseDelay == 0 || p.baseDelay * 65536 >= p.maxDelay
    ensures Backoff(p, attempt) <= PromisedBackoff(p, attempt) <= p.maxDelay
  {
    assert Pow2(16) == 65536 by {
      assert Pow2(4) == 16 && Pow2(8) == 256 && Pow2(12) == 4096;
    }
    if attempt > 17 {
      Pow2Grows(16, attempt - 1);
      ScaleMonotone(p.baseDelay, 2 * 65536, Pow2(attempt - 1));
      ScaleMonotone(p.baseDelay, 65536, Pow2(attempt - 1));
    }
  }

  /** An attempt past the promise: the delay stays at 65536 where 131072 is documented. */
  lemma BackoffMissesPromise()
    ensures var p := Policy(20, 1, 200000); Backoff(p, 18) == 65536 && PromisedBackoff(p, 18) == 131072
  {
    assert Pow2(16) == 65536 by {
      assert Pow2(4) == 16 && Pow2(8) == 256 && Pow2(12) == 4096;
    }
    assert Pow2(17) == 131072;
  }

  lemma ScaleMonotone(base: nat, a: nat, b: nat)
    requires a <= b
    ensures base * a <= base * b
  {
  }

  /** Later retries never wait less. */
  lemma {:induction false} BackoffGrows(p: Policy, a: nat, b: nat)
    requires a <= b
    ensures Backoff(p, a) <= Backoff(p, b)
  {
    var x, y := Min(if a == 0 then 0 else a - 1, 16), Min(if b == 0 then 0 else b - 1, 16);
    Pow2Grows(x, y);
    ScaleMonotone(p.baseDelay, Pow2(x), Pow2(y));
  }
}
