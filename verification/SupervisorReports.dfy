/**
What the supervisor tells the caller, and when: every retry, recovery and
failure it announces has its one place in the stream, and every run ends for
the reason it shows.
*/
module SupervisorReports {
  import opened Options
  import opened AgentEvents
  import opened Supervisor
  import opened SupervisorRuns

  function Notices(emitted: seq<Emission>): seq<Notice> {
    if emitted == [] then []
    else
      var last := emitted[|emitted| - 1];
      Notices(emitted[..|emitted| - 1]) + (if last.OwnNotice? then [last.notice] else [])
  }

  predicate EndsWith(emitted: seq<Emission>, e: Emission) { emitted != [] && emitted[|emitted| - 1] == e }

  // --------------------------------------------------------------- notices

  lemma AppendNotice(emitted: seq<Emission>, e: Emission)
    ensures Notices(emitted + [e]) == Notices(emitted) + (if e.OwnNotice? then [e.notice] else [])
    ensures EndsWith(emitted + [e], e)
  {
    assert (emitted + [e])[..|emitted|] == emitted;
  }

  /** The one thing said at the end of a run that gave up, or that could not respawn. */
  ghost predicate OnlyNotice(s: State, notice: Notice) {
    Notices(s.emitted) == [notice] && EndsWith(s.emitted, OwnNotice(notice))
  }

  /** Nothing is said before the end, and at the end what the end calls for. */
  ghost predicate Reported(p: Policy, s: State) {
    match s.phase
    case Ended(BudgetSpent) =>
      var n := LastTurnError(s.live.received);
      n.Some? && OnlyNotice(s, GaveUp(p.maxRetries, n.value))
    case Ended(RespawnFailed) =>
      var n := LastTurnError(s.live.received);
      n.Some? && exists e: string :: OnlyNotice(s, CouldNotResume(n.value, e))
    case _ => Notices(s.emitted) == []
  }

  /** What the invariants say about the counters a notice is made of. */
  lemma GoodCounters(p: Policy, start: Option<string>, s: State)
    requires Good(p, start, s)
    ensures s.consecutive <= p.maxRetries && s.consecutive == TrailingRetries(s.emitted)
    ensures !s.phase.Nudging? ==> s.lastError == LastTurnError(s.live.received)
    ensures s.phase.BackingOff? || s.phase.Respawning? ==> TransientError(s.lastError)
  {
    hide InputConserved, EventsConserved, WellNudged, OneAlive, Resumes, TrailingRetries, LastTurnError, TransientError;
  }

  lemma TakeReports(p: Policy, s: State)
    requires Reported(p, s) && s.phase.Bridging? && s.live.queue != []
    ensures Reported(p, TakeEvent(s))
  {
    hide Notices, TakeEvent;
    var ev := s.live.queue[0];
    TakeEventShape(s);
    AppendNotice(s.emitted, Forwarded(ev));
    AppendNotice(s.emitted, OwnHealth(Running));
    AppendNotice(s.emitted + [OwnHealth(Running)], Forwarded(ev));
  }

  lemma EndReports(p: Policy, s: State)
    requires Reported(p, s) && s.phase.Bridging? && s.consecutive <= p.maxRetries && s.lastError == LastTurnError(s.live.received)
    ensures Reported(p, EndIncarnation(p, s))
  {
    hide Notices, LastTurnError, Backoff, IsTransient;
    AppendNotice(s.emitted, OwnHealth(Retrying));
    AppendNotice(s.emitted, OwnNotice(GaveUp(s.consecutive, StatusOf(s))));
  }

  lemma SpawnReports(p: Policy, s: State, spawned: Spawned)
    requires Reported(p, s) && s.phase.Respawning? && TransientError(s.lastError) && s.lastError == LastTurnError(s.live.received)
    ensures var s' := Fire(p, s, SpawnArm(spawned));
            && Reported(p, s')
            && (spawned.SpawnOk? ==> s'.phase.Nudging?)
            && (spawned.SpawnErr? ==> s'.phase == Ended(RespawnFailed) && OnlyNotice(s', CouldNotResume(StatusOf(s), spawned.error)))
  {
    hide Notices, LastTurnError, IsTransient;
    if spawned.SpawnErr? {
      AppendNotice(s.emitted, OwnNotice(CouldNotResume(StatusOf(s), spawned.error)));
      assert OnlyNotice(Fire(p, s, SpawnArm(spawned)), CouldNotResume(StatusOf(s), spawned.error));
    }
  }

  lemma ReportedKept(p: Policy, start: Option<string>, s: State, arm: Arm)
    requires Good(p, start, s) && Reported(p, s) && Ready(s, arm) && !s.phase.Ended?
    ensures Reported(p, Fire(p, s, arm))
  {
    hide Good, Notices, TakeEvent, EndIncarnation, LastTurnError, TransientError;
    GoodCounters(p, start, s);
    match arm {
      case EventArm => TakeReports(p, s);
      case ChannelClosedArm => EndReports(p, s);
      case SpawnArm(spawned) => SpawnReports(p, s, spawned);
      case _ =>
    }
  }

  lemma ReportStep(p: Policy, start: Option<string>, s: State, t: Tick)
    requires Good(p, start, s) && Reported(p, s)
    ensures Reported(p, Step(p, s, t))
  {
    hide Good, Fire, Notices, LastTurnError;
    if !s.phase.Ended? {
      var a := Arrive(s, t);
      ArriveKeeps(p, start, s, t);
      assert Reported(p, a);
      ReportedKept(p, start, a, Select(a, t));
    }
  }

  lemma {:induction false} RunReports(p: Policy, start: Option<string>, script: seq<Tick>)
    ensures Reported(p, Run(p, start, script))
  {
    if script != [] {
      hide Step, Reported;
      var n := |script| - 1;
      RunReports(p, start, script[..n]);
      RunKeeps(p, start, script[..n]);
      ReportStep(p, start, Run(p, start, script[..n]), script[n]);
    }
  }

  /** Tick `k` found the respawn refused, with this error. */
  ghost predicate RefusedAt(p: Policy, start: Option<string>, script: seq<Tick>, k: nat, error: string) {
    k < |script| && Run(p, start, script[..k]).phase.Respawning? && script[k].spawned == SpawnErr(error)
  }

  lemma RefusedNow(p: Policy, start: Option<string>, s: State, t: Tick)
    requires Good(p, start, s) && Reported(p, s) && s.phase.Respawning?
    ensures var s' := Step(p, s, t);
            && (t.spawned.SpawnOk? ==> s'.phase.Nudging?)
            && (t.spawned.SpawnErr? ==>
                  && s'.phase == Ended(RespawnFailed)
                  && exists n: nat :: OnlyNotice(s', CouldNotResume(n, t.spawned.error)))
  {
    hide Good, Notices, LastTurnError, TransientError, Fire;
    var a := Arrive(s, t);
    ArriveKeeps(p, start, s, t);
    GoodCounters(p, start, a);
    SpawnReports(p, a, t.spawned);
  }

  lemma OnlySpawnArmRefuses(p: Policy, s: State, arm: Arm)
    requires Ready(s, arm) && !arm.SpawnArm? && !s.phase.Ended?
    ensures Fire(p, s, arm).phase != Ended(RespawnFailed)
  {
    hide TakeEvent, EndIncarnation;
    match arm {
      case EventArm => TakeEventShape(s);
      case ChannelClosedArm => EndShape(p, s);
      case _ =>
    }
  }

  lemma OnlyRespawnsAreRefused(p: Policy, s: State, t: Tick)
    requires !s.phase.Ended? && !s.phase.Respawning?
    ensures Step(p, s, t).phase != Ended(RespawnFailed)
  {
    hide Fire;
    OnlySpawnArmRefuses(p, Arrive(s, t), Select(Arrive(s, t), t));
  }

  /** The run ended because tick `k` found the respawn refused, and says so. */
  ghost predicate Refusal(p: Policy, start: Option<string>, script: seq<Tick>, k: nat, error: string) {
    && RefusedAt(p, start, script, k, error)
    && exists n: nat :: OnlyNotice(Run(p, start, script), CouldNotResume(n, error))
  }

  lemma RefusalStays(p: Policy, start: Option<string>, script: seq<Tick>, t: Tick, k: nat, error: string)
    requires Refusal(p, start, script, k, error) && Run(p, start, script).phase.Ended?
    ensures Refusal(p, start, script + [t], k, error)
  {
    hide OnlyNotice, Step;
    EndedStep(p, Run(p, start, script), t);
    assert (script + [t])[..k] == script[..k] && (script + [t])[..|script|] == script;
  }

  lemma RefusalNow(p: Policy, start: Option<string>, script: seq<Tick>, t: Tick)
    requires !Run(p, start, script).phase.Ended? && Run(p, start, script + [t]).phase == Ended(RespawnFailed)
    ensures t.spawned.SpawnErr? && Refusal(p, start, script + [t], |script|, t.spawned.error)
  {
    hide OnlyNotice, Step, Good, Reported;
    var s := Run(p, start, script);
    assert (script + [t])[..|script|] == script;
    RunReports(p, start, script);
    RunKeeps(p, start, script);
    if !s.phase.Respawning? {
      OnlyRespawnsAreRefused(p, s, t);
    } else {
      RefusedNow(p, start, s, t);
    }
  }

  lemma {:induction false} RefusalIsReported(p: Policy, start: Option<string>, script: seq<Tick>) returns (k: nat, error: string)
    ensures Run(p, start, script).phase == Ended(RespawnFailed) ==> Refusal(p, start, script, k, error)
  {
    k, error := 0, [];
    if script != [] {
      hide Step, Refusal;
      var n := |script| - 1;
      assert script == script[..n] + [script[n]];
      k, error := RefusalIsReported(p, start, script[..n]);
      if Run(p, start, script[..n]).phase.Ended? {
        EndedStep(p, Run(p, start, script[..n]), script[n]);
        if Run(p, start, script).phase == Ended(RespawnFailed) { RefusalStays(p, start, script[..n], script[n], k, error); }
      } else if Run(p, start, script).phase == Ended(RespawnFailed) {
        RefusalNow(p, start, script[..n], script[n]);
        k, error := n, script[n].spawned.error;
      }
    }
  }

  /**
  The caller always learns why a run stopped short, and is told nothing else:
  one notice, last of all, when the budget is spent, with its size and the
  status of the last error; one when a respawn was refused, with that status
  and the refusal's own error; and none in any other run.
  */
  lemma {:induction false} NoticesAreExact(p: Policy, start: Option<string>, script: seq<Tick>) returns (k: nat, error: string)
    ensures var s := Run(p, start, script);
            var status, says := LastTurnError(s.live.received), Notices(s.emitted);
            && (s.phase == Ended(BudgetSpent) ==>
                  && Retryable(status) && says == [GaveUp(p.maxRetries, status.value)]
                  && EndsWith(s.emitted, OwnNotice(GaveUp(p.maxRetries, status.value))))
            && (s.phase == Ended(RespawnFailed) ==>
                  && Retryable(status) && RefusedAt(p, start, script, k, error)
                  && says == [CouldNotResume(status.value, error)]
                  && EndsWith(s.emitted, OwnNotice(CouldNotResume(status.value, error))))
            && (s.phase !in {Ended(BudgetSpent), Ended(RespawnFailed)} ==> says == [])
  {
    hide Run, Good, Notices, LastTurnError, TransientError, Retryable;
    RunReports(p, start, script);
    EndsFor(p, start, script);
    k, error := RefusalIsReported(p, start, script);
  }

  // ------------------------------------------------------- why a run ends

  /** Every reason shows: in the caller's channels, in the child's, and in the last turn. */
  ghost predicate ReasonShows(p: Policy, s: State) {
    s.phase.Ended? ==>
      match s.phase.why
      case KilledByCaller => s.caller.killSent
      case CallerGone => !s.caller.killSent && s.caller.inputsClosed && s.caller.inputs == [] && s.live.killed
      case ChildDeaf(_) => !s.caller.killSent && s.live.killed
      case ChildFinished => Drained(s) && !Retryable(LastTurnError(s.live.received))
      case BudgetSpent =>
        Drained(s) && Retryable(LastTurnError(s.live.received)) && TrailingRetries(s.emitted) == p.maxRetries
      case RespawnFailed => Retryable(LastTurnError(s.live.received)) && s.live.closed && s.live.queue == []
  }

  /** The child has said all it ever will, and the caller has nothing waiting. */
  ghost predicate Drained(s: State) {
    && s.live.closed && s.live.queue == []
    && !s.caller.killSent && s.caller.inputs == [] && !s.caller.inputsClosed
  }

  lemma ReasonStep(p: Policy, start: Option<string>, s: State, t: Tick)
    requires Good(p, start, s) && !s.phase.Ended?
    ensures ReasonShows(p, Step(p, s, t))
  {
    hide Good, LastTurnError, TrailingRetries, TakeEvent, EndIncarnation, Retryable, TransientError, OneAlive, Arrive;
    var a := Arrive(s, t);
    ArriveKeeps(p, start, s, t);
    ArrivePhase(s, t);
    GoodCounters(p, start, a);
    GoodIsNudged(p, start, a);
    RetryableIs(a.lastError);
    match Select(a, t) {
      case EventArm => TakeEventShape(a);
      case ChannelClosedArm => EndHasReason(p, a);
      case SpawnArm(spawned) => SpawnHasReason(p, a, spawned);
      case _ =>
    }
  }

  lemma ArrivePhase(s: State, t: Tick)
    ensures Arrive(s, t).phase == s.phase
  {
  }

  lemma SpawnHasReason(p: Policy, s: State, spawned: Spawned)
    requires s.phase.Respawning? && OneAlive(s) && Retryable(LastTurnError(s.live.received))
    ensures ReasonShows(p, Fire(p, s, SpawnArm(spawned)))
  {
    hide LastTurnError, Retryable, TrailingRetries;
  }

  lemma EndHasReason(p: Policy, s: State)
    requires Drained(s) && s.phase.Bridging?
    requires s.consecutive <= p.maxRetries && s.consecutive == TrailingRetries(s.emitted)
    requires s.lastError == LastTurnError(s.live.received)
    ensures ReasonShows(p, EndIncarnation(p, s))
  {
    hide LastTurnError, Retryable, TransientError, TrailingRetries, Backoff;
    RetryableIs(s.lastError);
    AppendEmission(s.emitted, OwnNotice(GaveUp(s.consecutive, StatusOf(s))));
  }

  /** Every run that has ended shows its reason. */
  lemma {:induction false} EndsFor(p: Policy, start: Option<string>, script: seq<Tick>)
    ensures ReasonShows(p, Run(p, start, script))
  {
    if script != [] {
      hide Step, ReasonShows;
      var n := |script| - 1;
      var s := Run(p, start, script[..n]);
      EndsFor(p, start, script[..n]);
      RunKeeps(p, start, script[..n]);
      if s.phase.Ended? { EndedStep(p, s, script[n]); } else { ReasonStep(p, start, s, script[n]); }
    } else {
      assert ReasonShows(p, Start(start));
    }
  }

  // ------------------------------------------------- retries and recoveries

  /**
  Every clean turn that ends a spell of retries is directly preceded by the
  notice of recovery, no other is, and nothing else is said about health but
  that a retry is on its way.
  */
  ghost predicate MarkedAt(emitted: seq<Emission>, k: nat)
    requires k < |emitted|
  {
    && (emitted[k].OwnHealth? ==> emitted[k].health == Health.Running || emitted[k].health == Health.Retrying)
    && (emitted[k] == OwnHealth(Running) ==> k + 1 < |emitted| && CleanTurn(emitted[k + 1]))
    && (CleanTurn(emitted[k]) ==> (k > 0 && emitted[k - 1] == OwnHealth(Running) <==> TrailingRetries(emitted[..k]) > 0))
  }

  ghost predicate RecoveriesMarked(emitted: seq<Emission>) {
    forall k :: 0 <= k < |emitted| ==> MarkedAt(emitted, k)
  }

  lemma StaysMarked(emitted: seq<Emission>, more: seq<Emission>, k: nat)
    requires k < |emitted| && emitted <= more && MarkedAt(emitted, k)
    ensures MarkedAt(more, k)
  {
    hide TrailingRetries, CleanTurn;
    assert more[..k] == emitted[..k] && more[k] == emitted[k];
    assert k > 0 ==> more[k - 1] == emitted[k - 1];
    assert k + 1 < |emitted| ==> more[k + 1] == emitted[k + 1];
  }

  lemma LastIsNoRecovery(emitted: seq<Emission>)
    requires RecoveriesMarked(emitted) && emitted != []
    ensures emitted[|emitted| - 1] != OwnHealth(Running)
  {
    hide TrailingRetries, CleanTurn;
    assert MarkedAt(emitted, |emitted| - 1);
  }

  lemma MarkedAppend(emitted: seq<Emission>, e: Emission)
    requires RecoveriesMarked(emitted) && e != OwnHealth(Running)
    requires e.OwnHealth? ==> e.health == Health.Retrying
    requires CleanTurn(e) ==> TrailingRetries(emitted) == 0
    ensures RecoveriesMarked(emitted + [e])
  {
    var more := emitted + [e];
    if emitted != [] { LastIsNoRecovery(emitted); }
    assert more[..|emitted|] == emitted;
    forall k | 0 <= k < |emitted| ensures MarkedAt(more, k) { StaysMarked(emitted, more, k); }
    hide TrailingRetries, CleanTurn;
    assert MarkedAt(more, |emitted|);
  }

  lemma MarkedRecovery(emitted: seq<Emission>, e: Emission)
    requires RecoveriesMarked(emitted) && CleanTurn(e) && TrailingRetries(emitted) > 0
    ensures RecoveriesMarked(emitted + [OwnHealth(Running)] + [e])
  {
    var n := |emitted|;
    var mid := emitted + [OwnHealth(Running)];
    var more := mid + [e];
    AppendEmission(emitted, OwnHealth(Running));
    assert !CleanTurn(OwnHealth(Running));
    forall k | 0 <= k < n ensures MarkedAt(more, k) { assert emitted <= more; StaysMarked(emitted, more, k); }
    hide TrailingRetries, CleanTurn, RecoveriesMarked;
    assert more[n + 1] == e && more[n] == OwnHealth(Running) && more[..n + 1] == mid;
    assert MarkedAt(more, n) && MarkedAt(more, n + 1);
    AllMarked(more);
  }

  lemma AllMarked(more: seq<Emission>)
    requires forall k :: 0 <= k < |more| ==> MarkedAt(more, k)
    ensures RecoveriesMarked(more)
  {
  }

  /**
  Each retry is announced when exactly the events of the children so far have
  been handed on, and the last of those children left an error worth a retry.
  */
  ghost predicate PlacedAt(s: State, j: nat)
    requires j < |s.emitted|
  {
    s.emitted[j] == OwnHealth(Health.Retrying) ==>
      var k := Retries(s.emitted[..j]);
      && k < |Incarnations(s)| && Payload(s.emitted[..j]) == AllVisible(Incarnations(s)[..k + 1])
      && Retryable(LastTurnError(Incarnations(s)[k].received))
  }

  ghost predicate RetriesPlaced(s: State) { forall j :: 0 <= j < |s.emitted| ==> PlacedAt(s, j) }

  lemma {:induction false} RetriesMonotone(emitted: seq<Emission>, j: nat)
    requires j < |emitted| && emitted[j] == OwnHealth(Health.Retrying)
    ensures Retries(emitted[..j]) < Retries(emitted)
  {
    var n := |emitted| - 1;
    if j < n {
      RetriesMonotone(emitted[..n], j);
      assert emitted[..n][..j] == emitted[..j];
    }
  }

  /** A retry announced before stays in its place while only the live child, not yet retried, moves on. */
  lemma StaysPlaced(s: State, s': State, j: nat)
    requires j < |s.emitted| && s.emitted <= s'.emitted && PlacedAt(s, j)
    requires Incarnations(s) <= Incarnations(s') ||
             (s.past <= Incarnations(s') && Retries(s.emitted) <= |s.past|)
    ensures PlacedAt(s', j)
  {
    hide LastTurnError, Payload, AllVisible, Retryable, Retries;
    assert s'.emitted[..j] == s.emitted[..j] && s'.emitted[j] == s.emitted[j];
    if s.emitted[j] == OwnHealth(Health.Retrying) {
      RetriesMonotone(s.emitted, j);
      var k := Retries(s.emitted[..j]);
      assert Incarnations(s')[..k + 1] == Incarnations(s)[..k + 1];
      assert Incarnations(s')[k] == Incarnations(s')[..k + 1][k] && Incarnations(s)[k] == Incarnations(s)[..k + 1][k];
    }
  }

  ghost predicate StreamMarked(s: State) { RecoveriesMarked(s.emitted) && RetriesPlaced(s) }

  lemma GoodRetryCount(p: Policy, start: Option<string>, s: State)
    requires Good(p, start, s)
    ensures s.consecutive == TrailingRetries(s.emitted)
    ensures s.phase.Nudging? || s.phase.Bridging? ==> Retries(s.emitted) == |s.past|
    ensures s.phase.BackingOff? || s.phase.Respawning? ==> s.live.closed && s.live.queue == []
    ensures AllVisible(s.past) + Visible(s.live.received) == Payload(s.emitted)
  {
    hide InputConserved, WellNudged, Resumes, Justified, TrailingRetries, Retries, CleanTurns, LastOwnHealth,
         AllVisible, Visible, Payload, LastTurnError, Backoff;
  }

  /** Nothing new is announced: what was stays in place. */
  lemma NothingNew(s: State, s': State)
    requires StreamMarked(s) && s'.emitted == s.emitted
    requires Incarnations(s) <= Incarnations(s') || (s.past <= Incarnations(s') && Retries(s.emitted) <= |s.past|)
    ensures StreamMarked(s')
  {
    hide RecoveriesMarked, PlacedAt, Retries;
    forall j | 0 <= j < |s'.emitted| ensures PlacedAt(s', j) { StaysPlaced(s, s', j); }
  }

  lemma TakeMarks(s: State)
    requires StreamMarked(s) && s.phase.Bridging? && s.live.queue != []
    requires s.consecutive == TrailingRetries(s.emitted) && Retries(s.emitted) == |s.past|
    ensures StreamMarked(TakeEvent(s))
  {
    var ev, s' := s.live.queue[0], TakeEvent(s);
    TakeEventShape(s);
    assert s.past <= Incarnations(s');
    hide TakeEvent, RecoveriesMarked, PlacedAt, Retries, TrailingRetries, CleanTurn;
    if CleanTurn(Forwarded(ev)) && s.consecutive > 0 {
      MarkedRecovery(s.emitted, Forwarded(ev));
    } else if !ev.Exited? {
      MarkedAppend(s.emitted, Forwarded(ev));
    }
    forall j | 0 <= j < |s'.emitted| ensures PlacedAt(s', j) {
      if j < |s.emitted| { StaysPlaced(s, s', j); } else { NotARetry(s', j); }
    }
  }

  lemma NotARetry(s: State, j: nat)
    requires j < |s.emitted| && s.emitted[j] != OwnHealth(Health.Retrying)
    ensures PlacedAt(s, j)
  {
  }

  lemma RetryMarks(s: State, s': State)
    requires StreamMarked(s) && Retries(s.emitted) == |s.past| && Retryable(LastTurnError(s.live.received))
    requires AllVisible(s.past) + Visible(s.live.received) == Payload(s.emitted)
    requires Incarnations(s') == Incarnations(s) && s'.emitted == s.emitted + [OwnHealth(Health.Retrying)]
    ensures StreamMarked(s')
  {
    hide RecoveriesMarked, Retries, TrailingRetries, CleanTurn, Payload, AllVisible, Visible, LastTurnError, Retryable;
    assert !CleanTurn(OwnHealth(Health.Retrying)) by { NoCleanHealth(Health.Retrying); }
    MarkedAppend(s.emitted, OwnHealth(Health.Retrying));
    AppendIncarnation(s.past, s.live);
    var n := |s.emitted|;
    assert s'.emitted[..n] == s.emitted;
    assert Incarnations(s')[..|s.past| + 1] == s.past + [s.live];
    assert PlacedAt(s', n);
    hide PlacedAt;
    forall j | 0 <= j < |s'.emitted| ensures PlacedAt(s', j) {
      if j < n { StaysPlaced(s, s', j); }
    }
  }

  lemma NoCleanHealth(h: Health)
    ensures !CleanTurn(OwnHealth(h))
  {
  }

  lemma NoCleanNotice(notice: Notice)
    ensures !CleanTurn(OwnNotice(notice))
  {
  }

  lemma NoticeMarks(s: State, s': State, notice: Notice)
    requires StreamMarked(s) && Incarnations(s') == Incarnations(s) && s'.emitted == s.emitted + [OwnNotice(notice)]
    ensures StreamMarked(s')
  {
    hide RecoveriesMarked, PlacedAt, Retries, TrailingRetries, CleanTurn;
    NoCleanNotice(notice);
    MarkedAppend(s.emitted, OwnNotice(notice));
    forall j | 0 <= j < |s'.emitted| ensures PlacedAt(s', j) {
      if j < |s.emitted| { StaysPlaced(s, s', j); } else { NotARetry(s', j); }
    }
  }

  lemma EndMarks(p: Policy, start: Option<string>, s: State)
    requires StreamMarked(s) && Good(p, start, s) && s.phase.Bridging?
    ensures StreamMarked(EndIncarnation(p, s))
  {
    GoodRetryCount(p, start, s);
    GoodCounters(p, start, s);
    RetryableIs(s.lastError);
    hide Good, StreamMarked, Retries, TrailingRetries, Payload, AllVisible, Visible, LastTurnError, Retryable, TransientError, Backoff;
    var s' := EndIncarnation(p, s);
    if s'.phase.BackingOff? {
      RetryMarks(s, s');
    } else if s'.phase == Ended(BudgetSpent) {
      NoticeMarks(s, s', GaveUp(s.consecutive, StatusOf(s)));
    } else {
      NothingNew(s, s');
    }
  }

  lemma SpawnMarks(p: Policy, s: State, spawned: Spawned)
    requires StreamMarked(s) && s.phase.Respawning?
    ensures StreamMarked(Fire(p, s, SpawnArm(spawned)))
  {
    hide StreamMarked;
    var s' := Fire(p, s, SpawnArm(spawned));
    match spawned {
      case SpawnOk => assert Incarnations(s) <= Incarnations(s'); NothingNew(s, s');
      case SpawnErr(e) => NoticeMarks(s, s', CouldNotResume(StatusOf(s), e));
    }
  }

  lemma FireMarks(p: Policy, start: Option<string>, s: State, arm: Arm)
    requires Good(p, start, s) && StreamMarked(s) && Ready(s, arm) && !s.phase.Ended?
    ensures StreamMarked(Fire(p, s, arm))
  {
    hide Good, StreamMarked, TakeEvent, EndIncarnation, Retries, TrailingRetries, Payload, AllVisible, Visible;
    GoodRetryCount(p, start, s);
    match arm {
      case EventArm => TakeMarks(s);
      case ChannelClosedArm => EndMarks(p, start, s);
      case SpawnArm(spawned) => SpawnMarks(p, s, spawned);
      case NothingReady =>
      case KillInBackoffArm => NothingNew(s, Fire(p, s, arm));
      case TimerArm => NothingNew(s, Fire(p, s, arm));
      case _ => assert s.past <= Incarnations(Fire(p, s, arm)); QuietArm(p, start, s, arm);
    }
  }

  lemma QuietArm(p: Policy, start: Option<string>, s: State, arm: Arm)
    requires Good(p, start, s) && StreamMarked(s) && Ready(s, arm) && (s.phase.Bridging? || s.phase.Nudging?)
    requires !arm.EventArm? && !arm.ChannelClosedArm? && !arm.SpawnArm? && !arm.NothingReady?
    ensures StreamMarked(Fire(p, s, arm))
  {
    hide Good, StreamMarked, TakeEvent, EndIncarnation, Retries, TrailingRetries, Payload, AllVisible, Visible;
    GoodRetryCount(p, start, s);
    assert s.past <= Incarnations(Fire(p, s, arm));
    NothingNew(s, Fire(p, s, arm));
  }

  lemma ArriveMarks(p: Policy, start: Option<string>, s: State, t: Tick)
    requires Good(p, start, s) && StreamMarked(s) && !s.phase.Ended?
    ensures StreamMarked(Arrive(s, t))
  {
    hide Good, StreamMarked, Retries, TrailingRetries, Payload, AllVisible, Visible;
    GoodRetryCount(p, start, s);
    var a := Arrive(s, t);
    if s.phase.BackingOff? || s.phase.Respawning? {
      assert a.live == s.live;
    } else {
      assert s.past <= Incarnations(a);
    }
    NothingNew(s, a);
  }

  lemma StartMarked(start: Option<string>)
    ensures StreamMarked(Start(start))
  {
  }

  lemma StepMarks(p: Policy, start: Option<string>, s: State, t: Tick)
    requires Good(p, start, s) && StreamMarked(s)
    ensures StreamMarked(Step(p, s, t))
  {
    hide StreamMarked, Good, Fire;
    if !s.phase.Ended? {
      ArriveMarks(p, start, s, t);
      ArriveKeeps(p, start, s, t);
      FireMarks(p, start, Arrive(s, t), Select(Arrive(s, t), t));
    }
  }

  lemma {:induction false} RunMarks(p: Policy, start: Option<string>, script: seq<Tick>)
    ensures StreamMarked(Run(p, start, script))
  {
    hide StreamMarked, Good, Step;
    if script == [] {
      StartMarked(start);
    } else {
      var n := |script| - 1;
      RunMarks(p, start, script[..n]);
      RunKeeps(p, start, script[..n]);
      StepMarks(p, start, Run(p, start, script[..n]), script[n]);
    }
  }

  /**
  Everything the supervisor says about health, and where: a retry once the
  children so far have been heard out and the last of them failed in a way
  worth one; a recovery directly before the clean turn that ends such a spell.
  */
  lemma {:induction false} HealthIsExact(p: Policy, start: Option<string>, script: seq<Tick>, j: nat)
    requires j < |Run(p, start, script).emitted|
    ensures var s := Run(p, start, script);
            && (s.emitted[j].OwnHealth? ==> s.emitted[j] == OwnHealth(Running) || s.emitted[j] == OwnHealth(Health.Retrying))
            && (s.emitted[j] == OwnHealth(Running) ==> j + 1 < |s.emitted| && CleanTurn(s.emitted[j + 1]))
            && (CleanTurn(s.emitted[j]) ==>
                  (j > 0 && s.emitted[j - 1] == OwnHealth(Running) <==> TrailingRetries(s.emitted[..j]) > 0))
            && (s.emitted[j] == OwnHealth(Health.Retrying) ==>
                  var k := Retries(s.emitted[..j]);
                  && k < |Incarnations(s)| && Payload(s.emitted[..j]) == AllVisible(Incarnations(s)[..k + 1])
                  && Retryable(LastTurnError(Incarnations(s)[k].received)))
  {
    RunMarks(p, start, script);
    var s := Run(p, start, script);
    assert MarkedAt(s.emitted, j) && PlacedAt(s, j);
    hide Run, TrailingRetries, Retries, CleanTurn, Payload, AllVisible, LastTurnError, Retryable, RecoveriesMarked, RetriesPlaced;
  }
}
