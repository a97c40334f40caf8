/**
The retry supervisor: the loop that bridges one child process after another
("incarnations") onto channels that stay open for the caller.

Everything the outside world can do while the supervisor is at an await point
is gathered in one `Tick`, and a run is a sequence of ticks. A relay or a send
inside an arm is taken as immediate, so what arrives while one would block is
seen at the next await point, as in the program, but not before it.
*/
module Supervisor {
  import opened Options
  import opened AgentEvents

  type Message = string
  type Control = string

  datatype Notice = GaveUp(attempts: nat, status: nat) | CouldNotResume(status: nat, error: string)

  /** One event on the caller's channel, with where it came from. */
  datatype Emission = Forwarded(ev: AgentEvent) | OwnHealth(health: Health) | OwnNotice(notice: Notice)

  /** One line offered to a child's stdin. */
  datatype Stdin = Nudge(status: nat) | User(msg: Message)

  /** One child process, with the history of its channels. */
  datatype Incarnation = Incarnation(
    resume: Option<string>,      // session id it was spawned to resume
    stdin: seq<Stdin>,           // lines offered to it, in order
    controls: seq<Control>,      // interrupts it accepted, in order
    received: seq<AgentEvent>,   // events taken off its channel, in order
    queue: seq<AgentEvent>,      // events it produced that are still in the channel
    closed: bool,                // it can produce no further event
    killed: bool)

  /** The caller's side of the outer channels. */
  datatype Caller = Caller(
    killSent: bool,
    controls: seq<Control>,
    controlsClosed: bool,
    inputs: seq<Message>,
    inputsClosed: bool)

  datatype End =
    | KilledByCaller
    | CallerGone
    | ChildDeaf(lost: Message)
    | ChildFinished
    | BudgetSpent
    | RespawnFailed

  datatype Phase =
    | Nudging
    | Bridging
    | BackingOff(delay: nat)
    | Respawning
    | Ended(why: End)

  datatype State = State(
    phase: Phase,
    resume: Option<string>,
    consecutive: nat,
    pendingNudge: Option<nat>,
    lastError: Option<nat>,
    controlOpen: bool,
    caller: Caller,
    sent: seq<Message>,          // every message the caller's channel accepted
    past: seq<Incarnation>,
    live: Incarnation,
    emitted: seq<Emission>)

  datatype Spawned = SpawnOk | SpawnErr(error: string)

  /** What happens around one await point of the supervisor. */
  datatype Tick = Tick(
    kill: bool,                  // the kill signal is sent, or its sender is dropped
    controls: seq<Control>,
    closeControls: bool,
    inputs: seq<Message>,
    closeInputs: bool,
    events: seq<AgentEvent>,     // produced by the live child
    closeEvents: bool,
    accepts: bool,               // does the child's stdin channel take a message now
    acceptsControl: bool,
    timer: bool,                 // has the backoff sleep elapsed
    killWinsTie: bool,           // the backoff select is not biased
    spawned: Spawned)

  datatype Policy = Policy(maxRetries: nat, baseDelay: nat, maxDelay: nat)

  // ---------------------------------------------------------------- policy

  function Pow2(n: nat): (p: nat)
    ensures p > 0
  {
    if n == 0 then 1 else 2 * Pow2(n - 1)
  }

  function Min(a: nat, b: nat): nat { if a <= b then a else b }

  /** Delay before retry number `attempt`: the shift is capped at 16 places. */
  function Backoff(p: Policy, attempt: nat): nat
  {
    var shift := Min(if attempt == 0 then 0 else attempt - 1, 16);
    Min(p.baseDelay * Pow2(shift), p.maxDelay)
  }

  /** The schedule the documentation promises: base * 2^(attempt-1), capped. */
  function PromisedBackoff(p: Policy, attempt: nat): nat
    requires attempt >= 1
  {
    Min(p.baseDelay * Pow2(attempt - 1), p.maxDelay)
  }

  predicate IsTransient(status: nat) {
    status in {408, 425, 429, 500, 502, 503, 504, 529}
  }

  predicate TransientError(e: Option<nat>) { e.Some? && IsTransient(e.value) }

  // ---------------------------------------------------------------- steps

  function Fresh(resume: Option<string>): Incarnation {
    Incarnation(resume, [], [], [], [], false, false)
  }

  function Start(resume: Option<string>): State {
    State(Bridging, resume, 0, None, None, true, Caller(false, [], false, [], false), [], [], Fresh(resume), [])
  }

  // A closed channel accepts nothing more.

  function Accepted(c: Caller, t: Tick): seq<Message> { if c.inputsClosed then [] else t.inputs }

  function CallerAfter(c: Caller, t: Tick): Caller {
    Caller(c.killSent || t.kill,
           c.controls + (if c.controlsClosed then [] else t.controls),
           c.controlsClosed || t.closeControls,
           c.inputs + Accepted(c, t),
           c.inputsClosed || t.closeInputs)
  }

  function ChildAfter(inc: Incarnation, t: Tick): Incarnation {
    inc.(queue := inc.queue + (if inc.closed then [] else t.events), closed := inc.closed || t.closeEvents)
  }

  function Arrive(s: State, t: Tick): State {
    s.(caller := CallerAfter(s.caller, t), sent := s.sent + Accepted(s.caller, t), live := ChildAfter(s.live, t))
  }

  /** The arms of the supervisor's await points. */
  datatype Arm =
    | NudgeArm
    | KillArm
    | ControlArm(accepted: bool)
    | ControlsClosedArm
    | InputArm(accepted: bool)
    | CallerGoneArm
    | EventArm
    | ChannelClosedArm
    | NothingReady
    | KillInBackoffArm
    | TimerArm
    | SpawnArm(spawned: Spawned)

  /** The arm that wins: the bridge is biased, the backoff select is not. */
  function Select(s: State, t: Tick): Arm
    requires !s.phase.Ended?
  {
    match s.phase
    case Nudging => if s.pendingNudge.Some? then NudgeArm else NothingReady
    case Bridging =>
      if s.caller.killSent then KillArm
      else if s.controlOpen && s.caller.controls != [] then ControlArm(t.acceptsControl)
      else if s.controlOpen && s.caller.controlsClosed then ControlsClosedArm
      else if s.caller.inputs != [] then InputArm(t.accepts)
      else if s.caller.inputsClosed then CallerGoneArm
      else if s.live.queue != [] then EventArm
      else if s.live.closed then ChannelClosedArm
      else NothingReady
    case BackingOff(_) =>
      if s.caller.killSent && (!t.timer || t.killWinsTie) then KillInBackoffArm
      else if t.timer then TimerArm
      else NothingReady
    case Respawning => SpawnArm(t.spawned)
  }

  /** What a ready arm can rely on. */
  predicate Ready(s: State, arm: Arm) {
    match arm
    case NudgeArm => s.phase.Nudging? && s.pendingNudge.Some?
    case KillArm => s.phase.Bridging?
    case ControlArm(_) => s.phase.Bridging? && s.caller.controls != []
    case ControlsClosedArm => s.phase.Bridging?
    case InputArm(_) => s.phase.Bridging? && s.caller.inputs != []
    case CallerGoneArm => s.phase.Bridging? && s.caller.inputs == []
    case EventArm => s.phase.Bridging? && s.live.queue != []
    case ChannelClosedArm => s.phase.Bridging? && s.live.queue == [] && s.live.closed
    case NothingReady => true
    case KillInBackoffArm => s.phase.BackingOff?
    case TimerArm => s.phase.BackingOff?
    case SpawnArm(_) => s.phase.Respawning?
  }

  function StatusOf(s: State): nat { if s.lastError.Some? then s.lastError.value else 0 }

  function TearDown(s: State, why: End): State {
    s.(phase := Ended(why), live := s.live.(killed := true))
  }

  /** A failed relay means the child is deaf: the message is lost and the run ends. */
  function RelayInput(s: State, accepted: bool): State
    requires s.caller.inputs != []
  {
    var msg := s.caller.inputs[0];
    var rest := s.caller.(inputs := s.caller.inputs[1..]);
    if accepted then s.(caller := rest, live := s.live.(stdin := s.live.stdin + [User(msg)]))
    else s.(caller := rest, phase := Ended(ChildDeaf(msg)), live := s.live.(killed := true))
  }

  /** `Exited` is swallowed; every other event is forwarded, after a recovery notice if one is due. */
  function TakeEvent(s: State): State
    requires s.live.queue != []
  {
    var ev := s.live.queue[0];
    var live := s.live.(queue := s.live.queue[1..], received := s.live.received + [ev]);
    if ev.Exited? then s.(live := live)
    else if ev.TurnComplete? && !ev.isError && s.consecutive > 0 then
      s.(live := live, consecutive := 0, lastError := None,
         emitted := s.emitted + [OwnHealth(Running)] + [Forwarded(ev)])
    else
      s.(live := live,
         resume := if ev.Init? && ev.sessionId.Some? then ev.sessionId else s.resume,
         lastError := if ev.TurnComplete? then (if ev.isError then ev.apiErrorStatus else None) else s.lastError,
         emitted := s.emitted + [Forwarded(ev)])
  }

  /** The child's event channel is drained and closed: classify how it ended. */
  function EndIncarnation(p: Policy, s: State): State
  {
    if TransientError(s.lastError) && s.consecutive < p.maxRetries then
      s.(phase := BackingOff(Backoff(p, s.consecutive + 1)), consecutive := s.consecutive + 1,
         emitted := s.emitted + [OwnHealth(Retrying)])
    else if TransientError(s.lastError) then
      s.(phase := Ended(BudgetSpent), emitted := s.emitted + [OwnNotice(GaveUp(s.consecutive, StatusOf(s)))])
    else
      s.(phase := Ended(ChildFinished))
  }

  /** The body of the winning arm. */
  function Fire(p: Policy, s: State, arm: Arm): State
    requires Ready(s, arm)
  {
    match arm
    case NudgeArm =>
      s.(phase := Bridging, pendingNudge := None, lastError := None,
         live := s.live.(stdin := s.live.stdin + [Nudge(s.pendingNudge.value)]))
    case KillArm => TearDown(s, KilledByCaller)
    case ControlArm(accepted) =>
      s.(caller := s.caller.(controls := s.caller.controls[1..]),
         live := if accepted then s.live.(controls := s.live.controls + [s.caller.controls[0]]) else s.live)
    case ControlsClosedArm => s.(controlOpen := false)
    case InputArm(accepted) => RelayInput(s, accepted)
    case CallerGoneArm => TearDown(s, CallerGone)
    case EventArm => TakeEvent(s)
    case ChannelClosedArm => EndIncarnation(p, s)
    case NothingReady => s
    case KillInBackoffArm => s.(phase := Ended(KilledByCaller))
    case TimerArm => s.(phase := Respawning, pendingNudge := Some(StatusOf(s)))
    case SpawnArm(SpawnOk) => s.(phase := Nudging, past := s.past + [s.live], live := Fresh(s.resume))
    case SpawnArm(SpawnErr(e)) =>
      s.(phase := Ended(RespawnFailed), emitted := s.emitted + [OwnNotice(CouldNotResume(StatusOf(s), e))])
  }

  function Step(p: Policy, s: State, t: Tick): State
  {
    if s.phase.Ended? then s
    else
      var a := Arrive(s, t);
      Fire(p, a, Select(a, t))
  }

  function Run(p: Policy, resume: Option<string>, script: seq<Tick>): State
  {
    if script == [] then Start(resume)
    else Step(p, Run(p, resume, script[..|script| - 1]), script[|script| - 1])
  }

  lemma RunStart(p: Policy, resume: Option<string>)
    ensures Run(p, resume, []) == Start(resume)
  {
  }

  lemma RunNext(p: Policy, resume: Option<string>, script: seq<Tick>, i: nat)
    requires i < |script|
    ensures Run(p, resume, script[..i + 1]) == Step(p, Run(p, resume, script[..i]), script[i])
  {
    assert script[..i + 1][..i] == script[..i];
  }

  /** A run that has ended takes no notice of later ticks. */
  lemma {:induction false} EndedStays(p: Policy, resume: Option<string>, script: seq<Tick>, i: nat)
    requires i <= |script| && Run(p, resume, script[..i]).phase.Ended?
    ensures Run(p, resume, script) == Run(p, resume, script[..i])
    decreases |script| - i
  {
    if i == |script| {
      assert script[..i] == script;
    } else {
      RunNext(p, resume, script, i);
      EndedStays(p, resume, script, i + 1);
    }
  }

  /** The inner loop: bridge the live child until its event channel closes, then classify how it ended. */
  method BridgeIncarnation(p: Policy, start: Option<string>, script: seq<Tick>, from: nat, before: State)
    returns (i: nat, s: State)
    requires from <= |script| && before == Run(p, start, script[..from]) && before.phase.Bridging?
    ensures from <= i <= |script| && s == Run(p, start, script[..i])
    ensures i == |script| || (i > from && (s.phase.BackingOff? || s.phase.Ended?))
    ensures s.phase.Bridging? || s.phase.BackingOff? || s.phase.Ended?
  {
    hide Run, CallerAfter, ChildAfter, Accepted, Backoff, IsTransient;
    i, s := from, before;
    while true
      invariant from <= i <= |script| && s == Run(p, start, script[..i]) && s.phase.Bridging?
      decreases |script| - i
    {
      if i == |script| { return; }
      RunNext(p, start, script, i);
      var t := script[i];
      s := Arrive(s, t);
      i := i + 1;
      if s.caller.killSent {
        s := s.(live := s.live.(killed := true), phase := Ended(KilledByCaller));
        return;
      } else if s.controlOpen && s.caller.controls != [] {
        var ctl := s.caller.controls[0];
        s := s.(caller := s.caller.(controls := s.caller.controls[1..]));
        if t.acceptsControl { s := s.(live := s.live.(controls := s.live.controls + [ctl])); }
      } else if s.controlOpen && s.caller.controlsClosed {
        s := s.(controlOpen := false);
      } else if s.caller.inputs != [] {
        var msg := s.caller.inputs[0];
        s := s.(caller := s.caller.(inputs := s.caller.inputs[1..]));
        if !t.accepts {
          s := s.(live := s.live.(killed := true), phase := Ended(ChildDeaf(msg)));
          return;
        }
        s := s.(live := s.live.(stdin := s.live.stdin + [User(msg)]));
      } else if s.caller.inputsClosed {
        s := s.(live := s.live.(killed := true), phase := Ended(CallerGone));
        return;
      } else if s.live.queue != [] {
        var ev := s.live.queue[0];
        s := s.(live := s.live.(queue := s.live.queue[1..], received := s.live.received + [ev]));
        if !ev.Exited? {
          if ev.Init? && ev.sessionId.Some? {
            s := s.(resume := ev.sessionId);
          } else if ev.TurnComplete? && ev.isError {
            s := s.(lastError := ev.apiErrorStatus);
          } else if ev.TurnComplete? {
            if s.consecutive > 0 { s := s.(emitted := s.emitted + [OwnHealth(Running)]); }
            s := s.(consecutive := 0, lastError := None);
          }
          s := s.(emitted := s.emitted + [Forwarded(ev)]);
        }
      } else if s.live.closed {
        break;
      }
    }
    if TransientError(s.lastError) && s.consecutive < p.maxRetries {
      s := s.(consecutive := s.consecutive + 1, emitted := s.emitted + [OwnHealth(Retrying)]);
      s := s.(phase := BackingOff(Backoff(p, s.consecutive)));
    } else {
      if TransientError(s.lastError) {
        s := s.(emitted := s.emitted + [OwnNotice(GaveUp(s.consecutive, s.lastError.value))], phase := Ended(BudgetSpent));
      } else {
        s := s.(phase := Ended(ChildFinished));
      }
    }
  }

  /** The backoff sleep, which a kill may cut short, and then the respawn. */
  method WaitAndRespawn(p: Policy, start: Option<string>, script: seq<Tick>, from: nat, before: State)
    returns (i: nat, s: State)
    requires from <= |script| && before == Run(p, start, script[..from]) && before.phase.BackingOff?
    ensures from <= i <= |script| && s == Run(p, start, script[..i])
    ensures i == |script| || s.phase.Nudging? || s.phase.Ended?
    ensures s.phase.Nudging? ==> s.pendingNudge.Some?
  {
    hide Run, CallerAfter, ChildAfter, Accepted, Backoff, IsTransient;
    i, s := from, before;
    while true
      invariant from <= i <= |script| && s == Run(p, start, script[..i]) && s.phase.BackingOff?
      decreases |script| - i
    {
      if i == |script| { return; }
      RunNext(p, start, script, i);
      var t := script[i];
      s := Arrive(s, t);
      i := i + 1;
      if s.caller.killSent && (!t.timer || t.killWinsTie) {
        s := s.(phase := Ended(KilledByCaller));
        return;
      }
      if t.timer { break; }
    }
    s := s.(pendingNudge := Some(StatusOf(s)), phase := Respawning);
    if i == |script| { return; }
    RunNext(p, start, script, i);
    s := Arrive(s, script[i]);
    match script[i].spawned {
      case SpawnOk => s := s.(past := s.past + [s.live], live := Fresh(s.resume), phase := Nudging);
      case SpawnErr(e) =>
        s := s.(emitted := s.emitted + [OwnNotice(CouldNotResume(StatusOf(s), e))], phase := Ended(RespawnFailed));
    }
    i := i + 1;
  }

  /**
  The supervisor's body: one round of the loop per incarnation. Running out
  of script means the supervisor is still waiting at an await point.
  */
  method Supervise(p: Policy, start: Option<string>, script: seq<Tick>) returns (s: State)
    ensures s == Run(p, start, script)
  {
    hide Run, CallerAfter, ChildAfter, Accepted;
    RunStart(p, start);
    assert script[..0] == [];
    s := Start(start);
    var i := 0;
    while i < |script| && !s.phase.Ended?
      invariant 0 <= i <= |script| && s == Run(p, start, script[..i])
      invariant i == |script| || s.phase.Ended? || s.phase.Bridging? || (s.phase.Nudging? && s.pendingNudge.Some?)
      decreases |script| - i
    {
      if s.phase.Nudging? {
        RunNext(p, start, script, i);
        s := Arrive(s, script[i]);
        s := s.(live := s.live.(stdin := s.live.stdin + [Nudge(s.pendingNudge.value)]),
                pendingNudge := None, lastError := None, phase := Bridging);
        i := i + 1;
      }
      i, s := BridgeIncarnation(p, start, script, i, s);
      if s.phase.BackingOff? {
        i, s := WaitAndRespawn(p, start, script, i, s);
      }
    }
    if s.phase.Ended? { EndedStays(p, start, script, i); } else { assert script[..i] == script; }
  }
}
