/**
The per-session watchdog: flags an agent that is busy but silent, and turns a
session that sits idle with nothing declared into one nudge and then a halt.
*/
module Watchdog {
  import opened Options
  import A = Activity
  import S = AgentEvents

  /** Milliseconds. */
  const STALL_THRESHOLD: nat := 90_000
  const IDLE_GRACE: nat := 90_000

  /** Flip between Running and Stalled, and nothing else. */
  function StallDecision(busy: bool, toolsInFlight: nat, silentFor: nat, current: Option<S.Health>): Option<S.Health> {
    var stalledNow := busy && toolsInFlight == 0 && silentFor > STALL_THRESHOLD;
    if current in {None, Some(S.Running)} && stalledNow then Some(S.Stalled)
    else if current == Some(S.Stalled) && !stalledNow then Some(S.Running)
    else None
  }

  datatype IdleDecision = IdleDecision(chip: bool, nudge: bool)

  function IdleUnflaggedDecision(idleFor: Option<int>, broadcasts: nat, pendingTray: bool, nudgedAt: Option<nat>,
                                 handsDown: bool, halted: bool): IdleDecision
  {
    var chip := idleFor.Some? && idleFor.value >= IDLE_GRACE && broadcasts > 0 && !pendingTray && !halted;
    IdleDecision(chip, chip && nudgedAt != Some(broadcasts) && !handsDown)
  }

  /** One agent at one poll; a dead pump is not looked at. */
  datatype AgentPoll = AgentPoll(slug: string, alive: bool, busy: bool, toolsInFlight: nat, silentFor: nat)

  /**
  What one poll finds: what others did since the last one (health reports, the
  halt slot cleared or filled), then every reading in the order it is taken.
  */
  datatype Poll = Poll(
    reported: map<string, S.Health>,
    clearsHalt: bool,
    fillsHalt: bool,
    agents: seq<AgentPoll>,
    state: A.SessionActivity,
    at: int,                     // clock when the idle start may be recorded
    read: int,                   // clock at the first elapsed reading
    reread: int,                 // clock at the second
    broadcasts: nat,
    tray: Option<bool>,          // pending-tray query, None when it fails
    haltReadable: bool,
    stateAtSend: A.SessionActivity,
    holdsAtSend: bool)

  datatype Outcome = Outcome(chip: bool, nudge: bool, halt: bool)

  datatype Watch = Watch(
    idleSince: Option<int>,
    nudgedAt: Option<nat>,
    haltSlot: bool,
    health: map<string, S.Health>,
    outcomes: seq<Outcome>)

  const START := Watch(None, None, false, map[], [])

  function HealthOf(health: map<string, S.Health>, slug: string): Option<S.Health> {
    if slug in health then Some(health[slug]) else None
  }

  function SweepOne(a: AgentPoll, health: map<string, S.Health>): map<string, S.Health> {
    if !a.alive then health
    else
      match StallDecision(a.busy, a.toolsInFlight, a.silentFor, HealthOf(health, a.slug))
      case Some(next) => health[a.slug := next]
      case None => health
  }

  function Sweep(agents: seq<AgentPoll>, health: map<string, S.Health>): map<string, S.Health> {
    if agents == [] then health else SweepOne(agents[|agents| - 1], Sweep(agents[..|agents| - 1], health))
  }

  predicate HandsDown(hands: Option<string>, health: map<string, S.Health>) {
    hands.Some? && HealthOf(health, hands.value) in {Some(S.Dead), Some(S.Retrying), Some(S.Stalled)}
  }

  function SlotAt(w: Watch, p: Poll): bool { (w.haltSlot && !p.clearsHalt) || p.fillsHalt }

  function Since(w: Watch, p: Poll): int { if w.idleSince.Some? then w.idleSince.value else p.at }

  predicate Candidate(w: Watch, p: Poll) { p.read - Since(w, p) >= IDLE_GRACE && p.broadcasts > 0 }

  /** Queries are made only for a candidate, and a failed query suppresses. */
  function DecisionAt(w: Watch, p: Poll, handsDown: bool): IdleDecision {
    var candidate := Candidate(w, p);
    var pendingTray := !candidate || p.tray != Some(false);
    var halted := !candidate || !p.haltReadable || SlotAt(w, p);
    IdleUnflaggedDecision(if candidate then Some(p.reread - Since(w, p)) else None,
                          p.broadcasts, pendingTray, w.nudgedAt, handsDown, halted)
  }

  predicate ClearToSend(p: Poll) { p.stateAtSend == A.Idle && !p.holdsAtSend }

  /** Poll number |outcomes|. */
  function Step(hands: Option<string>, w: Watch, p: Poll): Watch {
    var health := Sweep(p.agents, w.health + p.reported);
    var slot := SlotAt(w, p);
    if p.state != A.Idle then
      Watch(None, w.nudgedAt, slot, health, w.outcomes + [Outcome(false, false, false)])
    else
      var d := DecisionAt(w, p, HandsDown(hands, health));
      var nudge := d.nudge && ClearToSend(p);
      var halt := !d.nudge && d.chip && w.nudgedAt == Some(p.broadcasts) && ClearToSend(p);
      Watch(Some(Since(w, p)), if nudge then Some(p.broadcasts) else w.nudgedAt, slot || halt, health,
            w.outcomes + [Outcome(d.chip, nudge, halt)])
  }

  function Run(hands: Option<string>, polls: seq<Poll>): Watch {
    if polls == [] then START else Step(hands, Run(hands, polls[..|polls| - 1]), polls[|polls| - 1])
  }

  predicate SomeAlive(agents: seq<AgentPoll>) { exists k :: 0 <= k < |agents| && agents[k].alive }

  /** The silence check over the agents, and whether any pump is still there. */
  method SweepAgents(agents: seq<AgentPoll>, reported: map<string, S.Health>)
    returns (health: map<string, S.Health>, anyAlive: bool)
    ensures health == Sweep(agents, reported)
    ensures anyAlive <==> SomeAlive(agents)
  {
    hide StallDecision;
    health, anyAlive := reported, false;
    for k := 0 to |agents|
      invariant health == Sweep(agents[..k], reported)
      invariant anyAlive <==> SomeAlive(agents[..k])
    {
      var a := agents[k];
      assert agents[..k + 1][..k] == agents[..k];
      AliveNext(agents, k);
      if a.alive {
        anyAlive := true;
        var decision := StallDecision(a.busy, a.toolsInFlight, a.silentFor, HealthOf(health, a.slug));
        if decision.Some? { health := health[a.slug := decision.value]; }
      }
    }
    assert agents[..|agents|] == agents;
  }

  lemma RunNext(hands: Option<string>, polls: seq<Poll>, n: nat)
    requires n < |polls|
    ensures Run(hands, polls[..n + 1]) == Step(hands, Run(hands, polls[..n]), polls[n])
  {
    assert polls[..n + 1][..n] == polls[..n];
  }

  /** The watchdog loop. It ends after the first poll that finds no live agent. */
  method RunStallWatchdog(hands: Option<string>, polls: seq<Poll>) returns (n: nat, w: Watch)
    ensures n <= |polls| && w == Run(hands, polls[..n])
    ensures forall k :: 0 <= k < n - 1 ==> SomeAlive(polls[k].agents)
    ensures n < |polls| ==> n > 0 && !SomeAlive(polls[n - 1].agents)
  {
    hide Run, Sweep, SomeAlive, HandsDown;
    var idleSince: Option<int>, nudgedAt: Option<nat> := None, None;
    var haltSlot, health: map<string, S.Health>, outcomes: seq<Outcome> := false, map[], [];
    NothingPolled(hands);
    assert polls[..0] == [];
    n := 0;
    while n < |polls|
      invariant n <= |polls|
      invariant Run(hands, polls[..n]) == Watch(idleSince, nudgedAt, haltSlot, health, outcomes)
      invariant forall k :: 0 <= k < n ==> SomeAlive(polls[k].agents)
    {
      var p := polls[n];
      RunNext(hands, polls, n);
      haltSlot := (haltSlot && !p.clearsHalt) || p.fillsHalt;
      var anyAlive;
      health, anyAlive := SweepAgents(p.agents, health + p.reported);
      var out := Outcome(false, false, false);
      if p.state == A.Idle {
        if idleSince == None { idleSince := Some(p.at); }
        var since := idleSince.value;
        var candidate := p.read - since >= IDLE_GRACE && p.broadcasts > 0;
        var pendingTray := if candidate then p.tray != Some(false) else true;
        var halted := if candidate then !p.haltReadable || haltSlot else true;
        var decision := IdleUnflaggedDecision(if candidate then Some(p.reread - since) else None, p.broadcasts,
                                              pendingTray, nudgedAt, HandsDown(hands, health), halted);
        out := Outcome(decision.chip, false, false);
        if decision.nudge {
          if ClearToSend(p) {
            nudgedAt := Some(p.broadcasts);
            out := out.(nudge := true);
          }
        } else if decision.chip && nudgedAt == Some(p.broadcasts) {
          if ClearToSend(p) {
            haltSlot := true;
            out := out.(halt := true);
          }
        }
      } else {
        idleSince := None;
      }
      outcomes := outcomes + [out];
      n := n + 1;
      if !anyAlive { break; }
    }
    w := Watch(idleSince, nudgedAt, haltSlot, health, outcomes);
  }

  lemma NothingPolled(hands: Option<string>)
    ensures Run(hands, []) == START
  {
  }

  lemma AliveNext(agents: seq<AgentPoll>, k: nat)
    requires k < |agents|
    ensures SomeAlive(agents[..k + 1]) <==> SomeAlive(agents[..k]) || agents[k].alive
  {
    var next, prev := agents[..k + 1], agents[..k];
    assert forall j :: 0 <= j < k ==> next[j] == prev[j];
    assert next[k] == agents[k];
  }
}
