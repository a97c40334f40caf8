/**
Safety of the watchdog over every run of polls: when it shows the chip, when it
nudges, and when it declares a halt.
*/
module WatchdogRuns {
  import opened Options
  import A = Activity
  import S = AgentEvents
  import opened Watchdog

  /** The clock never runs backwards. */
  predicate Rising(polls: seq<Poll>) {
    && (forall i :: 0 <= i < |polls| ==> polls[i].at <= polls[i].read <= polls[i].reread)
    && (forall i, j :: 0 <= i <= j < |polls| ==> polls[i].at <= polls[j].at)
  }

  /** The user-prompt counter only grows. */
  predicate Counting(polls: seq<Poll>) {
    forall i, j :: 0 <= i <= j < |polls| ==> polls[i].broadcasts <= polls[j].broadcasts
  }

  predicate IdleFrom(polls: seq<Poll>, k: nat, j: nat)
    requires j < |polls|
  {
    k <= j && forall n :: k <= n <= j ==> polls[n].state == A.Idle
  }

  /** Every poll over at least the grace period, up to poll `j`, saw Idle. */
  ghost predicate IdlePastGrace(polls: seq<Poll>, j: nat)
    requires j < |polls|
  {
    exists k: nat :: IdleFrom(polls, k, j) && polls[j].read - polls[k].at >= 90_000
  }

  /** The halt slot was filled at poll `i`, by somebody else or by the watchdog, and nothing cleared it up to poll `j`. */
  ghost predicate HaltFrom(hands: Option<string>, polls: seq<Poll>, i: nat, j: nat)
    requires j < |polls|
  {
    && i <= j && (polls[i].fillsHalt || (i < j && OutcomeAt(hands, polls, i).halt))
    && (forall k :: i < k <= j ==> !polls[k].clearsHalt)
  }

  /** The anomaly: idle past grace after a prompt, with no tray row and no halt. */
  ghost predicate Undeclared(hands: Option<string>, polls: seq<Poll>, j: nat)
    requires j < |polls|
  {
    && IdlePastGrace(polls, j)
    && polls[j].broadcasts > 0
    && polls[j].tray == Some(false)
    && polls[j].haltReadable && !(exists i: nat :: HaltFrom(hands, polls, i, j))
  }

  function OutcomeAt(hands: Option<string>, polls: seq<Poll>, j: nat): Outcome
    requires j < |polls|
  {
    Step(hands, Run(hands, polls[..j]), polls[j]).outcomes[|Run(hands, polls[..j]).outcomes|]
  }

  /** Poll `i` nudged, and the prompt counter stood where it stands at poll `j`. */
  ghost predicate NudgedBefore(hands: Option<string>, polls: seq<Poll>, j: nat)
    requires j < |polls|
  {
    exists i: nat :: i < j && OutcomeAt(hands, polls, i).nudge && polls[i].broadcasts == polls[j].broadcasts
  }

  // ------------------------------------------------------ reading the state

  /** The recorded idle start is the first poll of the current idle run. */
  ghost predicate TracksIdle(polls: seq<Poll>, idleSince: Option<int>) {
    match idleSince
    case None => polls != [] ==> polls[|polls| - 1].state != A.Idle
    case Some(t) => exists k: nat :: k < |polls| && StartsIdle(polls, k) && t == polls[k].at
  }

  /** The idle run that reaches the end starts at `k`. */
  predicate StartsIdle(polls: seq<Poll>, k: nat)
    requires k < |polls|
  {
    IdleFrom(polls, k, |polls| - 1) && (k > 0 ==> polls[k - 1].state != A.Idle)
  }

  lemma StepIdle(hands: Option<string>, w: Watch, p: Poll)
    ensures Step(hands, w, p).idleSince == if p.state == A.Idle then Some(Since(w, p)) else None
  {
  }

  lemma StartsIdleNext(polls: seq<Poll>, k: nat)
    requires 0 < |polls| && polls[|polls| - 1].state == A.Idle && k < |polls|
    requires k < |polls| - 1 ==> StartsIdle(polls[..|polls| - 1], k)
    requires k == |polls| - 1 > 0 ==> polls[k - 1].state != A.Idle
    ensures StartsIdle(polls, k)
  {
    var n := |polls| - 1;
    assert forall i :: 0 <= i < n ==> polls[..n][i] == polls[i];
  }

  lemma {:induction false} IdleTracked(hands: Option<string>, polls: seq<Poll>)
    ensures TracksIdle(polls, Run(hands, polls).idleSince)
  {
    hide Step, StartsIdle;
    if polls != [] {
      var n := |polls| - 1;
      IdleTracked(hands, polls[..n]);
      var w := Run(hands, polls[..n]);
      StepIdle(hands, w, polls[n]);
      if polls[n].state == A.Idle {
        var k: nat := n;
        if w.idleSince.Some? {
          k :| k < n && StartsIdle(polls[..n], k) && w.idleSince.value == polls[..n][k].at;
        } else {
          assert n > 0 ==> polls[..n][n - 1] == polls[n - 1];
        }
        StartsIdleNext(polls, k);
        assert polls[k].at == Since(w, polls[n]);
      }
    }
  }

  /** At an idle poll, the start used is that of the longest idle run ending there. */
  lemma SinceIsTheStart(hands: Option<string>, polls: seq<Poll>, j: nat)
    requires Rising(polls) && j < |polls| && polls[j].state == A.Idle
    ensures IdlePastGrace(polls, j) <==> polls[j].read - Since(Run(hands, polls[..j]), polls[j]) >= IDLE_GRACE
  {
    hide Run;
    IdleTracked(hands, polls[..j]);
    var w := Run(hands, polls[..j]);
    var k: nat := j;
    if w.idleSince.Some? {
      k :| k < j && StartsIdle(polls[..j], k) && w.idleSince.value == polls[..j][k].at;
    }
    assert polls[..j + 1][..j] == polls[..j];
    assert j > 0 ==> polls[..j][j - 1] == polls[j - 1];
    StartsIdleNext(polls[..j + 1], k);
    assert IdleFrom(polls, k, j) by {
      assert forall i :: k <= i <= j ==> polls[..j + 1][i] == polls[i];
    }
    assert Since(w, polls[j]) == polls[k].at;
    assert k > 0 ==> polls[..j + 1][k - 1] == polls[k - 1];
    assert k > 0 ==> polls[k - 1].state != A.Idle;
    if IdlePastGrace(polls, j) {
      var i: nat :| IdleFrom(polls, i, j) && polls[j].read - polls[i].at >= IDLE_GRACE;
      assert i >= k;
    }
  }

  /** The last nudge among the first `n` polls: where it was, and that none came after it. */
  ghost predicate TracksNudge(hands: Option<string>, polls: seq<Poll>, n: nat, nudgedAt: Option<nat>)
    requires n <= |polls|
  {
    match nudgedAt
    case None => forall i :: 0 <= i < n ==> !OutcomeAt(hands, polls, i).nudge
    case Some(c) => exists i: nat :: i < n && LastNudge(hands, polls, n, i) && polls[i].broadcasts == c
  }

  ghost predicate LastNudge(hands: Option<string>, polls: seq<Poll>, n: nat, i: nat)
    requires i < n <= |polls|
  {
    OutcomeAt(hands, polls, i).nudge && forall k :: i < k < n ==> !OutcomeAt(hands, polls, k).nudge
  }

  lemma NudgeNext(hands: Option<string>, polls: seq<Poll>, n: nat, before: Option<nat>)
    requires n < |polls| && TracksNudge(hands, polls, n, before)
    ensures TracksNudge(hands, polls, n + 1, if OutcomeAt(hands, polls, n).nudge then Some(polls[n].broadcasts) else before)
  {
    hide OutcomeAt;
    if OutcomeAt(hands, polls, n).nudge {
      assert LastNudge(hands, polls, n + 1, n);
    } else if before.Some? {
      var i: nat :| i < n && LastNudge(hands, polls, n, i) && polls[i].broadcasts == before.value;
      assert LastNudge(hands, polls, n + 1, i);
    }
  }

  lemma {:induction false} NudgeTracked(hands: Option<string>, polls: seq<Poll>, n: nat)
    requires n <= |polls|
    ensures TracksNudge(hands, polls, n, Run(hands, polls[..n]).nudgedAt)
  {
    hide Step, OutcomeAt;
    if n == 0 {
      NothingPolled(hands);
      assert polls[..0] == [];
    } else {
      hide TracksNudge, Run;
      NudgeTracked(hands, polls, n - 1);
      RunNext(hands, polls, n - 1);
      StepNudge(hands, polls, n - 1);
      NudgeNext(hands, polls, n - 1, Run(hands, polls[..n - 1]).nudgedAt);
    }
  }

  lemma StepNudge(hands: Option<string>, polls: seq<Poll>, n: nat)
    requires n < |polls|
    ensures Step(hands, Run(hands, polls[..n]), polls[n]).nudgedAt ==
            if OutcomeAt(hands, polls, n).nudge then Some(polls[n].broadcasts) else Run(hands, polls[..n]).nudgedAt
  {
    hide Run, Sweep, DecisionAt, HandsDown;
  }

  /** With a growing counter, the last nudge is at this count exactly when some earlier nudge was. */
  lemma NudgedAtMeans(hands: Option<string>, polls: seq<Poll>, j: nat)
    requires Counting(polls) && j < |polls|
    ensures Run(hands, polls[..j]).nudgedAt == Some(polls[j].broadcasts) <==> NudgedBefore(hands, polls, j)
  {
    hide Run, OutcomeAt;
    NudgeTracked(hands, polls, j);
    var w := Run(hands, polls[..j]);
    if w.nudgedAt.Some? {
      var i: nat :| i < j && LastNudge(hands, polls, j, i) && polls[i].broadcasts == w.nudgedAt.value;
      if NudgedBefore(hands, polls, j) {
        var k: nat :| k < j && OutcomeAt(hands, polls, k).nudge && polls[k].broadcasts == polls[j].broadcasts;
        assert k <= i;
        assert polls[k].broadcasts <= polls[i].broadcasts <= polls[j].broadcasts;
      }
    }
  }

  // --------------------------------------------------------------- theorems

  lemma SlotStays(hands: Option<string>, polls: seq<Poll>, j: nat)
    requires j < |polls|
    ensures Run(hands, polls[..j + 1]).haltSlot <==> SlotAt(Run(hands, polls[..j]), polls[j]) || OutcomeAt(hands, polls, j).halt
  {
    RunNext(hands, polls, j);
    hide Run, Sweep, DecisionAt, HandsDown;
  }

  /** The slot is filled exactly when somebody, or an earlier halt, filled it and nothing has cleared it since. */
  lemma {:induction false} SlotIsExact(hands: Option<string>, polls: seq<Poll>, j: nat)
    requires j < |polls|
    ensures SlotAt(Run(hands, polls[..j]), polls[j]) <==> exists i: nat :: HaltFrom(hands, polls, i, j)
  {
    hide Run, OutcomeAt;
    if j == 0 {
      NothingPolled(hands);
      assert polls[..0] == [];
      assert polls[0].fillsHalt ==> HaltFrom(hands, polls, 0, 0);
    } else {
      SlotIsExact(hands, polls, j - 1);
      SlotStays(hands, polls, j - 1);
      HaltFromNext(hands, polls, j - 1, j);
    }
  }

  lemma HaltFromNext(hands: Option<string>, polls: seq<Poll>, p: nat, j: nat)
    requires p + 1 == j < |polls|
    ensures (exists i: nat :: HaltFrom(hands, polls, i, j)) <==>
            || polls[j].fillsHalt
            || (!polls[j].clearsHalt && ((exists i: nat :: HaltFrom(hands, polls, i, p)) || OutcomeAt(hands, polls, p).halt))
  {
    hide OutcomeAt;
    if i: nat :| HaltFrom(hands, polls, i, j) {
      if i < j && !(i == p && OutcomeAt(hands, polls, i).halt) { assert HaltFrom(hands, polls, i, p); }
    }
    if polls[j].fillsHalt { assert HaltFrom(hands, polls, j, j); }
    if !polls[j].clearsHalt {
      if i: nat :| HaltFrom(hands, polls, i, p) { assert HaltFrom(hands, polls, i, j); }
      if OutcomeAt(hands, polls, p).halt { assert HaltFrom(hands, polls, p, j); }
    }
  }

  lemma DecisionMeans(hands: Option<string>, polls: seq<Poll>, j: nat, handsDown: bool)
    requires Rising(polls) && j < |polls| && polls[j].state == A.Idle
    ensures var w := Run(hands, polls[..j]);
            var d := DecisionAt(w, polls[j], handsDown);
            && (d.chip <==> Undeclared(hands, polls, j))
            && (d.nudge <==> d.chip && w.nudgedAt != Some(polls[j].broadcasts) && !handsDown)
  {
    hide Run, HaltFrom;
    SinceIsTheStart(hands, polls, j);
    SlotIsExact(hands, polls, j);
  }

  function HealthAt(hands: Option<string>, polls: seq<Poll>, j: nat): map<string, S.Health>
    requires j < |polls|
  {
    Sweep(polls[j].agents, Run(hands, polls[..j]).health + polls[j].reported)
  }

  /** The agent a nudge would go to is dead, retrying or stalled. */
  predicate AddresseeDown(hands: Option<string>, polls: seq<Poll>, j: nat)
    requires j < |polls|
  {
    && hands.Some? && hands.value in HealthAt(hands, polls, j)
    && var health := HealthAt(hands, polls, j)[hands.value];
       health == S.Dead || health == S.Retrying || health == S.Stalled
  }

  lemma DownIsHandsDown(hands: Option<string>, polls: seq<Poll>, j: nat)
    requires j < |polls|
    ensures HandsDown(hands, HealthAt(hands, polls, j)) <==> AddresseeDown(hands, polls, j)
  {
    hide HealthAt;
  }

  /** What one poll found about the agents' health is what the next one starts from, new reports on top. */
  lemma HealthIsKept(hands: Option<string>, polls: seq<Poll>, j: nat)
    requires j < |polls|
    ensures Run(hands, polls[..j + 1]).health == HealthAt(hands, polls, j)
    ensures j + 1 < |polls| ==>
              HealthAt(hands, polls, j + 1) == Sweep(polls[j + 1].agents, HealthAt(hands, polls, j) + polls[j + 1].reported)
    ensures HealthAt(hands, polls, 0) == Sweep(polls[0].agents, polls[0].reported)
  {
    RunNext(hands, polls, j);
    NothingPolled(hands);
    assert polls[..0] == [] && map[] + polls[0].reported == polls[0].reported;
    hide Run, Sweep, DecisionAt, HandsDown;
  }

  /**
  The watchdog, exactly. The chip shows at a poll if and only if the session is
  idle past grace with nothing declared. A nudge goes out if and only if the chip
  shows, this prompt has not been nudged yet, the addressee is up, and the
  session is still idle and unheld at the send. A halt is declared if and only if
  the chip shows after this prompt's nudge, on the same conditions at the send.
  */
  lemma WatchdogIsExact(hands: Option<string>, polls: seq<Poll>, j: nat)
    requires Rising(polls) && Counting(polls) && j < |polls|
    ensures var o := OutcomeAt(hands, polls, j);
            && (o.chip <==> Undeclared(hands, polls, j))
            && (o.nudge <==> o.chip && !NudgedBefore(hands, polls, j)
                             && polls[j].stateAtSend == A.Idle && !polls[j].holdsAtSend && !AddresseeDown(hands, polls, j))
            && (o.halt <==> o.chip && NudgedBefore(hands, polls, j)
                            && polls[j].stateAtSend == A.Idle && !polls[j].holdsAtSend)
  {
    DownIsHandsDown(hands, polls, j);
    hide AddresseeDown;
    if polls[j].state == A.Idle {
      hide Run, Sweep, HandsDown, DecisionAt, Undeclared, NudgedBefore;
      DecisionMeans(hands, polls, j, HandsDown(hands, HealthAt(hands, polls, j)));
      NudgedAtMeans(hands, polls, j);
    } else {
      hide Run, Sweep, HandsDown;
      assert !IdlePastGrace(polls, j);
    }
  }

  /** One nudge per prompt, and every halt comes after that prompt's nudge. */
  lemma OneNudgePerPrompt(hands: Option<string>, polls: seq<Poll>, i: nat, j: nat)
    requires Rising(polls) && Counting(polls) && i < j < |polls|
    requires OutcomeAt(hands, polls, i).nudge
    ensures OutcomeAt(hands, polls, j).nudge ==> polls[i].broadcasts < polls[j].broadcasts
    ensures OutcomeAt(hands, polls, i).halt == false
  {
    hide OutcomeAt;
    WatchdogIsExact(hands, polls, i);
    WatchdogIsExact(hands, polls, j);
    assert polls[i].broadcasts <= polls[j].broadcasts;
  }

  /** A halt that no longer stands was cleared. */
  lemma ClearedSince(hands: Option<string>, polls: seq<Poll>, i: nat, j: nat)
    requires i < j < |polls| && OutcomeAt(hands, polls, i).halt && !HaltFrom(hands, polls, i, j)
    ensures exists k :: i < k <= j && polls[k].clearsHalt
  {
    hide OutcomeAt;
  }

  /** Two halts are separated by something that clears the halt slot. */
  lemma HaltsAreSeparated(hands: Option<string>, polls: seq<Poll>, i: nat, j: nat)
    requires Rising(polls) && Counting(polls) && i < j < |polls|
    requires OutcomeAt(hands, polls, i).halt && OutcomeAt(hands, polls, j).halt
    ensures exists k :: i < k <= j && polls[k].clearsHalt
  {
    hide Run, OutcomeAt;
    WatchdogIsExact(hands, polls, j);
    hide HaltFrom;
    assert !HaltFrom(hands, polls, i, j);
    ClearedSince(hands, polls, i, j);
  }

  lemma SweepOneIsExact(a: AgentPoll, health: map<string, S.Health>, slug: string)
    ensures var before, after := HealthOf(health, slug), HealthOf(SweepOne(a, health), slug);
            && (a.slug != slug || !a.alive || before in {Some(S.Retrying), Some(S.Dead)} ==> after == before)
            && (a.slug == slug && a.alive && before !in {Some(S.Retrying), Some(S.Dead)} ==>
                  after == if a.busy && a.toolsInFlight == 0 && a.silentFor > 90_000 then Some(S.Stalled)
                           else if before == Some(S.Stalled) then Some(S.Running) else before)
  {
    if a.slug == slug && a.alive {
      var before := HealthOf(health, slug);
      match before
      case None => assert before in {None, Some(S.Running)};
      case Some(h) =>
        match h
        case Running => assert before in {None, Some(S.Running)};
        case _ => assert before !in {None, Some(S.Running)};
    }
  }

  /** The silence check never overrides a supervisor's Retrying or Dead, and brings every other live agent into line. */
  lemma {:induction false} SweepIsExact(agents: seq<AgentPoll>, health: map<string, S.Health>, slug: string)
    requires forall i, j :: 0 <= i < j < |agents| ==> agents[i].slug != agents[j].slug
    ensures var before, after := HealthOf(health, slug), HealthOf(Sweep(agents, health), slug);
            && (before in {Some(S.Retrying), Some(S.Dead)} ==> after == before)
            && ((forall k :: 0 <= k < |agents| && agents[k].alive ==> agents[k].slug != slug) ==> after == before)
            && (forall k :: 0 <= k < |agents| && agents[k].alive && agents[k].slug == slug && before !in {Some(S.Retrying), Some(S.Dead)} ==>
                  after == if agents[k].busy && agents[k].toolsInFlight == 0 && agents[k].silentFor > 90_000 then Some(S.Stalled)
                           else if before == Some(S.Stalled) then Some(S.Running) else before)
  {
    if agents != [] {
      var n := |agents| - 1;
      SweepIsExact(agents[..n], health, slug);
      assert forall k :: 0 <= k < n ==> agents[..n][k] == agents[k];
      SweepOneIsExact(agents[n], Sweep(agents[..n], health), slug);
    }
  }
}
