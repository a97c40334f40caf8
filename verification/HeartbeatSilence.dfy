/**
A plugin that never answers: when it is reported, and when the pings themselves
keep its silence from showing.
*/
module HeartbeatSilence {
  import opened Options
  import opened Heartbeat

  // ------------------------------------------------- the exact condition

  /** Some sweep finds the ping of call p late before the next ping of the plugin. */
  ghost predicate LatePing(calls: seq<Call>, k: nat, id: string, p: nat) {
    && p < k <= |calls| && Pings(calls[p], id) && Registered(calls, p, id)
    && exists m :: p < m < k && Late(calls[m], calls[p].at) && NoPingBetween(calls, p, m, id)
  }

  predicate NoPingBetween(calls: seq<Call>, p: nat, m: nat, id: string)
    requires p < m <= |calls|
  {
    forall j :: p < j < m ==> !Pings(calls[j], id)
  }

  ghost function LatePings(calls: seq<Call>, k: nat, id: string): set<nat> {
    set p: nat | p < k && LatePing(calls, k, id, p)
  }

  predicate NeverAnswers(calls: seq<Call>, id: string) { forall j :: 0 <= j < |calls| ==> !Resets(calls[j], id) }

  lemma LatePingStep(calls: seq<Call>, k: nat, next: nat, id: string, p: nat)
    requires next == k + 1 && k < |calls| && NeverAnswers(calls, id)
    ensures LatePing(calls, next, id, p) <==> LatePing(calls, k, id, p) || (Pending(calls, k, id, p) && Late(calls[k], calls[p].at))
    ensures LatePing(calls, k, id, p) ==> !Pending(calls, k, id, p)
  {
    hide Overdue, Registered;
    if LatePing(calls, next, id, p) && !LatePing(calls, k, id, p) {
      var m :| p < m < next && Late(calls[m], calls[p].at) && NoPingBetween(calls, p, m, id);
      assert m == k;
      forall j | p < j < k ensures !Late(calls[j], calls[p].at) {
        assert NoPingBetween(calls, p, j, id);
      }
    }
    if LatePing(calls, k, id, p) {
      var m :| p < m < k && Late(calls[m], calls[p].at) && NoPingBetween(calls, p, m, id);
      assert m < next;
    }
    if Pending(calls, k, id, p) && Late(calls[k], calls[p].at) {
      assert NoPingBetween(calls, p, k, id);
    }
  }

  lemma LatePingsStep(calls: seq<Call>, k: nat, id: string)
    requires k < |calls| && NeverAnswers(calls, id)
    ensures |LatePings(calls, k + 1, id)| == |LatePings(calls, k, id)| + if MissAt(calls, k, id) then 1 else 0
  {
    var next := k + 1;
    var before, after := LatePings(calls, k, id), LatePings(calls, next, id);
    forall p: nat
      ensures LatePing(calls, next, id, p) <==> LatePing(calls, k, id, p) || (Pending(calls, k, id, p) && Late(calls[k], calls[p].at))
      ensures LatePing(calls, k, id, p) ==> !Pending(calls, k, id, p)
    {
      LatePingStep(calls, k, next, id, p);
    }
    PendingIsPing(calls, k, id);
    OnePending(calls, k, id);
    hide LatePing, Pending, Late, LatePings;
    if MissAt(calls, k, id) {
      var p: nat :| Pending(calls, k, id, p) && Late(calls[k], calls[p].at);
      forall q: nat ensures q in after <==> q in before || q == p {
        LatePingsHold(calls, k, id, q);
        LatePingsHold(calls, next, id, q);
      }
      LatePingsHold(calls, k, id, p);
      OneMore(before, after, p);
    } else {
      forall q: nat ensures q in after <==> q in before {
        LatePingsHold(calls, k, id, q);
        LatePingsHold(calls, next, id, q);
      }
      assert after == before;
    }
  }

  lemma LatePingsHold(calls: seq<Call>, k: nat, id: string, p: nat)
    ensures p in LatePings(calls, k, id) <==> LatePing(calls, k, id, p)
  {
    LatePingIsBefore(calls, k, id);
    hide LatePing;
  }

  lemma OneMore(before: set<nat>, after: set<nat>, p: nat)
    requires p !in before && forall q: nat :: q in after <==> q in before || q == p
    ensures |after| == |before| + 1
  {
    assert after == before + {p};
  }

  lemma LatePingIsBefore(calls: seq<Call>, k: nat, id: string)
    ensures forall p: nat :: LatePing(calls, k, id, p) ==> p < k
  {
  }

  lemma {:induction false} MissesAreLatePings(calls: seq<Call>, k: nat, id: string)
    requires k <= |calls| && NeverAnswers(calls, id)
    ensures MissesSinceReset(calls, k, id) == |LatePings(calls, k, id)|
  {
    hide MissAt, LatePing;
    if k > 0 {
      MissesAreLatePings(calls, k - 1, id);
      LatePingsStep(calls, k - 1, id);
    }
  }

  ghost predicate Reported(calls: seq<Call>, id: string) { exists i: nat :: i < |calls| && CrashAt(calls, i, id) }

  /**
  A plugin that never answers is reported exactly when three of its pings are
  each found late by a sweep that comes before the next ping.
  */
  lemma SilenceIsReported(calls: seq<Call>, id: string)
    requires NeverAnswers(calls, id)
    ensures Reported(calls, id) <==> |LatePings(calls, |calls|, id)| >= 3
  {
    hide CrashAt, MissAt, LatePings;
    MissesAreLatePings(calls, |calls|, id);
    if i: nat :| i < |calls| && CrashAt(calls, i, id) {
      CrashIsThirdMiss(calls, i, id);
      MissesGrow(calls, i + 1, |calls|, id);
    }
    if MissesSinceReset(calls, |calls|, id) >= 3 {
      CrashedWasReported(calls, |calls|, id);
    }
  }

  /** What is shown for such a plugin tells the same. */
  lemma SilenceIsShown(calls: seq<Call>, id: string)
    requires NeverAnswers(calls, id) && Registered(calls, |calls|, id)
    ensures var late := |LatePings(calls, |calls|, id)|;
            StatusIn(After(calls, |calls|), id) == Some(StatusFor(if late < 3 then late else 3))
  {
    hide LatePings, MissesSinceReset;
    MissesAreLatePings(calls, |calls|, id);
    StatusIsExact(calls, id);
  }

  // ------------------------------------------- pings and sweeps in step

  /** The period both loops run at. */
  const PING_INTERVAL: nat := 5_000_000_000

  /**
  Registered once, pinged every period, swept a fixed delay after each ping, never
  answering. A delay of a whole period or more would put a sweep before a ping
  with an earlier clock reading, so only shorter ones are timelines.
  */
  function InStep(id: string, n: nat, delay: nat): seq<Call> {
    if n == 0 then [Register(id)]
    else InStep(id, n - 1, delay) + [PingSent(id, n * PING_INTERVAL), Sweep(n * PING_INTERVAL + delay)]
  }

  lemma {:induction false} AfterPrefix(a: seq<Call>, b: seq<Call>, k: nat)
    requires k <= |a|
    ensures After(a + b, k) == After(a, k)
  {
    hide Apply;
    if k > 0 { AfterPrefix(a, b, k - 1); }
  }

  lemma AfterTwo(a: seq<Call>, p: Call, q: Call)
    ensures After(a + [p, q], |a + [p, q]|) == Apply(Apply(After(a, |a|), p), q)
  {
    hide Apply;
    AfterPrefix(a, [p, q], |a|);
    var calls := a + [p, q];
    assert calls[|a|] == p && calls[|a| + 1] == q;
    assert After(calls, |a| + 1) == Apply(After(a, |a|), p);
  }

  lemma {:induction false} InStepView(id: string, n: nat, delay: nat)
    ensures var calls := InStep(id, n, delay);
            var s := View(After(calls, |calls|), id);
            && s.Some? && NeverAnswers(calls, id)
            && s.value.missCount == (if delay <= 1_000_000_000 then 0 else if n < 3 then n else 3)
            && s.value.status == StatusFor(s.value.missCount)
  {
    var calls := InStep(id, n, delay);
    if n == 0 {
      assert After(calls, 0) == map[] && After(calls, 1) == Apply(map[], Register(id));
    } else {
      var a, ping, sweep := InStep(id, n - 1, delay), PingSent(id, n * PING_INTERVAL), Sweep(n * PING_INTERVAL + delay);
      InStepView(id, n - 1, delay);
      AfterTwo(a, ping, sweep);
      ViewStep(After(a, |a|), ping, id);
      ViewStep(Apply(After(a, |a|), ping), sweep, id);
      hide After, Apply, View;
      assert forall j :: 0 <= j < |a| ==> calls[j] == a[j];
      assert calls[|a|] == ping && calls[|a| + 1] == sweep && |calls| == |a| + 2;
    }
  }

  /**
  With both loops at one period their phase decides alone: a plugin that never
  answers is reported exactly when sweeps fall outside the window of the latest
  ping and three rounds have passed. Otherwise it shows as healthy for ever.
  */
  lemma PhaseDecides(id: string, n: nat, delay: nat)
    ensures var calls := InStep(id, n, delay);
            && (Reported(calls, id) <==> delay > 1_000_000_000 && n >= 3)
            && (delay <= 1_000_000_000 ==> StatusIn(After(calls, |calls|), id) == Some(Healthy))
  {
    var calls := InStep(id, n, delay);
    InStepView(id, n, delay);
    hide InStep, After, Reported, LatePings, MissesSinceReset;
    SilenceIsReported(calls, id);
    MissesAreLatePings(calls, |calls|, id);
    StatusIsExact(calls, id);
  }
}
