/**
The polled waiters on session activity. A waiter sees one sample per poll; its
answer is described over the whole sampled trace.
*/
module LapWaiter {

  /** One poll: the clock, whether anybody was busy, whether the halt slot was filled. */
  datatype Sample = Sample(now: int, anyBusy: bool, awaiting: bool)

  datatype Answer = Returned(value: bool, at: nat) | StillWaiting

  predicate Rising(samples: seq<Sample>) {
    forall i, j :: 0 <= i <= j < |samples| ==> samples[i].now <= samples[j].now
  }

  predicate IdleRun(samples: seq<Sample>, from: nat, to: nat)
    requires to < |samples|
  {
    from <= to && forall k :: from <= k <= to ==> !samples[k].anyBusy
  }

  /** Sample `i` closes an all-idle run of samples spanning at least `quiet`. */
  ghost predicate QuietAt(samples: seq<Sample>, i: nat, quiet: nat)
    requires i < |samples|
  {
    exists j: nat :: IdleRun(samples, j, i) && samples[i].now - samples[j].now >= quiet
  }

  ghost predicate LapOverAt(samples: seq<Sample>, i: nat, quiet: nat)
    requires i < |samples|
  {
    samples[i].awaiting || QuietAt(samples, i, quiet)
  }

  /** The lap waiter answers at the first sample that ends the lap or meets the deadline: true if the lap ended. */
  ghost predicate IsLapAnswer(samples: seq<Sample>, deadline: int, quiet: nat, a: Answer) {
    match a
    case StillWaiting => forall k :: 0 <= k < |samples| ==> !LapOverAt(samples, k, quiet) && samples[k].now < deadline
    case Returned(value, i) =>
      && i < |samples|
      && (forall k :: 0 <= k < i ==> !LapOverAt(samples, k, quiet) && samples[k].now < deadline)
      && (LapOverAt(samples, i, quiet) || samples[i].now >= deadline)
      && (value <==> LapOverAt(samples, i, quiet))
  }

  /** The idle waiter answers at the first idle sample, or false at the deadline. */
  ghost predicate IsIdleAnswer(samples: seq<Sample>, deadline: int, a: Answer) {
    match a
    case StillWaiting => forall k :: 0 <= k < |samples| ==> samples[k].anyBusy && samples[k].now < deadline
    case Returned(value, i) =>
      && i < |samples|
      && (forall k :: 0 <= k < i ==> samples[k].anyBusy && samples[k].now < deadline)
      && (!samples[i].anyBusy || samples[i].now >= deadline)
      && (value <==> !samples[i].anyBusy)
  }

  /** Only the start of the current idle run matters. */
  lemma QuietSinceStart(samples: seq<Sample>, start: nat, i: nat, quiet: nat)
    requires Rising(samples) && i < |samples| && IdleRun(samples, start, i)
    requires start > 0 ==> samples[start - 1].anyBusy
    ensures QuietAt(samples, i, quiet) <==> samples[i].now - samples[start].now >= quiet
  {
    if QuietAt(samples, i, quiet) {
      var j: nat :| IdleRun(samples, j, i) && samples[i].now - samples[j].now >= quiet;
      assert start > 0 ==> samples[start - 1].anyBusy;
      assert j >= start;
    }
  }

  lemma BusyIsNotQuiet(samples: seq<Sample>, i: nat, quiet: nat)
    requires i < |samples| && samples[i].anyBusy
    ensures !QuietAt(samples, i, quiet)
  {
  }

  method AwaitLapEnd(samples: seq<Sample>, deadline: int, quiet: nat) returns (a: Answer)
    requires Rising(samples)
    ensures IsLapAnswer(samples, deadline, quiet, a)
  {
    hide Rising, QuietAt;
    var idle := false;       // is there a current idle run, and when did it start
    var idleSince := 0;
    ghost var start: nat := 0;
    var i := 0;
    while i < |samples|
      invariant 0 <= i <= |samples|
      invariant forall k :: 0 <= k < i ==> !LapOverAt(samples, k, quiet) && samples[k].now < deadline
      invariant idle ==> start < i && IdleRun(samples, start, i - 1) && idleSince == samples[start].now
      invariant idle && start > 0 ==> samples[start - 1].anyBusy
      invariant !idle && i > 0 ==> samples[i - 1].anyBusy
    {
      if samples[i].awaiting { return Returned(true, i); }
      var now := samples[i].now;
      if samples[i].anyBusy {
        idle := false;
        BusyIsNotQuiet(samples, i, quiet);
      } else {
        if !idle {
          idle, idleSince := true, now;
          start := i;
        }
        QuietSinceStart(samples, start, i, quiet);
        if now - idleSince >= quiet { return Returned(true, i); }
      }
      if now >= deadline { return Returned(false, i); }
      i := i + 1;
    }
    return StillWaiting;
  }

  method AwaitBothIdle(samples: seq<Sample>, deadline: int) returns (a: Answer)
    ensures IsIdleAnswer(samples, deadline, a)
  {
    for i := 0 to |samples|
      invariant forall k :: 0 <= k < i ==> samples[k].anyBusy && samples[k].now < deadline
    {
      if !samples[i].anyBusy { return Returned(true, i); }
      if samples[i].now >= deadline { return Returned(false, i); }
    }
    return StillWaiting;
  }

  /**
  A handover gap shorter than the quiet window never ends the lap: when the lap
  ends without a filled halt slot, every sample of the last `quiet` was idle.
  */
  lemma LapEndOutlastsTheGap(samples: seq<Sample>, deadline: int, quiet: nat, at: nat)
    requires Rising(samples) && IsLapAnswer(samples, deadline, quiet, Returned(true, at))
    requires !samples[at].awaiting
    ensures forall k :: 0 <= k <= at && samples[at].now - samples[k].now < quiet ==> !samples[k].anyBusy
    ensures exists j: nat :: j <= at && samples[at].now - samples[j].now >= quiet && !samples[j].anyBusy
  {
    var j: nat :| IdleRun(samples, j, at) && samples[at].now - samples[j].now >= quiet;
    assert !samples[j].anyBusy;
  }

  /** Without a halt slot, the lap never ends at an earlier sample than the first idle one. */
  lemma LapNotBeforeIdle(samples: seq<Sample>, deadline: int, quiet: nat, lap: Answer, idle: Answer)
    requires IsLapAnswer(samples, deadline, quiet, lap) && IsIdleAnswer(samples, deadline, idle)
    requires forall k :: 0 <= k < |samples| ==> !samples[k].awaiting
    requires lap.Returned? && lap.value
    ensures idle.Returned? && idle.value && idle.at <= lap.at
  {
    var j: nat :| IdleRun(samples, j, lap.at) && samples[lap.at].now - samples[j].now >= quiet;
    assert !samples[lap.at].anyBusy;
    if idle.Returned? && idle.at < lap.at { assert samples[idle.at].now < deadline; }
  }
}
