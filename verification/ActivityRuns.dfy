/**
What the activity tracker keeps over every history of calls: announcements are
exactly the observable changes, a pause holds, a cancel settles once.
*/
module ActivityRuns {
  import opened Activity

  // ------------------------------------------------- what can be observed

  function BusySet(busy: Flags): set<string> { set slug | slug in busy && busy[slug] }

  datatype Obs = Obs(state: SessionActivity, busy: set<string>)

  function Observe(t: Tracker): Obs { Obs(Current(t), BusySet(t.busy)) }

  predicate Mutator(op: Op) { !op.FlipAwaiting? }

  /** What an observer sees after each call, announced or not. */
  function Observations(slugs: seq<string>, ops: seq<Op>): seq<Obs> {
    if ops == [] then []
    else Observations(slugs, ops[..|ops| - 1]) + (if Mutator(ops[|ops| - 1]) then [Observe(Run(slugs, ops))] else [])
  }

  function LastOf(first: Obs, trace: seq<Obs>): Obs {
    if trace == [] then first else trace[|trace| - 1]
  }

  /** A trace without its repetitions. */
  function Changes(first: Obs, trace: seq<Obs>): seq<Obs> {
    if trace == [] then []
    else
      var n := |trace| - 1;
      Changes(first, trace[..n]) + (if trace[n] != LastOf(first, trace[..n]) then [trace[n]] else [])
  }

  /** Positions below `n` of the slugs in `busy`. */
  function Slots(slugs: seq<string>, busy: set<string>, n: nat): seq<nat>
    requires n <= |slugs|
  {
    if n == 0 then []
    else Slots(slugs, busy, n - 1) + (if slugs[n - 1] in busy then [n - 1] else [])
  }

  function Payload(slugs: seq<string>, o: Obs): Event {
    Event(o.state, |slugs| > 0 && slugs[0] in o.busy, |slugs| > 1 && slugs[1] in o.busy, Slots(slugs, o.busy, |slugs|))
  }

  function Payloads(slugs: seq<string>, trace: seq<Obs>): seq<Event> {
    if trace == [] then []
    else Payloads(slugs, trace[..|trace| - 1]) + [Payload(slugs, trace[|trace| - 1])]
  }

  const QUIET := Obs(Idle, {})

  /** The two-way comparison is inequality of the effective busy sets. */
  lemma ChangedMeansBusySetsDiffer(busy: Flags, lastBusy: Flags)
    ensures PerAgentChanged(busy, lastBusy) <==> BusySet(busy) != BusySet(lastBusy)
  {
    if PerAgentChanged(busy, lastBusy) {
      if slug :| slug in busy && BusyOf(lastBusy, slug) != busy[slug] {
        assert slug in BusySet(busy) <==> slug !in BusySet(lastBusy);
      } else {
        var slug :| slug in lastBusy && BusyOf(busy, slug) != lastBusy[slug];
        assert slug in BusySet(busy) <==> slug !in BusySet(lastBusy);
      }
    } else {
      forall slug ensures slug in BusySet(busy) <==> slug in BusySet(lastBusy) {
        assert slug in busy ==> BusyOf(lastBusy, slug) == busy[slug];
        assert slug in lastBusy ==> BusyOf(busy, slug) == lastBusy[slug];
      }
    }
  }

  lemma {:induction false} SlotsAgree(slugs: seq<string>, busy: Flags, n: nat)
    requires n <= |slugs|
    ensures BusySlots(slugs, busy, n) == Slots(slugs, BusySet(busy), n)
  {
    if n > 0 { SlotsAgree(slugs, busy, n - 1); }
  }

  lemma PayloadsAgree(slugs: seq<string>, state: SessionActivity, busy: Flags)
    ensures PayloadOf(slugs, state, busy) == Payload(slugs, Obs(state, BusySet(busy)))
  {
    SlotsAgree(slugs, busy, |slugs|);
  }

  ghost predicate InStep(t: Tracker) {
    t.cancelling ==> AnyBusy(t.busy)
  }

  /** One recompute: announce the observation exactly when it moved. */
  lemma RecomputeAnnounces(t: Tracker)
    ensures var t' := Recompute(t);
            && t'.slugs == t.slugs && t'.busy == t.busy && t'.paused == t.paused && t'.awaiting == t.awaiting
            && InStep(t')
            && Obs(t'.last, BusySet(t'.lastBusy)) == Observe(t')
            && t'.sent == (if Observe(t') != Obs(t.last, BusySet(t.lastBusy)) then t.sent + [Payload(t.slugs, Observe(t'))] else t.sent)
  {
    ChangedMeansBusySetsDiffer(t.busy, t.lastBusy);
    PayloadsAgree(t.slugs, Recompute(t).last, t.busy);
  }

  lemma OpAnnounces(t: Tracker, op: Op)
    requires Mutator(op)
    ensures var t' := Apply(t, op);
            && t'.slugs == t.slugs && InStep(t')
            && Obs(t'.last, BusySet(t'.lastBusy)) == Observe(t')
            && t'.sent == (if Observe(t') != Obs(t.last, BusySet(t.lastBusy)) then t.sent + [Payload(t.slugs, Observe(t'))] else t.sent)
  {
    match op
    case SetBusy(slug, b) => RecomputeAnnounces(t.(busy := t.busy[slug := b]));
    case SetCancelling(c) => RecomputeAnnounces(t.(cancelling := c, idledSinceCancel := t.idledSinceCancel && !c));
    case SetPaused(p) => RecomputeAnnounces(t.(paused := p));
    case Refresh => RecomputeAnnounces(t);
  }

  lemma AppendObservation(slugs: seq<string>, trace: seq<Obs>, o: Obs)
    ensures Changes(QUIET, trace + [o]) == Changes(QUIET, trace) + (if o != LastOf(QUIET, trace) then [o] else [])
    ensures Payloads(slugs, Changes(QUIET, trace) + [o]) == Payloads(slugs, Changes(QUIET, trace)) + [Payload(slugs, o)]
  {
    assert (trace + [o])[..|trace|] == trace;
    var c := Changes(QUIET, trace);
    assert (c + [o])[..|c|] == c;
  }

  /** What was announced is the trace without repetitions, and the last of it is remembered. */
  ghost predicate AnnouncedChanges(slugs: seq<string>, t: Tracker, trace: seq<Obs>) {
    && t.sent == Payloads(slugs, Changes(QUIET, trace))
    && Obs(t.last, BusySet(t.lastBusy)) == LastOf(QUIET, trace)
    && t.slugs == slugs && InStep(t)
  }

  lemma AnnounceStep(slugs: seq<string>, t: Tracker, trace: seq<Obs>, op: Op)
    requires AnnouncedChanges(slugs, t, trace)
    ensures var t' := Apply(t, op);
            AnnouncedChanges(slugs, t', if Mutator(op) then trace + [Observe(t')] else trace)
  {
    if Mutator(op) {
      hide Apply, InStep, Payload, Observe, BusySet, Changes, Payloads;
      OpAnnounces(t, op);
      AppendObservation(slugs, trace, Observe(Apply(t, op)));
      assert Changes(QUIET, trace) + [] == Changes(QUIET, trace);
    }
  }

  lemma StartAnnounced(slugs: seq<string>)
    ensures AnnouncedChanges(slugs, New(slugs), [])
  {
    assert BusySet(map[]) == {};
  }

  /**
  Announcements refine the state: over every history, what was sent is the trace
  of observations with its repetitions removed, and the last pair remembered is
  the last one observed.
  */
  lemma {:induction false} AnnouncementsAreTheChanges(slugs: seq<string>, ops: seq<Op>)
    ensures AnnouncedChanges(slugs, Run(slugs, ops), Observations(slugs, ops))
  {
    hide AnnouncedChanges, Apply, Observe;
    if ops == [] {
      StartAnnounced(slugs);
    } else {
      var n := |ops| - 1;
      AnnouncementsAreTheChanges(slugs, ops[..n]);
      AnnounceStep(slugs, Run(slugs, ops[..n]), Observations(slugs, ops[..n]), ops[n]);
      assert Observations(slugs, ops[..n]) + [] == Observations(slugs, ops[..n]);
    }
  }

  /** After every call the last announced pair is the derived state and the busy set. */
  lemma LastAnnouncedIsCurrent(slugs: seq<string>, ops: seq<Op>, op: Op)
    requires Mutator(op)
    ensures var t, t' := Run(slugs, ops), Run(slugs, ops + [op]);
            && Obs(t'.last, BusySet(t'.lastBusy)) == Observe(t')
            && (t'.sent != t.sent <==> Observe(t') != LastOf(QUIET, Observations(slugs, ops)))
            && |t.sent| <= |t'.sent| <= |t.sent| + 1
  {
    assert (ops + [op])[..|ops|] == ops;
    OpAnnounces(Run(slugs, ops), op);
    AnnouncementsAreTheChanges(slugs, ops);
  }

  // --------------------------------------------------------- the payloads

  lemma {:induction false} SlotsAreTheBusyPositions(slugs: seq<string>, busy: set<string>, n: nat)
    requires n <= |slugs|
    ensures var s := Slots(slugs, busy, n);
            && (forall i, j :: 0 <= i < j < |s| ==> s[i] < s[j])
            && (forall k: nat :: k in s <==> k < n && slugs[k] in busy)
  {
    if n > 0 {
      SlotsAreTheBusyPositions(slugs, busy, n - 1);
      var p, s := Slots(slugs, busy, n - 1), Slots(slugs, busy, n);
      assert forall i :: 0 <= i < |p| ==> s[i] == p[i] && p[i] in p;
      assert forall k: nat :: k in s <==> k in p || (k == n - 1 && slugs[k] in busy);
    }
  }

  /** A payload lists exactly the busy positions, increasing, and its booleans are the first two. */
  lemma PayloadListsBusyPositions(slugs: seq<string>, o: Obs)
    ensures var e := Payload(slugs, o);
            && (forall i, j :: 0 <= i < j < |e.busySlots| ==> e.busySlots[i] < e.busySlots[j])
            && (forall k: nat :: k in e.busySlots <==> k < |slugs| && slugs[k] in o.busy)
            && (e.slot0Busy <==> 0 in e.busySlots) && (e.slot1Busy <==> 1 in e.busySlots)
  {
    SlotsAreTheBusyPositions(slugs, o.busy, |slugs|);
  }

  function Roster(slugs: seq<string>): set<string> { set slug | slug in slugs }

  /** Two payloads are equal exactly when state and on-roster busy set are. */
  lemma PayloadsDistinguish(slugs: seq<string>, a: Obs, b: Obs)
    ensures Payload(slugs, a) == Payload(slugs, b) <==>
            a.state == b.state && a.busy * Roster(slugs) == b.busy * Roster(slugs)
  {
    if a.state == b.state && a.busy * Roster(slugs) == b.busy * Roster(slugs) {
      assert forall k :: 0 <= k < |slugs| ==> (slugs[k] in a.busy <==> slugs[k] in a.busy * Roster(slugs));
      assert forall k :: 0 <= k < |slugs| ==> (slugs[k] in b.busy <==> slugs[k] in b.busy * Roster(slugs));
      SameSlots(slugs, a.busy, b.busy, |slugs|);
    } else if Payload(slugs, a) == Payload(slugs, b) {
      SlotsAreTheBusyPositions(slugs, a.busy, |slugs|);
      SlotsAreTheBusyPositions(slugs, b.busy, |slugs|);
      var s := Slots(slugs, a.busy, |slugs|);
      forall slug ensures slug in a.busy * Roster(slugs) <==> slug in b.busy * Roster(slugs) {
        if slug in slugs {
          var k: nat :| k < |slugs| && slugs[k] == slug;
          assert slugs[k] in a.busy <==> k in s;
          assert slugs[k] in b.busy <==> k in s;
        }
      }
      assert false;
    }
  }

  lemma {:induction false} SameSlots(slugs: seq<string>, a: set<string>, b: set<string>, n: nat)
    requires n <= |slugs|
    requires forall k :: 0 <= k < n ==> (slugs[k] in a <==> slugs[k] in b)
    ensures Slots(slugs, a, n) == Slots(slugs, b, n)
  {
    if n > 0 { SameSlots(slugs, a, b, n - 1); }
  }

  ghost predicate NamesOnly(slugs: seq<string>, ops: seq<Op>) {
    forall k :: 0 <= k < |ops| && ops[k].SetBusy? ==> ops[k].slug in slugs
  }

  lemma RecomputeKeepsBusy(t: Tracker, op: Op)
    ensures Apply(t, op).busy == if op.SetBusy? then t.busy[op.slug := op.busy] else t.busy
  {
  }

  /** What is remembered is the busy set itself, and the last payload sent is that of what is remembered. */
  lemma {:induction false} RememberedIsCurrent(slugs: seq<string>, ops: seq<Op>)
    ensures var t := Run(slugs, ops);
            && t.slugs == slugs && BusySet(t.lastBusy) == BusySet(t.busy)
            && (t.sent != [] ==> t.sent[|t.sent| - 1] == Payload(slugs, Obs(t.last, BusySet(t.busy))))
  {
    hide Apply, Payload, BusySet, Observe;
    if ops == [] {
      StartAnnounced(slugs);
    } else {
      var n := |ops| - 1;
      RememberedIsCurrent(slugs, ops[..n]);
      RememberedStep(Run(slugs, ops[..n]), ops[n]);
    }
  }

  lemma RememberedStep(t: Tracker, op: Op)
    requires BusySet(t.lastBusy) == BusySet(t.busy)
    requires t.sent != [] ==> t.sent[|t.sent| - 1] == Payload(t.slugs, Obs(t.last, BusySet(t.busy)))
    ensures var t' := Apply(t, op);
            && t'.slugs == t.slugs && BusySet(t'.lastBusy) == BusySet(t'.busy)
            && (t'.sent != [] ==> t'.sent[|t'.sent| - 1] == Payload(t.slugs, Obs(t'.last, BusySet(t'.busy))))
  {
    if Mutator(op) {
      OpAnnounces(t, op);
      hide Apply, Payload, BusySet;
    }
  }

  /** The state derived once these flags are in force. */
  function StateWith(t: Tracker, busy: Flags): SessionActivity {
    Derive(AnyBusy(busy), t.awaiting, t.cancelling && AnyBusy(busy), t.paused)
  }

  /** A busy edge of a slug outside the roster that leaves the announced state as it was. */
  ghost predicate ForeignEdge(t: Tracker, op: Op) {
    && t.sent != [] && op.SetBusy? && op.slug !in t.slugs
    && BusyOf(t.busy, op.slug) != op.busy && StateWith(t, t.busy[op.slug := op.busy]) == t.last
  }

  lemma BusySetAfter(busy: Flags, slug: string, b: bool)
    ensures BusySet(busy[slug := b]) == if b then BusySet(busy) + {slug} else BusySet(busy) - {slug}
    ensures slug in BusySet(busy) <==> BusyOf(busy, slug)
  {
  }

  /** Off the roster is what a payload cannot tell. */
  lemma EdgeOnRoster(slugs: seq<string>, busy: set<string>, slug: string)
    ensures slug !in slugs ==>
              && (busy + {slug}) * Roster(slugs) == busy * Roster(slugs)
              && (busy - {slug}) * Roster(slugs) == busy * Roster(slugs)
    ensures slug in slugs && slug !in busy ==> (busy + {slug}) * Roster(slugs) != busy * Roster(slugs)
    ensures slug in slugs && slug in busy ==> (busy - {slug}) * Roster(slugs) != busy * Roster(slugs)
  {
    assert slug in slugs ==> (slug in (busy + {slug}) * Roster(slugs) && slug !in (busy - {slug}) * Roster(slugs));
  }

  lemma BusySetMoves(t: Tracker, op: Op)
    requires Mutator(op)
    ensures var t' := Apply(t, op);
            && Current(t') == (if op.SetBusy? then StateWith(t, t.busy[op.slug := op.busy]) else Current(t'))
            && (BusySet(t'.busy) != BusySet(t.busy) <==> op.SetBusy? && BusyOf(t.busy, op.slug) != op.busy)
            && (op.SetBusy? && BusyOf(t.busy, op.slug) != op.busy ==>
                  (BusySet(t'.busy) * Roster(t.slugs) == BusySet(t.busy) * Roster(t.slugs) <==> op.slug !in t.slugs))
  {
    RecomputeKeepsBusy(t, op);
    if op.SetBusy? {
      BusySetAfter(t.busy, op.slug, op.busy);
      EdgeOnRoster(t.slugs, BusySet(t.busy), op.slug);
    }
  }

  lemma RepeatStep(t: Tracker, op: Op)
    requires Mutator(op) && t.sent != [] && BusySet(t.lastBusy) == BusySet(t.busy)
    requires t.sent[|t.sent| - 1] == Payload(t.slugs, Obs(t.last, BusySet(t.busy)))
    ensures Apply(t, op).sent == t.sent + [t.sent[|t.sent| - 1]] <==> ForeignEdge(t, op)
  {
    hide Apply, BusySet, Payload, Roster, BusyOf, StateWith;
    var t' := Apply(t, op);
    OpAnnounces(t, op);
    BusySetMoves(t, op);
    PayloadsDistinguish(t.slugs, Observe(t'), Obs(t.last, BusySet(t.busy)));
    AppendedIs(t.sent, Payload(t.slugs, Observe(t')), t.sent[|t.sent| - 1]);
  }

  lemma AppendedIs(sent: seq<Event>, a: Event, b: Event)
    ensures sent + [a] == sent + [b] <==> a == b
    ensures sent + [b] != sent
  {
    assert (sent + [a])[|sent|] == a && (sent + [b])[|sent|] == b;
    assert |sent + [b]| == |sent| + 1;
  }

  /** Over every history, a call sends the last payload once more exactly when it is such an edge. */
  lemma {:induction false} RepeatsExactly(slugs: seq<string>, ops: seq<Op>, op: Op)
    requires Mutator(op) && Run(slugs, ops).sent != []
    ensures var t := Run(slugs, ops);
            Run(slugs, ops + [op]).sent == t.sent + [t.sent[|t.sent| - 1]] <==> ForeignEdge(t, op)
  {
    assert (ops + [op])[..|ops|] == ops;
    RememberedIsCurrent(slugs, ops);
    RepeatStep(Run(slugs, ops), op);
  }

  ghost predicate HasRepeat(sent: seq<Event>) { exists k :: 0 < k < |sent| && sent[k] == sent[k - 1] }

  lemma HasRepeatAppend(sent: seq<Event>, e: Event)
    ensures HasRepeat(sent + [e]) <==> HasRepeat(sent) || (sent != [] && sent[|sent| - 1] == e)
  {
    var more := sent + [e];
    if k :| 0 < k < |sent| && sent[k] == sent[k - 1] { assert more[k] == more[k - 1]; }
    if k :| 0 < k < |more| && more[k] == more[k - 1] {
      if k < |sent| { assert sent[k] == sent[k - 1]; }
    }
    if sent != [] && sent[|sent| - 1] == e { assert more[|sent|] == more[|sent| - 1]; }
  }

  /** Call k is such an edge. */
  ghost predicate ForeignEdgeAt(slugs: seq<string>, ops: seq<Op>, k: nat) {
    k < |ops| && ForeignEdge(Run(slugs, ops[..k]), ops[k])
  }

  /** Two equal payloads follow each other somewhere in a history exactly when one of its calls is such an edge. */
  lemma {:induction false} RepeatsComeFromForeignEdges(slugs: seq<string>, ops: seq<Op>)
    ensures HasRepeat(Run(slugs, ops).sent) <==> exists k: nat :: ForeignEdgeAt(slugs, ops, k)
  {
    if ops != [] {
      hide HasRepeat, ForeignEdge, Apply;
      var n := |ops| - 1;
      RepeatsComeFromForeignEdges(slugs, ops[..n]);
      RepeatsUpTo(slugs, ops);
      EdgesUpTo(slugs, ops);
    }
  }

  lemma RepeatsUpTo(slugs: seq<string>, ops: seq<Op>)
    requires ops != []
    ensures var n := |ops| - 1;
            HasRepeat(Run(slugs, ops).sent) <==> HasRepeat(Run(slugs, ops[..n]).sent) || ForeignEdgeAt(slugs, ops, n)
  {
    hide HasRepeat, Apply, Payload, BusySet, StateWith, BusyOf;
    var n := |ops| - 1;
    var t, op := Run(slugs, ops[..n]), ops[n];
    RunNext(slugs, ops);
    if Mutator(op) {
      OpAnnounces(t, op);
      var e := Payload(t.slugs, Observe(Apply(t, op)));
      HasRepeatAppend(t.sent, e);
      if t.sent != [] {
        RememberedIsCurrent(slugs, ops[..n]);
        RepeatStep(t, op);
        AppendedIs(t.sent, e, t.sent[|t.sent| - 1]);
      }
    } else {
      FlipSendsNothing(t, op);
    }
  }

  lemma FlipSendsNothing(t: Tracker, op: Op)
    requires !Mutator(op)
    ensures Apply(t, op).sent == t.sent
  {
  }

  lemma EdgesUpTo(slugs: seq<string>, ops: seq<Op>)
    requires ops != []
    ensures var n := |ops| - 1;
            (exists k: nat :: ForeignEdgeAt(slugs, ops, k)) <==>
            (exists k: nat :: ForeignEdgeAt(slugs, ops[..n], k)) || ForeignEdgeAt(slugs, ops, n)
  {
    hide Run, ForeignEdge;
    var n := |ops| - 1;
    forall k: nat | k < n ensures ForeignEdgeAt(slugs, ops, k) <==> ForeignEdgeAt(slugs, ops[..n], k) {
      assert ops[..n][..k] == ops[..k];
    }
  }

  /** When every call names a roster slug, no payload repeats the one before it. */
  lemma {:induction false} NoRepeatedPayload(slugs: seq<string>, ops: seq<Op>, k: nat)
    requires NamesOnly(slugs, ops)
    requires 0 < k < |Run(slugs, ops).sent|
    ensures Run(slugs, ops).sent[k] != Run(slugs, ops).sent[k - 1]
  {
    RepeatsComeFromForeignEdges(slugs, ops);
    forall i: nat | i < |ops| ensures Run(slugs, ops[..i]).slugs == slugs { RememberedIsCurrent(slugs, ops[..i]); }
    hide Run, StateWith;
  }

  /** One roster participant and one outsider: the outsider's edge repeats the payload. */
  lemma RepeatedPayloadShown()
    ensures Run(["a"], [SetBusy("a", true), SetBusy("x", true)]).sent
            == [Event(Busy, true, false, [0]), Event(Busy, true, false, [0])]
  {
    var first, second := SetBusy("a", true), SetBusy("x", true);
    assert [first, second][..1] == [first] && [first][..0] == [];
    var t := New(["a"]).(busy := map["a" := true]);
    assert "a" in t.busy && t.busy["a"];
    assert Run(["a"], []) == New(["a"]);
    OneSlot(t.busy);
    var t1 := Run(["a"], [first]);
    assert t1.sent == [Event(Busy, true, false, [0])] && t1.last == Busy && t1.busy == t.busy;
    var busy := t1.busy["x" := true];
    assert "a" in busy && busy["a"];
    OneSlot(busy);
    assert "x" in busy && BusyOf(t1.lastBusy, "x") != busy["x"];
  }

  lemma OneSlot(busy: Flags)
    requires BusyOf(busy, "a")
    ensures PayloadOf(["a"], Busy, busy) == Event(Busy, true, false, [0])
  {
    assert BusySlots(["a"], busy, 1) == [0] by { assert BusySlots(["a"], busy, 0) == []; }
  }

  // --------------------------------------------------------- stop to resume

  /** The value of the last pause call, or not paused. */
  function LastPause(ops: seq<Op>): bool {
    if ops == [] then false
    else if ops[|ops| - 1].SetPaused? then ops[|ops| - 1].paused
    else LastPause(ops[..|ops| - 1])
  }

  lemma PauseStep(t: Tracker, op: Op)
    ensures Apply(t, op).paused == if op.SetPaused? then op.paused else t.paused
  {
    hide AnyBusy, PerAgentChanged, PayloadOf;
  }

  lemma {:induction false} PauseIsLast(slugs: seq<string>, ops: seq<Op>)
    ensures Run(slugs, ops).paused == LastPause(ops)
  {
    if ops != [] {
      hide Apply;
      PauseIsLast(slugs, ops[..|ops| - 1]);
      PauseStep(Run(slugs, ops[..|ops| - 1]), ops[|ops| - 1]);
    }
  }

  /** While the last pause call was a pause, the session reads Cancelling or Paused, whatever else happens. */
  lemma {:induction false} PauseHolds(slugs: seq<string>, ops: seq<Op>)
    ensures var t := Run(slugs, ops);
            && t.paused == LastPause(ops)
            && (LastPause(ops) ==> Current(t) in {Cancelling, Paused})
            && (Current(t) == Paused ==> LastPause(ops))
  {
    PauseIsLast(slugs, ops);
    hide Run, LastPause, AnyBusy;
  }

  /** A cancel is pending only while somebody is busy. */
  lemma CancelNeedsABusyAgent(slugs: seq<string>, ops: seq<Op>)
    ensures Current(Run(slugs, ops)) == Cancelling ==> AnyBusy(Run(slugs, ops).busy)
  {
    AnnouncementsAreTheChanges(slugs, ops);
  }

  lemma OnlyCancelCancels(t: Tracker, op: Op)
    requires !t.cancelling && op != SetCancelling(true)
    ensures !Apply(t, op).cancelling
  {
  }

  /** Once settled, Cancelling does not come back without a new cancel. */
  lemma {:induction false} SettledStaysSettled(slugs: seq<string>, before: seq<Op>, after: seq<Op>)
    requires Current(Run(slugs, before)) != Cancelling
    requires forall k :: 0 <= k < |after| ==> after[k] != SetCancelling(true)
    ensures Current(Run(slugs, before + after)) != Cancelling
  {
    hide Apply, Run;
    if after == [] {
      assert before + after == before;
    } else {
      var n := |after| - 1;
      SettledStaysSettled(slugs, before, after[..n]);
      assert (before + after)[..|before| + n] == before + after[..n];
      RunNext(slugs, before + after);
      OnlyCancelCancels(Run(slugs, before + after[..n]), after[n]);
    }
  }

  lemma RunNext(slugs: seq<string>, ops: seq<Op>)
    requires ops != []
    ensures Run(slugs, ops) == Apply(Run(slugs, ops[..|ops| - 1]), ops[|ops| - 1])
  {
  }

  /** The flag last set for a slug. */
  function LastFlag(ops: seq<Op>, slug: string): bool {
    if ops == [] then false
    else if ops[|ops| - 1].SetBusy? && ops[|ops| - 1].slug == slug then ops[|ops| - 1].busy
    else LastFlag(ops[..|ops| - 1], slug)
  }

  ghost predicate NobodyBusy(ops: seq<Op>) { forall slug :: !LastFlag(ops, slug) }

  lemma {:induction false} FlagsAreLastCalls(slugs: seq<string>, ops: seq<Op>, slug: string)
    ensures BusyOf(Run(slugs, ops).busy, slug) == LastFlag(ops, slug)
  {
    if ops != [] {
      FlagsAreLastCalls(slugs, ops[..|ops| - 1], slug);
      RecomputeKeepsBusy(Run(slugs, ops[..|ops| - 1]), ops[|ops| - 1]);
    }
  }

  lemma AnyBusyIsSomebody(slugs: seq<string>, ops: seq<Op>)
    ensures AnyBusy(Run(slugs, ops).busy) <==> !NobodyBusy(ops)
  {
    var busy := Run(slugs, ops).busy;
    forall slug ensures BusyOf(busy, slug) == LastFlag(ops, slug) { FlagsAreLastCalls(slugs, ops, slug); }
    if AnyBusy(busy) {
      var slug :| slug in busy && busy[slug];
      assert BusyOf(busy, slug);
    }
    if !NobodyBusy(ops) {
      var slug :| LastFlag(ops, slug);
      assert BusyOf(busy, slug);
    }
  }

  /** Call number `k` looked at the busy flags and saw nobody busy. */
  ghost predicate SawIdle(ops: seq<Op>, k: nat) {
    k < |ops| && Mutator(ops[k]) && NobodyBusy(ops[..k + 1])
  }

  /** No cancel was started after call number `k`. */
  ghost predicate NoCancelAfter(ops: seq<Op>, k: nat) {
    forall m :: k < m < |ops| ==> ops[m] != SetCancelling(true)
  }

  ghost predicate IdledInThisCancel(ops: seq<Op>) {
    exists k: nat :: SawIdle(ops, k) && NoCancelAfter(ops, k)
  }

  /**
  The flag that lets an interrupt skip the kill: it holds exactly when some call
  since the last cancel began, that call's own look included, saw nobody busy.
  */
  lemma {:induction false} IdleProofIsSinceThisCancel(slugs: seq<string>, ops: seq<Op>)
    ensures Run(slugs, ops).idledSinceCancel <==> IdledInThisCancel(ops)
  {
    hide Apply, AnyBusy, NobodyBusy, IdledInThisCancel, NoCancelAfter;
    if ops == [] {
      NothingYet();
    } else {
      var n := |ops| - 1;
      var prev, op := ops[..n], ops[n];
      IdleProofIsSinceThisCancel(slugs, prev);
      AnyBusyIsSomebody(slugs, ops);
      assert ops[..n + 1] == ops;
      IdleProofStep(ops);
      RunNext(slugs, ops);
      IdleFlagStep(Run(slugs, prev), op);
    }
  }

  lemma RecomputeLooks(t: Tracker)
    ensures Recompute(t).busy == t.busy && (Recompute(t).idledSinceCancel <==> t.idledSinceCancel || !AnyBusy(t.busy))
  {
  }

  lemma IdleFlagStep(t: Tracker, op: Op)
    ensures var t' := Apply(t, op);
            t'.idledSinceCancel <==>
            (t.idledSinceCancel && op != SetCancelling(true)) || (Mutator(op) && !AnyBusy(t'.busy))
  {
    hide Recompute, AnyBusy;
    match op
    case SetBusy(slug, b) => RecomputeLooks(t.(busy := t.busy[slug := b]));
    case SetCancelling(c) => RecomputeLooks(t.(cancelling := c, idledSinceCancel := t.idledSinceCancel && !c));
    case SetPaused(p) => RecomputeLooks(t.(paused := p));
    case Refresh => RecomputeLooks(t);
    case FlipAwaiting(_) =>
  }

  lemma NothingYet()
    ensures !IdledInThisCancel([])
  {
  }

  lemma IdleProofStep(ops: seq<Op>)
    requires ops != []
    ensures var n := |ops| - 1;
            IdledInThisCancel(ops) <==> SawIdle(ops, n) || (ops[n] != SetCancelling(true) && IdledInThisCancel(ops[..n]))
  {
    var n := |ops| - 1;
    var prev := ops[..n];
    if IdledInThisCancel(ops) && !SawIdle(ops, n) {
      var k: nat :| SawIdle(ops, k) && NoCancelAfter(ops, k);
      assert ops[..k + 1] == prev[..k + 1];
      assert SawIdle(prev, k) && NoCancelAfter(prev, k);
    }
    if ops[n] != SetCancelling(true) && IdledInThisCancel(prev) {
      var k: nat :| SawIdle(prev, k) && NoCancelAfter(prev, k);
      assert ops[..k + 1] == prev[..k + 1];
      assert SawIdle(ops, k) && NoCancelAfter(ops, k);
    }
    if SawIdle(ops, n) { assert NoCancelAfter(ops, n); }
  }

  // ------------------------------------------------------ the derived state

  /** The value of the last flip of the awaiting flag, or not awaiting. */
  function LastAwaiting(ops: seq<Op>): bool {
    if ops == [] then false
    else if ops[|ops| - 1].FlipAwaiting? then ops[|ops| - 1].awaiting
    else LastAwaiting(ops[..|ops| - 1])
  }

  /** From call number `k` on nothing called the cancel off, and every call found somebody busy. */
  ghost predicate StillSettling(ops: seq<Op>, k: nat) {
    forall m :: k <= m < |ops| && Mutator(ops[m]) ==> ops[m] != SetCancelling(false) && !NobodyBusy(ops[..m + 1])
  }

  /** Some cancel has not settled yet. */
  ghost predicate CancelInForce(ops: seq<Op>) {
    exists k: nat :: k < |ops| && ops[k] == SetCancelling(true) && StillSettling(ops, k)
  }

  lemma NoCancelYet()
    ensures !CancelInForce([])
  {
  }

  lemma SettlingStep(ops: seq<Op>, k: nat)
    requires ops != [] && k < |ops|
    ensures var n := |ops| - 1;
            StillSettling(ops, k) <==>
            && (k < n ==> StillSettling(ops[..n], k))
            && (Mutator(ops[n]) ==> ops[n] != SetCancelling(false) && !NobodyBusy(ops))
  {
    hide NobodyBusy;
    var n := |ops| - 1;
    var prev := ops[..n];
    assert ops[..n + 1] == ops;
    forall m | 0 <= m < n ensures prev[m] == ops[m] && prev[..m + 1] == ops[..m + 1] {}
  }

  lemma CancelInForceStep(ops: seq<Op>)
    requires ops != []
    ensures var n := |ops| - 1;
            CancelInForce(ops) <==>
            && (ops[n] == SetCancelling(true) || CancelInForce(ops[..n]))
            && (Mutator(ops[n]) ==> ops[n] != SetCancelling(false) && !NobodyBusy(ops))
  {
    hide NobodyBusy, StillSettling;
    var n := |ops| - 1;
    var prev := ops[..n];
    forall k: nat | k < |ops|
      ensures StillSettling(ops, k) <==>
              (k < n ==> StillSettling(prev, k)) && (Mutator(ops[n]) ==> ops[n] != SetCancelling(false) && !NobodyBusy(ops))
    {
      SettlingStep(ops, k);
    }
    if CancelInForce(prev) {
      var k: nat :| k < n && prev[k] == SetCancelling(true) && StillSettling(prev, k);
      assert ops[k] == SetCancelling(true) && k < |ops|;
    }
    if CancelInForce(ops) && ops[n] != SetCancelling(true) {
      var k: nat :| k < |ops| && ops[k] == SetCancelling(true) && StillSettling(ops, k);
      assert prev[k] == SetCancelling(true) && StillSettling(prev, k);
    }
  }

  lemma RecomputeSettles(t: Tracker)
    ensures Recompute(t).busy == t.busy && (Recompute(t).cancelling <==> t.cancelling && AnyBusy(t.busy))
  {
  }

  lemma CancelStep(t: Tracker, op: Op)
    ensures var t' := Apply(t, op);
            t'.cancelling <==>
            && (op == SetCancelling(true) || t.cancelling)
            && (Mutator(op) ==> op != SetCancelling(false) && AnyBusy(t'.busy))
  {
    hide Recompute, AnyBusy;
    match op
    case SetBusy(slug, b) => RecomputeSettles(t.(busy := t.busy[slug := b]));
    case SetCancelling(c) => RecomputeSettles(t.(cancelling := c, idledSinceCancel := t.idledSinceCancel && !c));
    case SetPaused(p) => RecomputeSettles(t.(paused := p));
    case Refresh => RecomputeSettles(t);
    case FlipAwaiting(_) =>
  }

  lemma {:induction false} CancellingMeansInForce(slugs: seq<string>, ops: seq<Op>)
    ensures Run(slugs, ops).cancelling <==> CancelInForce(ops)
  {
    hide Apply, AnyBusy, NobodyBusy, CancelInForce;
    if ops == [] {
      NoCancelYet();
    } else {
      var n := |ops| - 1;
      CancellingMeansInForce(slugs, ops[..n]);
      AnyBusyIsSomebody(slugs, ops);
      RunNext(slugs, ops);
      CancelStep(Run(slugs, ops[..n]), ops[n]);
      CancelInForceStep(ops);
    }
  }

  lemma AwaitingStep(t: Tracker, op: Op)
    ensures Apply(t, op).awaiting == if op.FlipAwaiting? then op.awaiting else t.awaiting
  {
    hide AnyBusy, PerAgentChanged, PayloadOf;
  }

  lemma {:induction false} AwaitingIsLast(slugs: seq<string>, ops: seq<Op>)
    ensures Run(slugs, ops).awaiting == LastAwaiting(ops)
  {
    if ops != [] {
      hide Apply;
      AwaitingIsLast(slugs, ops[..|ops| - 1]);
      AwaitingStep(Run(slugs, ops[..|ops| - 1]), ops[|ops| - 1]);
    }
  }

  /**
  What the session reads as after any history, said by the calls alone: a
  cancel that has not settled wins; then the pause latch; then a question to
  the user, even while somebody is busy; then whether anybody is.
  */
  lemma {:induction false} StateIsExact(slugs: seq<string>, ops: seq<Op>)
    ensures var state, stopped := Current(Run(slugs, ops)), CancelInForce(ops) || LastPause(ops);
            && (state == Cancelling <==> CancelInForce(ops))
            && (state == Paused <==> LastPause(ops) && !CancelInForce(ops))
            && (state == AwaitingUser <==> !stopped && LastAwaiting(ops))
            && (state == Busy <==> !stopped && !LastAwaiting(ops) && !NobodyBusy(ops))
            && (state == Idle <==> !stopped && !LastAwaiting(ops) && NobodyBusy(ops))
  {
    CancellingMeansInForce(slugs, ops);
    PauseIsLast(slugs, ops);
    AwaitingIsLast(slugs, ops);
    AnyBusyIsSomebody(slugs, ops);
    hide Run, LastPause, LastAwaiting, AnyBusy, NobodyBusy, CancelInForce;
  }

  /** What the last announcement said is that state: after any call, and with the busy participants of that moment. */
  lemma {:induction false} LastAnnouncementIsExact(slugs: seq<string>, ops: seq<Op>, op: Op)
    requires Mutator(op) && Run(slugs, ops + [op]).sent != []
    ensures var t := Run(slugs, ops + [op]);
            var e := t.sent[|t.sent| - 1];
            && e.state == Current(t)
            && (forall k: nat :: k in e.busySlots <==> k < |slugs| && LastFlag(ops + [op], slugs[k]))
            && (e.slot0Busy <==> 0 in e.busySlots) && (e.slot1Busy <==> 1 in e.busySlots)
  {
    var all := ops + [op];
    assert all[..|ops|] == ops;
    var t := Run(slugs, all);
    RememberedIsCurrent(slugs, all);
    OpAnnounces(Run(slugs, ops), op);
    forall k: nat | k < |slugs| ensures slugs[k] in BusySet(t.busy) <==> LastFlag(all, slugs[k]) {
      FlagsAreLastCalls(slugs, all, slugs[k]);
    }
    PayloadListsBusyPositions(slugs, Observe(t));
    hide Run, Apply, Payload, LastFlag;
  }

  /** A cancel or a pause, remembered or derived, is both: a flip of the awaiting flag shows through neither. */
  lemma {:induction false} StopIsRemembered(slugs: seq<string>, ops: seq<Op>)
    ensures var t := Run(slugs, ops);
            t.last in {Cancelling, Paused} || Current(t) in {Cancelling, Paused} ==> t.last == Current(t)
  {
    if ops != [] {
      var n := |ops| - 1;
      StopIsRemembered(slugs, ops[..n]);
      if Mutator(ops[n]) {
        hide Apply, BusySet, Payload;
        OpAnnounces(Run(slugs, ops[..n]), ops[n]);
      }
    }
  }

  lemma CancelThenPause(t: Tracker)
    requires AnyBusy(t.busy) && t.last !in {Cancelling, Paused} && !t.cancelling && !t.paused
    ensures var t1 := Apply(t, SetCancelling(true));
            var t2 := Apply(t1, SetPaused(true));
            Current(t2) == Cancelling && t2.sent == t1.sent == t.sent + [PayloadOf(t.slugs, Cancelling, t.busy)]
  {
    hide PayloadOf;
    ChangedMeansBusySetsDiffer(t.busy, t.busy);
  }

  lemma PauseThenCancel(t: Tracker)
    requires AnyBusy(t.busy) && t.last !in {Cancelling, Paused} && !t.cancelling && !t.paused
    ensures var t1 := Apply(t, SetPaused(true));
            var t2 := Apply(t1, SetCancelling(true));
            && Current(t2) == Cancelling && t1.sent == t.sent + [PayloadOf(t.slugs, Paused, t.busy)]
            && t2.sent == t1.sent + [PayloadOf(t.slugs, Cancelling, t.busy)]
  {
    hide PayloadOf;
  }

  /**
  The documented Stop order, from every state that is busy, unpaused and not
  cancelling: cancel first, then pause, and the latch is silent while the
  interrupt settles; the other order announces Paused first.
  */
  lemma {:induction false} StopOrderMatters(slugs: seq<string>, ops: seq<Op>)
    requires AnyBusy(Run(slugs, ops).busy) && !LastPause(ops) && Current(Run(slugs, ops)) != Cancelling
    ensures var t := Run(slugs, ops);
            var cancelFirst := Apply(Apply(t, SetCancelling(true)), SetPaused(true));
            var pauseFirst := Apply(Apply(t, SetPaused(true)), SetCancelling(true));
            && Current(cancelFirst) == Current(pauseFirst) == Cancelling
            && cancelFirst.sent == t.sent + [PayloadOf(t.slugs, Cancelling, t.busy)]
            && pauseFirst.sent == t.sent + [PayloadOf(t.slugs, Paused, t.busy)] + [PayloadOf(t.slugs, Cancelling, t.busy)]
  {
    hide Apply, PayloadOf;
    PauseHolds(slugs, ops);
    StopIsRemembered(slugs, ops);
    CancelThenPause(Run(slugs, ops));
    PauseThenCancel(Run(slugs, ops));
  }
}
