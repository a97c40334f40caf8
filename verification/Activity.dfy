/**
The per-session activity tracker: who is busy, whether a cancel is settling,
whether the session is paused, and which changes of that are announced.
*/
module Activity {
  datatype SessionActivity = Idle | Busy | AwaitingUser | Cancelling | Paused

  /** Priority, highest first: cancelling, paused, awaiting, busy, idle. */
  function Derive(anyBusy: bool, awaiting: bool, cancelling: bool, paused: bool): SessionActivity {
    if cancelling then Cancelling
    else if paused then Paused
    else if awaiting then AwaitingUser
    else if anyBusy then Busy
    else Idle
  }

  type Flags = map<string, bool>

  /** An absent slug reads as idle. */
  predicate BusyOf(busy: Flags, slug: string) { slug in busy && busy[slug] }

  predicate AnyBusy(busy: Flags) { exists slug :: slug in busy && busy[slug] }

  /** The two-way comparison that decides whether a flag moved since the last announcement. */
  predicate PerAgentChanged(busy: Flags, lastBusy: Flags) {
    || (exists slug :: slug in busy && BusyOf(lastBusy, slug) != busy[slug])
    || (exists slug :: slug in lastBusy && BusyOf(busy, slug) != lastBusy[slug])
  }

  /** The payload: the state, the two frozen booleans, and every busy turn slot. */
  datatype Event = Event(state: SessionActivity, slot0Busy: bool, slot1Busy: bool, busySlots: seq<nat>)

  predicate SlotBusy(slugs: seq<string>, busy: Flags, i: nat) { i < |slugs| && BusyOf(busy, slugs[i]) }

  /** Positions below `n` whose participant is busy, in order. */
  function BusySlots(slugs: seq<string>, busy: Flags, n: nat): seq<nat>
    requires n <= |slugs|
  {
    if n == 0 then []
    else BusySlots(slugs, busy, n - 1) + (if BusyOf(busy, slugs[n - 1]) then [n - 1] else [])
  }

  function PayloadOf(slugs: seq<string>, state: SessionActivity, busy: Flags): Event {
    Event(state, SlotBusy(slugs, busy, 0), SlotBusy(slugs, busy, 1), BusySlots(slugs, busy, |slugs|))
  }

  /** The tracker's whole state as a value, with the announcements made so far. */
  datatype Tracker = Tracker(
    slugs: seq<string>,
    busy: Flags,
    cancelling: bool,
    paused: bool,
    awaiting: bool,
    idledSinceCancel: bool,
    last: SessionActivity,
    lastBusy: Flags,
    sent: seq<Event>)

  function New(slugs: seq<string>): Tracker {
    Tracker(slugs, map[], false, false, false, false, Idle, map[], [])
  }

  function Current(t: Tracker): SessionActivity {
    Derive(AnyBusy(t.busy), t.awaiting, t.cancelling, t.paused)
  }

  /** A cancel settles once nobody is busy; then announce if anything observable moved. */
  function Recompute(t: Tracker): Tracker {
    var settled := t.(idledSinceCancel := t.idledSinceCancel || !AnyBusy(t.busy),
                      cancelling := t.cancelling && AnyBusy(t.busy));
    var next := Current(settled);
    if next != t.last || PerAgentChanged(t.busy, t.lastBusy) then
      settled.(last := next, lastBusy := t.busy, sent := t.sent + [PayloadOf(t.slugs, next, t.busy)])
    else settled
  }

  /** One call on the tracker, or a flip of the awaiting flag it shares with the rest of the session. */
  datatype Op =
    | SetBusy(slug: string, busy: bool)
    | SetCancelling(cancelling: bool)
    | SetPaused(paused: bool)
    | Refresh
    | FlipAwaiting(awaiting: bool)

  function Apply(t: Tracker, op: Op): Tracker {
    match op
    case SetBusy(slug, b) => Recompute(t.(busy := t.busy[slug := b]))
    case SetCancelling(c) => Recompute(t.(cancelling := c, idledSinceCancel := t.idledSinceCancel && !c))
    case SetPaused(p) => Recompute(t.(paused := p))
    case Refresh => Recompute(t)
    case FlipAwaiting(a) => t.(awaiting := a)
  }

  function Run(slugs: seq<string>, ops: seq<Op>): Tracker {
    if ops == [] then New(slugs) else Apply(Run(slugs, ops[..|ops| - 1]), ops[|ops| - 1])
  }

  /** The flag the tracker shares: set by the signalling tools, read here. */
  class SharedFlag {
    var value: bool

    constructor (value: bool)
      ensures this.value == value
    {
      this.value := value;
    }
  }

  class ActivityTracker {
    const slugs: seq<string>
    const awaiting: SharedFlag
    var busy: Flags
    var cancelling: bool
    var last: SessionActivity
    var lastBusy: Flags
    var paused: bool
    var idledSinceCancel: bool
    var sent: seq<Event>

    ghost function View(): Tracker
      reads this, awaiting
    {
      Tracker(slugs, busy, cancelling, paused, awaiting.value, idledSinceCancel, last, lastBusy, sent)
    }

    constructor (awaiting: SharedFlag, slugs: seq<string>)
      ensures this.awaiting == awaiting
      ensures View() == New(slugs).(awaiting := awaiting.value)
    {
      this.slugs, this.awaiting := slugs, awaiting;
      busy, cancelling, last, lastBusy := map[], false, Idle, map[];
      paused, idledSinceCancel, sent := false, false, [];
    }

    method RecomputeLocked()
      modifies this
      ensures View() == Recompute(old(View()))
    {
      if !AnyBusy(busy) {
        idledSinceCancel := true;
      }
      if cancelling && !AnyBusy(busy) {
        cancelling := false;
      }
      var next := Derive(AnyBusy(busy), awaiting.value, cancelling, paused);
      if next != last || PerAgentChanged(busy, lastBusy) {
        last := next;
        lastBusy := busy;
        var busySlots: seq<nat> := [];
        for i := 0 to |slugs|
          invariant busySlots == BusySlots(slugs, busy, i)
        {
          if BusyOf(busy, slugs[i]) { busySlots := busySlots + [i]; }
        }
        sent := sent + [Event(next, SlotBusy(slugs, busy, 0), SlotBusy(slugs, busy, 1), busySlots)];
      }
    }

    method SetBusySlug(slug: string, b: bool)
      modifies this
      ensures View() == Apply(old(View()), SetBusy(slug, b))
    {
      busy := busy[slug := b];
      RecomputeLocked();
    }

    method SetCancelling(c: bool)
      modifies this
      ensures View() == Apply(old(View()), Op.SetCancelling(c))
    {
      cancelling := c;
      if c { idledSinceCancel := false; }
      RecomputeLocked();
    }

    method SetPaused(p: bool)
      modifies this
      ensures View() == Apply(old(View()), Op.SetPaused(p))
    {
      paused := p;
      RecomputeLocked();
    }

    method Refresh()
      modifies this
      ensures View() == Apply(old(View()), Op.Refresh)
    {
      RecomputeLocked();
    }

    /** The wake gate: a stopped session must not wake itself. */
    predicate HoldsWakes(): (held: bool)
      reads this, awaiting
      ensures held <==> Current(View()) in {Cancelling, Paused}
    {
      cancelling || paused
    }
  }
}
