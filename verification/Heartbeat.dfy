/**
The watcher over plugin frames: pings go out, pongs come back, and a sweep
counts the pings left unanswered past the window.
*/
module Heartbeat {
  import opened Options

  /** Nanoseconds. */
  const PONG_WINDOW: nat := 1_000_000_000
  const MISS_LIMIT: nat := 3

  datatype PluginStatus = Healthy | Slow(misses: nat) | Crashed

  datatype PluginState = PluginState(lastPingAt: Option<nat>, missCount: nat, status: PluginStatus)

  const FRESH := PluginState(None, 0, Healthy)

  type Plugins = map<string, PluginState>

  datatype Call =
    | Register(id: string)
    | Unregister(id: string)
    | PingSent(id: string, at: nat)
    | PongReceived(id: string)
    | Sweep(now: nat)

  /** More than the window has gone by since an instant; a clock that reads less counts as none. */
  predicate Overdue(sentAt: nat, now: nat) { now > sentAt + PONG_WINDOW }

  predicate Misses(s: PluginState, now: nat) {
    s.lastPingAt.Some? && Overdue(s.lastPingAt.value, now) && s.status != Crashed
  }

  function Swept(s: PluginState, now: nat): PluginState {
    if !Misses(s, now) then s
    else
      var n := s.missCount + 1;
      PluginState(None, n, if n >= MISS_LIMIT then Crashed else Slow(n))
  }

  /** The plugins a sweep finds newly crashed. */
  function NewlyCrashed(plugins: Plugins, now: nat): set<string> {
    set id | id in plugins && Misses(plugins[id], now) && Swept(plugins[id], now).status == Crashed
  }

  /** A sweep, seen at one plugin. */
  lemma SweptIs(plugins: Plugins, id: string, now: nat)
    requires id in plugins
    ensures var s := plugins[id];
            var late := s.lastPingAt.Some? && Overdue(s.lastPingAt.value, now) && s.status != Crashed;
            && Swept(s, now) == (if !late then s
                                 else PluginState(None, s.missCount + 1,
                                                  if s.missCount + 1 >= MISS_LIMIT then Crashed else Slow(s.missCount + 1)))
            && (id in NewlyCrashed(plugins, now) <==> late && s.missCount + 1 >= MISS_LIMIT)
  {
  }

  /** What is shown for a plugin, if it is watched. */
  function StatusIn(plugins: Plugins, id: string): Option<PluginStatus> {
    match View(plugins, id)
    case None => None
    case Some(s) => Some(s.status)
  }

  function Apply(plugins: Plugins, c: Call): Plugins {
    match c
    case Register(id) => if id in plugins then plugins else plugins[id := FRESH]
    case Unregister(id) => plugins - {id}
    case PingSent(id, at) => if id in plugins then plugins[id := plugins[id].(lastPingAt := Some(at))] else plugins
    case PongReceived(id) => if id in plugins then plugins[id := FRESH] else plugins
    case Sweep(now) => map id | id in plugins :: Swept(plugins[id], now)
  }

  class HeartbeatWatcher {
    var plugins: Plugins

    constructor ()
      ensures plugins == map[]
    {
      plugins := map[];
    }

    method RegisterPlugin(id: string)
      modifies this
      ensures plugins == Apply(old(plugins), Register(id))
    {
      if id !in plugins {
        plugins := plugins[id := PluginState(None, 0, Healthy)];
      }
    }

    method UnregisterPlugin(id: string)
      modifies this
      ensures plugins == Apply(old(plugins), Unregister(id))
    {
      plugins := plugins - {id};
    }

    method NotePingSent(id: string, at: nat)
      modifies this
      ensures plugins == Apply(old(plugins), PingSent(id, at))
    {
      if id in plugins {
        plugins := plugins[id := plugins[id].(lastPingAt := Some(at))];
      }
    }

    method NotePongReceived(id: string)
      modifies this
      ensures plugins == Apply(old(plugins), PongReceived(id))
    {
      if id in plugins {
        plugins := plugins[id := plugins[id].(missCount := 0, status := Healthy, lastPingAt := None)];
      }
    }

    /** Visits the plugins in no particular order; reports each newly crashed one once. */
    method SweepAll(now: nat) returns (newlyCrashed: seq<string>)
      modifies this
      ensures plugins == Apply(old(plugins), Sweep(now))
      ensures forall id :: id in newlyCrashed <==> id in NewlyCrashed(old(plugins), now)
      ensures forall i, j :: 0 <= i < j < |newlyCrashed| ==> newlyCrashed[i] != newlyCrashed[j]
    {
      newlyCrashed := [];
      ghost var before := plugins;
      var todo := plugins.Keys;
      while todo != {}
        invariant todo <= before.Keys && plugins.Keys == before.Keys
        invariant forall id :: id in before.Keys ==>
                    plugins[id] == if id in todo then before[id] else Swept(before[id], now)
        invariant forall id :: id in newlyCrashed <==> id in NewlyCrashed(before, now) && id !in todo
        invariant forall i, j :: 0 <= i < j < |newlyCrashed| ==> newlyCrashed[i] != newlyCrashed[j]
        decreases |todo|
      {
        var id :| id in todo;
        var s := plugins[id];
        SweptIs(before, id, now);
        hide Swept, NewlyCrashed, Misses;
        todo := todo - {id};
        if s.lastPingAt.Some? && Overdue(s.lastPingAt.value, now) && s.status != Crashed {
          var misses := s.missCount + 1;
          if misses >= MISS_LIMIT {
            plugins := plugins[id := PluginState(None, misses, Crashed)];
            newlyCrashed := newlyCrashed + [id];
          } else {
            plugins := plugins[id := PluginState(None, misses, Slow(misses))];
          }
        }
      }
    }

    function StatusOf(id: string): (r: Option<PluginStatus>)
      reads this
      ensures r == StatusIn(plugins, id)
      ensures r.Some? <==> id in plugins
    {
      if id in plugins then Some(plugins[id].status) else None
    }
  }

  // ---------------------------------------------------------- histories

  /** The watcher after the first k calls. */
  function After(calls: seq<Call>, k: nat): Plugins
    requires k <= |calls|
  {
    if k == 0 then map[] else Apply(After(calls, k - 1), calls[k - 1])
  }

  /** Call k reports the plugin as newly crashed. */
  predicate CrashAt(calls: seq<Call>, k: nat, id: string) {
    k < |calls| && calls[k].Sweep? && id in NewlyCrashed(After(calls, k), calls[k].now)
  }

  /** The call answers for the plugin, or drops it. */
  predicate Resets(c: Call, id: string) { c == PongReceived(id) || c == Unregister(id) }

  predicate Pings(c: Call, id: string) { c.PingSent? && c.id == id }

  predicate Late(c: Call, sentAt: nat) { c.Sweep? && c.now > sentAt + 1_000_000_000 }

  predicate Registered(calls: seq<Call>, k: nat, id: string)
    requires k <= |calls|
  {
    k > 0 && calls[k - 1] != Unregister(id) && (calls[k - 1] == Register(id) || Registered(calls, k - 1, id))
  }

  /** Before call k, the ping of call p is the latest, unanswered, and no sweep has found it late. */
  predicate Pending(calls: seq<Call>, k: nat, id: string, p: nat) {
    && p < k <= |calls| && Pings(calls[p], id) && Registered(calls, p, id)
    && (forall m :: p < m < k ==> !Pings(calls[m], id) && !Resets(calls[m], id) && !Late(calls[m], calls[p].at))
  }

  /** Call k is a sweep that finds a ping of the plugin late. */
  ghost predicate MissAt(calls: seq<Call>, k: nat, id: string) {
    k < |calls| && exists p: nat :: Pending(calls, k, id, p) && Late(calls[k], calls[p].at)
  }

  /** Misses among the first k calls since the plugin last answered or was dropped. */
  ghost function MissesSinceReset(calls: seq<Call>, k: nat, id: string): nat
    requires k <= |calls|
  {
    if k == 0 || Resets(calls[k - 1], id) then 0
    else MissesSinceReset(calls, k - 1, id) + if MissAt(calls, k - 1, id) then 1 else 0
  }

  ghost function PingsSinceReset(calls: seq<Call>, k: nat, id: string): nat
    requires k <= |calls|
  {
    if k == 0 || Resets(calls[k - 1], id) then 0
    else PingsSinceReset(calls, k - 1, id) + if Pings(calls[k - 1], id) then 1 else 0
  }

  function StatusFor(misses: nat): PluginStatus {
    if misses == 0 then Healthy else if misses < 3 then Slow(misses) else Crashed
  }

  // --------------------------------------------------- one plugin's view

  function View(plugins: Plugins, id: string): Option<PluginState> {
    if id in plugins then Some(plugins[id]) else None
  }

  function ViewAfter(s: Option<PluginState>, c: Call, id: string): Option<PluginState> {
    if c == Register(id) then (if s.Some? then s else Some(FRESH))
    else if c == Unregister(id) || s.None? then None
    else if Pings(c, id) then Some(s.value.(lastPingAt := Some(c.at)))
    else if c == PongReceived(id) then Some(FRESH)
    else if c.Sweep? then Some(Swept(s.value, c.now))
    else s
  }

  lemma ViewStep(plugins: Plugins, c: Call, id: string)
    ensures View(Apply(plugins, c), id) == ViewAfter(View(plugins, id), c, id)
  {
    hide Swept;
  }

  /** What a plugin's state says about the calls so far. */
  ghost predicate Faithful(calls: seq<Call>, k: nat, id: string, s: Option<PluginState>)
    requires k <= |calls|
  {
    && (s.Some? <==> Registered(calls, k, id))
    && (s.None? ==> MissesSinceReset(calls, k, id) == 0 && forall p: nat :: !Pending(calls, k, id, p))
    && (s.Some? ==>
          && s.value.missCount == (if MissesSinceReset(calls, k, id) < 3 then MissesSinceReset(calls, k, id) else 3)
          && s.value.status == StatusFor(s.value.missCount)
          && (s.value.missCount < 3 ==>
                && (forall p: nat :: Pending(calls, k, id, p) ==> s.value.lastPingAt == Some(calls[p].at))
                && (s.value.lastPingAt.Some? ==> exists p: nat :: Pending(calls, k, id, p))))
  }

  /** A ping sent at call k is pending after it; any other pending ping must outlive the call. */
  ghost predicate PendingNext(calls: seq<Call>, k: nat, id: string, p: nat)
    requires k < |calls|
  {
    || (p == k && Pings(calls[k], id) && Registered(calls, k, id))
    || (Pending(calls, k, id, p) && !Pings(calls[k], id) && !Resets(calls[k], id) && !Late(calls[k], calls[p].at))
  }

  lemma PendingSteps(calls: seq<Call>, k: nat, next: nat, id: string)
    requires k < |calls| && next == k + 1
    ensures forall p: nat :: Pending(calls, next, id, p) <==> PendingNext(calls, k, id, p)
  {
    hide Overdue, Registered;
  }

  lemma PendingIsPing(calls: seq<Call>, k: nat, id: string)
    ensures forall p: nat :: Pending(calls, k, id, p) ==> p < k <= |calls| && Pings(calls[p], id)
  {
  }

  lemma StaysFaithfulAbsent(calls: seq<Call>, k: nat, id: string)
    requires k < |calls| && Faithful(calls, k, id, None)
    ensures Faithful(calls, k + 1, id, ViewAfter(None, calls[k], id))
  {
    var next := k + 1;
    PendingSteps(calls, k, next, id);
    hide Pending, Overdue;
    assert !MissAt(calls, k, id);
    assert forall p: nat :: !Pending(calls, next, id, p);
  }

  lemma StaysFaithfulReset(calls: seq<Call>, k: nat, id: string, s: PluginState)
    requires k < |calls| && Faithful(calls, k, id, Some(s)) && (Resets(calls[k], id) || Pings(calls[k], id))
    ensures Faithful(calls, k + 1, id, ViewAfter(Some(s), calls[k], id))
  {
    var next := k + 1;
    PendingSteps(calls, k, next, id);
    hide Pending, Overdue;
    if Pings(calls[k], id) {
      assert !MissAt(calls, k, id);
      assert PendingNext(calls, k, id, k);
    }
  }

  lemma StaysFaithfulOther(calls: seq<Call>, k: nat, id: string, s: PluginState)
    requires k < |calls| && Faithful(calls, k, id, Some(s))
    requires !Resets(calls[k], id) && !Pings(calls[k], id) && !calls[k].Sweep?
    ensures Faithful(calls, k + 1, id, ViewAfter(Some(s), calls[k], id))
  {
    var next := k + 1;
    PendingSteps(calls, k, next, id);
    PendingIsPing(calls, k, id);
    hide Pending, Overdue;
    assert !MissAt(calls, k, id);
    assert ViewAfter(Some(s), calls[k], id) == Some(s);
    assert forall p: nat :: Pending(calls, next, id, p) <==> Pending(calls, k, id, p);
  }

  lemma StaysFaithfulSweep(calls: seq<Call>, k: nat, id: string, s: PluginState)
    requires k < |calls| && Faithful(calls, k, id, Some(s)) && calls[k].Sweep?
    ensures Faithful(calls, k + 1, id, ViewAfter(Some(s), calls[k], id))
    ensures s.status != Crashed ==> (MissAt(calls, k, id) <==> Misses(s, calls[k].now))
  {
    var next := k + 1;
    PendingSteps(calls, k, next, id);
    PendingIsPing(calls, k, id);
    hide Pending, Overdue;
    if s.missCount < 3 {
      assert MissAt(calls, k, id) <==> Misses(s, calls[k].now);
      if Misses(s, calls[k].now) {
        assert forall p: nat :: !Pending(calls, next, id, p);
      } else {
        assert forall p: nat :: Pending(calls, k, id, p) ==> PendingNext(calls, k, id, p);
      }
    }
  }

  lemma StaysFaithful(calls: seq<Call>, k: nat, id: string, s: Option<PluginState>)
    requires k < |calls| && Faithful(calls, k, id, s)
    ensures Faithful(calls, k + 1, id, ViewAfter(s, calls[k], id))
  {
    hide Faithful, ViewAfter;
    if s.None? {
      StaysFaithfulAbsent(calls, k, id);
    } else if Resets(calls[k], id) || Pings(calls[k], id) {
      StaysFaithfulReset(calls, k, id, s.value);
    } else if calls[k].Sweep? {
      StaysFaithfulSweep(calls, k, id, s.value);
    } else {
      StaysFaithfulOther(calls, k, id, s.value);
    }
  }

  lemma {:induction false} ViewIsFaithful(calls: seq<Call>, k: nat, id: string)
    requires k <= |calls|
    ensures Faithful(calls, k, id, View(After(calls, k), id))
  {
    if k > 0 {
      hide Faithful, Apply, ViewAfter, View;
      ViewIsFaithful(calls, k - 1, id);
      ViewStep(After(calls, k - 1), calls[k - 1], id);
      StaysFaithful(calls, k - 1, id, View(After(calls, k - 1), id));
    }
  }

  /**
  Status and count always agree, and the count is that of the late pings since
  the plugin last answered, up to three.
  */
  lemma StatusIsExact(calls: seq<Call>, id: string)
    ensures var s, misses := View(After(calls, |calls|), id), MissesSinceReset(calls, |calls|, id);
            && (s.Some? <==> Registered(calls, |calls|, id))
            && (s.Some? ==>
                  && s.value.missCount == (if misses < 3 then misses else 3)
                  && s.value.status == StatusFor(s.value.missCount))
  {
    ViewIsFaithful(calls, |calls|, id);
  }

  /** A plugin is reported exactly at its third late ping since it last answered. */
  lemma CrashIsThirdMiss(calls: seq<Call>, k: nat, id: string)
    requires k < |calls|
    ensures CrashAt(calls, k, id) <==> MissAt(calls, k, id) && MissesSinceReset(calls, k, id) == 2
  {
    ViewIsFaithful(calls, k, id);
    var s := View(After(calls, k), id);
    hide Pending, Overdue, Registered, After;
    if calls[k].Sweep? && s.Some? {
      StaysFaithfulSweep(calls, k, id, s.value);
    }
  }

  lemma {:induction false} MissesGrow(calls: seq<Call>, i: nat, j: nat, id: string)
    requires i <= j <= |calls| && forall m :: i <= m < j ==> !Resets(calls[m], id)
    ensures MissesSinceReset(calls, i, id) <= MissesSinceReset(calls, j, id)
  {
    if i < j {
      hide MissAt;
      MissesGrow(calls, i, j - 1, id);
    }
  }

  /** Between two reports of one plugin it answered, or was dropped and registered again. */
  lemma CrashReportsAreSeparated(calls: seq<Call>, i: nat, j: nat, id: string)
    requires i < j && CrashAt(calls, i, id) && CrashAt(calls, j, id)
    ensures exists m :: i < m < j && Resets(calls[m], id)
  {
    CrashIsThirdMiss(calls, i, id);
    CrashIsThirdMiss(calls, j, id);
    hide CrashAt, MissAt;
    if forall m :: i < m < j ==> !Resets(calls[m], id) {
      MissesGrow(calls, i + 1, j, id);
    }
  }

  /** A plugin shown as crashed was reported, and has not answered since. */
  lemma {:induction false} CrashedWasReported(calls: seq<Call>, k: nat, id: string)
    requires k <= |calls| && MissesSinceReset(calls, k, id) >= 3
    ensures exists i :: 0 <= i < k && CrashAt(calls, i, id) && forall m :: i < m < k ==> !Resets(calls[m], id)
  {
    hide MissAt, CrashAt;
    var before := MissesSinceReset(calls, k - 1, id);
    if before >= 3 {
      CrashedWasReported(calls, k - 1, id);
      var i :| 0 <= i < k - 1 && CrashAt(calls, i, id) && forall m :: i < m < k - 1 ==> !Resets(calls[m], id);
      assert forall m :: i < m < k ==> !Resets(calls[m], id);
    } else {
      CrashIsThirdMiss(calls, k - 1, id);
      assert CrashAt(calls, k - 1, id);
    }
  }

  /** Late pings never outnumber the pings sent. */
  lemma {:induction false} MissesAreOfPings(calls: seq<Call>, k: nat, id: string)
    requires k <= |calls|
    ensures MissesSinceReset(calls, k, id) <= PingsSinceReset(calls, k, id)
    ensures (exists p: nat :: Pending(calls, k, id, p)) ==> MissesSinceReset(calls, k, id) < PingsSinceReset(calls, k, id)
  {
    if k > 0 {
      MissesAreOfPings(calls, k - 1, id);
      PendingSteps(calls, k - 1, k, id);
      PendingIsPing(calls, k - 1, id);
      OnePending(calls, k - 1, id);
      hide Pending, Overdue, Registered;
    }
  }

  lemma OnePending(calls: seq<Call>, k: nat, id: string)
    ensures forall p: nat, q: nat :: Pending(calls, k, id, p) && Pending(calls, k, id, q) ==> p == q
  {
  }

  /** A round: a ping, then calls that neither ping nor answer for the plugin, a sweep past the window among them. */
  predicate SilentRound(calls: seq<Call>, from: nat, end: nat, id: string) {
    && from < end <= |calls| && Pings(calls[from], id)
    && (forall m :: from < m < end ==> !Pings(calls[m], id) && !Resets(calls[m], id))
    && (exists m :: from < m < end && Late(calls[m], calls[from].at))
  }

  lemma RoundIsAMiss(calls: seq<Call>, from: nat, end: nat, id: string)
    requires SilentRound(calls, from, end, id) && Registered(calls, from, id)
    ensures MissesSinceReset(calls, end, id) > MissesSinceReset(calls, from, id)
    ensures Registered(calls, end, id)
  {
    hide MissAt, Registered;
    var m := FirstLate(calls, from, end, id);
    MissesGrow(calls, from, m, id);
    MissesGrow(calls, m + 1, end, id);
    StaysRegistered(calls, from, end, id);
  }

  lemma FirstLate(calls: seq<Call>, from: nat, end: nat, id: string) returns (m: nat)
    requires SilentRound(calls, from, end, id) && Registered(calls, from, id)
    ensures from < m < end && MissAt(calls, m, id)
  {
    hide Overdue, Registered;
    m := from + 1;
    while !Late(calls[m], calls[from].at)
      invariant from < m < end && exists i :: m <= i < end && Late(calls[i], calls[from].at)
      invariant forall i :: from < i < m ==> !Late(calls[i], calls[from].at)
      decreases end - m
    {
      m := m + 1;
    }
    assert Pending(calls, m, id, from);
  }

  lemma {:induction false} StaysRegistered(calls: seq<Call>, from: nat, end: nat, id: string)
    requires from <= end <= |calls| && Registered(calls, from, id)
    requires forall m :: from <= m < end ==> !Resets(calls[m], id)
    ensures Registered(calls, end, id)
  {
    if from < end { StaysRegistered(calls, from, end - 1, id); }
  }

  /** Three silent rounds in a row leave a registered plugin crashed, and reported. */
  lemma ThreeSilentRoundsCrash(calls: seq<Call>, a: nat, b: nat, c: nat, id: string)
    requires SilentRound(calls, a, b, id) && SilentRound(calls, b, c, id) && SilentRound(calls, c, |calls|, id)
    requires Registered(calls, a, id)
    ensures StatusIn(After(calls, |calls|), id) == Some(Crashed)
    ensures exists i :: 0 <= i < |calls| && CrashAt(calls, i, id) && forall m :: i < m < |calls| ==> !Resets(calls[m], id)
  {
    hide SilentRound, CrashAt, MissAt, Registered, MissesSinceReset;
    RoundIsAMiss(calls, a, b, id);
    RoundIsAMiss(calls, b, c, id);
    RoundIsAMiss(calls, c, |calls|, id);
    StatusIsExact(calls, id);
    CrashedWasReported(calls, |calls|, id);
  }
}
