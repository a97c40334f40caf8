/** What the context meter's figures mean, over every stream. */
module ContextRuns {
  import opened Options
  import opened Json
  import opened AgentEvents
  import opened ContextMeter
  import opened Whitespace

  // ------------------------------------------------------- one reading

  /** The count a JSON value gives under a key: an integer that fits 64 bits, or else nothing. */
  predicate Counts(v: Value, key: string, n: nat) {
    if v.Obj? && key in v.fields && v.fields[key].Int? && 0 <= v.fields[key].i < 0x1_0000_0000_0000_0000
    then n == v.fields[key].i
    else n == 0
  }

  /** The sum, in 64 bits, of the counts under three keys. */
  ghost predicate ThreeCounts(v: Value, x: string, y: string, z: string, n: nat) {
    exists a: nat, b: nat, c: nat ::
      Counts(v, x, a) && Counts(v, y, b) && Counts(v, z, c) && n == (a + b + c) % 0x1_0000_0000_0000_0000
  }

  /** The prompt size of one call: what it read fresh, from the cache, and into the cache. */
  ghost predicate PromptSize(usage: Value, n: nat) {
    ThreeCounts(usage, "input_tokens", "cache_read_input_tokens", "cache_creation_input_tokens", n)
  }

  /** What a model has used so far: the same three counts under their other names. */
  ghost predicate SessionTotal(entry: Value, n: nat) {
    ThreeCounts(entry, "inputTokens", "cacheReadInputTokens", "cacheCreationInputTokens", n)
  }

  lemma TokensAreCounts(v: Value, key: string, n: nat)
    ensures Counts(v, key, n) <==> n == Tokens(v, key)
  {
  }

  lemma SumOfThree(v: Value, x: string, y: string, z: string, n: nat)
    ensures ThreeCounts(v, x, y, z, n) <==> n == Sum64(Tokens(v, x), Tokens(v, y), Tokens(v, z))
  {
    hide Counts, Tokens;
    TokensAreCounts(v, x, Tokens(v, x));
    TokensAreCounts(v, y, Tokens(v, y));
    TokensAreCounts(v, z, Tokens(v, z));
    if a: nat, b: nat, c: nat :|
      Counts(v, x, a) && Counts(v, y, b) && Counts(v, z, c) && n == (a + b + c) % 0x1_0000_0000_0000_0000
    {
      TokensAreCounts(v, x, a);
      TokensAreCounts(v, y, b);
      TokensAreCounts(v, z, c);
    }
  }

  /** The three figures a reading is made of, said by the fields they are read from. */
  lemma FiguresAreExact(v: Value, n: nat)
    ensures PromptSize(v, n) <==> n == PromptTokens(v)
    ensures SessionTotal(v, n) <==> n == Cumulative(v)
    ensures Counts(v, "contextWindow", n) <==> n == Window(v)
  {
    hide Counts, Tokens, ThreeCounts, Sum64;
    SumOfThree(v, "input_tokens", "cache_read_input_tokens", "cache_creation_input_tokens", n);
    SumOfThree(v, "inputTokens", "cacheReadInputTokens", "cacheCreationInputTokens", n);
    TokensAreCounts(v, "contextWindow", n);
  }

  /** Entry i has a window, no entry with one has used more in all, and no later one as much. */
  predicate IsPrimary(entries: seq<(string, Value)>, i: nat) {
    && i < |entries| && Window(entries[i].1) > 0
    && (forall j :: 0 <= j < |entries| && Window(entries[j].1) > 0 ==>
          && Cumulative(entries[j].1) <= Cumulative(entries[i].1)
          && (j > i ==> Cumulative(entries[j].1) < Cumulative(entries[i].1)))
  }

  predicate SomeWindow(entries: seq<(string, Value)>) {
    exists j :: 0 <= j < |entries| && Window(entries[j].1) > 0
  }

  lemma {:induction false} PrimaryIsFound(entries: seq<(string, Value)>) returns (i: nat)
    ensures Primary(entries).Some? <==> SomeWindow(entries)
    ensures SomeWindow(entries) ==>
              IsPrimary(entries, i) &&
              Primary(entries) == Some(Candidate(entries[i].0, Window(entries[i].1), Cumulative(entries[i].1)))
  {
    hide Window, Cumulative;
    i := 0;
    if entries != [] {
      var n := |entries| - 1;
      var front := entries[..n];
      i := PrimaryIsFound(front);
      if Window(entries[n].1) > 0 && (Primary(front).None? || Cumulative(entries[n].1) >= Primary(front).value.cumulative) {
        i := n;
      } else if SomeWindow(front) {
        assert front[i] == entries[i];
      }
    }
  }

  lemma PrimaryIsUnique(entries: seq<(string, Value)>, i: nat, j: nat)
    requires IsPrimary(entries, i) && IsPrimary(entries, j)
    ensures i == j
  {
    hide Window, Cumulative;
  }

  lemma PrimaryAt(entries: seq<(string, Value)>, i: nat)
    requires IsPrimary(entries, i)
    ensures Primary(entries) == Some(Candidate(entries[i].0, Window(entries[i].1), Cumulative(entries[i].1)))
  {
    var j := PrimaryIsFound(entries);
    assert SomeWindow(entries);
    PrimaryIsUnique(entries, i, j);
  }

  predicate Plausible(used: nat, window: nat) { 100 * used <= 105 * window }

  /**
  The meter moves exactly when there is a prompt size, a primary entry to take
  the window from, and the one fits the other; the figure is then those two.
  */
  lemma MeterIsExact(usage: Option<Value>, mu: ModelUsage, r: Reading)
    ensures UsableReading(ParseContextUsage(usage, mu)) == Some(r) <==>
            && usage.Some? && mu.Models? && PromptSize(usage.value, r.used) && Plausible(r.used, r.window)
            && exists i: nat :: IsPrimary(mu.entries, i) && r.model == mu.entries[i].0
                                && Counts(mu.entries[i].1, "contextWindow", r.window)
  {
    hide Window, Cumulative, PromptTokens, Primary, PromptSize, Counts;
    if usage.Some? { FiguresAreExact(usage.value, r.used); }
    if mu.Models? {
      var j := PrimaryIsFound(mu.entries);
      forall i: nat | i < |mu.entries| && IsPrimary(mu.entries, i)
        ensures Primary(mu.entries) == Some(Candidate(mu.entries[i].0, Window(mu.entries[i].1), Cumulative(mu.entries[i].1)))
      {
        PrimaryAt(mu.entries, i);
      }
      forall i: nat | i < |mu.entries|
        ensures Counts(mu.entries[i].1, "contextWindow", r.window) <==> r.window == Window(mu.entries[i].1)
      {
        FiguresAreExact(mu.entries[i].1, r.window);
      }
    }
  }

  /** A shown figure is at most 105 percent of a positive window. */
  lemma MeterIsBounded(usage: Option<Value>, mu: ModelUsage)
    ensures var r := UsableReading(ParseContextUsage(usage, mu));
            r.Some? ==> r.value.window > 0 && Plausible(r.value.used, r.value.window)
  {
    var r := UsableReading(ParseContextUsage(usage, mu));
    if r.Some? {
      MeterIsExact(usage, mu, r.value);
    }
  }

  lemma PrimaryHasItsWindow(entries: seq<(string, Value)>, i: nat)
    requires IsPrimary(entries, i)
    ensures Counts(entries[i].1, "contextWindow", Window(entries[i].1))
  {
    FiguresAreExact(entries[i].1, Window(entries[i].1));
  }

  /** The verdict names what is missing, and what did arrive is kept beside it. */
  lemma VerdictIsExact(usage: Option<Value>, mu: ModelUsage)
    ensures var r := ParseContextUsage(usage, mu);
            && (r.verdict == NoWindow <==> mu.NotAnObject? || !SomeWindow(mu.entries))
            && (r.verdict == NoUsage <==> mu.Models? && SomeWindow(mu.entries) && usage.None?)
            && (r.verdict == NoWindow <==> r.window.None?) && (r.window.Some? <==> r.model.Some?)
            && (r.used.Some? <==> r.window.Some? && usage.Some?)
            && (r.used.Some? ==> PromptSize(usage.value, r.used.value))
            && (r.used.Some? ==> (r.verdict == ImplausibleWindow <==> !Plausible(r.used.value, r.window.value)))
            && (r.window.Some? ==> exists i: nat :: IsPrimary(mu.entries, i) && r.model == Some(mu.entries[i].0)
                                                    && Counts(mu.entries[i].1, "contextWindow", r.window.value))
  {
    hide Window, Cumulative, PromptTokens, Primary, SomeWindow, IsPrimary, PromptSize, Counts;
    if usage.Some? { FiguresAreExact(usage.value, PromptTokens(usage.value)); }
    if mu.Models? {
      var i := PrimaryIsFound(mu.entries);
      if Primary(mu.entries).Some? { PrimaryHasItsWindow(mu.entries, i); }
    }
  }

  // ------------------------------------------------- the carry over a run

  /** Event j is the last to report a prompt size before position i, and no metered result lies between. */
  predicate LatestUsageAt(evs: seq<StreamEvent>, i: nat, j: nat) {
    && j < i <= |evs| && evs[j].Assistant? && evs[j].promptUsage.Some?
    && (forall m :: j < m < i ==>
          && (evs[m].Assistant? ==> evs[m].promptUsage.None?)
          && (evs[m].Result? ==> evs[m].modelUsage.None?))
  }

  lemma {:induction false} CarryIsLatest(evs: seq<StreamEvent>, i: nat) returns (j: nat)
    requires i <= |evs|
    ensures CarryOver(evs[..i]).Some? ==> LatestUsageAt(evs, i, j) && CarryOver(evs[..i]) == evs[j].promptUsage
    ensures CarryOver(evs[..i]).None? ==> forall k: nat :: !LatestUsageAt(evs, i, k)
  {
    j := 0;
    if i > 0 {
      assert evs[..i][..i - 1] == evs[..i - 1];
      j := CarryIsLatest(evs, i - 1);
      if ReportsUsage(evs[i - 1]) {
        j := i - 1;
      } else if CarryOver(evs[..i]).None? {
        forall k: nat ensures !LatestUsageAt(evs, i, k) {
          assert LatestUsageAt(evs, i, k) ==> LatestUsageAt(evs, i - 1, k);
        }
      }
    }
  }

  lemma LatestIsUnique(evs: seq<StreamEvent>, i: nat, j: nat, k: nat)
    requires LatestUsageAt(evs, i, j) && LatestUsageAt(evs, i, k)
    ensures j == k
  {
  }

  /** The prompt size in force before position i. */
  lemma CarryAt(evs: seq<StreamEvent>, i: nat, j: nat)
    requires LatestUsageAt(evs, i, j)
    ensures CarryOver(evs[..i]) == evs[j].promptUsage
  {
    var k := CarryIsLatest(evs, i);
    if CarryOver(evs[..i]).Some? {
      LatestIsUnique(evs, i, j, k);
    }
  }

  function Turns(events: seq<AgentEvent>): seq<AgentEvent> {
    if events == [] then []
    else
      var n := |events| - 1;
      Turns(events[..n]) + (if events[n].TurnComplete? then [events[n]] else [])
  }

  function ResultPositions(evs: seq<StreamEvent>): (at: seq<nat>)
    ensures forall k :: 0 <= k < |at| ==> at[k] < |evs| && evs[at[k]].Result?
  {
    if evs == [] then []
    else
      var n := |evs| - 1;
      ResultPositions(evs[..n]) + (if evs[n].Result? then [n] else [])
  }

  lemma {:induction false} ResultPositionsAreExact(evs: seq<StreamEvent>)
    ensures var at := ResultPositions(evs);
            && (forall j, k :: 0 <= j < k < |at| ==> at[j] < at[k])
            && (forall i :: 0 <= i < |evs| ==> (i in at <==> evs[i].Result?))
  {
    if evs != [] { ResultPositionsAreExact(evs[..|evs| - 1]); }
  }

  lemma {:induction false} TurnsConcat(a: seq<AgentEvent>, b: seq<AgentEvent>)
    ensures Turns(a + b) == Turns(a) + Turns(b)
    decreases |b|
  {
    if b == [] {
      assert a + b == a;
    } else {
      var n := |b| - 1;
      TurnsConcat(a, b[..n]);
      assert (a + b)[..|a| + n] == a + b[..n];
    }
  }

  lemma {:induction false} BlocksHaveNoTurns(content: seq<Block>)
    ensures Turns(BlockEvents(content)) == []
  {
    if content != [] {
      var n := |content| - 1;
      BlocksHaveNoTurns(content[..n]);
      var tail := match content[n]
        case TextBlock(text) => [Text(text)]
        case ToolUseBlock(id, name, input) => [ToolUse(id, name, input)]
        case Thinking => []
        case OtherBlock => [];
      TurnsConcat(BlockEvents(content[..n]), tail);
    }
  }

  lemma {:induction false} ToolResultsHaveNoTurns(blocks: seq<UserBlock>)
    ensures Turns(UserEvents(blocks)) == []
  {
    if blocks != [] {
      var n := |blocks| - 1;
      ToolResultsHaveNoTurns(blocks[..n]);
      var tail := match blocks[n]
        case ToolResultBlock(id, content, failed) => [ToolResult(id, content, failed)]
        case OtherUserBlock => [];
      TurnsConcat(UserEvents(blocks[..n]), tail);
    }
  }

  lemma TurnsSaid(ev: StreamEvent, carry: Option<Value>)
    ensures Turns(Says(ev, carry)) == if ev.Result? then [TurnOf(ev, carry)] else []
  {
    match ev {
      case Assistant(_, content) => BlocksHaveNoTurns(content);
      case UserBlocks(blocks) => ToolResultsHaveNoTurns(blocks);
      case Result(_, _, _, _, _, _) => hide TurnOf; assert [TurnOf(ev, carry)][..0] == [];
      case Start(session) => assert [Init(session)][..0] == [];
      case _ =>
    }
  }

  lemma TurnsGrow(evs: seq<StreamEvent>)
    requires evs != []
    ensures var n := |evs| - 1;
            && Turns(Emitted(evs)) == Turns(Emitted(evs[..n])) +
                 (if evs[n].Result? then [TurnOf(evs[n], CarryOver(evs[..n]))] else [])
            && ResultPositions(evs) == ResultPositions(evs[..n]) + (if evs[n].Result? then [n] else [])
  {
    hide TurnOf, CarryOver, Says, Turns;
    var n := |evs| - 1;
    TurnsSaid(evs[n], CarryOver(evs[..n]));
    TurnsConcat(Emitted(evs[..n]), Says(evs[n], CarryOver(evs[..n])));
  }

  /** One completed turn per result, in order, each measured with the carry of its position. */
  lemma {:induction false} TurnPerResult(evs: seq<StreamEvent>)
    ensures var turns, at := Turns(Emitted(evs)), ResultPositions(evs);
            && |turns| == |at|
            && forall k :: 0 <= k < |at| ==> turns[k] == TurnOf(evs[at[k]], CarryOver(evs[..at[k]]))
  {
    if evs != [] {
      hide TurnOf, CarryOver, Turns, Emitted, ResultPositions;
      var n := |evs| - 1;
      TurnPerResult(evs[..n]);
      TurnsGrow(evs);
      var at := ResultPositions(evs[..n]);
      forall k | 0 <= k < |at|
        ensures Turns(Emitted(evs))[k] == TurnOf(evs[at[k]], CarryOver(evs[..at[k]]))
      {
        assert evs[..n][..at[k]] == evs[..at[k]];
      }
    }
  }

  /**
  Every result completes one turn, in order. Its numerator is the prompt size
  of the latest assistant call since the last metered result; without such a
  call, or without a window, it has none.
  */
  lemma NumeratorIsLatestPrompt(evs: seq<StreamEvent>, k: nat)
    requires k < |ResultPositions(evs)|
    ensures |Turns(Emitted(evs))| == |ResultPositions(evs)| && Turns(Emitted(evs))[k].TurnComplete?
    ensures var i, used := ResultPositions(evs)[k], Turns(Emitted(evs))[k].context.used;
            && (forall j: nat :: LatestUsageAt(evs, i, j) && used.Some? ==> PromptSize(evs[j].promptUsage.value, used.value))
            && (used.Some? <==>
                && (exists j: nat :: LatestUsageAt(evs, i, j))
                && evs[i].modelUsage.Some? && evs[i].modelUsage.value.Models? && SomeWindow(evs[i].modelUsage.value.entries))
  {
    TurnPerResult(evs);
    var i := ResultPositions(evs)[k];
    var j := CarryIsLatest(evs, i);
    if Metered(evs[i]) {
      VerdictIsExact(CarryOver(evs[..i]), evs[i].modelUsage.value);
    }
    forall m: nat | LatestUsageAt(evs, i, m) ensures CarryOver(evs[..i]) == evs[m].promptUsage {
      CarryAt(evs, i, m);
    }
    hide CarryOver, Emitted, Turns, ResultPositions, LatestUsageAt, SomeWindow, PromptTokens, Primary, PromptSize, Counts;
  }

  /** A result's own usage sum is never looked at: changing it changes nothing that is emitted. */
  lemma {:induction false} TurnSumIsIgnored(evs: seq<StreamEvent>, k: nat, sum: Option<Value>)
    requires k < |evs| && evs[k].Result?
    ensures var changed := evs[k := evs[k].(turnUsage := sum)];
            Emitted(changed) == Emitted(evs) && CarryOver(changed) == CarryOver(evs)
  {
    var n := |evs| - 1;
    var changed := evs[k := evs[k].(turnUsage := sum)];
    if k < n {
      TurnSumIsIgnored(evs[..n], k, sum);
      assert changed[..n] == evs[..n][k := evs[..n][k].(turnUsage := sum)];
    } else {
      assert changed[..n] == evs[..n];
    }
    assert Says(changed[n], CarryOver(changed[..n])) == Says(evs[n], CarryOver(evs[..n])) by {
      hide Emitted, CarryOver, ParseContextUsage, BlockEvents, UserEvents, ApiStatus;
    }
    hide Says;
  }

  // ------------------------------------------------ readings across turns

  predicate IsQuiet(ev: StreamEvent) { !ReportsUsage(ev) && !ev.Result? }

  lemma {:induction false} QuietKeepsCarry(evs: seq<StreamEvent>, quiet: seq<StreamEvent>)
    requires forall ev :: ev in quiet ==> IsQuiet(ev)
    ensures CarryOver(evs + quiet) == CarryOver(evs)
    decreases |quiet|
  {
    if quiet == [] {
      assert evs + quiet == evs;
    } else {
      var n := |quiet| - 1;
      QuietKeepsCarry(evs, quiet[..n]);
      assert (evs + quiet)[..|evs| + n] == evs + quiet[..n];
      assert IsQuiet(quiet[n]);
    }
  }

  /**
  The design promises that a turn without an assistant reading reports none,
  never the previous turn's. It does so exactly when the previous result
  carried per-model usage or there was no reading to inherit.
  */
  lemma InheritsExactlyAfterUnmetered(evs: seq<StreamEvent>, last: StreamEvent, quiet: seq<StreamEvent>, next: StreamEvent)
    requires last.Result? && (forall ev :: ev in quiet ==> IsQuiet(ev))
    requires Metered(next) && next.modelUsage.value.Models? && SomeWindow(next.modelUsage.value.entries)
    ensures TurnOf(next, CarryOver(evs + [last] + quiet)).context.verdict == NoUsage <==>
            last.modelUsage.Some? || CarryOver(evs) == None
  {
    QuietKeepsCarry(evs + [last], quiet);
    OneMoreEvent(evs, last);
    VerdictIsExact(CarryOver(evs + [last] + quiet), next.modelUsage.value);
  }

  /** A reading that survives a result without per-model usage is reported for the next turn. */
  lemma CarrySurvives(usage: Value)
    ensures CarryOver([Assistant(Some(usage), []), Result(None, None, false, None, None, None)]) == Some(usage)
  {
    var first, second := Assistant(Some(usage), []), Result(None, None, false, None, None, None);
    OneMoreEvent([], first);
    OneMoreEvent([first], second);
    assert [] + [first] == [first] && [first] + [second] == [first, second];
    hide CarryOver;
  }

  lemma OneEntry(model: string, entry: Value)
    requires Window(entry) > 0
    ensures Primary([(model, entry)]) == Some(Candidate(model, Window(entry), Cumulative(entry)))
  {
    hide Window, Cumulative;
    assert [(model, entry)][..0] == [];
  }

  lemma SampleFigures()
    ensures Window(Obj(map["contextWindow" := Int(100)])) == 100 && PromptTokens(Obj(map["input_tokens" := Int(5)])) == 5
  {
  }

  lemma StaleReadingShown()
    ensures var usage, entry := Obj(map["input_tokens" := Int(5)]), Obj(map["contextWindow" := Int(100)]);
            var before := [Assistant(Some(usage), []), Result(None, None, false, None, None, None)];
            var next := Result(None, None, false, None, None, Some(Models([("m", entry)])));
            TurnOf(next, CarryOver(before)).context == Report(Some("m"), Some(5), Some(100), Usable)
  {
    hide CarryOver, Primary, PromptTokens, Window, Cumulative;
    SampleFigures();
    CarrySurvives(Obj(map["input_tokens" := Int(5)]));
    OneEntry("m", Obj(map["contextWindow" := Int(100)]));
  }

  // ------------------------------------------------------- the error status

  function Decimal(n: nat): string {
    var digit := [('0' as int + n % 10) as char];
    if n < 10 then digit else Decimal(n / 10) + digit
  }

  lemma {:induction false} DecimalReadsBack(n: nat)
    ensures Decimal(n) != [] && AllDigits(Decimal(n)) && DigitsValue(Decimal(n)) == n
  {
    var d := ('0' as int + n % 10) as char;
    if n < 10 {
      assert [d][..0] == [];
    } else {
      DecimalReadsBack(n / 10);
      var s := Decimal(n / 10);
      assert (s + [d])[..|s|] == s;
    }
  }

  /**
  Text counts as a status when, without the space around it, it is digits with
  at most a plus sign before them, and their value fits 16 bits. Nothing else does.
  */
  lemma {:induction false} StatusIsExact(front: string, core: string, back: string, v: Value)
    requires AllSpace(front) && AllSpace(back)
    requires core != [] ==> !IsSpace(core[0]) && !IsSpace(core[|core| - 1])
    ensures var status := ApiStatus(Some(Str(front + core + back)));
            && (core != [] && AllDigits(core) ==> status == if DigitsValue(core) < 0x1_0000 then Some(DigitsValue(core)) else None)
            && (|core| > 1 && core[0] == '+' && AllDigits(core[1..]) ==>
                  status == if DigitsValue(core[1..]) < 0x1_0000 then Some(DigitsValue(core[1..])) else None)
            && (status.Some? ==> core != [] && (AllDigits(core) || (|core| > 1 && core[0] == '+' && AllDigits(core[1..]))))
    ensures ApiStatus(None) == None && (!v.Int? && !v.Str? ==> ApiStatus(Some(v)) == None)
    ensures v.Int? ==> ApiStatus(Some(v)) == if 0 <= v.i < 0x1_0000 then Some(v.i) else None
  {
    hide Trim, DigitsValue, IsSpace;
    TrimIsTheCore(front, core, back);
    if core != [] && AllDigits(core) { assert IsDigit(core[0]); }
  }

  /** A status reads the same as a number and as text, and only 16-bit ones are taken. */
  lemma {:induction false} StatusEitherWay(n: nat)
    ensures ApiStatus(Some(Int(n))) == ApiStatus(Some(Str(Decimal(n)))) == if n < 0x1_0000 then Some(n) else None
  {
    var d := Decimal(n);
    DecimalReadsBack(n);
    assert IsDigit(d[0]) && IsDigit(d[|d| - 1]);
    assert [] + d + [] == d;
    StatusIsExact([], d, [], Int(n));
    hide ApiStatus, Decimal, DigitsValue, IsSpace;
  }
}
