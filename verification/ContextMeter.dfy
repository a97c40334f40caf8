/**
Translating an agent's event stream, and measuring how full its context window
is: the numerator arrives on one event and the denominator on another, so the
translator carries the former between them.
*/
module ContextMeter {
  import opened Options
  import opened Json
  import opened AgentEvents
  import opened Whitespace

  // ----------------------------------------------------------- the report

  datatype Reading = Reading(model: string, used: nat, window: nat)

  /** The meter's figure, derived from the recorded operands. */
  function UsableReading(r: Report): Option<Reading> {
    if r.verdict != Usable || r.model.None? || r.used.None? || r.window.None? then None
    else Some(Reading(r.model.value, r.used.value, r.window.value))
  }

  /** A result's per-model usage; the entries stand in the map's iteration order. */
  datatype ModelUsage = NotAnObject | Models(entries: seq<(string, Value)>)

  function Tokens(v: Value, key: string): nat {
    var field := Get(v, key);
    if field.None? then 0
    else
      var n := AsU64(field.value);
      if n.None? then 0 else n.value
  }

  /** A 64-bit sum of three counts. */
  function Sum64(a: nat, b: nat, c: nat): nat { (a + b + c) % U64_LIMIT }

  function Cumulative(entry: Value): nat {
    Sum64(Tokens(entry, "inputTokens"), Tokens(entry, "cacheReadInputTokens"), Tokens(entry, "cacheCreationInputTokens"))
  }

  function PromptTokens(usage: Value): nat {
    Sum64(Tokens(usage, "input_tokens"), Tokens(usage, "cache_read_input_tokens"), Tokens(usage, "cache_creation_input_tokens"))
  }

  function Window(entry: Value): nat { Tokens(entry, "contextWindow") }

  datatype Candidate = Candidate(model: string, window: nat, cumulative: nat)

  /** The entry with a window whose cumulative usage is largest, the last of equals. */
  function Primary(entries: seq<(string, Value)>): Option<Candidate> {
    if entries == [] then None
    else
      var n := |entries| - 1;
      var best := Primary(entries[..n]);
      var (model, entry) := entries[n];
      if Window(entry) == 0 then best
      else if best.Some? && Cumulative(entry) < best.value.cumulative then best
      else Some(Candidate(model, Window(entry), Cumulative(entry)))
  }

  function ParseContextUsage(usage: Option<Value>, mu: ModelUsage): Report {
    if mu.NotAnObject? then Report(None, None, None, NoWindow)
    else
      match Primary(mu.entries)
      case None => Report(None, None, None, NoWindow)
      case Some(c) =>
        match usage
        case None => Report(Some(c.model), None, Some(c.window), NoUsage)
        case Some(u) =>
          var used := PromptTokens(u);
          var verdict := if used * 100 > c.window * 105 then ImplausibleWindow else Usable;
          Report(Some(c.model), Some(used), Some(c.window), verdict)
  }

  // ----------------------------------------------------------- the stream

  datatype Block =
    | TextBlock(text: string)
    | ToolUseBlock(id: string, name: string, input: Value)
    | Thinking
    | OtherBlock

  datatype UserBlock =
    | ToolResultBlock(toolUseId: string, content: Value, failed: bool)
    | OtherUserBlock

  datatype StreamEvent =
    | Start(session: Option<string>)
    | OtherSystem
    | Assistant(promptUsage: Option<Value>, content: seq<Block>)
    | UserText
    | UserBlocks(blocks: seq<UserBlock>)
    | Result(stopReason: Option<string>, subtype: Option<string>, errorFlag: bool,
             apiErrorStatus: Option<Value>, turnUsage: Option<Value>, modelUsage: Option<ModelUsage>)
    | RateLimit
    | Unknown

  function BlockEvents(content: seq<Block>): seq<AgentEvent> {
    if content == [] then []
    else
      var n := |content| - 1;
      BlockEvents(content[..n]) +
      match content[n]
      case TextBlock(text) => [Text(text)]
      case ToolUseBlock(id, name, input) => [ToolUse(id, name, input)]
      case Thinking => []
      case OtherBlock => []
  }

  function UserEvents(blocks: seq<UserBlock>): seq<AgentEvent> {
    if blocks == [] then []
    else
      var n := |blocks| - 1;
      UserEvents(blocks[..n]) +
      match blocks[n]
      case ToolResultBlock(id, content, failed) => [ToolResult(id, content, failed)]
      case OtherUserBlock => []
  }

  /** A status fits 16 bits, as a number or as digits in a string. */
  function ApiStatus(v: Option<Value>): Option<nat> {
    match v
    case Some(Int(i)) => if 0 <= i < 0x1_0000 then Some(i) else None
    case Some(Str(s)) => ParseUnsigned(Trim(s), 0x1_0000)
    case _ => None
  }

  function TurnOf(ev: StreamEvent, carry: Option<Value>): AgentEvent
    requires ev.Result?
  {
    var context := match ev.modelUsage
      case Some(mu) => ParseContextUsage(carry, mu)
      case None => Report(None, None, None, NoWindow);
    TurnComplete(ev.stopReason, ev.subtype, ev.errorFlag || ev.apiErrorStatus.Some?, ApiStatus(ev.apiErrorStatus), context)
  }

  function Says(ev: StreamEvent, carry: Option<Value>): seq<AgentEvent> {
    match ev
    case Start(session) => [Init(session)]
    case Assistant(_, content) => BlockEvents(content)
    case UserBlocks(blocks) => UserEvents(blocks)
    case Result(_, _, _, _, _, _) => [TurnOf(ev, carry)]
    case _ => []
  }

  predicate ReportsUsage(ev: StreamEvent) { ev.Assistant? && ev.promptUsage.Some? }

  predicate Metered(ev: StreamEvent) { ev.Result? && ev.modelUsage.Some? }

  function CarryAfter(ev: StreamEvent, carry: Option<Value>): Option<Value> {
    if ReportsUsage(ev) then ev.promptUsage
    else if Metered(ev) then None
    else carry
  }

  function CarryOver(evs: seq<StreamEvent>): Option<Value> {
    if evs == [] then None else CarryAfter(evs[|evs| - 1], CarryOver(evs[..|evs| - 1]))
  }

  function Emitted(evs: seq<StreamEvent>): seq<AgentEvent> {
    if evs == [] then []
    else
      var n := |evs| - 1;
      Emitted(evs[..n]) + Says(evs[n], CarryOver(evs[..n]))
  }

  method Translate(ev: StreamEvent, carry: Option<Value>) returns (out: seq<AgentEvent>, carryOut: Option<Value>)
    ensures out == Says(ev, carry) && carryOut == CarryAfter(ev, carry)
  {
    carryOut := carry;
    match ev {
      case Start(session) => out := [Init(session)];
      case Assistant(usage, content) =>
        if usage.Some? {
          carryOut := usage;
        }
        out := BlockEvents(content);
      case UserBlocks(blocks) => out := UserEvents(blocks);
      case Result(stopReason, subtype, errorFlag, apiErrorStatus, _, modelUsage) =>
        var isError := errorFlag || apiErrorStatus.Some?;
        var context := Report(None, None, None, NoWindow);
        if modelUsage.Some? {
          context := ParseContextUsage(carryOut, modelUsage.value);
          carryOut := None;
        }
        out := [TurnComplete(stopReason, subtype, isError, ApiStatus(apiErrorStatus), context)];
      case _ => out := [];
    }
  }

  /** One line of an agent's output. */
  datatype Line = Blank | Garbled | Parsed(event: StreamEvent)

  function EventsOf(lines: seq<Line>): seq<StreamEvent> {
    if lines == [] then []
    else
      var n := |lines| - 1;
      EventsOf(lines[..n]) + (if lines[n].Parsed? then [lines[n].event] else [])
  }

  function Take(s: seq<AgentEvent>, n: nat): seq<AgentEvent> { if n <= |s| then s[..n] else s }

  lemma {:induction false} EmittedGrows(evs: seq<StreamEvent>, k: nat)
    requires k <= |evs|
    ensures Emitted(evs[..k]) <= Emitted(evs)
  {
    if k == |evs| {
      assert evs[..k] == evs;
    } else {
      hide Says, CarryOver;
      EmittedGrows(evs[..|evs| - 1], k);
      assert evs[..|evs| - 1][..k] == evs[..k];
    }
  }

  lemma {:induction false} EventsGrow(lines: seq<Line>, k: nat)
    requires k <= |lines|
    ensures EventsOf(lines[..k]) <= EventsOf(lines)
  {
    if k == |lines| {
      assert lines[..k] == lines;
    } else {
      EventsGrow(lines[..|lines| - 1], k);
      assert lines[..|lines| - 1][..k] == lines[..k];
    }
  }

  lemma OneMoreEvent(evs: seq<StreamEvent>, ev: StreamEvent)
    ensures Emitted(evs + [ev]) == Emitted(evs) + Says(ev, CarryOver(evs))
    ensures CarryOver(evs + [ev]) == CarryAfter(ev, CarryOver(evs))
  {
    hide Says, CarryAfter;
    assert (evs + [ev])[..|evs|] == evs;
  }

  /** Hand events to the receiver until it is gone. */
  method SendAll(sent: seq<AgentEvent>, out: seq<AgentEvent>, accepts: nat) returns (now: seq<AgentEvent>, gone: bool)
    requires |sent| <= accepts
    ensures now == Take(sent + out, accepts) && (gone <==> |sent + out| > accepts)
  {
    now, gone := sent, false;
    for k := 0 to |out|
      invariant now == sent + out[..k] && |now| <= accepts && !gone
    {
      if |now| == accepts {
        assert (sent + out)[..accepts] == now;
        return now, true;
      }
      assert out[..k + 1] == out[..k] + [out[k]];
      now := now + [out[k]];
    }
    assert out[..|out|] == out;
  }

  /** What reading line i adds, to be sent after what the lines before it gave. */
  lemma OneMoreLine(lines: seq<Line>, i: nat)
    requires i < |lines|
    ensures var before, after := EventsOf(lines[..i]), EventsOf(lines[..i + 1]);
            && Emitted(after) <= Emitted(EventsOf(lines))
            && (!lines[i].Parsed? ==> after == before)
            && (lines[i].Parsed? ==>
                  && CarryOver(after) == CarryAfter(lines[i].event, CarryOver(before))
                  && Emitted(after) == Emitted(before) + Says(lines[i].event, CarryOver(before)))
  {
    hide Says, CarryAfter, CarryOver, Emitted;
    assert lines[..i + 1][..i] == lines[..i];
    EventsGrow(lines, i + 1);
    GrowsWithEvents(EventsOf(lines[..i + 1]), EventsOf(lines));
    if lines[i].Parsed? { OneMoreEvent(EventsOf(lines[..i]), lines[i].event); }
  }

  /**
  The reader of one agent's output. Blank and unparseable lines are passed
  over; it stops early once the receiver, which takes `accepts` events, is gone.
  */
  method PumpEvents(lines: seq<Line>, accepts: nat) returns (sent: seq<AgentEvent>)
    ensures sent == Take(Emitted(EventsOf(lines)), accepts)
    ensures sent <= Emitted(EventsOf(lines)) && |sent| <= accepts
    ensures |sent| < accepts ==> sent == Emitted(EventsOf(lines))
  {
    hide Says, CarryAfter, Emitted, CarryOver, EventsOf, Take;
    NothingRead();
    TakeIsPrefix(Emitted(EventsOf(lines)), accepts);
    assert lines[..0] == [];
    sent := [];
    var carry: Option<Value> := None;
    var i := 0;
    while i < |lines|
      invariant 0 <= i <= |lines| && |sent| <= accepts
      invariant sent == Emitted(EventsOf(lines[..i])) && carry == CarryOver(EventsOf(lines[..i]))
    {
      OneMoreLine(lines, i);
      var line := lines[i];
      i := i + 1;
      if line.Parsed? {
        var out, gone;
        out, carry := Translate(line.event, carry);
        TakeIsPrefix(sent + out, accepts);
        sent, gone := SendAll(sent, out, accepts);
        if gone {
          CutEarly(Emitted(EventsOf(lines[..i])), Emitted(EventsOf(lines)), accepts);
          return;
        }
      }
    }
    assert lines[..|lines|] == lines;
  }

  lemma NothingRead()
    ensures Emitted(EventsOf([])) == [] && CarryOver(EventsOf([])) == None
  {
  }

  lemma TakeIsPrefix(s: seq<AgentEvent>, n: nat)
    ensures Take(s, n) <= s && |Take(s, n)| <= n && (|s| <= n ==> Take(s, n) == s) && (|Take(s, n)| < n ==> Take(s, n) == s)
  {
  }

  lemma CutEarly(a: seq<AgentEvent>, b: seq<AgentEvent>, n: nat)
    requires a <= b && n <= |a|
    ensures Take(a, n) == Take(b, n)
  {
  }

  lemma GrowsWithEvents(a: seq<StreamEvent>, b: seq<StreamEvent>)
    requires a <= b
    ensures Emitted(a) <= Emitted(b)
  {
    EmittedGrows(b, |a|);
    assert b[..|a|] == a;
  }
}
