/**
What an agent says, and where it says it: the events handed on stand one for
one, in order, for the places of the output that speak, each with its own
fields. Nothing else is handed on.
*/
module StreamContent {
  import opened Options
  import opened Json
  import opened AgentEvents
  import opened ContextMeter

  /** A content block of a line; block 0 of a line that has no blocks. */
  datatype Place = Place(line: nat, block: nat)

  predicate Before(p: Place, q: Place) {
    p.line < q.line || (p.line == q.line && p.block < q.block)
  }

  /** Is there anything to hand on at block `b` of this event? */
  predicate Speaks(ev: StreamEvent, b: nat) {
    match ev
    case Start(_) => b == 0
    case Assistant(_, content) => b < |content| && (content[b].TextBlock? || content[b].ToolUseBlock?)
    case UserBlocks(blocks) => b < |blocks| && blocks[b].ToolResultBlock?
    case Result(_, _, _, _, _, _) => b == 0
    case OtherSystem => false
    case UserText => false
    case RateLimit => false
    case Unknown => false
  }

  predicate BlockSays(block: Block, e: AgentEvent) {
    match block
    case TextBlock(text) => e == Text(text)
    case ToolUseBlock(id, name, input) => e == ToolUse(id, name, input)
    case _ => false
  }

  predicate UserBlockSays(block: UserBlock, e: AgentEvent) {
    match block
    case ToolResultBlock(id, content, failed) => e == ToolResult(id, content, failed)
    case OtherUserBlock => false
  }

  /** A result's event: its own reasons, an error if it says so or carries a status, and the reading. */
  predicate TurnSays(ev: StreamEvent, carry: Option<Value>, e: AgentEvent)
    requires ev.Result?
  {
    && e.TurnComplete? && e.stopReason == ev.stopReason && e.subtype == ev.subtype
    && (e.isError <==> ev.errorFlag || ev.apiErrorStatus.Some?)
    && e.apiErrorStatus == ApiStatus(ev.apiErrorStatus)
    && (ev.modelUsage.Some? ==> e.context == ParseContextUsage(carry, ev.modelUsage.value))
    && (ev.modelUsage.None? ==> e.context == Report(None, None, None, NoWindow))
  }

  /** Event `e` is what block `b` of this event says. */
  predicate SaidBy(ev: StreamEvent, b: nat, carry: Option<Value>, e: AgentEvent) {
    match ev
    case Start(session) => e == Init(session)
    case Assistant(_, content) => b < |content| && BlockSays(content[b], e)
    case UserBlocks(blocks) => b < |blocks| && UserBlockSays(blocks[b], e)
    case Result(_, _, _, _, _, _) => TurnSays(ev, carry, e)
    case _ => false
  }

  predicate SpeaksAt(lines: seq<Line>, p: Place) {
    p.line < |lines| && lines[p.line].Parsed? && Speaks(lines[p.line].event, p.block)
  }

  /** Event `e` is what stands at place `p`, with the prompt size carried that far. */
  predicate SaidAt(lines: seq<Line>, p: Place, e: AgentEvent) {
    && SpeaksAt(lines, p)
    && SaidBy(lines[p.line].event, p.block, CarryOver(EventsOf(lines[..p.line])), e)
  }

  /** The places list exactly the ones that speak, in order, and the events are what they say. */
  ghost predicate Transcribes(lines: seq<Line>, places: seq<Place>, out: seq<AgentEvent>) {
    && |out| == |places|
    && (forall j, k :: 0 <= j < k < |places| ==> Before(places[j], places[k]))
    && (forall p :: p in places <==> SpeaksAt(lines, p))
    && (forall k :: 0 <= k < |places| ==> SaidAt(lines, places[k], out[k]))
  }

  /** The same within one event. */
  ghost predicate TranscribesEvent(ev: StreamEvent, carry: Option<Value>, blocks: seq<nat>, out: seq<AgentEvent>) {
    && |out| == |blocks|
    && (forall j, k :: 0 <= j < k < |blocks| ==> blocks[j] < blocks[k])
    && (forall b :: b in blocks <==> Speaks(ev, b))
    && (forall k :: 0 <= k < |blocks| ==> SaidBy(ev, blocks[k], carry, out[k]))
  }

  lemma NextBlock(usage: Option<Value>, content: seq<Block>, carry: Option<Value>,
                  blocks: seq<nat>, out: seq<AgentEvent>, more: seq<AgentEvent>)
    requires content != [] && TranscribesEvent(Assistant(usage, content[..|content| - 1]), carry, blocks, out)
    requires |more| == if Speaks(Assistant(usage, content), |content| - 1) then 1 else 0
    requires more != [] ==> BlockSays(content[|content| - 1], more[0])
    ensures TranscribesEvent(Assistant(usage, content), carry, blocks + (if more == [] then [] else [|content| - 1]), out + more)
  {
    hide BlockSays;
    var n := |content| - 1;
    var before, ev := Assistant(usage, content[..n]), Assistant(usage, content);
    forall b: nat ensures Speaks(ev, b) <==> Speaks(before, b) || (b == n && more != []) {
      if b < n { assert content[..n][b] == content[b]; }
    }
    forall k | 0 <= k < |blocks| ensures blocks[k] < n && SaidBy(ev, blocks[k], carry, out[k]) {
      assert blocks[k] in blocks && SaidBy(before, blocks[k], carry, out[k]);
    }
  }

  lemma BlockAdds(usage: Option<Value>, content: seq<Block>) returns (more: seq<AgentEvent>)
    requires content != []
    ensures BlockEvents(content) == BlockEvents(content[..|content| - 1]) + more
    ensures |more| == if Speaks(Assistant(usage, content), |content| - 1) then 1 else 0
    ensures more != [] ==> BlockSays(content[|content| - 1], more[0])
  {
    match content[|content| - 1]
    case TextBlock(text) => more := [Text(text)];
    case ToolUseBlock(id, name, input) => more := [ToolUse(id, name, input)];
    case _ => more := [];
  }

  lemma {:induction false} AssistantSays(usage: Option<Value>, content: seq<Block>, carry: Option<Value>) returns (blocks: seq<nat>)
    ensures TranscribesEvent(Assistant(usage, content), carry, blocks, BlockEvents(content))
  {
    blocks := [];
    if content != [] {
      hide TranscribesEvent;
      var n := |content| - 1;
      blocks := AssistantSays(usage, content[..n], carry);
      hide BlockSays, BlockEvents, Speaks;
      var more := BlockAdds(usage, content);
      NextBlock(usage, content, carry, blocks, BlockEvents(content[..n]), more);
      blocks := blocks + (if more == [] then [] else [n]);
    } else {
      NoBlocks(usage, carry);
    }
  }

  lemma NoBlocks(usage: Option<Value>, carry: Option<Value>)
    ensures TranscribesEvent(Assistant(usage, []), carry, [], BlockEvents([]))
    ensures TranscribesEvent(UserBlocks([]), carry, [], UserEvents([]))
  {
  }

  lemma NextUserBlock(content: seq<UserBlock>, carry: Option<Value>, blocks: seq<nat>, out: seq<AgentEvent>, more: seq<AgentEvent>)
    requires content != [] && TranscribesEvent(UserBlocks(content[..|content| - 1]), carry, blocks, out)
    requires |more| == if Speaks(UserBlocks(content), |content| - 1) then 1 else 0
    requires more != [] ==> UserBlockSays(content[|content| - 1], more[0])
    ensures TranscribesEvent(UserBlocks(content), carry, blocks + (if more == [] then [] else [|content| - 1]), out + more)
  {
    hide UserBlockSays;
    var n := |content| - 1;
    var before, ev := UserBlocks(content[..n]), UserBlocks(content);
    forall b: nat ensures Speaks(ev, b) <==> Speaks(before, b) || (b == n && more != []) {
      if b < n { assert content[..n][b] == content[b]; }
    }
    forall k | 0 <= k < |blocks| ensures blocks[k] < n && SaidBy(ev, blocks[k], carry, out[k]) {
      assert blocks[k] in blocks && SaidBy(before, blocks[k], carry, out[k]);
    }
  }

  lemma UserBlockAdds(content: seq<UserBlock>) returns (more: seq<AgentEvent>)
    requires content != []
    ensures UserEvents(content) == UserEvents(content[..|content| - 1]) + more
    ensures |more| == if Speaks(UserBlocks(content), |content| - 1) then 1 else 0
    ensures more != [] ==> UserBlockSays(content[|content| - 1], more[0])
  {
    match content[|content| - 1]
    case ToolResultBlock(id, result, failed) => more := [ToolResult(id, result, failed)];
    case _ => more := [];
  }

  lemma {:induction false} ToolResultsSay(content: seq<UserBlock>, carry: Option<Value>) returns (blocks: seq<nat>)
    ensures TranscribesEvent(UserBlocks(content), carry, blocks, UserEvents(content))
  {
    blocks := [];
    if content != [] {
      hide TranscribesEvent;
      var n := |content| - 1;
      blocks := ToolResultsSay(content[..n], carry);
      hide UserBlockSays, UserEvents, Speaks;
      var more := UserBlockAdds(content);
      NextUserBlock(content, carry, blocks, UserEvents(content[..n]), more);
      blocks := blocks + (if more == [] then [] else [n]);
    } else {
      NoBlocks(None, carry);
    }
  }

  lemma EventSays(ev: StreamEvent, carry: Option<Value>) returns (blocks: seq<nat>)
    ensures TranscribesEvent(ev, carry, blocks, Says(ev, carry))
  {
    match ev {
      case Assistant(usage, content) => blocks := AssistantSays(usage, content, carry);
      case UserBlocks(content) => blocks := ToolResultsSay(content, carry);
      case Start(_) => blocks := [0];
      case Result(_, _, _, _, _, _) => blocks := [0];
      case _ => blocks := [];
    }
  }

  function OnLine(line: nat, blocks: seq<nat>): seq<Place> {
    seq(|blocks|, k requires 0 <= k < |blocks| => Place(line, blocks[k]))
  }

  lemma OnLineMembers(line: nat, blocks: seq<nat>, p: Place)
    ensures p in OnLine(line, blocks) <==> p.line == line && p.block in blocks
  {
    if p.line == line && p.block in blocks {
      var k :| 0 <= k < |blocks| && blocks[k] == p.block;
      assert OnLine(line, blocks)[k] == p;
    }
  }

  lemma SilentLine(lines: seq<Line>, places: seq<Place>, out: seq<AgentEvent>)
    requires lines != [] && !lines[|lines| - 1].Parsed?
    requires Transcribes(lines[..|lines| - 1], places, out)
    ensures Transcribes(lines, places, out)
  {
    hide Speaks, SaidBy, CarryOver, EventsOf;
    var front := lines[..|lines| - 1];
    forall p | SpeaksAt(front, p) ensures SpeaksAt(lines, p) && front[..p.line] == lines[..p.line] {}
    forall p | SpeaksAt(lines, p) ensures SpeaksAt(front, p) {}
    forall k | 0 <= k < |places| ensures SaidAt(lines, places[k], out[k]) {
      assert places[k] in places;
      assert SaidAt(front, places[k], out[k]);
    }
  }

  lemma SpokenLine(lines: seq<Line>, places: seq<Place>, out: seq<AgentEvent>, blocks: seq<nat>, more: seq<AgentEvent>)
    requires lines != [] && lines[|lines| - 1].Parsed?
    requires Transcribes(lines[..|lines| - 1], places, out)
    requires TranscribesEvent(lines[|lines| - 1].event, CarryOver(EventsOf(lines[..|lines| - 1])), blocks, more)
    ensures Transcribes(lines, places + OnLine(|lines| - 1, blocks), out + more)
  {
    hide Speaks, SaidBy, CarryOver, EventsOf;
    var n := |lines| - 1;
    var front, here := lines[..n], OnLine(n, blocks);
    var all := places + here;
    forall p ensures p in all <==> SpeaksAt(lines, p) {
      OnLineMembers(n, blocks, p);
      assert p in places <==> SpeaksAt(front, p);
      if p.line == n { assert p.block in blocks <==> Speaks(lines[n].event, p.block); }
    }
    forall k | 0 <= k < |all| ensures SaidAt(lines, all[k], (out + more)[k]) {
      assert all[k] in all;
      if k < |places| {
        assert SaidAt(front, places[k], out[k]);
        assert front[..places[k].line] == lines[..places[k].line];
      } else {
        assert SaidBy(lines[n].event, blocks[k - |places|], CarryOver(EventsOf(front)), more[k - |places|]);
      }
    }
    forall j, k | 0 <= j < k < |all| ensures Before(all[j], all[k]) {
      if j < |places| {
        assert places[j] in places && SpeaksAt(front, places[j]);
        if k < |places| { assert Before(places[j], places[k]); }
      }
    }
  }

  /**
  Nothing an agent says is lost, invented, changed or reordered: what its whole
  output is translated into stands one for one, in order, for the text blocks,
  the tool calls, the tool results, the session starts and the results in it.
  */
  lemma {:induction false} EverythingSaidIsHandedOn(lines: seq<Line>) returns (places: seq<Place>)
    ensures Transcribes(lines, places, Emitted(EventsOf(lines)))
  {
    places := [];
    if lines != [] {
      hide Transcribes, TranscribesEvent, Says, CarryOver, CarryAfter;
      var n := |lines| - 1;
      places := EverythingSaidIsHandedOn(lines[..n]);
      if lines[n].Parsed? {
        var evs := EventsOf(lines[..n]);
        OneMoreEvent(evs, lines[n].event);
        var blocks := EventSays(lines[n].event, CarryOver(evs));
        SpokenLine(lines, places, Emitted(evs), blocks, Says(lines[n].event, CarryOver(evs)));
        places := places + OnLine(n, blocks);
      } else {
        SilentLine(lines, places, Emitted(EventsOf(lines[..n])));
        assert EventsOf(lines) == EventsOf(lines[..n]);
      }
    } else {
      NothingSaid();
    }
  }

  lemma NothingSaid()
    ensures Transcribes([], [], Emitted(EventsOf([])))
  {
  }
}
