/**
Rewriting a messages request for upstreams that refuse `role: "system"` inside
`messages`: such entries are taken out and their text moves to the top-level
`system` field.
*/
module BodyNormalizer {
  import opened Options
  import opened Json

  predicate IsSystem(m: Value) { Get(m, "role") == Some(Str("system")) }

  /** The text of one content block, when it is a text block. */
  function BlockText(b: Value): Option<string> {
    var typ := Get(b, "type");
    if typ.Some? && typ.value.Str? && typ.value.s != "text" then None
    else
      match Get(b, "text")
      case Some(Str(t)) => Some(t)
      case _ => None
  }

  function BlockTexts(blocks: seq<Value>): seq<string> {
    if blocks == [] then []
    else
      var n := |blocks| - 1;
      var t := BlockText(blocks[n]);
      BlockTexts(blocks[..n]) + (if t.Some? then [t.value] else [])
  }

  function Join(parts: seq<string>, sep: string): string {
    if parts == [] then []
    else if |parts| == 1 then parts[0]
    else
      var n := |parts| - 1;
      Join(parts[..n], sep) + sep + parts[n]
  }

  function ContentText(content: Option<Value>): string {
    match content
    case Some(Str(s)) => s
    case Some(Arr(blocks)) => Join(BlockTexts(blocks), "\n")
    case _ => []
  }

  method ExtractText(content: Option<Value>) returns (text: string)
    ensures text == ContentText(content)
  {
    match content {
      case Some(Str(s)) => return s;
      case Some(Arr(blocks)) =>
        var parts: seq<string> := [];
        for i := 0 to |blocks|
          invariant parts == BlockTexts(blocks[..i])
        {
          assert blocks[..i + 1][..i] == blocks[..i];
          var b := blocks[i];
          var typ := Get(b, "type");
          var isText := !(typ.Some? && typ.value.Str?) || typ.value.s == "text";
          if isText {
            var t := Get(b, "text");
            if t.Some? && t.value.Str? {
              parts := parts + [t.value.s];
            }
          }
        }
        assert blocks[..|blocks|] == blocks;
        return Join(parts, "\n");
      case _ => return [];
    }
  }

  /** What stays in `messages`. */
  function Others(ms: seq<Value>): seq<Value> {
    if ms == [] then []
    else
      var n := |ms| - 1;
      Others(ms[..n]) + (if IsSystem(ms[n]) then [] else [ms[n]])
  }

  /** What is taken out: the non-empty texts of the system entries. */
  function Hoisted(ms: seq<Value>): seq<string> {
    if ms == [] then []
    else
      var n := |ms| - 1;
      var text := ContentText(Get(ms[n], "content"));
      Hoisted(ms[..n]) + (if IsSystem(ms[n]) && text != [] then [text] else [])
  }

  function TextBlock(text: string): Value { Obj(map["type" := Str("text"), "text" := Str(text)]) }

  function NewSystem(prior: Option<Value>, extra: string): Value {
    match prior
    case Some(Str(s)) => if s != [] then Str(s + "\n\n" + extra) else Str(extra)
    case Some(Arr(blocks)) => Arr(blocks + [TextBlock(extra)])
    case _ => Str(extra)
  }

  predicate HasSystem(v: Value) {
    var ms := Get(v, "messages");
    ms.Some? && ms.value.Arr? && exists m :: m in ms.value.items && IsSystem(m)
  }

  function Normalized(v: Value): Value {
    if !HasSystem(v) then v
    else
      var ms := v.fields["messages"].items;
      var emptied := v.fields["messages" := Arr(Others(ms))];
      if Hoisted(ms) == [] then Obj(emptied)
      else Obj(emptied["system" := NewSystem(Get(v, "system"), Join(Hoisted(ms), "\n\n"))])
  }

  method MergeIntoSystem(fields: map<string, Value>, hoisted: seq<string>) returns (merged: map<string, Value>)
    ensures hoisted == [] ==> merged == fields
    ensures hoisted != [] ==> merged == fields["system" := NewSystem(Get(Obj(fields), "system"), Join(hoisted, "\n\n"))]
  {
    if hoisted == [] {
      return fields;
    }
    var extra := Join(hoisted, "\n\n");
    var removed := Get(Obj(fields), "system");
    var rest := fields - {"system"};
    var newSystem;
    match removed {
      case Some(Str(s)) =>
        if s != [] {
          newSystem := Str(s + "\n\n" + extra);
        } else {
          newSystem := Str(extra);
        }
      case Some(Arr(blocks)) => newSystem := Arr(blocks + [TextBlock(extra)]);
      case _ => newSystem := Str(extra);
    }
    merged := rest["system" := newSystem];
  }

  method NormalizeMessagesBody(v: Value) returns (r: Value)
    ensures r == Normalized(v)
  {
    if !HasSystem(v) {
      return v;
    }
    var ms := v.fields["messages"].items;
    var kept: seq<Value> := [];
    var hoisted: seq<string> := [];
    for i := 0 to |ms|
      invariant kept == Others(ms[..i]) && hoisted == Hoisted(ms[..i])
    {
      assert ms[..i + 1][..i] == ms[..i];
      if IsSystem(ms[i]) {
        var text := ExtractText(Get(ms[i], "content"));
        if text != [] {
          hoisted := hoisted + [text];
        }
      } else {
        kept := kept + [ms[i]];
      }
    }
    assert ms[..|ms|] == ms;
    var emptied := v.fields["messages" := Arr(kept)];
    var merged := MergeIntoSystem(emptied, hoisted);
    r := Obj(merged);
  }

  // ------------------------------------------------------- the conversation

  function Messages(v: Value): seq<Value> {
    var ms := Get(v, "messages");
    if ms.Some? && ms.value.Arr? then ms.value.items else []
  }

  /** Positions of the entries that are not system entries, in order. */
  function KeptPositions(ms: seq<Value>): (at: seq<nat>)
    ensures forall k :: 0 <= k < |at| ==> at[k] < |ms|
  {
    if ms == [] then []
    else
      var n := |ms| - 1;
      KeptPositions(ms[..n]) + (if IsSystem(ms[n]) then [] else [n])
  }

  lemma {:induction false} KeptPositionsAreExact(ms: seq<Value>)
    ensures var at := KeptPositions(ms);
            && (forall j, k :: 0 <= j < k < |at| ==> at[j] < at[k])
            && (forall i :: 0 <= i < |ms| ==> (i in at <==> !IsSystem(ms[i])))
  {
    if ms != [] {
      hide IsSystem;
      KeptPositionsAreExact(ms[..|ms| - 1]);
    }
  }

  lemma {:induction false} OthersAreAtKeptPositions(ms: seq<Value>)
    ensures |Others(ms)| == |KeptPositions(ms)|
    ensures forall k :: 0 <= k < |Others(ms)| ==> Others(ms)[k] == ms[KeptPositions(ms)[k]]
  {
    if ms != [] {
      hide IsSystem;
      OthersAreAtKeptPositions(ms[..|ms| - 1]);
    }
  }

  lemma MessagesAfter(v: Value)
    ensures HasSystem(v) ==> Messages(Normalized(v)) == Others(Messages(v))
    ensures !HasSystem(v) ==> Normalized(v) == v
  {
    hide IsSystem, Others, Hoisted, NewSystem, Join;
  }

  lemma {:induction false} NoneOfThemIsSystem(ms: seq<Value>)
    ensures forall m :: m in Others(ms) ==> !IsSystem(m)
    ensures (forall m :: m in ms ==> !IsSystem(m)) ==> Others(ms) == ms
  {
    if ms != [] {
      hide IsSystem;
      NoneOfThemIsSystem(ms[..|ms| - 1]);
      assert ms == ms[..|ms| - 1] + [ms[|ms| - 1]];
    }
  }

  /**
  No system entry is left, and every other entry is still there, unchanged and
  in the same order: entry k of the result is the k-th non-system entry.
  */
  lemma ConversationIsKept(v: Value)
    ensures !HasSystem(Normalized(v))
    ensures var before, after, at := Messages(v), Messages(Normalized(v)), KeptPositions(Messages(v));
            && |after| == |at|
            && (forall k :: 0 <= k < |at| ==> after[k] == before[at[k]])
            && (forall j, k :: 0 <= j < k < |at| ==> at[j] < at[k])
            && (forall i :: 0 <= i < |before| ==> (i in at <==> !IsSystem(before[i])))
  {
    MessagesAfter(v);
    NoneOfThemIsSystem(Messages(v));
    KeptPositionsAreExact(Messages(v));
    OthersAreAtKeptPositions(Messages(v));
    hide IsSystem, Others, Hoisted, NewSystem, Join, KeptPositions, Normalized;
    if !HasSystem(v) {
      assert forall m :: m in Messages(v) ==> !IsSystem(m);
    }
  }

  /** The body is left alone exactly when it has no system entry; so a second pass changes nothing. */
  lemma TouchedOnlyWhenNeeded(v: Value)
    ensures Normalized(v) == v <==> !HasSystem(v)
    ensures Normalized(Normalized(v)) == Normalized(v)
  {
    ConversationIsKept(v);
    MessagesAfter(Normalized(v));
  }

  /** Every other key keeps its presence and its value. */
  lemma OtherKeysAreKept(v: Value, key: string)
    requires key != "messages" && key != "system"
    ensures Get(Normalized(v), key) == Get(v, key)
  {
    hide IsSystem, Others, Hoisted, NewSystem, Join;
  }

  // ------------------------------------------------------- the instructions

  function NonEmpty(texts: seq<string>): seq<string> {
    if texts == [] then []
    else
      var n := |texts| - 1;
      NonEmpty(texts[..n]) + (if texts[n] != [] then [texts[n]] else [])
  }

  /** The texts a reader of the `system` field finds there. */
  function SystemTexts(system: Option<Value>): seq<string> {
    match system
    case Some(Str(s)) => if s == [] then [] else [s]
    case Some(Arr(blocks)) => NonEmpty(BlockTexts(blocks))
    case _ => []
  }

  /** Everything a request says as system text: its `system` field, then its system entries. */
  function Instructions(v: Value): seq<string> {
    SystemTexts(Get(v, "system")) + Hoisted(Messages(v))
  }

  lemma JoinSnoc(parts: seq<string>, last: string, sep: string)
    requires parts != []
    ensures Join(parts + [last], sep) == Join(parts, sep) + sep + last
  {
    assert (parts + [last])[..|parts|] == parts;
  }

  lemma FivePieces(a: string, sep: string, b: string, last: string)
    ensures (a + sep + b) + sep + last == a + sep + (b + sep + last)
  {
  }

  lemma {:induction false} JoinAppend(a: seq<string>, b: seq<string>, sep: string)
    requires a != [] && b != []
    ensures Join(a + b, sep) == Join(a, sep) + sep + Join(b, sep)
    decreases |b|
  {
    var front, last := b[..|b| - 1], b[|b| - 1];
    if front == [] {
      assert b == [last] && Join(b, sep) == last;
      JoinSnoc(a, last, sep);
    } else {
      JoinAppend(a, front, sep);
      JoinAppendStep(a, front, last, sep);
      assert b == front + [last];
    }
  }

  lemma JoinAppendStep(a: seq<string>, b: seq<string>, last: string, sep: string)
    requires a != [] && b != [] && Join(a + b, sep) == Join(a, sep) + sep + Join(b, sep)
    ensures Join(a + (b + [last]), sep) == Join(a, sep) + sep + Join(b + [last], sep)
  {
    hide Join;
    assert a + (b + [last]) == (a + b) + [last];
    JoinSnoc(a + b, last, sep);
    JoinSnoc(b, last, sep);
    FivePieces(Join(a, sep), sep, Join(b, sep), last);
  }

  lemma JoinOfJoin(a: seq<string>, b: seq<string>, sep: string)
    requires b != []
    ensures Join(a + [Join(b, sep)], sep) == Join(a + b, sep)
  {
    if a == [] {
      assert a + b == b && a + [Join(b, sep)] == [Join(b, sep)];
    } else {
      JoinAppend(a, b, sep);
      JoinAppend(a, [Join(b, sep)], sep);
    }
  }

  lemma {:induction false} HoistedIsNonEmpty(ms: seq<Value>)
    ensures forall t :: t in Hoisted(ms) ==> t != []
    ensures (forall m :: m in ms ==> !IsSystem(m)) ==> Hoisted(ms) == []
  {
    if ms != [] {
      hide IsSystem, ContentText;
      HoistedIsNonEmpty(ms[..|ms| - 1]);
    }
  }

  lemma JoinNonEmpty(parts: seq<string>, sep: string)
    requires parts != [] && forall t :: t in parts ==> t != []
    ensures Join(parts, sep) != []
  {
    assert parts[|parts| - 1] in parts;
  }

  lemma TextBlockText(extra: string)
    ensures BlockText(TextBlock(extra)) == Some(extra)
  {
  }

  lemma NewSystemTexts(prior: Option<Value>, extra: string)
    requires extra != []
    ensures var t := SystemTexts(prior);
            SystemTexts(Some(NewSystem(prior, extra))) ==
            if prior.Some? && prior.value.Str? && t != [] then [t[0] + "\n\n" + extra] else t + [extra]
  {
    match prior {
      case Some(Arr(blocks)) =>
        TextBlockText(extra);
        var more := blocks + [TextBlock(extra)];
        assert more[..|blocks|] == blocks;
        hide TextBlock, BlockText, NonEmpty;
        assert BlockTexts(more) == BlockTexts(blocks) + [extra];
        NonEmptyAppend(BlockTexts(blocks), extra);
      case _ =>
    }
  }

  lemma NonEmptyAppend(texts: seq<string>, t: string)
    requires t != []
    ensures NonEmpty(texts + [t]) == NonEmpty(texts) + [t]
  {
    assert (texts + [t])[..|texts|] == texts;
  }

  lemma SystemAfter(v: Value)
    requires HasSystem(v)
    ensures Hoisted(Messages(v)) == [] ==> Get(Normalized(v), "system") == Get(v, "system")
    ensures Hoisted(Messages(v)) != [] ==>
              Get(Normalized(v), "system") == Some(NewSystem(Get(v, "system"), Join(Hoisted(Messages(v)), "\n\n")))
  {
    hide IsSystem, Others, Hoisted, NewSystem, Join;
  }

  lemma NothingLeftToHoist(v: Value)
    ensures Hoisted(Messages(Normalized(v))) == []
  {
    ConversationIsKept(v);
    var ms := Messages(Normalized(v));
    HoistedIsNonEmpty(ms);
    hide IsSystem, Hoisted, Normalized, KeptPositions;
    assert forall m :: m in ms ==> !IsSystem(m);
  }

  lemma MergedReadsTheSame(prior: Option<Value>, hoisted: seq<string>)
    requires hoisted != [] && forall t :: t in hoisted ==> t != []
    ensures Join(SystemTexts(Some(NewSystem(prior, Join(hoisted, "\n\n")))), "\n\n") == Join(SystemTexts(prior) + hoisted, "\n\n")
  {
    var extra, t := Join(hoisted, "\n\n"), SystemTexts(prior);
    JoinNonEmpty(hoisted, "\n\n");
    NewSystemTexts(prior, extra);
    JoinOfJoin(t, hoisted, "\n\n");
    if prior.Some? && prior.value.Str? && t != [] {
      assert t == [prior.value.s];
      hide NewSystem, SystemTexts;
      JoinAppend(t, hoisted, "\n\n");
      assert Join(t, "\n\n") == t[0];
    }
  }

  /**
  No instruction is lost, invented or reordered: read with blank lines between
  its pieces, the request says the same system text before and after.
  */
  lemma {:induction false} InstructionsAreConserved(v: Value)
    ensures Join(Instructions(Normalized(v)), "\n\n") == Join(Instructions(v), "\n\n")
  {
    if HasSystem(v) {
      var hoisted, prior := Hoisted(Messages(v)), Get(v, "system");
      HoistedIsNonEmpty(Messages(v));
      SystemAfter(v);
      NothingLeftToHoist(v);
      hide HasSystem, IsSystem, Hoisted, Normalized, NewSystem, SystemTexts, Messages, Get, Join;
      var now := SystemTexts(Get(Normalized(v), "system"));
      assert now + [] == now;
      if hoisted == [] {
        assert SystemTexts(prior) + hoisted == SystemTexts(prior);
      } else {
        MergedReadsTheSame(prior, hoisted);
      }
    }
  }

  // ------------------------------------------------ what happens to `system`

  /** The old field is still there, at the front of the new one. */
  predicate Survives(prior: Option<Value>, after: Option<Value>) {
    match prior
    case None => true
    case Some(Str(s)) => after.Some? && after.value.Str? && s <= after.value.s
    case Some(Arr(blocks)) => after.Some? && after.value.Arr? && blocks <= after.value.items
    case Some(_) => after == prior
  }

  /** The old `system` is dropped exactly when it has none of the three legal shapes and there is text to hoist. */
  lemma SystemSurvives(v: Value)
    ensures var prior := Get(v, "system");
            Survives(prior, Get(Normalized(v), "system")) <==>
            (!HasSystem(v) || Hoisted(Messages(v)) == [] || prior.None? || prior.value.Str? || prior.value.Arr?)
  {
    hide IsSystem, Hoisted, Messages, Get, Join, Survives, NewSystem;
    MessagesAfter(v);
    SelfSurvives(Get(v, "system"));
    if HasSystem(v) {
      SystemAfter(v);
      NewSystemKeeps(Get(v, "system"), Join(Hoisted(Messages(v)), "\n\n"));
    }
    hide HasSystem, Normalized;
  }

  lemma SelfSurvives(prior: Option<Value>)
    ensures Survives(prior, prior)
  {
  }

  lemma NewSystemKeeps(prior: Option<Value>, extra: string)
    ensures Survives(prior, Some(NewSystem(prior, extra))) <==> prior.None? || prior.value.Str? || prior.value.Arr?
  {
    match prior {
      case Some(Str(s)) => assert s + "\n\n" + extra == s + ("\n\n" + extra);
      case _ =>
    }
  }
}
