/**
Where a request's system text ends up, said by the fields of the request alone:
the text of every system entry arrives in the `system` field, in order.
*/
module BodyInstructions {
  import opened Options
  import opened Json
  import opened BodyNormalizer

  predicate SystemEntry(m: Value) { m.Obj? && "role" in m.fields && m.fields["role"] == Str("system") }

  /** The text of a block counts when its type is absent, is no string, or is "text". */
  predicate CarriesText(b: Value) {
    && b.Obj? && "text" in b.fields && b.fields["text"].Str?
    && ("type" in b.fields && b.fields["type"].Str? ==> b.fields["type"].s == "text")
  }

  /** `whole` is the parts in order, with `sep` between each and the next. */
  predicate Parted(parts: seq<string>, sep: string, whole: string) {
    if parts == [] then whole == []
    else if |parts| == 1 then whole == parts[0]
    else parts[0] + sep <= whole && Parted(parts[1..], sep, whole[|parts[0]| + |sep|..])
  }

  /** The pieces are the texts of exactly the blocks that count, at positions `at`, in order. */
  predicate PiecesAt(blocks: seq<Value>, at: seq<nat>, pieces: seq<string>) {
    && |pieces| == |at|
    && (forall j, k :: 0 <= j < k < |at| ==> at[j] < at[k])
    && (forall k :: 0 <= k < |at| ==> at[k] < |blocks|)
    && (forall i: nat :: i < |blocks| ==> (i in at <==> CarriesText(blocks[i])))
    && (forall k :: 0 <= k < |at| ==> CarriesText(blocks[at[k]]) && pieces[k] == blocks[at[k]].fields["text"].s)
  }

  /** The text of an entry: a string itself, or the texts of its blocks, one a line. */
  ghost predicate EntrySays(m: Value, text: string) {
    if m.Obj? && "content" in m.fields && m.fields["content"].Str? then
      text == m.fields["content"].s
    else if m.Obj? && "content" in m.fields && m.fields["content"].Arr? then
      exists at: seq<nat>, pieces: seq<string> ::
        PiecesAt(m.fields["content"].items, at, pieces) && Parted(pieces, "\n", text)
    else
      text == []
  }

  /** The texts are those of exactly the system entries that say something, in order. */
  ghost predicate SystemTextsAt(ms: seq<Value>, at: seq<nat>, texts: seq<string>) {
    && |texts| == |at|
    && (forall j, k :: 0 <= j < k < |at| ==> at[j] < at[k])
    && (forall k :: 0 <= k < |at| ==> at[k] < |ms|)
    && (forall i: nat :: i < |ms| ==> (i in at <==> SystemEntry(ms[i]) && !EntrySays(ms[i], [])))
    && (forall k :: 0 <= k < |at| ==> EntrySays(ms[at[k]], texts[k]))
  }

  // ------------------------------------------------------- one entry's text

  lemma {:induction false} JoinIsParted(parts: seq<string>, sep: string)
    ensures Parted(parts, sep, Join(parts, sep))
    decreases |parts|
  {
    if |parts| > 1 {
      JoinIsParted(parts[1..], sep);
      JoinAppend([parts[0]], parts[1..], sep);
      assert parts == [parts[0]] + parts[1..];
      assert Join([parts[0]], sep) == parts[0];
      var rest := Join(parts[1..], sep);
      hide Join;
      assert Join(parts, sep) == (parts[0] + sep) + rest;
      assert ((parts[0] + sep) + rest)[|parts[0]| + |sep|..] == rest;
    }
  }

  lemma BlockTextIs(b: Value)
    ensures BlockText(b).Some? <==> CarriesText(b)
    ensures CarriesText(b) ==> BlockText(b) == Some(b.fields["text"].s)
  {
  }

  lemma OneMoreBlock(blocks: seq<Value>, at: seq<nat>, pieces: seq<string>)
    requires blocks != [] && PiecesAt(blocks[..|blocks| - 1], at, pieces)
    ensures var n := |blocks| - 1;
            && (!CarriesText(blocks[n]) ==> PiecesAt(blocks, at, pieces))
            && (CarriesText(blocks[n]) ==> PiecesAt(blocks, at + [n], pieces + [blocks[n].fields["text"].s]))
  {
    hide CarriesText;
    var n := |blocks| - 1;
    var front := blocks[..n];
    forall i: nat | i < n ensures front[i] == blocks[i] {}
  }

  lemma {:induction false} BlockTextsArePieces(blocks: seq<Value>) returns (at: seq<nat>)
    ensures PiecesAt(blocks, at, BlockTexts(blocks))
  {
    at := [];
    if blocks != [] {
      hide PiecesAt, BlockText, CarriesText;
      var n := |blocks| - 1;
      at := BlockTextsArePieces(blocks[..n]);
      OneMoreBlock(blocks, at, BlockTexts(blocks[..n]));
      BlockTextIs(blocks[n]);
      if CarriesText(blocks[n]) {
        at := at + [n];
      } else {
        assert BlockTexts(blocks) == BlockTexts(blocks[..n]);
      }
    } else {
      NoPieces();
    }
  }

  lemma NoPieces()
    ensures PiecesAt([], [], BlockTexts([]))
  {
  }

  lemma EntrySaysItsText(m: Value)
    ensures EntrySays(m, ContentText(Get(m, "content")))
  {
    if m.Obj? && "content" in m.fields && m.fields["content"].Arr? {
      var blocks := m.fields["content"].items;
      var at := BlockTextsArePieces(blocks);
      JoinIsParted(BlockTexts(blocks), "\n");
      hide PiecesAt, Parted, Join, BlockTexts;
    }
  }

  lemma {:induction false} PartedOnce(parts: seq<string>, sep: string, a: string, b: string)
    requires Parted(parts, sep, a) && Parted(parts, sep, b)
    ensures a == b
    decreases |parts|
  {
    if |parts| > 1 {
      var k := |parts[0]| + |sep|;
      PartedOnce(parts[1..], sep, a[k..], b[k..]);
      assert a == (parts[0] + sep) + a[k..] && b == (parts[0] + sep) + b[k..];
    }
  }

  lemma {:induction false} SamePositions(at: seq<nat>, bt: seq<nat>)
    requires forall j, k :: 0 <= j < k < |at| ==> at[j] < at[k]
    requires forall j, k :: 0 <= j < k < |bt| ==> bt[j] < bt[k]
    requires forall i: nat :: i in at <==> i in bt
    ensures at == bt
    decreases |at|
  {
    assert at != [] ==> at[0] in at && bt != [];
    assert bt != [] ==> bt[0] in bt && at != [];
    if at != [] {
      var m, n := |at| - 1, |bt| - 1;
      assert at[m] in bt && bt[n] in at;
      assert at[m] == bt[n];
      forall i: nat ensures i in at[..m] <==> i in bt[..n] {
        assert i in at <==> i in at[..m] || i == at[m];
        assert i in bt <==> i in bt[..n] || i == bt[n];
        assert at[m] !in at[..m] && bt[n] !in bt[..n];
      }
      SamePositions(at[..m], bt[..n]);
      assert at == at[..m] + [at[m]] && bt == bt[..n] + [bt[n]];
    }
  }

  lemma PiecesOnce(blocks: seq<Value>, at: seq<nat>, a: seq<string>, bt: seq<nat>, b: seq<string>)
    requires PiecesAt(blocks, at, a) && PiecesAt(blocks, bt, b)
    ensures at == bt && a == b
  {
    hide CarriesText;
    forall i: nat ensures i in at <==> i in bt {
      if i in at { assert i < |blocks|; }
      if i in bt { assert i < |blocks|; }
    }
    SamePositions(at, bt);
  }

  /** An entry says one text only. */
  lemma SaysOnce(m: Value, a: string, b: string)
    requires EntrySays(m, a) && EntrySays(m, b)
    ensures a == b
  {
    if m.Obj? && "content" in m.fields && m.fields["content"].Arr? {
      hide PiecesAt, Parted;
      var blocks := m.fields["content"].items;
      var at: seq<nat>, pieces: seq<string> :| PiecesAt(blocks, at, pieces) && Parted(pieces, "\n", a);
      var bt: seq<nat>, others: seq<string> :| PiecesAt(blocks, bt, others) && Parted(others, "\n", b);
      PiecesOnce(blocks, at, pieces, bt, others);
      PartedOnce(pieces, "\n", a, b);
    }
  }

  // ------------------------------------------------------- the whole request

  lemma OneMoreEntry(ms: seq<Value>, at: seq<nat>, texts: seq<string>, text: string)
    requires ms != [] && SystemTextsAt(ms[..|ms| - 1], at, texts) && EntrySays(ms[|ms| - 1], text)
    ensures var n := |ms| - 1;
            && (!(SystemEntry(ms[n]) && text != []) ==> SystemTextsAt(ms, at, texts))
            && (SystemEntry(ms[n]) && text != [] ==> SystemTextsAt(ms, at + [n], texts + [text]))
  {
    hide SystemEntry, EntrySays;
    var n := |ms| - 1;
    var front := ms[..n];
    forall i: nat | i < n ensures front[i] == ms[i] {}
    if EntrySays(ms[n], []) { SaysOnce(ms[n], text, []); }
  }

  lemma {:induction false} HoistedAreTheTexts(ms: seq<Value>) returns (at: seq<nat>)
    ensures SystemTextsAt(ms, at, Hoisted(ms))
  {
    at := [];
    if ms != [] {
      hide SystemTextsAt, EntrySays, ContentText;
      var n := |ms| - 1;
      at := HoistedAreTheTexts(ms[..n]);
      var text := ContentText(Get(ms[n], "content"));
      EntrySaysItsText(ms[n]);
      OneMoreEntry(ms, at, Hoisted(ms[..n]), text);
      if SystemEntry(ms[n]) && text != [] {
        at := at + [n];
      } else {
        assert Hoisted(ms) == Hoisted(ms[..n]);
      }
    } else {
      NoEntries();
    }
  }

  lemma NoEntries()
    ensures SystemTextsAt([], [], Hoisted([]))
  {
  }

  /** The entries of a request, when it has any. */
  predicate HasMessages(v: Value) { v.Obj? && "messages" in v.fields && v.fields["messages"].Arr? }

  predicate HasSystemEntry(v: Value) {
    HasMessages(v) && exists i :: 0 <= i < |v.fields["messages"].items| && SystemEntry(v.fields["messages"].items[i])
  }

  lemma HasSystemIs(v: Value)
    ensures HasSystem(v) <==> HasSystemEntry(v)
  {
    hide IsSystem, SystemEntry;
    forall m: Value ensures IsSystem(m) <==> SystemEntry(m) { SystemIs(m); }
  }

  lemma SystemIs(m: Value)
    ensures IsSystem(m) <==> SystemEntry(m)
  {
  }

  /**
  No instruction is lost, invented, changed or reordered. For every request
  body: `texts` are the texts of exactly the system entries that say something,
  in order, and `extra` is those texts with blank lines between. With none of
  them the `system` field stays as it was; otherwise a non-empty string is
  followed by a blank line and `extra`, a list of blocks by one more text block
  holding `extra`, and anything else gives way to `extra`. Nothing without a
  system entry is touched.
  */
  lemma {:induction false} InstructionsArrive(v: Value) returns (at: seq<nat>, texts: seq<string>, extra: string)
    ensures !HasSystemEntry(v) ==> Normalized(v) == v
    ensures HasSystemEntry(v) ==>
              && SystemTextsAt(v.fields["messages"].items, at, texts) && Parted(texts, "\n\n", extra)
              && Normalized(v).Obj?
              && (var before, after := v.fields, Normalized(v).fields;
                  && "messages" in after && after["messages"].Arr?
                  && (forall key :: key !in {"messages", "system"} ==>
                        (key in before <==> key in after) && (key in before ==> after[key] == before[key]))
                  && (texts == [] ==> (("system" in before <==> "system" in after)
                                       && ("system" in before ==> after["system"] == before["system"])))
                  && (texts != [] ==>
                        && "system" in after
                        && after["system"] ==
                             if "system" in before && before["system"].Str? && before["system"].s != "" then
                               Str(before["system"].s + "\n\n" + extra)
                             else if "system" in before && before["system"].Arr? then
                               Arr(before["system"].items + [Obj(map["type" := Str("text"), "text" := Str(extra)])])
                             else
                               Str(extra)))
  {
    HasSystemIs(v);
    at, texts, extra := [], [], [];
    if HasSystemEntry(v) {
      var ms := v.fields["messages"].items;
      at := HoistedAreTheTexts(ms);
      texts := Hoisted(ms);
      extra := Join(texts, "\n\n");
      JoinIsParted(texts, "\n\n");
      hide SystemTextsAt, Parted, Hoisted, Others, Join, HasSystem, HasSystemEntry;
    }
  }

  /** The conversation, said the same way: what stays are exactly the entries that are not system entries, in order. */
  lemma ConversationStays(v: Value) returns (at: seq<nat>)
    requires HasSystemEntry(v)
    ensures Normalized(v).Obj? && "messages" in Normalized(v).fields && Normalized(v).fields["messages"].Arr?
    ensures var before, after := v.fields["messages"].items, Normalized(v).fields["messages"].items;
            && |after| == |at|
            && (forall j, k :: 0 <= j < k < |at| ==> at[j] < at[k])
            && (forall k :: 0 <= k < |at| ==> at[k] < |before| && after[k] == before[at[k]])
            && (forall i: nat :: i < |before| ==> (i in at <==> !SystemEntry(before[i])))
  {
    HasSystemIs(v);
    ConversationIsKept(v);
    MessagesAfter(v);
    at := KeptPositions(Messages(v));
    forall i: nat | i < |Messages(v)| ensures IsSystem(Messages(v)[i]) <==> SystemEntry(Messages(v)[i]) {
      SystemIs(Messages(v)[i]);
    }
    hide IsSystem, SystemEntry, Hoisted, Others, Join, KeptPositions, NewSystem;
  }

  // ------------------------------------------------ read before and after

  /** The same for a list of system blocks, where an empty text says nothing. */
  predicate SpokenAt(blocks: seq<Value>, at: seq<nat>, pieces: seq<string>) {
    && |pieces| == |at|
    && (forall j, k :: 0 <= j < k < |at| ==> at[j] < at[k])
    && (forall k :: 0 <= k < |at| ==> at[k] < |blocks|)
    && (forall i: nat :: i < |blocks| ==> (i in at <==> CarriesText(blocks[i]) && blocks[i].fields["text"].s != ""))
    && (forall k :: 0 <= k < |at| ==> CarriesText(blocks[at[k]]) && pieces[k] == blocks[at[k]].fields["text"].s)
  }

  /** What a reader of the `system` field finds there. */
  ghost predicate FieldSays(v: Value, parts: seq<string>) {
    if v.Obj? && "system" in v.fields && v.fields["system"].Str? then
      parts == if v.fields["system"].s == "" then [] else [v.fields["system"].s]
    else if v.Obj? && "system" in v.fields && v.fields["system"].Arr? then
      exists at: seq<nat> :: SpokenAt(v.fields["system"].items, at, parts)
    else
      parts == []
  }

  /** All the system text of a request: its `system` field, then its system entries. */
  ghost predicate RequestSays(v: Value, field: seq<string>, at: seq<nat>, texts: seq<string>) {
    && FieldSays(v, field)
    && SystemTextsAt(if HasMessages(v) then v.fields["messages"].items else [], at, texts)
  }

  lemma OneMoreSpoken(blocks: seq<Value>, at: seq<nat>, pieces: seq<string>)
    requires blocks != [] && SpokenAt(blocks[..|blocks| - 1], at, pieces)
    ensures var n := |blocks| - 1;
            if CarriesText(blocks[n]) && blocks[n].fields["text"].s != ""
            then SpokenAt(blocks, at + [n], pieces + [blocks[n].fields["text"].s])
            else SpokenAt(blocks, at, pieces)
  {
    hide CarriesText;
    var n := |blocks| - 1;
    var front := blocks[..n];
    forall i: nat | i < n ensures front[i] == blocks[i] {}
  }

  lemma NonEmptySnoc(texts: seq<string>, t: string)
    ensures NonEmpty(texts + [t]) == NonEmpty(texts) + (if t != [] then [t] else [])
  {
    assert (texts + [t])[..|texts|] == texts;
  }

  /** The texts of the blocks, one block further. */
  lemma NextBlockText(blocks: seq<Value>)
    requires blocks != []
    ensures var n := |blocks| - 1;
            && (CarriesText(blocks[n]) ==> BlockTexts(blocks) == BlockTexts(blocks[..n]) + [blocks[n].fields["text"].s])
            && (!CarriesText(blocks[n]) ==> BlockTexts(blocks) == BlockTexts(blocks[..n]))
  {
    hide BlockText, CarriesText;
    BlockTextIs(blocks[|blocks| - 1]);
  }

  lemma SpokenStep(blocks: seq<Value>, front: seq<nat>) returns (at: seq<nat>)
    requires blocks != [] && SpokenAt(blocks[..|blocks| - 1], front, NonEmpty(BlockTexts(blocks[..|blocks| - 1])))
    ensures SpokenAt(blocks, at, NonEmpty(BlockTexts(blocks)))
  {
    hide SpokenAt, NonEmpty, BlockTexts;
    var n := |blocks| - 1;
    var texts := BlockTexts(blocks[..n]);
    NextBlockText(blocks);
    OneMoreSpoken(blocks, front, NonEmpty(texts));
    at := front;
    if CarriesText(blocks[n]) {
      NonEmptySnoc(texts, blocks[n].fields["text"].s);
      if blocks[n].fields["text"].s != "" {
        at := front + [n];
      } else {
        assert NonEmpty(texts) + [] == NonEmpty(texts);
      }
    }
  }

  lemma {:induction false} NonEmptyTextsAreSpoken(blocks: seq<Value>) returns (at: seq<nat>)
    ensures SpokenAt(blocks, at, NonEmpty(BlockTexts(blocks)))
  {
    hide SpokenAt, NonEmpty, BlockTexts;
    if blocks == [] {
      NoneSpoken();
      at := [];
    } else {
      at := NonEmptyTextsAreSpoken(blocks[..|blocks| - 1]);
      at := SpokenStep(blocks, at);
    }
  }

  lemma NoneSpoken()
    ensures SpokenAt([], [], NonEmpty(BlockTexts([])))
  {
  }

  lemma FieldSaysItsTexts(v: Value)
    ensures FieldSays(v, SystemTexts(Get(v, "system")))
  {
    if v.Obj? && "system" in v.fields && v.fields["system"].Arr? {
      var at := NonEmptyTextsAreSpoken(v.fields["system"].items);
    }
  }

  lemma MessagesAre(v: Value)
    ensures Messages(v) == if HasMessages(v) then v.fields["messages"].items else []
  {
  }

  lemma RequestSaysItsInstructions(v: Value) returns (at: seq<nat>)
    ensures RequestSays(v, SystemTexts(Get(v, "system")), at, Hoisted(Messages(v)))
  {
    hide FieldSays, SystemTextsAt, SystemTexts, Hoisted;
    FieldSaysItsTexts(v);
    MessagesAre(v);
    at := HoistedAreTheTexts(Messages(v));
  }

  /**
  Read with blank lines between its pieces, a request says the same system text
  before and after, and afterwards all of it stands in the `system` field.
  */
  lemma {:induction false} SameInstructions(v: Value)
    returns (field: seq<string>, at: seq<nat>, texts: seq<string>, fieldAfter: seq<string>, whole: string)
    ensures RequestSays(v, field, at, texts) && Parted(field + texts, "\n\n", whole)
    ensures RequestSays(Normalized(v), fieldAfter, [], []) && Parted(fieldAfter, "\n\n", whole)
  {
    hide RequestSays, Parted, Join, SystemTexts, Hoisted, SystemTextsAt;
    field, texts, fieldAfter := SystemTexts(Get(v, "system")), Hoisted(Messages(v)), SystemTexts(Get(Normalized(v), "system"));
    at := RequestSaysItsInstructions(v);
    var none := RequestSaysItsInstructions(Normalized(v));
    NothingLeftToHoist(v);
    whole := Join(field + texts, "\n\n");
    JoinIsParted(field + texts, "\n\n");
    JoinIsParted(fieldAfter, "\n\n");
    InstructionsAreConserved(v);
    assert fieldAfter + [] == fieldAfter;
    NoTextsNoPositions(Normalized(v), fieldAfter, none);
  }

  lemma NoTextsNoPositions(v: Value, field: seq<string>, at: seq<nat>)
    requires RequestSays(v, field, at, [])
    ensures at == []
  {
    hide FieldSays, SystemEntry, EntrySays;
  }
}
