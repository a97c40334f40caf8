/**
UTF-8 (section 3 and 4 of RFC 3629): encoding, a validating decoder that undoes
it, and the search for character boundaries in encoded text.
*/
module Utf8 {
  import opened Options
  import opened Bytes

  // --------------------------------------------------------------- encoding

  function EncodeChar(c: char): (b: seq<byte>)
    ensures 1 <= |b| <= 4
  {
    var n := c as int;
    if n < 0x80 then [n]
    else if n < 0x800 then [0xC0 + n / 64, 0x80 + n % 64]
    else if n < 0x1_0000 then [0xE0 + n / 4096, 0x80 + n / 64 % 64, 0x80 + n % 64]
    else [0xF0 + n / 262144, 0x80 + n / 4096 % 64, 0x80 + n / 64 % 64, 0x80 + n % 64]
  }

  function Encode(s: string): seq<byte> {
    if s == [] then [] else EncodeChar(s[0]) + Encode(s[1..])
  }

  predicate IsContinuation(b: byte) { 0x80 <= b < 0xC0 }

  ghost predicate WellFormed(b: seq<byte>) { exists s: string :: Encode(s) == b }

  // --------------------------------------------------------------- decoding

  datatype First = First(c: char, size: nat)

  predicate Scalar(n: int) { 0 <= n < 0xD800 || 0xE000 <= n < 0x11_0000 }

  /** The number spelt by a lead byte's payload and the continuation bytes after it. */
  function Value2(a: int, b: int): int { a * 64 + (b - 0x80) }

  function Value3(a: int, b: int, c: int): int { a * 4096 + (b - 0x80) * 64 + (c - 0x80) }

  function Value4(a: int, b: int, c: int, d: int): int {
    a * 262144 + (b - 0x80) * 4096 + (c - 0x80) * 64 + (d - 0x80)
  }

  /** The first character, if the bytes start with a shortest-form encoding of a scalar value. */
  function DecodeFirst(b: seq<byte>): Option<First> {
    if b == [] then None
    else
      var lead: int := b[0];
      if lead < 0x80 then Some(First(lead as char, 1))
      else if 0xC0 <= lead < 0xE0 && |b| >= 2 && IsContinuation(b[1]) then
        var n := Value2(lead - 0xC0, b[1]);
        if n >= 0x80 then Some(First(n as char, 2)) else None
      else if 0xE0 <= lead < 0xF0 && |b| >= 3 && IsContinuation(b[1]) && IsContinuation(b[2]) then
        var n := Value3(lead - 0xE0, b[1], b[2]);
        if n >= 0x800 && Scalar(n) then Some(First(n as char, 3)) else None
      else if 0xF0 <= lead < 0xF8 && |b| >= 4 && IsContinuation(b[1]) && IsContinuation(b[2]) && IsContinuation(b[3]) then
        var n := Value4(lead - 0xF0, b[1], b[2], b[3]);
        if n >= 0x1_0000 && Scalar(n) then Some(First(n as char, 4)) else None
      else None
  }

  lemma FirstFits(b: seq<byte>)
    ensures DecodeFirst(b).Some? ==> 1 <= DecodeFirst(b).value.size <= |b|
  {
  }

  function Decode(b: seq<byte>): Option<string>
    decreases |b|
  {
    if b == [] then Some([])
    else
      match DecodeFirst(b)
      case None => None
      case Some(f) =>
        FirstFits(b);
        match Decode(b[f.size..])
        case None => None
        case Some(rest) => Some([f.c] + rest)
  }

  lemma Spelling(n: nat)
    ensures n < 0x800 ==> Value2(n / 64, 0x80 + n % 64) == n
    ensures Value3(n / 4096, 0x80 + n / 64 % 64, 0x80 + n % 64) == n
    ensures Value4(n / 262144, 0x80 + n / 4096 % 64, 0x80 + n / 64 % 64, 0x80 + n % 64) == n
  {
    var a := n / 64;
    var b := a / 64;
    assert n == 64 * a + n % 64 && a == 64 * b + a % 64 && b == 64 * (b / 64) + b % 64;
    Quotients(n);
  }

  lemma Quotients(n: nat)
    ensures n / 4096 == n / 64 / 64 && n / 262144 == n / 64 / 64 / 64
  {
    var a := n / 64;
    var b := a / 64;
    var c := b / 64;
    assert 4096 * b <= n < 4096 * (b + 1);
    assert 262144 * c <= n < 262144 * (c + 1);
  }

  /** A byte that continues a character carries six bits under the mark 10. */
  predicate Carries(b: int, bits: int) { b / 64 == 2 && b % 64 == bits }

  /** The four forms: how many bytes, their marks, and the character's number in the bits that are left. */
  lemma EncodingIsExact(c: char)
    ensures var n, b := c as int, EncodeChar(c);
            && (n < 0x80 ==> b == [n])
            && (0x80 <= n < 0x800 ==> |b| == 2 && b[0] / 32 == 6 && b[0] % 32 == n / 64 && Carries(b[1], n % 64))
            && (0x800 <= n < 0x1_0000 ==>
                  |b| == 3 && b[0] / 16 == 14 && b[0] % 16 == n / 4096 && Carries(b[1], n / 64 % 64) && Carries(b[2], n % 64))
            && (0x1_0000 <= n ==>
                  |b| == 4 && b[0] / 8 == 30 && b[0] % 8 == n / 262144
                  && Carries(b[1], n / 4096 % 64) && Carries(b[2], n / 64 % 64) && Carries(b[3], n % 64))
  {
  }

  lemma DecodeFirstUndoes(c: char, rest: seq<byte>)
    ensures DecodeFirst(EncodeChar(c) + rest) == Some(First(c, |EncodeChar(c)|))
  {
    var n := c as int;
    Spelling(n);
    hide Value2, Value3, Value4;
    assert n as char == c;
  }

  lemma Respelling2(a: int, b: byte)
    requires a >= 0 && IsContinuation(b)
    ensures var n := Value2(a, b); n / 64 == a && 0x80 + n % 64 == b
  {
  }

  lemma Respelling3(a: int, b: byte, c: byte)
    requires a >= 0 && IsContinuation(b) && IsContinuation(c)
    ensures var n := Value3(a, b, c); n / 4096 == a && 0x80 + n / 64 % 64 == b && 0x80 + n % 64 == c
  {
    var m := Value2(a, b);
    Respelling2(a, b);
    assert Value3(a, b, c) == m * 64 + (c - 0x80);
    Quotients(Value3(a, b, c));
  }

  lemma Respelling4(a: int, b: byte, c: byte, d: byte)
    requires a >= 0 && IsContinuation(b) && IsContinuation(c) && IsContinuation(d)
    ensures var n := Value4(a, b, c, d);
            n / 262144 == a && 0x80 + n / 4096 % 64 == b && 0x80 + n / 64 % 64 == c && 0x80 + n % 64 == d
  {
    var m, n := Value3(a, b, c), Value4(a, b, c, d);
    Respelling3(a, b, c);
    assert n == m * 64 + (d - 0x80);
    assert n / 64 == m && n % 64 == d - 0x80;
    Quotients(n);
    Quotients(m);
  }

  lemma DecodeFirstIsEncoded(b: seq<byte>)
    requires DecodeFirst(b).Some?
    ensures var f := DecodeFirst(b).value;
            f.size <= |b| && EncodeChar(f.c) == b[..f.size]
  {
    var lead: int := b[0];
    if lead >= 0xF0 {
      Respelling4(lead - 0xF0, b[1], b[2], b[3]);
    } else if lead >= 0xE0 {
      Respelling3(lead - 0xE0, b[1], b[2]);
      Respelling2(lead - 0xE0, b[1]);
      Below3(lead - 0xE0, b[1], b[2]);
    } else if lead >= 0xC0 {
      Respelling2(lead - 0xC0, b[1]);
      Below3(lead - 0xC0, b[1], 0x80);
    }
    hide Value2, Value3, Value4;
  }

  lemma Below3(a: int, b: byte, c: byte)
    requires 0 <= a && IsContinuation(b) && IsContinuation(c)
    ensures a < 16 ==> Value3(a, b, c) < 0x1_0000
    ensures a < 32 ==> Value2(a, b) < 0x800
  {
  }

  /** Decoding undoes encoding. */
  lemma {:induction false} DecodeEncode(s: string)
    ensures Decode(Encode(s)) == Some(s)
  {
    if s != [] {
      DecodeEncode(s[1..]);
      DecodeFirstUndoes(s[0], Encode(s[1..]));
      var b := Encode(s);
      assert b[|EncodeChar(s[0])|..] == Encode(s[1..]);
      assert [s[0]] + s[1..] == s;
    }
  }

  /** Whatever decodes was the encoding of just that text: the decoder accepts exactly well-formed UTF-8. */
  lemma {:induction false} DecodeIsExact(b: seq<byte>)
    ensures Decode(b).Some? <==> WellFormed(b)
    ensures forall s :: Decode(b) == Some(s) <==> Encode(s) == b
    decreases |b|
  {
    forall s | Encode(s) == b ensures Decode(b) == Some(s) { DecodeEncode(s); }
    if Decode(b).Some? { DecodedEncodes(b); }
  }

  lemma DecodeStep(b: seq<byte>)
    requires b != [] && Decode(b).Some?
    ensures DecodeFirst(b).Some?
    ensures var f := DecodeFirst(b).value;
            && 1 <= f.size <= |b| && EncodeChar(f.c) == b[..f.size]
            && Decode(b[f.size..]).Some? && Decode(b).value == [f.c] + Decode(b[f.size..]).value
  {
    FirstFits(b);
    DecodeFirstIsEncoded(b);
    hide DecodeFirst, EncodeChar;
  }

  lemma {:induction false} DecodedEncodes(b: seq<byte>)
    requires Decode(b).Some?
    ensures Encode(Decode(b).value) == b
    decreases |b|
  {
    if b != [] {
      hide DecodeFirst, EncodeChar;
      DecodeStep(b);
      var rest := b[DecodeFirst(b).value.size..];
      DecodedEncodes(rest);
      DecodedEncodesStep(b, rest);
    }
  }

  lemma DecodedEncodesStep(b: seq<byte>, rest: seq<byte>)
    requires b != [] && Decode(b).Some? && DecodeFirst(b).Some? && DecodeFirst(b).value.size <= |b|
    requires rest == b[DecodeFirst(b).value.size..] && Decode(rest).Some? && Encode(Decode(rest).value) == rest
    ensures Encode(Decode(b).value) == b
  {
    hide Decode, Encode, DecodeFirst, EncodeChar;
    DecodeStep(b);
    var f := DecodeFirst(b).value;
    EncodePrepends(f.c, Decode(rest).value);
    assert b == b[..f.size] + b[f.size..];
  }

  lemma EncodePrepends(c: char, rest: string)
    ensures Encode([c] + rest) == EncodeChar(c) + Encode(rest)
  {
    hide EncodeChar;
    assert ([c] + rest)[1..] == rest;
  }

  lemma {:induction false} EncodeConcat(s: string, t: string)
    ensures Encode(s + t) == Encode(s) + Encode(t)
  {
    if s == [] {
      assert s + t == t;
    } else {
      assert (s + t)[1..] == s[1..] + t;
      EncodeConcat(s[1..], t);
    }
  }

  // ------------------------------------------------------------- boundaries

  /** The library's test for a character boundary. */
  predicate IsCharBoundary(b: seq<byte>, i: nat) {
    i == 0 || i == |b| || (i < |b| && !IsContinuation(b[i]))
  }

  /** Byte `i` of the text is where character number `k` starts, or the end. */
  ghost predicate StartsChar(s: string, i: nat, k: nat) { k <= |s| && i == |Encode(s[..k])| }

  lemma OneLead(c: char)
    ensures !IsContinuation(EncodeChar(c)[0])
    ensures forall i :: 0 < i < |EncodeChar(c)| ==> IsContinuation(EncodeChar(c)[i])
  {
  }

  /** The test finds exactly the places where a character starts. */
  lemma {:induction false} BoundariesAreCharStarts(s: string, i: nat)
    requires i <= |Encode(s)|
    ensures IsCharBoundary(Encode(s), i) <==> exists k: nat :: StartsChar(s, i, k)
  {
    if i == 0 {
      assert StartsChar(s, 0, 0);
    } else {
      var lead, rest := EncodeChar(s[0]), Encode(s[1..]);
      OneLead(s[0]);
      if i < |lead| {
        forall k: nat ensures !StartsChar(s, i, k) {
          if k > 0 && k <= |s| { assert s[..k] == [s[0]] + s[1..k]; assert s[..k][0] == s[0]; }
        }
      } else {
        BoundariesAreCharStarts(s[1..], i - |lead|);
        FirstOfRest(s[1..]);
        if IsCharBoundary(Encode(s), i) {
          var k: nat :| StartsChar(s[1..], i - |lead|, k);
          ShiftStart(s, i, k);
        } else {
          forall k: nat ensures !StartsChar(s, i, k) {
            if 0 < k <= |s| { ShiftStart(s, i, k - 1); }
          }
        }
      }
    }
  }

  lemma ShiftStart(s: string, i: nat, k: nat)
    requires k < |s| && i >= |EncodeChar(s[0])|
    ensures StartsChar(s, i, k + 1) <==> StartsChar(s[1..], i - |EncodeChar(s[0])|, k)
  {
    assert s[..k + 1][1..] == s[1..][..k] && s[..k + 1][0] == s[0];
  }

  lemma FirstOfRest(s: string)
    ensures s != [] ==> Encode(s) != [] && !IsContinuation(Encode(s)[0])
  {
    if s != [] { OneLead(s[0]); }
  }

  /** Cutting at a boundary leaves two well-formed halves. */
  lemma CutIsWellFormed(s: string, i: nat)
    requires i <= |Encode(s)| && IsCharBoundary(Encode(s), i)
    ensures WellFormed(Encode(s)[..i]) && WellFormed(Encode(s)[i..])
  {
    hide Encode, IsCharBoundary;
    BoundariesAreCharStarts(s, i);
    var k: nat :| StartsChar(s, i, k);
    assert s == s[..k] + s[k..];
    EncodeConcat(s[..k], s[k..]);
    assert Encode(s[..k]) == Encode(s)[..i] && Encode(s[k..]) == Encode(s)[i..];
  }

  /** A boundary of the rest is a boundary of the whole, further on by the first character. */
  lemma BoundaryShifts(s: string, j: nat)
    requires s != [] && j <= |Encode(s[1..])| && IsCharBoundary(Encode(s[1..]), j)
    ensures j + |EncodeChar(s[0])| <= |Encode(s)| && IsCharBoundary(Encode(s), j + |EncodeChar(s[0])|)
  {
    FirstOfRest(s[1..]);
    hide EncodeChar;
  }

  /** No character takes more than four bytes: a boundary is never further than three bytes either way. */
  lemma {:induction false} BoundaryNearby(s: string, i: nat)
    requires i < |Encode(s)|
    ensures exists j: nat :: j <= i <= j + 3 && IsCharBoundary(Encode(s), j)
    ensures exists j: nat :: i <= j <= i + 3 && j <= |Encode(s)| && IsCharBoundary(Encode(s), j)
  {
    var lead, rest := EncodeChar(s[0]), Encode(s[1..]);
    BoundaryShifts(s, 0);
    assert IsCharBoundary(Encode(s), 0);
    if i >= |lead| {
      BoundaryNearby(s[1..], i - |lead|);
      hide EncodeChar, IsCharBoundary;
      var j: nat :| j <= i - |lead| <= j + 3 && IsCharBoundary(rest, j);
      BoundaryShifts(s, j);
      var j': nat :| i - |lead| <= j' <= i - |lead| + 3 && j' <= |rest| && IsCharBoundary(rest, j');
      BoundaryShifts(s, j');
    }
  }

  /** The greatest character boundary at or before `idx`; never more than three steps back. */
  method FloorCharBoundary(b: seq<byte>, idx: nat) returns (cut: nat)
    requires WellFormed(b)
    ensures cut <= |b| && IsCharBoundary(b, cut)
    ensures idx >= |b| ==> cut == |b|
    ensures idx < |b| ==> cut <= idx <= cut + 3 && forall j :: cut < j <= idx ==> !IsCharBoundary(b, j)
    ensures WellFormed(b[..cut]) && WellFormed(b[cut..])
  {
    ghost var s :| Encode(s) == b;
    if idx >= |b| {
      CutIsWellFormed(s, |b|);
      return |b|;
    }
    cut := idx;
    while !IsCharBoundary(b, cut)
      invariant cut <= idx && forall j :: cut < j <= idx ==> !IsCharBoundary(b, j)
      decreases cut
    {
      cut := cut - 1;
    }
    BoundaryNearby(s, idx);
    CutIsWellFormed(s, cut);
  }

  /** The least character boundary at or after `idx`; never more than three steps on. */
  method CeilCharBoundary(b: seq<byte>, idx: nat) returns (cut: nat)
    requires WellFormed(b)
    ensures cut <= |b| && IsCharBoundary(b, cut)
    ensures idx >= |b| ==> cut == |b|
    ensures idx < |b| ==> idx <= cut <= idx + 3 && forall j :: idx <= j < cut ==> !IsCharBoundary(b, j)
    ensures WellFormed(b[..cut]) && WellFormed(b[cut..])
  {
    ghost var s :| Encode(s) == b;
    if idx >= |b| {
      CutIsWellFormed(s, |b|);
      return |b|;
    }
    cut := idx;
    while !IsCharBoundary(b, cut)
      invariant idx <= cut <= |b| && forall j :: idx <= j < cut ==> !IsCharBoundary(b, j)
      decreases |b| - cut
    {
      cut := cut + 1;
    }
    BoundaryNearby(s, idx);
    CutIsWellFormed(s, cut);
  }
}
