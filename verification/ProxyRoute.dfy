/**
Stateless proxy routing: the real upstream travels in the first path segment,
hex-encoded (section 8 of RFC 4648, lower case), and is read back from it.
*/
module ProxyRoute {
  import opened Options
  import opened Bytes
  import opened Utf8
  import opened Whitespace

  // ------------------------------------------------------------------- hex

  function HexDigit(n: nat): char
    requires n < 16
  {
    if n < 10 then ('0' as int + n) as char else ('a' as int + n - 10) as char
  }

  /** The value of a hex digit, either case. */
  function DigitValue(b: byte): Option<nat> {
    if '0' as int <= b <= '9' as int then Some(b - '0' as int)
    else if 'a' as int <= b <= 'f' as int then Some(b - 'a' as int + 10)
    else if 'A' as int <= b <= 'F' as int then Some(b - 'A' as int + 10)
    else None
  }

  function HexEncode(bytes: seq<byte>): string {
    if bytes == [] then []
    else
      var n := |bytes| - 1;
      HexEncode(bytes[..n]) + [HexDigit(bytes[n] / 16), HexDigit(bytes[n] % 16)]
  }

  /** The bytes a run of digit pairs spells, if it is one. */
  function HexBytes(b: seq<byte>): Option<seq<byte>> {
    if b == [] then Some([])
    else if |b| == 1 then None
    else
      var n := |b| - 2;
      var hi, lo := DigitValue(b[n]), DigitValue(b[n + 1]);
      match HexBytes(b[..n])
      case None => None
      case Some(front) => if hi.Some? && lo.Some? then Some(front + [PairValue(hi.value, lo.value)]) else None
  }

  function PairValue(hi: nat, lo: nat): byte {
    if hi < 16 && lo < 16 then hi * 16 + lo else 0
  }

  function HexDecode(s: string): Option<string> {
    if s == [] then None
    else
      match HexBytes(Encode(s))
      case None => None
      case Some(out) => Decode(out)
  }

  method EncodeHex(bytes: seq<byte>) returns (s: string)
    ensures s == HexEncode(bytes)
  {
    s := [];
    for i := 0 to |bytes|
      invariant s == HexEncode(bytes[..i])
    {
      assert bytes[..i + 1][..i] == bytes[..i];
      s := s + [HexDigit(bytes[i] / 16)];
      s := s + [HexDigit(bytes[i] % 16)];
    }
    assert bytes[..|bytes|] == bytes;
  }

  lemma {:induction false} BadPrefix(b: seq<byte>, i: nat)
    requires i <= |b| && |b| % 2 == 0 && i % 2 == 0 && HexBytes(b[..i]) == None
    ensures HexBytes(b) == None
    decreases |b|
  {
    if i == |b| {
      assert b[..i] == b;
    } else {
      assert b[..|b| - 2][..i] == b[..i];
      BadPrefix(b[..|b| - 2], i);
    }
  }

  lemma {:induction false} OddIsNotHex(b: seq<byte>)
    requires |b| % 2 == 1
    ensures HexBytes(b) == None
    decreases |b|
  {
    if |b| > 1 { OddIsNotHex(b[..|b| - 2]); }
  }

  lemma PrefixPair(b: seq<byte>, i: nat)
    requires i + 2 <= |b|
    ensures HexBytes(b[..i + 2]) ==
            if HexBytes(b[..i]).Some? && DigitValue(b[i]).Some? && DigitValue(b[i + 1]).Some?
            then Some(HexBytes(b[..i]).value + [PairValue(DigitValue(b[i]).value, DigitValue(b[i + 1]).value)])
            else None
  {
    hide HexBytes, DigitValue, PairValue;
    assert b[..i + 2] == b[..i] + [b[i], b[i + 1]];
    HexBytesPair(b[..i], b[i], b[i + 1]);
  }

  lemma NoDigits()
    ensures HexBytes([]) == Some([])
  {
  }

  lemma RefusedEarly(b: seq<byte>, i: nat)
    requires i + 2 <= |b| && |b| % 2 == 0 && i % 2 == 0 && (DigitValue(b[i]).None? || DigitValue(b[i + 1]).None?)
    ensures HexBytes(b) == None
  {
    hide HexBytes, DigitValue, PairValue;
    PrefixPair(b, i);
    BadPrefix(b, i + 2);
  }

  method DecodeHex(s: string) returns (r: Option<string>)
    ensures r == HexDecode(s)
  {
    hide Encode, Decode, HexBytes, DigitValue, PairValue;
    var bytes := Encode(s);
    if s == [] || |bytes| % 2 != 0 {
      if s != [] { OddIsNotHex(bytes); }
      return None;
    }
    NoDigits();
    var out: seq<byte> := [];
    var i := 0;
    while i < |bytes|
      invariant 0 <= i <= |bytes| && i % 2 == 0
      invariant HexBytes(bytes[..i]) == Some(out)
    {
      var hi, lo := DigitValue(bytes[i]), DigitValue(bytes[i + 1]);
      if hi == None || lo == None {
        RefusedEarly(bytes, i);
        return None;
      }
      PrefixPair(bytes, i);
      out := out + [PairValue(hi.value, lo.value)];
      i := i + 2;
    }
    assert bytes[..i] == bytes;
    return Decode(out);
  }

  // --------------------------------------------------- hex, both directions

  /** The digits: these sixteen, and the capitals of the last six. */
  lemma DigitsAreExact(b: byte, n: nat)
    requires n < 16
    ensures HexDigit(n) == "0123456789abcdef"[n]
    ensures DigitValue(b) == Some(n) <==> b == "0123456789abcdef"[n] as int || b == "0123456789ABCDEF"[n] as int
    ensures DigitValue(b).Some? ==> DigitValue(b).value < 16
  {
  }

  /** Each byte becomes two digits, the high one first. */
  lemma {:induction false} HexTextIsExact(bytes: seq<byte>, k: nat)
    requires k < |bytes|
    ensures var text := HexEncode(bytes);
            && |text| == 2 * |bytes|
            && text[2 * k] == "0123456789abcdef"[bytes[k] / 16] && text[2 * k + 1] == "0123456789abcdef"[bytes[k] % 16]
  {
    var n := |bytes| - 1;
    HexIsAscii(bytes);
    HexIsAscii(bytes[..n]);
    if k < n {
      HexTextIsExact(bytes[..n], k);
    } else {
      DigitsAreExact(0, bytes[n] / 16);
      DigitsAreExact(0, bytes[n] % 16);
    }
  }

  predicate IsAscii(s: string) { forall i :: 0 <= i < |s| ==> s[i] as int < 0x80 }

  function Codes(s: string): seq<byte>
    requires IsAscii(s)
  {
    if s == [] then [] else Codes(s[..|s| - 1]) + [s[|s| - 1] as int]
  }

  lemma {:induction false} AsciiEncodesToCodes(s: string)
    requires IsAscii(s)
    ensures Encode(s) == Codes(s)
  {
    if s != [] {
      var n := |s| - 1;
      AsciiEncodesToCodes(s[..n]);
      assert s == s[..n] + [s[n]];
      EncodeConcat(s[..n], [s[n]]);
      assert Encode([s[n]]) == [s[n] as int] by { assert [s[n]][1..] == []; }
    }
  }

  lemma HexDigitValue(n: nat)
    requires n < 16
    ensures HexDigit(n) as int < 0x80 && DigitValue(HexDigit(n) as int) == Some(n) && HexDigit(n) != '/'
  {
  }

  lemma {:induction false} HexIsAscii(bytes: seq<byte>)
    ensures IsAscii(HexEncode(bytes)) && |HexEncode(bytes)| == 2 * |bytes| && '/' !in HexEncode(bytes)
  {
    if bytes != [] {
      var n := |bytes| - 1;
      HexIsAscii(bytes[..n]);
      HexDigitValue(bytes[n] / 16);
      HexDigitValue(bytes[n] % 16);
    }
  }

  lemma CodesSnoc(s: string, c: char)
    requires IsAscii(s) && c as int < 0x80
    ensures IsAscii(s + [c]) && Codes(s + [c]) == Codes(s) + [c as int]
  {
    assert (s + [c])[..|s|] == s;
  }

  lemma CodesPair(s: string, hi: char, lo: char)
    requires IsAscii(s) && hi as int < 0x80 && lo as int < 0x80
    ensures IsAscii(s + [hi, lo]) && Codes(s + [hi, lo]) == Codes(s) + [hi as int, lo as int]
  {
    hide Codes, IsAscii;
    CodesSnoc(s, hi);
    CodesSnoc(s + [hi], lo);
    assert s + [hi, lo] == s + [hi] + [lo];
  }

  lemma HexBytesPair(b: seq<byte>, hi: byte, lo: byte)
    ensures HexBytes(b + [hi, lo]) ==
            if HexBytes(b).Some? && DigitValue(hi).Some? && DigitValue(lo).Some?
            then Some(HexBytes(b).value + [PairValue(DigitValue(hi).value, DigitValue(lo).value)])
            else None
  {
    hide DigitValue, PairValue;
    var whole := b + [hi, lo];
    assert whole[..|whole| - 2] == b && whole[|b|] == hi && whole[|b| + 1] == lo;
  }

  lemma LowerPair(b: seq<byte>, hi: byte, lo: byte)
    ensures LowerCodes(b + [hi, lo]) == LowerCodes(b) + [LowerCode(hi), LowerCode(lo)]
  {
    hide LowerCode;
    assert (b + [hi, lo])[..|b| + 1] == b + [hi];
    assert (b + [hi])[..|b|] == b;
  }

  lemma EncodeOneMore(bytes: seq<byte>, x: byte)
    ensures HexEncode(bytes + [x]) == HexEncode(bytes) + [HexDigit(x / 16), HexDigit(x % 16)]
  {
    hide HexDigit;
    assert (bytes + [x])[..|bytes|] == bytes;
  }

  /** Decoding the digits gives the bytes back. */
  lemma {:induction false} HexBytesUndo(bytes: seq<byte>)
    ensures IsAscii(HexEncode(bytes)) && HexBytes(Codes(HexEncode(bytes))) == Some(bytes)
  {
    if bytes != [] {
      hide HexEncode, HexBytes, Codes, DigitValue, HexDigit;
      var n := |bytes| - 1;
      var front, x := bytes[..n], bytes[n];
      HexBytesUndo(front);
      HexDigitValue(x / 16);
      HexDigitValue(x % 16);
      EncodeOneMore(front, x);
      CodesPair(HexEncode(front), HexDigit(x / 16), HexDigit(x % 16));
      HexBytesPair(Codes(HexEncode(front)), HexDigit(x / 16) as int, HexDigit(x % 16) as int);
      assert bytes == front + [x];
    }
  }

  lemma {:induction false} CodesLength(s: string)
    requires IsAscii(s)
    ensures |Codes(s)| == |s|
  {
    if s != [] { CodesLength(s[..|s| - 1]); }
  }

  /** The round trip, for every non-empty text. */
  lemma {:induction false} HexRoundTrip(text: string)
    requires text != []
    ensures HexDecode(HexEncode(Encode(text))) == Some(text)
  {
    var bytes := Encode(text);
    HexBytesUndo(bytes);
    HexIsAscii(bytes);
    AsciiEncodesToCodes(HexEncode(bytes));
    DecodeEncode(text);
    assert HexEncode(bytes) != [] by { assert bytes != []; }
  }

  /** Lower-case the hex letters of a byte. */
  function LowerCode(b: byte): byte { if 'A' as int <= b <= 'F' as int then b + 32 else b }

  function LowerCodes(b: seq<byte>): seq<byte> {
    if b == [] then [] else LowerCodes(b[..|b| - 1]) + [LowerCode(b[|b| - 1])]
  }

  lemma DigitIsLowered(b: byte)
    ensures DigitValue(b).Some? ==> DigitValue(b).value < 16 && HexDigit(DigitValue(b).value) as int == LowerCode(b)
  {
  }

  /** Lower-cased, the bytes `b` are the encoding of `bytes`. */
  predicate Spells(b: seq<byte>, bytes: seq<byte>) {
    IsAscii(HexEncode(bytes)) && Codes(HexEncode(bytes)) == LowerCodes(b)
  }

  lemma SpellsPair(b: seq<byte>, bytes: seq<byte>, hi: byte, lo: byte)
    requires Spells(b, bytes) && DigitValue(hi).Some? && DigitValue(lo).Some?
    ensures Spells(b + [hi, lo], bytes + [PairValue(DigitValue(hi).value, DigitValue(lo).value)])
  {
    DigitIsLowered(hi);
    DigitIsLowered(lo);
    LowerCodeIsAscii(hi);
    LowerCodeIsAscii(lo);
    var x := PairValue(DigitValue(hi).value, DigitValue(lo).value);
    assert x / 16 == DigitValue(hi).value && x % 16 == DigitValue(lo).value;
    hide HexEncode, Codes, LowerCodes, DigitValue, HexDigit, LowerCode, PairValue, IsAscii;
    LowerPair(b, hi, lo);
    EncodeOneMore(bytes, x);
    CodesPair(HexEncode(bytes), HexDigit(x / 16), HexDigit(x % 16));
  }

  lemma {:induction false} BytesSpell(b: seq<byte>)
    ensures HexBytes(b).Some? ==> Spells(b, HexBytes(b).value)
    decreases |b|
  {
    if |b| >= 2 {
      hide Spells, HexBytes, DigitValue, PairValue;
      var front, hi, lo := b[..|b| - 2], b[|b| - 2], b[|b| - 1];
      BytesSpell(front);
      HexBytesPair(front, hi, lo);
      assert b == front + [hi, lo];
      if HexBytes(b).Some? {
        SpellsPair(front, HexBytes(front).value, hi, lo);
      }
    }
  }

  lemma LowerCodeIsAscii(b: byte)
    ensures DigitValue(b).Some? ==> LowerCode(b) < 0x80
  {
  }

  /** One more byte: the last two digits spell it and the ones before spell the rest. */
  lemma SpellsLess(b: seq<byte>, p: byte, q: byte, front: seq<byte>, x: byte)
    requires Spells(b + [p, q], front + [x]) && |b| == 2 * |front|
    ensures Spells(b, front) && DigitValue(p) == Some(x / 16) && DigitValue(q) == Some(x % 16)
  {
    HexDigitValue(x / 16);
    HexDigitValue(x % 16);
    EncodeOneMore(front, x);
    HexIsAscii(front);
    LowerPair(b, p, q);
    LowerLength(b);
    CodesLength(HexEncode(front));
    CodesPair(HexEncode(front), HexDigit(x / 16), HexDigit(x % 16));
    hide HexEncode, Codes, LowerCodes, DigitValue, HexDigit, LowerCode, IsAscii;
    SplitEqual(LowerCodes(b), LowerCode(p), LowerCode(q),
               Codes(HexEncode(front)), HexDigit(x / 16) as int, HexDigit(x % 16) as int);
    LoweredDigit(p, x / 16);
    LoweredDigit(q, x % 16);
  }

  lemma SpellsLength(b: seq<byte>, bytes: seq<byte>)
    requires Spells(b, bytes)
    ensures |b| == 2 * |bytes|
  {
    HexIsAscii(bytes);
    CodesLength(HexEncode(bytes));
    LowerLength(b);
  }

  lemma {:induction false} LowerSpells(b: seq<byte>, bytes: seq<byte>)
    requires Spells(b, bytes)
    ensures HexBytes(b) == Some(bytes)
    decreases |b|
  {
    SpellsLength(b, bytes);
    if b != [] {
      hide Spells, HexBytes, DigitValue;
      var m, n := |b| - 2, |bytes| - 1;
      var front, x := bytes[..n], bytes[n];
      assert bytes == front + [x] && b == b[..m] + [b[m], b[m + 1]];
      SpellsLess(b[..m], b[m], b[m + 1], front, x);
      LowerSpells(b[..m], front);
      HexBytesPair(b[..m], b[m], b[m + 1]);
    }
  }

  lemma SplitEqual(a: seq<byte>, p: byte, q: byte, b: seq<byte>, x: byte, y: byte)
    requires |a| == |b| && a + [p, q] == b + [x, y]
    ensures a == b && p == x && q == y
  {
    assert a == (a + [p, q])[..|a|] == b;
    assert (a + [p, q])[|a|] == p && (b + [x, y])[|a|] == x;
    assert (a + [p, q])[|a| + 1] == q && (b + [x, y])[|a| + 1] == y;
  }

  lemma {:induction false} LowerLength(b: seq<byte>)
    ensures |LowerCodes(b)| == |b|
  {
    if b != [] { LowerLength(b[..|b| - 1]); }
  }

  lemma LoweredDigit(b: byte, n: nat)
    requires n < 16 && LowerCode(b) == HexDigit(n) as int
    ensures DigitValue(b) == Some(n)
  {
  }

  /**
  A segment decodes to a text exactly when, lower-cased, it is that text's
  encoding: an odd length, a non-digit or bytes that are not UTF-8 are refused.
  */
  lemma {:induction false} HexDecodeIsExact(s: string, text: string)
    ensures HexDecode(s) == Some(text) <==> text != [] && Spells(Encode(s), Encode(text))
  {
    var b := Encode(s);
    BytesSpell(b);
    if text != [] && Spells(b, Encode(text)) {
      LowerSpells(b, Encode(text));
      SpellsLength(b, Encode(text));
      DecodeEncode(text);
    }
    if HexDecode(s) == Some(text) {
      DecodedEncodes(HexBytes(b).value);
      assert b != [];
      NonEmptyBytes(b);
    }
  }

  lemma NonEmptyBytes(b: seq<byte>)
    requires b != []
    ensures HexBytes(b).Some? ==> HexBytes(b).value != []
  {
  }

  // --------------------------------------------------------------- routing

  predicate AllSlashes(s: string) { forall i :: 0 <= i < |s| ==> s[i] == '/' }

  function TrimStartSlashes(s: string): (r: string)
    ensures |r| <= |s| && r == s[|s| - |r|..] && AllSlashes(s[..|s| - |r|])
    ensures r != [] ==> r[0] != '/'
  {
    if s != [] && s[0] == '/' then TrimStartSlashes(s[1..]) else s
  }

  function TrimEndSlashes(s: string): (r: string)
    ensures r <= s && AllSlashes(s[|r|..])
    ensures r != [] ==> r[|r| - 1] != '/'
  {
    if s != [] && s[|s| - 1] == '/' then TrimEndSlashes(s[..|s| - 1]) else s
  }

  /** Up to the first slash, and after it. */
  function SplitOnce(s: string): (string, string) {
    if s == [] then ([], [])
    else if s[0] == '/' then ([], s[1..])
    else
      var (seg, rest) := SplitOnce(s[1..]);
      ([s[0]] + seg, rest)
  }

  /** The base URL an agent is given: none, through the proxy, or direct when the proxy is down. */
  function ResolveBaseUrl(configured: Option<string>, proxy: Option<string>): Option<string> {
    match configured
    case None => None
    case Some(c) =>
      var base := Trim(c);
      if base == [] then None
      else
        match proxy
        case Some(addr) => Some("http://" + addr + "/" + HexEncode(Encode(base)))
        case None => Some(base)
  }

  /** The path and query of a plain http URL. */
  function RequestPath(url: string): string {
    var after := if "http://" <= url then url[7..] else url;
    var (authority, rest) := SplitOnce(after);
    "/" + rest
  }

  /** Where a request is forwarded, or None for a bad-gateway answer. */
  function ForwardTarget(pathAndQuery: string): Option<string> {
    var (seg, rest) := SplitOnce(TrimStartSlashes(pathAndQuery));
    match HexDecode(seg)
    case None => None
    case Some(upstream) => Some(TrimEndSlashes(upstream) + "/" + rest)
  }

  lemma {:induction false} SplitAtSlash(seg: string, rest: string)
    requires '/' !in seg
    ensures SplitOnce(seg + "/" + rest) == (seg, rest)
    ensures SplitOnce(seg) == (seg, [])
  {
    if seg == [] {
      assert seg + "/" + rest == "/" + rest;
    } else {
      SplitAtSlash(seg[1..], rest);
      assert (seg + "/" + rest)[1..] == seg[1..] + "/" + rest;
      assert [seg[0]] + seg[1..] == seg;
    }
  }

  lemma PathAfterAuthority(addr: string, path: string)
    requires '/' !in addr
    ensures RequestPath("http://" + addr + "/" + path) == "/" + path
  {
    var url := "http://" + addr + "/" + path;
    assert url[..7] == "http://" && url[7..] == addr + "/" + path;
    SplitAtSlash(addr, path);
  }

  lemma PathDecodes(base: string, suffix: string)
    requires base != []
    ensures ForwardTarget("/" + (HexEncode(Encode(base)) + "/" + suffix)) == Some(TrimEndSlashes(base) + "/" + suffix)
  {
    var hex := HexEncode(Encode(base));
    HexIsAscii(Encode(base));
    HexRoundTrip(base);
    hide HexEncode, Encode, HexDecode;
    NonEmptyHex(base);
    assert hex[0] in hex;
    SkipOneSlash(hex + "/" + suffix);
    SplitAtSlash(hex, suffix);
  }

  lemma NonEmptyHex(base: string)
    requires base != []
    ensures HexEncode(Encode(base)) != []
  {
    HexRoundTrip(base);
  }

  lemma SkipOneSlash(s: string)
    requires s != [] && s[0] != '/'
    ensures TrimStartSlashes("/" + s) == s
  {
    assert ("/" + s)[1..] == s;
  }

  lemma TrailingSlashes(core: string, tail: string)
    requires AllSlashes(tail) && (core != [] ==> core[|core| - 1] != '/')
    ensures TrimEndSlashes(core + tail) == core
  {
    hide TrimEndSlashes;
    var s := core + tail;
    var r := TrimEndSlashes(s);
    assert r == s[..|core|];
  }

  lemma LeadingSlashes(lead: string, core: string)
    requires AllSlashes(lead) && (core != [] ==> core[0] != '/')
    ensures TrimStartSlashes(lead + core) == core
  {
    hide TrimStartSlashes;
    var s := lead + core;
    var r := TrimStartSlashes(s);
    assert r == s[|lead|..];
  }

  /**
  A request on any path goes to the upstream its first segment spells, slashes
  at the end of that upstream dropped, one slash, and everything after the
  segment; when the segment spells nothing it is answered as a bad gateway.
  */
  lemma ForwardIsExact(lead: string, seg: string, rest: string, core: string, tail: string)
    requires AllSlashes(lead) && '/' !in seg
    requires AllSlashes(tail) && (core != [] ==> core[|core| - 1] != '/')
    ensures HexDecode(seg) == None ==> ForwardTarget(lead + seg) == None
    ensures HexDecode(seg) == Some(core + tail) ==> ForwardTarget(lead + seg) == Some(core + "/")
    ensures seg != [] && HexDecode(seg) == None ==> ForwardTarget(lead + (seg + "/" + rest)) == None
    ensures seg != [] && HexDecode(seg) == Some(core + tail) ==>
              ForwardTarget(lead + (seg + "/" + rest)) == Some(core + "/" + rest)
  {
    hide HexDecode, TrimEndSlashes, TrimStartSlashes, SplitOnce;
    if seg != [] { assert seg[0] in seg; }
    LeadingSlashes(lead, seg);
    SplitAtSlash(seg, rest);
    TrailingSlashes(core, tail);
    assert core + "/" + [] == core + "/";
    if seg != [] {
      LeadingSlashes(lead, seg + "/" + rest);
    }
  }

  /**
  The round trip of a request. With a base URL configured, space around it and
  slashes at its end or not, a request made on the proxied URL is forwarded to
  that base, plus the same suffix; without a proxy the trimmed base is used as
  it is; and nothing is set when none, or only space, is configured.
  */
  lemma RoutesBack(front: string, core: string, tail: string, back: string, addr: string, suffix: string, proxy: Option<string>)
    requires AllSpace(front) && AllSpace(back) && AllSlashes(tail) && (core != [] ==> core[|core| - 1] != '/')
    requires var base := core + tail; base != [] && !IsSpace(base[0]) && !IsSpace(base[|base| - 1])
    requires '/' !in addr
    ensures var configured := Some(front + (core + tail) + back);
            && ResolveBaseUrl(configured, None) == Some(core + tail)
            && (var url := ResolveBaseUrl(configured, Some(addr));
                && url == Some("http://" + addr + "/" + HexEncode(Encode(core + tail)))
                && ForwardTarget(RequestPath(url.value + "/" + suffix)) == Some(core + "/" + suffix))
    ensures ResolveBaseUrl(None, proxy) == None && ResolveBaseUrl(Some(front), proxy) == None
  {
    var base := core + tail;
    var hex := HexEncode(Encode(base));
    hide HexEncode, Encode, ForwardTarget, RequestPath, Trim, TrimEndSlashes, IsSpace;
    TrimIsTheCore(front, base, back);
    TrimIsTheCore(front, [], []);
    assert front + [] + [] == front;
    TrailingSlashes(core, tail);
    PathAfterAuthority(addr, hex + "/" + suffix);
    PathDecodes(base, suffix);
    assert "http://" + addr + "/" + hex + "/" + suffix == "http://" + addr + "/" + (hex + "/" + suffix);
  }
}
