/** Trimming and parsing of small text files, with Unicode's White_Space set. */
module Whitespace {
  import opened Options

  predicate IsSpace(c: char) {
    || '\U{0009}' <= c <= '\U{000D}'
    || c == '\U{0020}' || c == '\U{0085}' || c == '\U{00A0}' || c == '\U{1680}'
    || '\U{2000}' <= c <= '\U{200A}'
    || c == '\U{2028}' || c == '\U{2029}' || c == '\U{202F}' || c == '\U{205F}' || c == '\U{3000}'
  }

  function TrimEnd(s: string): (r: string)
    ensures r <= s
    ensures forall i :: |r| <= i < |s| ==> IsSpace(s[i])
    ensures r != [] ==> !IsSpace(r[|r| - 1])
  {
    if s != [] && IsSpace(s[|s| - 1]) then TrimEnd(s[..|s| - 1]) else s
  }

  function TrimStart(s: string): string {
    if s != [] && IsSpace(s[0]) then TrimStart(s[1..]) else s
  }

  function Trim(s: string): string { TrimStart(TrimEnd(s)) }

  predicate AllSpace(s: string) { forall i :: 0 <= i < |s| ==> IsSpace(s[i]) }

  lemma EndIsTrimmed(core: string, back: string)
    requires AllSpace(back) && (core != [] ==> !IsSpace(core[|core| - 1]))
    ensures TrimEnd(core + back) == core
  {
    hide IsSpace, TrimEnd;
    var s := core + back;
    var r := TrimEnd(s);
    assert r == s[..|core|];
  }

  lemma {:induction false} StartIsTrimmed(front: string, core: string)
    requires AllSpace(front) && (core != [] ==> !IsSpace(core[0]))
    ensures TrimStart(front + core) == core
  {
    hide IsSpace;
    if front == [] {
      assert front + core == core;
    } else {
      StartIsTrimmed(front[1..], core);
      assert (front + core)[1..] == front[1..] + core;
    }
  }

  /** Trimming takes the space around a text and nothing of the text. */
  lemma TrimIsTheCore(front: string, core: string, back: string)
    requires AllSpace(front) && AllSpace(back)
    requires core != [] ==> !IsSpace(core[0]) && !IsSpace(core[|core| - 1])
    ensures Trim(front + core + back) == core
  {
    hide IsSpace, TrimEnd, TrimStart;
    if core == [] {
      assert front + core + back == core + (front + back);
      EndIsTrimmed(core, front + back);
      StartIsTrimmed(core, core);
      assert core + core == core;
    } else {
      EndIsTrimmed(front + core, back);
      StartIsTrimmed(front, core);
    }
  }

  predicate IsDigit(c: char) { '0' <= c <= '9' }

  predicate AllDigits(s: string) { forall i :: 0 <= i < |s| ==> IsDigit(s[i]) }

  function DigitsValue(s: string): nat
    requires AllDigits(s)
  {
    if s == [] then 0 else 10 * DigitsValue(s[..|s| - 1]) + (s[|s| - 1] as int - '0' as int)
  }

  /** An unsigned number below `bound`: an optional plus sign, then at least one digit. */
  function ParseUnsigned(s: string, bound: nat): Option<nat> {
    var digits := if s != [] && s[0] == '+' then s[1..] else s;
    if digits != [] && AllDigits(digits) && DigitsValue(digits) < bound then Some(DigitsValue(digits)) else None
  }
}
