/**
The bounded scrollback: a ring of the last `cap` bytes of an unbounded log,
addressed by absolute offset.
*/
module Scrollback {
  import opened Bytes

  datatype Ring = Ring(buf: seq<byte>, start: nat, cap: nat)

  function Minus(a: nat, b: nat): nat { if a <= b then 0 else a - b }

  function Append(r: Ring, data: seq<byte>): Ring {
    if |data| >= r.cap then
      Ring(data[|data| - r.cap..], r.start + (|r.buf| + |data| - r.cap), r.cap)
    else
      var overflow := Minus(|r.buf| + |data|, r.cap);
      // A ring never holds more than its capacity, so no more is drained than is there.
      var kept := if overflow <= |r.buf| then r.buf[overflow..] else [];
      Ring(kept + data, r.start + overflow, r.cap)
  }

  function EndOffset(r: Ring): nat { r.start + |r.buf| }

  function SinceOffset(r: Ring, offset: nat): seq<byte> {
    var skip := Minus(offset, r.start);
    r.buf[if skip <= |r.buf| then skip else |r.buf|..]
  }

  /** The last `n` bytes of a log, or all of it. */
  function Tail(log: seq<byte>, n: nat): seq<byte> { if |log| <= n then log else log[|log| - n..] }

  /** The ring stands for this log: it holds its tail and counts all of it. */
  predicate StandsFor(r: Ring, log: seq<byte>) {
    r.buf == Tail(log, r.cap) && EndOffset(r) == |log|
  }

  class ScrollbackBuffer {
    var buf: seq<byte>
    var start: nat
    const cap: nat
    ghost var log: seq<byte>     // every byte ever appended

    ghost function View(): Ring
      reads this
    {
      Ring(buf, start, cap)
    }

    ghost predicate Valid()
      reads this
    {
      StandsFor(View(), log)
    }

    constructor (cap: nat)
      ensures Valid() && log == [] && this.cap == cap
    {
      buf, start, this.cap, log := [], 0, cap, [];
    }

    method Append(data: seq<byte>)
      requires Valid()
      modifies this
      ensures Valid() && log == old(log) + data
    {
      AppendStandsFor(View(), log, data);
      log := log + data;
      if |data| >= cap {
        start := start + (|buf| + |data| - cap);
        buf := data[|data| - cap..];
        return;
      }
      var overflow := Minus(|buf| + |data|, cap);
      if overflow > 0 {
        buf := buf[overflow..];
        start := start + overflow;
      }
      buf := buf + data;
    }

    /** One past the last byte ever appended. */
    method EndOffset() returns (end: nat)
      requires Valid()
      ensures end == |log|
    {
      end := start + |buf|;
    }

    method Snapshot() returns (s: seq<byte>)
      requires Valid()
      ensures s == Tail(log, cap)
    {
      s := buf;
    }

    /** Everything from the offset on, or from the oldest byte retained if that is later. */
    method Since(offset: nat) returns (s: seq<byte>)
      requires Valid()
      ensures var oldest := if |log| <= cap then 0 else |log| - cap;
              var from := if offset < oldest then oldest else offset;
              s == if from <= |log| then log[from..] else []
    {
      SinceReadsTheLog(View(), log, offset);
      var skip := Minus(offset, start);
      s := buf[if skip <= |buf| then skip else |buf|..];
    }
  }

  lemma SuffixOfConcat(log: seq<byte>, data: seq<byte>, from: nat)
    requires from <= |log + data|
    ensures (log + data)[from..] == if from <= |log| then log[from..] + data else data[from - |log|..]
  {
  }

  lemma SuffixOfSuffix(log: seq<byte>, a: nat, b: nat)
    requires a <= b <= |log|
    ensures log[a..][b - a..] == log[b..]
  {
  }

  /** One append keeps the ring standing for the log. */
  lemma AppendStandsFor(r: Ring, log: seq<byte>, data: seq<byte>)
    requires StandsFor(r, log)
    ensures StandsFor(Append(r, data), log + data)
    ensures |data| < r.cap ==> Minus(|r.buf| + |data|, r.cap) <= |r.buf|
  {
    if |data| < r.cap { AppendSmall(r, log, data); } else { AppendLarge(r, log, data); }
  }

  lemma AppendSmall(r: Ring, log: seq<byte>, data: seq<byte>)
    requires StandsFor(r, log) && |data| < r.cap
    ensures StandsFor(Append(r, data), log + data)
    ensures Minus(|r.buf| + |data|, r.cap) <= |r.buf|
  {
    var oldest, from := Minus(|log|, r.cap), Minus(|log + data|, r.cap);
    SuffixOfConcat(log, data, from);
    SuffixOfSuffix(log, oldest, from);
    assert Append(r, data) == Ring(log[from..] + data, r.start + (from - oldest), r.cap);
  }

  lemma AppendLarge(r: Ring, log: seq<byte>, data: seq<byte>)
    requires StandsFor(r, log) && |data| >= r.cap
    ensures StandsFor(Append(r, data), log + data)
  {
    SuffixOfConcat(log, data, |log + data| - r.cap);
    assert Append(r, data).buf == data[|data| - r.cap..];
    if |data| == r.cap { assert log[|log|..] + data == data; }
  }

  lemma SinceReadsTheLog(r: Ring, log: seq<byte>, offset: nat)
    requires StandsFor(r, log)
    ensures var oldest := Minus(|log|, r.cap);
            var from := if offset < oldest then oldest else offset;
            SinceOffset(r, offset) == if from <= |log| then log[from..] else []
  {
    var oldest := Minus(|log|, r.cap);
    assert r.start == oldest;
    var from := if offset < oldest then oldest else offset;
    if from <= |log| { assert log[oldest..][from - oldest..] == log[from..]; }
  }

  // ------------------------------------------------------ a polling reader

  function Concat(chunks: seq<seq<byte>>): seq<byte> {
    if chunks == [] then [] else Concat(chunks[..|chunks| - 1]) + chunks[|chunks| - 1]
  }

  function AppendAll(r: Ring, chunks: seq<seq<byte>>): Ring {
    if chunks == [] then r else Append(AppendAll(r, chunks[..|chunks| - 1]), chunks[|chunks| - 1])
  }

  /** The reader's offset, what it has put together, and the ring it reads. */
  datatype Reader = Reader(ring: Ring, offset: nat, got: seq<byte>)

  /** Between polls a burst of chunks arrives; a poll reads since the last end offset. */
  function Poll(rd: Reader, burst: seq<seq<byte>>): Reader {
    var ring := AppendAll(rd.ring, burst);
    Reader(ring, EndOffset(ring), rd.got + SinceOffset(ring, rd.offset))
  }

  function PollAll(cap: nat, bursts: seq<seq<seq<byte>>>): Reader {
    if bursts == [] then Reader(Ring([], 0, cap), 0, [])
    else Poll(PollAll(cap, bursts[..|bursts| - 1]), bursts[|bursts| - 1])
  }

  function Everything(bursts: seq<seq<seq<byte>>>): seq<byte> {
    if bursts == [] then [] else Everything(bursts[..|bursts| - 1]) + Concat(bursts[|bursts| - 1])
  }

  lemma {:induction false} AppendAllStandsFor(r: Ring, log: seq<byte>, chunks: seq<seq<byte>>)
    requires StandsFor(r, log)
    ensures StandsFor(AppendAll(r, chunks), log + Concat(chunks)) && AppendAll(r, chunks).cap == r.cap
  {
    if chunks == [] {
      assert log + [] == log;
    } else {
      var n := |chunks| - 1;
      AppendAllStandsFor(r, log, chunks[..n]);
      AppendStandsFor(AppendAll(r, chunks[..n]), log + Concat(chunks[..n]), chunks[n]);
      assert log + Concat(chunks[..n]) + chunks[n] == log + Concat(chunks);
    }
  }

  predicate Fits(cap: nat, bursts: seq<seq<seq<byte>>>) {
    forall k :: 0 <= k < |bursts| ==> |Concat(bursts[k])| <= cap
  }

  /** A poll gets exactly the tail of what arrived since the last one. */
  lemma {:induction false} PollGetsTheTail(rd: Reader, log: seq<byte>, burst: seq<seq<byte>>)
    requires StandsFor(rd.ring, log) && rd.offset == |log|
    ensures var rd' := Poll(rd, burst);
            && StandsFor(rd'.ring, log + Concat(burst)) && rd'.offset == |log + Concat(burst)|
            && rd'.ring.cap == rd.ring.cap
            && rd'.got == rd.got + Tail(Concat(burst), rd.ring.cap)
  {
    hide AppendAll, Concat, SinceOffset, Tail;
    AppendAllStandsFor(rd.ring, log, burst);
    SinceLastEnd(AppendAll(rd.ring, burst), log, Concat(burst));
  }

  lemma SinceLastEnd(r: Ring, log: seq<byte>, more: seq<byte>)
    requires StandsFor(r, log + more)
    ensures SinceOffset(r, |log|) == Tail(more, r.cap)
  {
    SinceReadsTheLog(r, log + more, |log|);
    hide SinceOffset, StandsFor;
    var oldest := Minus(|log + more|, r.cap);
    SuffixOfConcat(log, more, if |log| < oldest then oldest else |log|);
    if oldest <= |log| { assert log[|log|..] + more == more[0..]; }
  }

  lemma FitsAppend(cap: nat, bursts: seq<seq<seq<byte>>>)
    requires bursts != []
    ensures var n := |bursts| - 1;
            Fits(cap, bursts) <==> Fits(cap, bursts[..n]) && |Concat(bursts[n])| <= cap
  {
    hide Concat;
    assert forall k :: 0 <= k < |bursts| - 1 ==> bursts[..|bursts| - 1][k] == bursts[k];
  }

  /** What one more burst does to what the reader has put together. */
  lemma GotGrows(got: seq<byte>, log: seq<byte>, more: seq<byte>, cap: nat)
    requires |got| <= |log|
    ensures var now := got + Tail(more, cap);
            && |now| <= |log + more|
            && (|now| == |log + more| <==> |got| == |log| && |more| <= cap)
            && (got == log && |more| <= cap ==> now == log + more)
  {
  }

  lemma {:induction false} PollsStandFor(cap: nat, bursts: seq<seq<seq<byte>>>)
    ensures var rd := PollAll(cap, bursts);
            && StandsFor(rd.ring, Everything(bursts)) && rd.offset == |Everything(bursts)| && rd.ring.cap == cap
            && |rd.got| <= |Everything(bursts)|
            && (|rd.got| == |Everything(bursts)| <==> Fits(cap, bursts))
            && (Fits(cap, bursts) ==> rd.got == Everything(bursts))
  {
    if bursts != [] {
      hide StandsFor, Poll, Concat, Tail, Fits;
      var n := |bursts| - 1;
      var rd := PollAll(cap, bursts[..n]);
      PollsStandFor(cap, bursts[..n]);
      PollGetsTheTail(rd, Everything(bursts[..n]), bursts[n]);
      FitsAppend(cap, bursts);
      GotGrows(rd.got, Everything(bursts[..n]), Concat(bursts[n]), cap);
    }
  }

  /**
  A reader that polls from its last end offset rebuilds the whole log if and only
  if at most `cap` bytes arrive between any two polls, whatever the chunking.
  */
  lemma {:induction false} ReaderRebuildsTheLog(cap: nat, bursts: seq<seq<seq<byte>>>)
    ensures PollAll(cap, bursts).got == Everything(bursts) <==> Fits(cap, bursts)
    ensures PollAll(cap, bursts).offset == |Everything(bursts)|
    ensures PollAll(cap, bursts).ring.buf == Tail(Everything(bursts), cap)
  {
    PollsStandFor(cap, bursts);
  }
}
