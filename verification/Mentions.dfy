/** The participants a user's message summons with `@slug`. */
module Mentions {
  import opened Options

  predicate IsAlnum(c: char) { '0' <= c <= '9' || 'a' <= c <= 'z' || 'A' <= c <= 'Z' }

  predicate IsSlugChar(c: char) { IsAlnum(c) || c == '-' }

  function LowerChar(c: char): char { if 'A' <= c <= 'Z' then (c as int + 32) as char else c }

  function Lower(s: string): (r: string)
    ensures |r| == |s| && forall i :: 0 <= i < |s| ==> r[i] == LowerChar(s[i])
  {
    if s == [] then [] else Lower(s[..|s| - 1]) + [LowerChar(s[|s| - 1])]
  }

  function TrimDashes(s: string): (r: string)
    ensures r <= s && (forall i :: |r| <= i < |s| ==> s[i] == '-') && (r != [] ==> r[|r| - 1] != '-')
  {
    if s != [] && s[|s| - 1] == '-' then TrimDashes(s[..|s| - 1]) else s
  }

  lemma DigitsAre(c: char)
    ensures c in "0123456789" <==> '0' <= c <= '9'
  {
    if '0' <= c <= '9' { assert "0123456789"[c as int - '0' as int] == c; }
  }

  lemma SmallLettersAre(c: char)
    ensures c in "abcdefghijklm" || c in "nopqrstuvwxyz" <==> 'a' <= c <= 'z'
  {
    if 'a' <= c <= 'm' { assert "abcdefghijklm"[c as int - 'a' as int] == c; }
    if 'n' <= c <= 'z' { assert "nopqrstuvwxyz"[c as int - 'n' as int] == c; }
  }

  lemma CapitalsAre(c: char)
    ensures c in "ABCDEFGHIJKLM" || c in "NOPQRSTUVWXYZ" <==> 'A' <= c <= 'Z'
  {
    if 'A' <= c <= 'M' { assert "ABCDEFGHIJKLM"[c as int - 'A' as int] == c; }
    if 'N' <= c <= 'Z' { assert "NOPQRSTUVWXYZ"[c as int - 'N' as int] == c; }
  }

  /** The characters a slug is made of: the digits and letters of ASCII, and the dash. */
  lemma SlugCharsAreExact(c: char)
    ensures IsAlnum(c) <==>
            || c in "0123456789" || c in "abcdefghijklm" || c in "nopqrstuvwxyz"
            || c in "ABCDEFGHIJKLM" || c in "NOPQRSTUVWXYZ"
    ensures IsSlugChar(c) <==> IsAlnum(c) || c == '-'
  {
    DigitsAre(c);
    SmallLettersAre(c);
    CapitalsAre(c);
  }

  /** Folding takes each capital to its small letter and leaves every other character. */
  lemma FoldingIsExact(c: char, k: nat)
    requires k < 13
    ensures LowerChar("ABCDEFGHIJKLM"[k]) == "abcdefghijklm"[k] && LowerChar("NOPQRSTUVWXYZ"[k]) == "nopqrstuvwxyz"[k]
    ensures c !in "ABCDEFGHIJKLM" && c !in "NOPQRSTUVWXYZ" ==> LowerChar(c) == c
  {
    CapitalsAre(c);
  }

  /** The end of the run of slug characters from i. */
  function RunEnd(s: string, i: nat): (e: nat)
    requires i <= |s|
    ensures i <= e <= |s| && (forall k :: i <= k < e ==> IsSlugChar(s[k])) && (e < |s| ==> !IsSlugChar(s[e]))
    decreases |s| - i
  {
    if i < |s| && IsSlugChar(s[i]) then RunEnd(s, i + 1) else i
  }

  /** The slug mentioned by the character at i, if that starts a mention. */
  function MentionAt(s: string, i: nat): Option<string>
    requires i < |s|
  {
    if s[i] != '@' || (i > 0 && IsAlnum(s[i - 1])) then None
    else
      var slug := Lower(TrimDashes(s[i + 1..RunEnd(s, i + 1)]));
      if slug == [] then None else Some(slug)
  }

  /** Every mention among the first k characters, repeats included. */
  function Found(s: string, k: nat): seq<string>
    requires k <= |s|
  {
    if k == 0 then []
    else
      var m := MentionAt(s, k - 1);
      Found(s, k - 1) + (if m.Some? then [m.value] else [])
  }

  function Distinct(found: seq<string>): seq<string> {
    if found == [] then []
    else
      var n := |found| - 1;
      var out := Distinct(found[..n]);
      if found[n] in out then out else out + [found[n]]
  }

  function Parsed(s: string): seq<string> { Distinct(Found(s, |s|)) }

  method ParseMentionSlugs(text: string) returns (out: seq<string>)
    ensures out == Parsed(text)
  {
    out := [];
    var i := 0;
    while i < |text|
      invariant 0 <= i <= |text| && out == Distinct(Found(text, i))
    {
      var at := i;
      i := i + 1;
      ghost var before := Found(text, at);
      if text[at] != '@' || (at > 0 && IsAlnum(text[at - 1])) {
        assert Found(text, i) == before;
        continue;
      }
      var slug := Lower(TrimDashes(text[at + 1..RunEnd(text, at + 1)]));
      if slug == [] {
        assert Found(text, i) == before;
        continue;
      }
      assert Found(text, i) == before + [slug];
      assert (before + [slug])[..|before|] == before;
      if slug !in out {
        out := out + [slug];
      }
    }
  }

  // ----------------------------------------------------- what is returned

  /** A slug as participants carry them. */
  predicate IsSlug(s: string) {
    && s != [] && s[|s| - 1] != '-'
    && (forall i :: 0 <= i < |s| ==> IsSlugChar(s[i]) && !('A' <= s[i] <= 'Z'))
  }

  /** From e only dashes up to f, where the run of slug characters ends. */
  predicate DashesTo(s: string, e: nat, f: nat) {
    e <= f <= |s| && (forall k :: e <= k < f ==> s[k] == '-') && (f < |s| ==> !IsSlugChar(s[f]))
  }

  /** The slug characters from i + 1 to e, the last of them no dash, and only dashes follow in their run. */
  ghost predicate SlugSpan(s: string, i: nat, e: nat) {
    && i + 1 < e <= |s| && s[e - 1] != '-' && (forall k :: i < k < e ==> IsSlugChar(s[k]))
    && exists f: nat :: DashesTo(s, e, f)
  }

  lemma RunSplits(s: string, i: nat)
    requires i < |s|
    ensures var run := TrimDashes(s[i + 1..RunEnd(s, i + 1)]);
            var e := i + 1 + |run|;
            e <= RunEnd(s, i + 1) && run == s[i + 1..e] && (run != [] ==> SlugSpan(s, i, e))
  {
    hide IsSlugChar, RunEnd, TrimDashes;
    var f := RunEnd(s, i + 1);
    var whole := s[i + 1..f];
    var run := TrimDashes(whole);
    var e := i + 1 + |run|;
    assert run == whole[..|run|] == s[i + 1..e];
    forall k | e <= k < f ensures s[k] == '-' { assert whole[k - i - 1] == s[k]; }
    assert DashesTo(s, e, f);
    hide DashesTo;
    if run != [] { assert run[|run| - 1] == s[e - 1]; }
  }

  lemma SpanIsLongest(s: string, i: nat, d: nat, e: nat)
    requires SlugSpan(s, i, d) && SlugSpan(s, i, e)
    ensures e <= d
  {
    var f: nat :| DashesTo(s, d, f);
  }

  lemma SpanHasSlug(s: string, i: nat, e: nat)
    requires SlugSpan(s, i, e)
    ensures TrimDashes(s[i + 1..RunEnd(s, i + 1)]) != []
  {
    hide IsSlugChar, DashesTo, RunEnd, TrimDashes;
    var f := RunEnd(s, i + 1);
    assert e <= f;
    var whole := s[i + 1..f];
    assert whole[e - i - 2] == s[e - 1];
  }

  /** A span is the run less its dashes. */
  lemma SpanIsRun(s: string, i: nat, d: nat)
    requires SlugSpan(s, i, d)
    ensures s[i + 1..d] == TrimDashes(s[i + 1..RunEnd(s, i + 1)])
  {
    RunSplits(s, i);
    SpanHasSlug(s, i, d);
    var e := i + 1 + |TrimDashes(s[i + 1..RunEnd(s, i + 1)])|;
    SpanIsLongest(s, i, d, e);
    SpanIsLongest(s, i, e, d);
    hide SlugSpan, RunEnd, TrimDashes;
  }

  lemma MentionOfRun(s: string, i: nat)
    requires i < |s|
    ensures var run := TrimDashes(s[i + 1..RunEnd(s, i + 1)]);
            MentionAt(s, i) == if s[i] == '@' && (i > 0 ==> !IsAlnum(s[i - 1])) && run != [] then Some(Lower(run)) else None
  {
    hide RunEnd, TrimDashes, IsAlnum;
    var run := TrimDashes(s[i + 1..RunEnd(s, i + 1)]);
    assert |Lower(run)| == |run|;
    hide Lower;
  }

  /**
  A character starts a mention of a slug exactly when it is an `@` that does not
  follow a letter or digit, and the slug is the lower-cased run of slug
  characters after it, less any dashes at its end.
  */
  lemma MentionMeans(s: string, i: nat, slug: string)
    requires i < |s|
    ensures MentionAt(s, i) == Some(slug) <==>
            && s[i] == '@' && (i > 0 ==> !IsAlnum(s[i - 1]))
            && exists e: nat :: SlugSpan(s, i, e) && slug == Lower(s[i + 1..e])
  {
    hide MentionAt, DashesTo, IsSlugChar, RunEnd, TrimDashes, IsAlnum, Lower;
    MentionOfRun(s, i);
    RunSplits(s, i);
    if e: nat :| SlugSpan(s, i, e) && slug == Lower(s[i + 1..e]) {
      SpanIsRun(s, i, e);
      SpanHasSlug(s, i, e);
    }
  }

  predicate NoRepeats(l: seq<string>) { forall i, j :: 0 <= i < j < |l| ==> l[i] != l[j] }

  lemma MentionIsSlug(s: string, i: nat)
    requires i < |s| && MentionAt(s, i).Some?
    ensures IsSlug(MentionAt(s, i).value)
  {
    var e := RunEnd(s, i + 1);
    var run := TrimDashes(s[i + 1..e]);
    var slug := Lower(run);
    assert LowerChar(run[|run| - 1]) != '-';
    forall k | 0 <= k < |slug| ensures IsSlugChar(slug[k]) && !('A' <= slug[k] <= 'Z') {
      assert run[k] == s[i + 1..e][k] == s[i + 1 + k];
      assert IsSlugChar(s[i + 1 + k]);
    }
  }

  lemma {:induction false} FoundIsExact(s: string, k: nat, slug: string)
    requires k <= |s|
    ensures slug in Found(s, k) <==> exists i: nat :: i < k && MentionAt(s, i) == Some(slug)
  {
    if k > 0 {
      hide MentionAt;
      FoundIsExact(s, k - 1, slug);
    }
  }

  lemma {:induction false} DistinctIsExact(found: seq<string>, slug: string)
    ensures slug in Distinct(found) <==> slug in found
    ensures NoRepeats(Distinct(found))
  {
    if found != [] {
      var n := |found| - 1;
      DistinctIsExact(found[..n], slug);
      DistinctIsExact(found[..n], found[n]);
      assert found == found[..n] + [found[n]];
    }
  }

  /** Exactly the mentioned slugs, each once, each well formed. */
  lemma ParsedIsExact(s: string)
    ensures NoRepeats(Parsed(s))
    ensures forall slug :: slug in Parsed(s) <==> exists i: nat :: i < |s| && MentionAt(s, i) == Some(slug)
    ensures forall slug :: slug in Parsed(s) ==> IsSlug(slug)
  {
    hide MentionAt, IsSlug;
    DistinctIsExact(Found(s, |s|), []);
    forall slug
      ensures slug in Parsed(s) <==> exists i: nat :: i < |s| && MentionAt(s, i) == Some(slug)
      ensures slug in Parsed(s) ==> IsSlug(slug)
    {
      DistinctIsExact(Found(s, |s|), slug);
      FoundIsExact(s, |s|, slug);
      if slug in Parsed(s) {
        var i: nat :| i < |s| && MentionAt(s, i) == Some(slug);
        MentionIsSlug(s, i);
      }
    }
  }

  /** Position i is the first to mention the slug. */
  predicate FirstMention(s: string, slug: string, i: nat) {
    && i < |s| && MentionAt(s, i) == Some(slug)
    && (forall j: nat :: j < i ==> MentionAt(s, j) != Some(slug))
  }

  /** Positions at[p] are the first mentions, among the first k characters, of the slugs out[p]. */
  ghost predicate FirstMentions(s: string, k: nat, out: seq<string>, at: seq<nat>) {
    && |at| == |out|
    && (forall p :: 0 <= p < |at| ==> at[p] < k && FirstMention(s, out[p], at[p]))
    && (forall p, q :: 0 <= p < q < |at| ==> at[p] < at[q])
  }

  lemma FirstMentionsSnoc(s: string, k: nat, out: seq<string>, at: seq<nat>, slug: string)
    requires k < |s| && FirstMentions(s, k, out, at)
    ensures FirstMentions(s, k + 1, out, at)
    ensures FirstMention(s, slug, k) ==> FirstMentions(s, k + 1, out + [slug], at + [k])
  {
    hide FirstMention;
  }

  lemma FoundDistinct(s: string, k: nat)
    requires k < |s|
    ensures var out, m := Distinct(Found(s, k)), MentionAt(s, k);
            Distinct(Found(s, k + 1)) == if m.None? || m.value in out then out else out + [m.value]
  {
    FoundSnoc(s, k + 1);
    var m, before := MentionAt(s, k), Found(s, k);
    hide Found, MentionAt, Distinct;
    assert before + [] == before && Distinct(before) + [] == Distinct(before);
    if m.Some? { DistinctSnoc(before, m.value); }
  }

  lemma FirstPositionsStep(s: string, k: nat, at: seq<nat>) returns (more: seq<nat>)
    requires k < |s| && FirstMentions(s, k, Distinct(Found(s, k)), at)
    ensures FirstMentions(s, k + 1, Distinct(Found(s, k + 1)), more)
  {
    hide MentionAt, FirstMention, FirstMentions, Found, Distinct;
    var m, out := MentionAt(s, k), Distinct(Found(s, k));
    FoundDistinct(s, k);
    more := at;
    if m.Some? && m.value !in out {
      DistinctIsExact(Found(s, k), m.value);
      NewMention(s, k, m.value);
      FirstMentionsSnoc(s, k, out, at, m.value);
      more := at + [k];
    } else {
      FirstMentionsSnoc(s, k, out, at, []);
    }
  }

  lemma {:induction false} FirstPositions(s: string, k: nat) returns (at: seq<nat>)
    requires k <= |s|
    ensures FirstMentions(s, k, Distinct(Found(s, k)), at)
  {
    hide MentionAt, FirstMention;
    at := [];
    if k > 0 {
      at := FirstPositions(s, k - 1);
      at := FirstPositionsStep(s, k - 1, at);
    }
  }

  lemma NewMention(s: string, k: nat, slug: string)
    requires k < |s| && MentionAt(s, k) == Some(slug) && slug !in Found(s, k)
    ensures FirstMention(s, slug, k)
  {
    hide MentionAt, Found;
    FoundIsExact(s, k, slug);
  }

  /** The slugs come in the order of their first mentions. */
  lemma FirstOccurrenceOrder(s: string, p: nat, q: nat, i: nat, j: nat)
    requires p < q < |Parsed(s)| && FirstMention(s, Parsed(s)[p], i) && FirstMention(s, Parsed(s)[q], j)
    ensures i < j
  {
    hide MentionAt;
    var at := FirstPositions(s, |s|);
    FirstIsUnique(s, Parsed(s)[p], i, at[p]);
    FirstIsUnique(s, Parsed(s)[q], j, at[q]);
  }

  lemma FirstIsUnique(s: string, slug: string, i: nat, j: nat)
    requires FirstMention(s, slug, i) && FirstMention(s, slug, j)
    ensures i == j
  {
  }

  // ------------------------------------------------------------- joining

  /** A character that neither continues a slug nor starts a mention. */
  predicate IsSeparator(c: char) { !IsSlugChar(c) && c != '@' }

  lemma {:induction false} RunBefore(w: string, n: nat, i: nat)
    requires i <= n < |w| && IsSeparator(w[n])
    ensures RunEnd(w[..n], i) == RunEnd(w, i)
    decreases n - i
  {
    if i < n && IsSlugChar(w[i]) { RunBefore(w, n, i + 1); }
  }

  lemma {:induction false} RunAfter(w: string, d: nat, i: nat)
    requires d + i <= |w|
    ensures RunEnd(w, d + i) == d + RunEnd(w[d..], i)
    decreases |w| - i
  {
    if d + i < |w| && IsSlugChar(w[d + i]) { RunAfter(w, d, i + 1); }
  }

  /** A mention depends on the character, the one before it and the run after it. */
  lemma SameMention(s: string, i: nat, t: string, j: nat)
    requires i < |s| && j < |t| && s[i] == t[j]
    requires (i > 0 && IsAlnum(s[i - 1])) <==> (j > 0 && IsAlnum(t[j - 1]))
    requires s[i + 1..RunEnd(s, i + 1)] == t[j + 1..RunEnd(t, j + 1)]
    ensures MentionAt(s, i) == MentionAt(t, j)
  {
    hide RunEnd, IsAlnum, TrimDashes, Lower;
  }

  lemma MentionBefore(w: string, n: nat, i: nat)
    requires i < n < |w| && IsSeparator(w[n])
    ensures MentionAt(w[..n], i) == MentionAt(w, i)
  {
    RunBefore(w, n, i + 1);
    hide MentionAt, RunEnd, IsAlnum, IsSlugChar, IsSeparator;
    var s := w[..n];
    var e := RunEnd(s, i + 1);
    var here, there := s[i + 1..e], w[i + 1..e];
    assert here == there;
    SameMention(s, i, w, i);
  }

  lemma MentionAfter(w: string, d: nat, i: nat)
    requires 0 < d && d + i < |w| && IsSeparator(w[d - 1])
    ensures MentionAt(w, d + i) == MentionAt(w[d..], i)
  {
    RunAfter(w, d, i + 1);
    assert !IsAlnum(w[d - 1]);
    hide MentionAt, RunEnd, IsAlnum, IsSlugChar, IsSeparator;
    var t := w[d..];
    var e := RunEnd(t, i + 1);
    var here, there := w[d + i + 1..d + e], t[i + 1..e];
    assert here == there;
    SameMention(w, d + i, t, i);
  }

  lemma {:induction false} FoundBefore(w: string, n: nat, k: nat)
    requires k <= n < |w| && IsSeparator(w[n])
    ensures Found(w[..n], k) == Found(w, k)
  {
    if k > 0 {
      hide MentionAt, IsSeparator;
      FoundBefore(w, n, k - 1);
      FoundBeforeStep(w, n, k);
    }
  }

  lemma FoundBeforeStep(w: string, n: nat, k: nat)
    requires 0 < k <= n < |w| && IsSeparator(w[n]) && Found(w[..n], k - 1) == Found(w, k - 1)
    ensures Found(w[..n], k) == Found(w, k)
  {
    hide MentionAt, IsSeparator, Found;
    MentionBefore(w, n, k - 1);
    FoundSnoc(w, k);
    FoundSnoc(w[..n], k);
  }

  lemma FoundAfterStep(w: string, d: nat, k: nat)
    requires 0 < d && 0 < k && d + k <= |w| && IsSeparator(w[d - 1])
    requires Found(w, d + (k - 1)) == Found(w, d - 1) + Found(w[d..], k - 1)
    ensures Found(w, d + k) == Found(w, d - 1) + Found(w[d..], k)
  {
    hide MentionAt, IsSeparator, Found;
    MentionAfter(w, d, k - 1);
    FoundSnoc(w, d + k);
    FoundSnoc(w[d..], k);
    var m := MentionAt(w, d + k - 1);
    Assoc(Found(w, d - 1), Found(w[d..], k - 1), if m.Some? then [m.value] else []);
  }

  lemma {:induction false} FoundAfter(w: string, d: nat, k: nat)
    requires 0 < d && d + k <= |w| && IsSeparator(w[d - 1])
    ensures Found(w, d + k) == Found(w, d - 1) + Found(w[d..], k)
  {
    if k == 0 {
      assert MentionAt(w, d - 1) == None;
      FoundSnoc(w, d);
    } else {
      hide MentionAt, IsSeparator;
      FoundAfter(w, d, k - 1);
      FoundAfterStep(w, d, k);
    }
  }

  lemma Assoc(a: seq<string>, b: seq<string>, c: seq<string>)
    ensures (a + b) + c == a + (b + c)
  {
  }

  lemma FoundSnoc(s: string, k: nat)
    requires 0 < k <= |s|
    ensures Found(s, k) == Found(s, k - 1) + if MentionAt(s, k - 1).Some? then [MentionAt(s, k - 1).value] else []
  {
    hide MentionAt;
  }

  /** The members of b that a lacks, in order. */
  function Without(b: seq<string>, a: seq<string>): seq<string> {
    if b == [] then []
    else
      var n := |b| - 1;
      Without(b[..n], a) + (if b[n] in a then [] else [b[n]])
  }

  lemma {:induction false} WithoutIsExact(b: seq<string>, a: seq<string>, x: string)
    ensures x in Without(b, a) <==> x in b && x !in a
  {
    if b != [] {
      WithoutIsExact(b[..|b| - 1], a, x);
      assert b == b[..|b| - 1] + [b[|b| - 1]];
    }
  }

  lemma DistinctSnoc(a: seq<string>, x: string)
    ensures Distinct(a + [x]) == Distinct(a) + if x in Distinct(a) then [] else [x]
  {
    assert (a + [x])[..|a|] == a;
  }

  lemma WithoutSnoc(b: seq<string>, x: string, a: seq<string>)
    ensures Without(b + [x], a) == Without(b, a) + if x in a then [] else [x]
  {
    assert (b + [x])[..|b|] == b;
  }

  lemma {:induction false} DistinctConcat(a: seq<string>, b: seq<string>)
    ensures Distinct(a + b) == Distinct(a) + Without(Distinct(b), Distinct(a))
    decreases |b|
  {
    if b == [] {
      assert a + b == a;
    } else {
      var front, x := b[..|b| - 1], b[|b| - 1];
      DistinctConcat(a, front);
      assert a + b == (a + front) + [x] && b == front + [x];
      hide Distinct, Without;
      DistinctSnoc(a + front, x);
      DistinctSnoc(front, x);
      AddedToBoth(Distinct(a), Distinct(front), x);
    }
  }

  lemma AddedToBoth(a: seq<string>, seen: seq<string>, x: string)
    ensures var both := a + Without(seen, a);
            both + (if x in both then [] else [x]) == a + Without(seen + (if x in seen then [] else [x]), a)
  {
    WithoutIsExact(seen, a, x);
    WithoutSnoc(seen, x, a);
    hide Without;
    var w := Without(seen, a);
    InConcat(a, w, x);
    assert (a + w) + [] == a + w && (a + w) + [x] == a + (w + [x]) && w + [] == w && seen + [] == seen;
  }

  lemma InConcat(a: seq<string>, b: seq<string>, x: string)
    ensures x in a + b <==> x in a || x in b
  {
  }

  lemma FoundConcat(s: string, c: char, t: string)
    requires IsSeparator(c)
    ensures Found(s + [c] + t, |s + [c] + t|) == Found(s, |s|) + Found(t, |t|)
  {
    hide Found, IsSeparator;
    var w, d := s + [c] + t, |s| + 1;
    var head, tail := w[..d - 1], w[d..];
    assert head == s && tail == t && w[d - 1] == c && |w| == d + |t|;
    FoundBefore(w, d - 1, d - 1);
    FoundAfter(w, d, |t|);
  }

  /** Two texts set apart summon the first's participants, then the second's that are new. */
  lemma ParsedConcat(s: string, c: char, t: string)
    requires IsSeparator(c)
    ensures Parsed(s + [c] + t) == Parsed(s) + Without(Parsed(t), Parsed(s))
  {
    hide Found, Distinct, Without, IsSeparator;
    FoundConcat(s, c, t);
    DistinctConcat(Found(s, |s|), Found(t, |t|));
  }

  // ------------------------------------------------------------ round trip

  function Printed(slugs: seq<string>): string {
    if slugs == [] then []
    else
      var n := |slugs| - 1;
      if n == 0 then "@" + slugs[0] else Printed(slugs[..n]) + [' '] + ("@" + slugs[n])
  }

  lemma SlugIsItsOwnForm(slug: string)
    requires IsSlug(slug)
    ensures Lower(TrimDashes(slug)) == slug
  {
    assert TrimDashes(slug) == slug;
    assert forall i :: 0 <= i < |slug| ==> Lower(slug)[i] == slug[i];
  }

  lemma OneMention(slug: string)
    requires IsSlug(slug)
    ensures Parsed("@" + slug) == [slug]
  {
    var s := "@" + slug;
    RunIsAll(s, 1);
    assert s[1..|s|] == slug;
    SlugIsItsOwnForm(slug);
    assert MentionAt(s, 0) == Some(slug);
    OnlyFirst(s, |s|);
    DistinctSnoc([], slug);
    assert [] + [slug] == [slug];
  }

  lemma {:induction false} RunIsAll(s: string, i: nat)
    requires i <= |s| && forall k :: i <= k < |s| ==> IsSlugChar(s[k])
    ensures RunEnd(s, i) == |s|
    decreases |s| - i
  {
    if i < |s| { RunIsAll(s, i + 1); }
  }

  lemma {:induction false} OnlyFirst(s: string, k: nat)
    requires 1 <= k <= |s| && MentionAt(s, 0).Some? && forall i :: 1 <= i < |s| ==> s[i] != '@'
    ensures Found(s, k) == [MentionAt(s, 0).value]
  {
    if k > 1 { OnlyFirst(s, k - 1); }
  }

  lemma {:induction false} PrintedParses(slugs: seq<string>)
    requires NoRepeats(slugs) && forall s :: s in slugs ==> IsSlug(s)
    ensures Parsed(Printed(slugs)) == slugs
  {
    if slugs != [] {
      hide IsSlug, Parsed, Printed;
      var n := |slugs| - 1;
      var front, last := slugs[..n], slugs[n];
      assert last in slugs && slugs == front + [last] && last !in front;
      PrintedParses(front);
      PrintedParsesStep(front, last);
    }
  }

  lemma PrintedParsesStep(front: seq<string>, last: string)
    requires Parsed(Printed(front)) == front && IsSlug(last) && last !in front
    ensures Parsed(Printed(front + [last])) == front + [last]
  {
    hide IsSlug, Parsed, Without, Printed;
    PrintedSnoc(front, last);
    OneMention(last);
    if front == [] {
      assert front + [last] == [last];
    } else {
      ParsedConcat(Printed(front), ' ', "@" + last);
      OneNew(last, front);
    }
  }

  lemma PrintedSnoc(front: seq<string>, last: string)
    ensures Printed(front + [last]) == if front == [] then "@" + last else Printed(front) + [' '] + ("@" + last)
  {
    assert (front + [last])[..|front|] == front;
  }

  lemma OneNew(x: string, a: seq<string>)
    requires x !in a
    ensures Without([x], a) == [x]
  {
    assert [x][..0] == [];
  }

  /** A printed list reads back as itself exactly when it is a list of distinct slugs. */
  lemma RoundTrip(slugs: seq<string>)
    ensures Parsed(Printed(slugs)) == slugs <==> NoRepeats(slugs) && forall s :: s in slugs ==> IsSlug(s)
  {
    ParsedIsExact(Printed(slugs));
    if NoRepeats(slugs) && forall s :: s in slugs ==> IsSlug(s) {
      PrintedParses(slugs);
    }
  }
}
