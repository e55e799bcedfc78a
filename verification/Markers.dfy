/** The comment markers that carry reply targets and images inside a user message, and
    where a marker is found in a text. */
module Markers {
  import opened Text

  const IMAGE_BEGIN: string := "<!-- xcoding-images"
  const IMAGE_END: string := "xcoding-images -->"
  const REPLY_BEGIN: string := "<!-- xcoding-reply:"
  const REPLY_END: string := "xcoding-reply -->"
  const INSTRUCTION_BEGIN: string := "<!-- xcoding-reply-instruction:"
  const INSTRUCTION_END: string := "xcoding-reply-instruction -->"
  /** The instruction to the model, word by word. */
  const INSTRUCTION_WORDS: seq<string> := [
    "Continue", "from", "the", "quoted", "assistant", "response", "as", "the", "authoritative", "target.",
    "Treat", "later", "unrelated", "messages", "as", "session", "history."]

  /** White space as `String.prototype.trim` sees it. */
  predicate IsJsSpace(c: char) {
    '\t' <= c <= '\r' || c == ' ' || c == '\U{A0}' || c == '\U{FEFF}' || c == '\U{1680}'
    || '\U{2000}' <= c <= '\U{200A}' || c == '\U{2028}' || c == '\U{2029}'
    || c == '\U{202F}' || c == '\U{205F}' || c == '\U{3000}'
  }

  function TrimJs(s: string): (r: string)
    ensures Trimmed(r, IsJsSpace) && |r| <= |s|
  {
    TrimIsTrimmed(s, IsJsSpace);
    Trim(s, IsJsSpace)
  }

  function TrimStartJs(s: string): (r: string) {
    TrimStart(s, IsJsSpace)
  }

  /** `slice(from, to)`, empty when the bounds cross. */
  function Slice(s: string, from: nat, to: nat): (r: string)
    requires to <= |s|
  {
    if from <= to then s[from..to] else ""
  }

  function ReplaceFirst(s: string, p: string): (r: string) {
    var i := IndexOf(s, p);
    if i < 0 then s else s[..i] + s[i + |p|..]
  }

  // ---------- occurrences in concatenations ----------

  lemma OccursIn(s: string, p: string, k: nat)
    requires OccursAt(s, p, k)
    ensures Contains(s, p)
  {
    if !Contains(s, p) { NotContains(s, p, k); }
  }

  /** An occurrence in a slice is one in the whole. */
  lemma OccursInWhole(s: string, p: string, from: nat, to: nat, k: nat)
    requires from <= to <= |s| && OccursAt(s[from..to], p, k)
    ensures OccursAt(s, p, from + k)
  {
    var inner, outer := s[from..to][k..k + |p|], s[from + k..from + k + |p|];
    assert forall j :: 0 <= j < |p| ==> inner[j] == s[from + k + j] == outer[j];
    assert inner == outer;
  }

  lemma SliceLacks(s: string, p: string, from: nat, to: nat)
    requires from <= to <= |s| && !Contains(s, p)
    ensures !Contains(s[from..to], p)
  {
    var k := IndexOf(s[from..to], p);
    if k >= 0 {
      OccursInWhole(s, p, from, to, k);
    }
  }

  lemma TrimSlice(s: string) returns (from: nat, to: nat)
    ensures from <= to <= |s| && TrimJs(s) == s[from..to]
  {
    from, to := TrimIsSlice(s, IsJsSpace);
  }

  lemma TrimLacks(s: string, p: string)
    requires !Contains(s, p)
    ensures !Contains(TrimJs(s), p)
  {
    var from, to := TrimSlice(s);
    SliceLacks(s, p, from, to);
  }

  lemma TrimLacksChar(s: string, c: char)
    requires c !in s
    ensures c !in TrimJs(s)
  {
    var from, to := TrimSlice(s);
  }

  /** An occurrence that does not reach into `b` is one in `a`. */
  lemma OccursLeft(a: string, b: string, p: string, k: nat)
    requires OccursAt(a + b, p, k) && k + |p| <= |a|
    ensures OccursAt(a, p, k)
  {
    assert (a + b)[k..k + |p|] == a[k..k + |p|];
  }

  lemma OccursRight(a: string, b: string, p: string, k: nat)
    requires OccursAt(a + b, p, k) && |a| <= k
    ensures OccursAt(b, p, k - |a|)
  {
    assert (a + b)[k..k + |p|] == b[k - |a|..k - |a| + |p|];
  }

  /** `p` cannot straddle a boundary at a character it does not have. */
  predicate Barrier(a: string, b: string, p: string) {
    (a != "" && a[|a| - 1] !in p) || (b != "" && b[0] !in p)
  }

  lemma NoStraddle(a: string, b: string, p: string, k: nat)
    requires Barrier(a, b, p) && OccursAt(a + b, p, k)
    ensures k + |p| <= |a| || |a| <= k
  {
    if k < |a| < k + |p| {
      OccursCharAt(a + b, p, k, |a| - 1 - k);
      OccursCharAt(a + b, p, k, |a| - k);
    }
  }

  lemma AppendLacks(a: string, b: string, p: string)
    requires !Contains(a, p) && !Contains(b, p) && Barrier(a, b, p)
    ensures !Contains(a + b, p)
  {
    var k := IndexOf(a + b, p);
    if k >= 0 {
      NoStraddle(a, b, p, k);
      if k + |p| <= |a| {
        OccursLeft(a, b, p, k);
        OccursIn(a, p, k);
      } else {
        OccursRight(a, b, p, k);
      }
    }
  }

  /** A prefix without `p`'s first character adds no occurrence. */
  lemma PrefixLacks(a: string, b: string, p: string)
    requires p != "" && p[0] !in a && !Contains(b, p)
    ensures !Contains(a + b, p)
  {
    var k := IndexOf(a + b, p);
    if k >= 0 {
      OccursCharAt(a + b, p, k, 0);
      OccursRight(a, b, p, k);
    }
  }

  // ---------- finding a marker's end ----------

  /** The last character of `p` stands nowhere else in it. */
  predicate EndsOnce(p: string) {
    p != "" && p[|p| - 1] !in p[..|p| - 1]
  }

  /** `p` is found where it was written, when what stands before it from `from` on is
      either text without `p` closed by a character foreign to `p`, or nothing, and then
      text without the last character of `p`. */
  lemma FindMark(before: string, gap: string, p: string, rest: string, from: nat)
    requires EndsOnce(p) && p[|p| - 1] !in gap
    requires from <= |before|
    requires from == |before| || (!Contains(before, p) && before[|before| - 1] !in p)
    ensures IndexFrom(before + (gap + (p + rest)), p, from) == |before| + |gap|
  {
    var tail := gap + (p + rest);
    var s := before + tail;
    var at := |before| + |gap|;
    assert s[at..at + |p|] == p;
    forall k | from <= k < at
      ensures !OccursAt(s, p, k)
    {
      if OccursAt(s, p, k) {
        if k < |before| {
          NoStraddle(before, tail, p, k);
          OccursLeft(before, tail, p, k);
          OccursIn(before, p, k);
        } else {
          OccursRight(before, tail, p, k);
          LastCharacterEarly(gap, p, rest, k - |before|);
        }
      }
    }
    IndexFromIs(s, p, from, at);
  }

  lemma FindFirst(gap: string, p: string, rest: string)
    requires EndsOnce(p) && p[|p| - 1] !in gap
    ensures IndexOf(gap + (p + rest), p) == |gap|
  {
    FindMark("", gap, p, rest, 0);
    assert "" + (gap + (p + rest)) == gap + (p + rest);
  }

  lemma LastCharacterEarly(gap: string, p: string, rest: string, k: nat)
    requires EndsOnce(p) && p[|p| - 1] !in gap && k < |gap|
    ensures !OccursAt(gap + (p + rest), p, k)
  {
    var s := gap + (p + rest);
    var q := k + |p| - 1;
    assert |gap| <= q < |gap| + |p| - 1 ==> s[q] == p[..|p| - 1][q - |gap|];
    if OccursAt(s, p, k) {
      OccursCharAt(s, p, k, |p| - 1);
    }
  }
}
