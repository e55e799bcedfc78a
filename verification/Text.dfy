/** Strings as sequences of Unicode scalar values: searching, trimming, splitting and
    ordering, shared by the other modules. */
module Text {

  // ---------- prefixes and first occurrences ----------

  predicate StartsWith(s: string, p: string) {
    |p| <= |s| && s[..|p|] == p
  }

  predicate OccursAt(s: string, p: string, i: int) {
    0 <= i && i + |p| <= |s| && s[i..i + |p|] == p
  }

  /** The first index at or after `from` where `p` occurs, or -1. */
  function IndexFrom(s: string, p: string, from: nat): (r: int)
    ensures r == -1 || (from <= r && OccursAt(s, p, r))
    ensures forall k :: from <= k && (r == -1 || k < r) ==> !OccursAt(s, p, k)
    decreases |s| + 1 - from
  {
    if from + |p| > |s| then -1
    else if OccursAt(s, p, from) then from
    else IndexFrom(s, p, from + 1)
  }

  function IndexOf(s: string, p: string): (r: int) {
    IndexFrom(s, p, 0)
  }

  predicate Contains(s: string, p: string) {
    IndexOf(s, p) >= 0
  }

  lemma IndexFromIs(s: string, p: string, from: nat, at: nat)
    requires from <= at && OccursAt(s, p, at)
    requires forall k :: from <= k < at ==> !OccursAt(s, p, k)
    ensures IndexFrom(s, p, from) == at
  {
    var r := IndexFrom(s, p, from);
    assert r == -1 ==> !OccursAt(s, p, at);
  }

  lemma NotContains(s: string, p: string, i: int)
    requires !Contains(s, p)
    ensures !OccursAt(s, p, i)
  {
    assert IndexOf(s, p) == -1;
  }

  lemma OccursCharAt(s: string, p: string, k: nat, j: nat)
    requires OccursAt(s, p, k) && j < |p|
    ensures s[k + j] == p[j]
  {
    assert s[k..k + |p|][j] == s[k + j];
  }

  lemma CharLacks(s: string, p: string, j: nat)
    requires j < |p| && p[j] !in s
    ensures !Contains(s, p)
  {
    var k := IndexOf(s, p);
    if k >= 0 { OccursCharAt(s, p, k, j); }
  }

  // ---------- trimming ----------

  function TrimStart(s: string, space: char -> bool): (r: string)
    ensures |r| <= |s| && r == s[|s| - |r|..]
    ensures r != "" ==> !space(r[0])
  {
    if s != "" && space(s[0]) then TrimStart(s[1..], space) else s
  }

  function TrimEnd(s: string, space: char -> bool): (r: string)
    ensures |r| <= |s| && r == s[..|r|]
    ensures r != "" ==> !space(r[|r| - 1])
  {
    if s != "" && space(s[|s| - 1]) then TrimEnd(s[..|s| - 1], space) else s
  }

  function Trim(s: string, space: char -> bool): (r: string) {
    TrimEnd(TrimStart(s, space), space)
  }

  /** Neither end is white space. */
  predicate Trimmed(s: string, space: char -> bool) {
    s != "" ==> !space(s[0]) && !space(s[|s| - 1])
  }

  lemma TrimmedIsFixed(s: string, space: char -> bool)
    requires Trimmed(s, space)
    ensures Trim(s, space) == s && TrimStart(s, space) == s && TrimEnd(s, space) == s
  {}

  lemma TrimIsTrimmed(s: string, space: char -> bool)
    ensures Trimmed(Trim(s, space), space) && |Trim(s, space)| <= |s|
  {
    var a := TrimStart(s, space);
    var b := TrimEnd(a, space);
    assert b != "" ==> b[0] == a[0];
  }

  lemma SliceOfDrop(s: string, from: nat, n: nat)
    requires from + n <= |s|
    ensures s[from..][..n] == s[from..from + n]
  {}

  lemma TrimIsSlice(s: string, space: char -> bool) returns (from: nat, to: nat)
    ensures from <= to <= |s| && Trim(s, space) == s[from..to]
  {
    var a := TrimStart(s, space);
    var b := TrimEnd(a, space);
    from, to := |s| - |a|, |s| - |a| + |b|;
    SliceOfDrop(s, from, |b|);
  }

  lemma {:induction false} TrimStartOver(pad: string, s: string, space: char -> bool)
    requires forall i :: 0 <= i < |pad| ==> space(pad[i])
    requires s != "" ==> !space(s[0])
    ensures TrimStart(pad + s, space) == s
  {
    if pad == "" {
      assert pad + s == s;
    } else {
      assert (pad + s)[0] == pad[0] && (pad + s)[1..] == pad[1..] + s;
      TrimStartOver(pad[1..], s, space);
    }
  }

  lemma {:induction false} TrimEndOver(s: string, pad: string, space: char -> bool)
    requires forall i :: 0 <= i < |pad| ==> space(pad[i])
    requires s != "" ==> !space(s[|s| - 1])
    ensures TrimEnd(s + pad, space) == s
  {
    if pad == "" {
      assert s + pad == s;
    } else {
      var t := s + pad;
      assert t[|t| - 1] == pad[|pad| - 1] && t[..|t| - 1] == s + pad[..|pad| - 1];
      TrimEndOver(s, pad[..|pad| - 1], space);
    }
  }

  /** White space after a trimmed text is all that trimming removes. */
  lemma TrimOverEnd(s: string, pad: string, space: char -> bool)
    requires Trimmed(s, space)
    requires forall i :: 0 <= i < |pad| ==> space(pad[i])
    ensures Trim(s + pad, space) == s
  {
    if s == "" {
      assert s + pad == pad + s;
      TrimStartOver(pad, s, space);
    } else {
      assert (s + pad)[0] == s[0];
      assert TrimStart(s + pad, space) == s + pad;
      TrimEndOver(s, pad, space);
    }
  }

  ghost predicate AllSpace(s: string, space: char -> bool) {
    forall i :: 0 <= i < |s| ==> space(s[i])
  }

  /** Trimming leaves nothing exactly of white space. */
  lemma TrimmedAway(s: string, space: char -> bool)
    ensures Trim(s, space) == "" <==> AllSpace(s, space)
  {
    if AllSpace(s, space) {
      TrimStartOver(s, "", space);
      assert s + "" == s;
    } else {
      TrimStartKeepsOther(s, space);
      TrimEndKeepsFirst(TrimStart(s, space), space);
    }
  }

  lemma {:induction false} TrimStartKeepsOther(s: string, space: char -> bool)
    requires !AllSpace(s, space)
    ensures TrimStart(s, space) != ""
  {
    if space(s[0]) {
      assert s == [s[0]] + s[1..];
      TrimStartKeepsOther(s[1..], space);
    }
  }

  lemma {:induction false} TrimEndKeepsFirst(s: string, space: char -> bool)
    requires s != "" && !space(s[0])
    ensures TrimEnd(s, space) != ""
  {
    if space(s[|s| - 1]) {
      TrimEndKeepsFirst(s[..|s| - 1], space);
    }
  }

  // ---------- splitting and joining on one character ----------

  /** The pieces between occurrences of `c`; always at least one. */
  function Split(s: string, c: char): (r: seq<string>)
    ensures |r| >= 1
    ensures forall i, j :: 0 <= i < |r| && 0 <= j < |r[i]| ==> r[i][j] != c
    decreases |s|
  {
    if s == "" then [""]
    else if s[0] == c then [""] + Split(s[1..], c)
    else
      var rest := Split(s[1..], c);
      [[s[0]] + rest[0]] + rest[1..]
  }

  function Join(parts: seq<string>, c: char): (r: string) {
    if |parts| == 0 then ""
    else if |parts| == 1 then parts[0]
    else parts[0] + [c] + Join(parts[1..], c)
  }

  lemma {:induction false} JoinSplit(s: string, c: char)
    ensures Join(Split(s, c), c) == s
    decreases |s|
  {
    if s == "" {
    } else {
      JoinSplit(s[1..], c);
      var rest := Split(s[1..], c);
      assert s == [s[0]] + s[1..];
      if s[0] == c {
        assert ([""] + rest)[1..] == rest;
      } else {
        var whole := [[s[0]] + rest[0]] + rest[1..];
        assert whole[1..] == rest[1..];
      }
    }
  }

  lemma {:induction false} SplitPrefix(head: string, tail: string, c: char)
    requires forall i :: 0 <= i < |head| ==> head[i] != c
    ensures Split(head + [c] + tail, c) == [head] + Split(tail, c)
  {
    var s := head + [c] + tail;
    if head == "" {
      assert s[1..] == tail;
    } else {
      assert s[1..] == head[1..] + [c] + tail;
      SplitPrefix(head[1..], tail, c);
      var rest := Split(s[1..], c);
      assert rest[0] == head[1..] && rest[1..] == Split(tail, c);
      assert [s[0]] + rest[0] == head;
    }
  }

  lemma {:induction false} SplitPlain(s: string, c: char)
    requires forall i :: 0 <= i < |s| ==> s[i] != c
    ensures Split(s, c) == [s]
  {
    if s != "" {
      SplitPlain(s[1..], c);
      assert [s[0]] + s[1..] == s;
    }
  }

  lemma {:induction false} SplitJoin(parts: seq<string>, c: char)
    requires |parts| >= 1
    requires forall i, j :: 0 <= i < |parts| && 0 <= j < |parts[i]| ==> parts[i][j] != c
    ensures Split(Join(parts, c), c) == parts
  {
    if |parts| == 1 {
      SplitPlain(parts[0], c);
    } else {
      SplitJoin(parts[1..], c);
      SplitPrefix(parts[0], Join(parts[1..], c), c);
    }
  }

  // ---------- lines ----------

  /** Every backslash turned into a slash. */
  function Slashed(s: string): (r: string) {
    seq(|s|, i requires 0 <= i < |s| => if s[i] == '\\' then '/' else s[i])
  }

  /** The lines of a text: a line ends at a line feed, a carriage return just before the
      line feed belongs to the line ending, and a final piece without a line feed is kept
      as it stands. */
  function Lines(s: string): (r: seq<string>) {
    LinesFrom(s, 0)
  }

  /** The first line feed at or after `from`, or the end of the text. */
  function NextFeed(s: string, from: nat): (r: nat)
    requires from <= |s|
    ensures from <= r <= |s| && (r < |s| ==> s[r] == '\n')
    ensures forall p :: from <= p < r ==> s[p] != '\n'
    decreases |s| - from
  {
    if from == |s| || s[from] == '\n' then from else NextFeed(s, from + 1)
  }

  function LinesFrom(s: string, from: nat): (r: seq<string>)
    requires from <= |s|
    decreases |s| - from
  {
    var i := NextFeed(s, from);
    if from == |s| then []
    else if i == |s| then [s[from..]]
    else [StripReturn(s[from..i])] + LinesFrom(s, i + 1)
  }

  function StripReturn(s: string): (r: string) {
    if s != "" && s[|s| - 1] == '\r' then s[..|s| - 1] else s
  }

  // ---------- order ----------

  /** Lexicographic order on scalar values, which is the byte order of UTF-8. */
  predicate Less(a: string, b: string) {
    b != "" && (a == "" || a[0] < b[0] || (a[0] == b[0] && Less(a[1..], b[1..])))
  }

  lemma {:induction false} LessTotal(a: string, b: string)
    ensures Less(a, b) || a == b || Less(b, a)
    ensures !(Less(a, b) && Less(b, a)) && !Less(a, a)
  {
    if a != "" && b != "" && a[0] == b[0] {
      LessTotal(a[1..], b[1..]);
      assert a == [a[0]] + a[1..] && b == [b[0]] + b[1..];
    }
    if a != "" { LessIrreflexive(a); }
  }

  lemma LessIrreflexive(a: string)
    ensures !Less(a, a)
  {}

  lemma {:induction false} LessTransitive(a: string, b: string, c: string)
    requires Less(a, b) && Less(b, c)
    ensures Less(a, c)
  {
    if a != "" && a[0] == b[0] == c[0] {
      LessTransitive(a[1..], b[1..], c[1..]);
    }
  }
}
