/** Which stretches of a text are its lines: the ones between line feeds, in the order of the
    text, each without the carriage return that stands directly before its line feed. */
module LinePositions {
  import opened Text

  /** `feeds` lists the line feeds of the text, in order. */
  ghost predicate IsFeeds(text: string, feeds: seq<nat>) {
    && (forall i, j :: 0 <= i < j < |feeds| ==> feeds[i] < feeds[j])
    && (forall p :: p in feeds <==> 0 <= p < |text| && text[p] == '\n')
  }

  /** Where line `i` begins: at the start, or right after the line feed before it. */
  function Start(feeds: seq<nat>, i: nat): (r: nat)
    requires i <= |feeds|
  {
    if i == 0 then 0 else feeds[i - 1] + 1
  }

  /** A stretch that a line feed ends, as a line. */
  function Ended(stretch: string): (r: string) {
    if stretch != "" && stretch[|stretch| - 1] == '\r' then stretch[..|stretch| - 1] else stretch
  }

  function Between(text: string, from: nat, to: nat): (r: string) {
    if from <= to <= |text| then text[from..to] else ""
  }

  /** As many lines as line feeds, and one more if something follows the last of them. */
  function LineCount(text: string, feeds: seq<nat>): (r: nat) {
    |feeds| + (if Start(feeds, |feeds|) < |text| then 1 else 0)
  }

  /** Line `i` as a slice of the text. */
  function LineAt(text: string, feeds: seq<nat>, i: nat): (r: string)
    requires i <= |feeds|
  {
    if i < |feeds| then Ended(Between(text, Start(feeds, i), feeds[i]))
    else Between(text, Start(feeds, i), |text|)
  }

  // ---------- the lines of a text are these stretches ----------

  /** The values of a function from `k` up to `n`. */
  function Listed(g: nat -> string, k: nat, n: nat): (r: seq<string>)
    decreases n - k
  {
    if k >= n then [] else [g(k)] + Listed(g, k + 1, n)
  }

  lemma {:induction false} ListedAt(g: nat -> string, k: nat, n: nat)
    requires k <= n
    ensures |Listed(g, k, n)| == n - k
    ensures forall i :: 0 <= i < n - k ==> Listed(g, k, n)[i] == g(k + i)
    decreases n - k
  {
    if k < n {
      ListedAt(g, k + 1, n);
      var rest := Listed(g, k + 1, n);
      forall i | 0 <= i < n - k ensures Listed(g, k, n)[i] == g(k + i) {
        if i > 0 { assert rest[i - 1] == g(k + 1 + (i - 1)); }
      }
    }
  }

  function LineOf(text: string, feeds: seq<nat>): (r: nat -> string) {
    (i: nat) => if i <= |feeds| then LineAt(text, feeds, i) else ""
  }

  lemma StartInText(text: string, feeds: seq<nat>, k: nat)
    requires IsFeeds(text, feeds) && k <= |feeds|
    ensures Start(feeds, k) <= |text|
    ensures k < |feeds| ==> Start(feeds, k) <= feeds[k] < |text| && text[feeds[k]] == '\n'
  {
    if k > 0 { assert feeds[k - 1] in feeds; }
    if k < |feeds| { assert feeds[k] in feeds; }
  }

  /** Looking for a line feed from the start of line `k` finds the one that ends it. */
  lemma FeedOfLine(text: string, feeds: seq<nat>, k: nat)
    requires IsFeeds(text, feeds) && k <= |feeds| && Start(feeds, k) <= |text|
    ensures NextFeed(text, Start(feeds, k)) == if k < |feeds| then feeds[k] else |text|
  {
    StartInText(text, feeds, k);
    var r := NextFeed(text, Start(feeds, k));
    if r < |text| {
      assert r in feeds;
      var j :| 0 <= j < |feeds| && feeds[j] == r;
    }
  }

  lemma LineIs(text: string, feeds: seq<nat>, k: nat)
    requires k < |feeds| && Start(feeds, k) <= feeds[k] < |text|
    ensures LineOf(text, feeds)(k) == StripReturn(text[Start(feeds, k)..feeds[k]])
  {}

  lemma LastIs(text: string, feeds: seq<nat>)
    requires Start(feeds, |feeds|) <= |text|
    ensures LineOf(text, feeds)(|feeds|) == text[Start(feeds, |feeds|)..]
  {}

  lemma LinesNext(text: string, from: nat, at: nat)
    requires from <= at < |text| && NextFeed(text, from) == at
    ensures LinesFrom(text, from) == [StripReturn(text[from..at])] + LinesFrom(text, at + 1)
  {}

  lemma LinesLast(text: string, from: nat)
    requires from <= |text| && NextFeed(text, from) == |text|
    ensures LinesFrom(text, from) == if from == |text| then [] else [text[from..]]
  {}

  /** The lines from the start of line `k` on. */
  function LinesOf(text: string, feeds: seq<nat>): (r: nat -> seq<string>) {
    (k: nat) => if k <= |feeds| && Start(feeds, k) <= |text| then LinesFrom(text, Start(feeds, k)) else []
  }

  lemma LinesStep(text: string, feeds: seq<nat>, k: nat)
    requires IsFeeds(text, feeds) && k < |feeds|
    ensures LinesOf(text, feeds)(k) == [LineOf(text, feeds)(k)] + LinesOf(text, feeds)(k + 1)
  {
    StartInText(text, feeds, k);
    StartInText(text, feeds, k + 1);
    FeedOfLine(text, feeds, k);
    LinesNext(text, Start(feeds, k), feeds[k]);
    LineIs(text, feeds, k);
  }

  lemma LinesEnd(text: string, feeds: seq<nat>)
    requires IsFeeds(text, feeds)
    ensures LinesOf(text, feeds)(|feeds|) == Listed(LineOf(text, feeds), |feeds|, LineCount(text, feeds))
  {
    var m := |feeds|;
    StartInText(text, feeds, m);
    FeedOfLine(text, feeds, m);
    LinesLast(text, Start(feeds, m));
    LastIs(text, feeds);
    OneListed(LineOf(text, feeds), m);
  }

  lemma OneListed(g: nat -> string, m: nat)
    ensures Listed(g, m, m) == [] && Listed(g, m, m + 1) == [g(m)]
  {}

  lemma {:induction false} Unrolled(f: nat -> seq<string>, g: nat -> string, k: nat, m: nat, n: nat)
    requires k <= m <= n && f(m) == Listed(g, m, n)
    requires forall i :: 0 <= i < m ==> f(i) == [g(i)] + f(i + 1)
    ensures f(k) == Listed(g, k, n)
    decreases m - k
  {
    if k < m { Unrolled(f, g, k + 1, m, n); }
  }

  lemma LinesListed(text: string, feeds: seq<nat>)
    requires IsFeeds(text, feeds)
    ensures LinesOf(text, feeds)(0) == Listed(LineOf(text, feeds), 0, LineCount(text, feeds))
  {
    var f, g := LinesOf(text, feeds), LineOf(text, feeds);
    forall i | 0 <= i < |feeds| ensures f(i) == [g(i)] + f(i + 1) { LinesStep(text, feeds, i); }
    LinesEnd(text, feeds);
    Unrolled(f, g, 0, |feeds|, LineCount(text, feeds));
  }

  /** The lines of a text, by position. */
  lemma LinesByPosition(text: string, feeds: seq<nat>)
    requires IsFeeds(text, feeds)
    ensures |Lines(text)| == LineCount(text, feeds)
    ensures forall i :: 0 <= i < LineCount(text, feeds) ==> Lines(text)[i] == LineAt(text, feeds, i)
  {
    LinesListed(text, feeds);
    ListedAt(LineOf(text, feeds), 0, LineCount(text, feeds));
    forall i | 0 <= i < LineCount(text, feeds)
      ensures Lines(text)[i] == LineAt(text, feeds, i)
    {
      assert Listed(LineOf(text, feeds), 0, LineCount(text, feeds))[i] == LineOf(text, feeds)(0 + i);
    }
  }

  /** No line feed lies inside a line. */
  lemma LineIsSingle(text: string, feeds: seq<nat>, i: nat)
    requires IsFeeds(text, feeds) && i <= |feeds|
    ensures '\n' !in LineAt(text, feeds, i)
  {
    StartInText(text, feeds, i);
    FeedOfLine(text, feeds, i);
    var start, end := Start(feeds, i), if i < |feeds| then feeds[i] else |text|;
    assert '\n' !in Between(text, start, end);
  }

  /** There is such a list of line feeds. */
  function Feeds(text: string, n: nat): (r: seq<nat>)
    requires n <= |text|
    ensures forall i, j :: 0 <= i < j < |r| ==> r[i] < r[j]
    ensures forall p :: p in r <==> 0 <= p < n && text[p] == '\n'
  {
    if n == 0 then []
    else
      var before := Feeds(text, n - 1);
      assert forall i :: 0 <= i < |before| ==> before[i] in before;
      if text[n - 1] == '\n' then before + [n - 1] else before
  }

  // ---------- texts without carriage returns ----------

  /** Without a last empty piece. */
  function WithoutLastEmpty(pieces: seq<string>): (r: seq<string>) {
    if pieces != [] && pieces[|pieces| - 1] == "" then pieces[..|pieces| - 1] else pieces
  }

  lemma WithoutLastCons(first: string, rest: seq<string>)
    requires rest != []
    ensures WithoutLastEmpty([first] + rest) == [first] + WithoutLastEmpty(rest)
  {}

  lemma SplitAtFeed(text: string, from: nat, at: nat)
    requires from <= at < |text| && text[at] == '\n' && forall p :: from <= p < at ==> text[p] != '\n'
    ensures Split(text[from..], '\n') == [text[from..at]] + Split(text[at + 1..], '\n')
  {
    SplitPrefix(text[from..at], text[at + 1..], '\n');
    assert text[from..] == text[from..at] + ['\n'] + text[at + 1..];
  }

  lemma LastPiece(text: string, from: nat)
    requires from <= |text| && NextFeed(text, from) == |text|
    ensures Split(text[from..], '\n') == [text[from..]]
  {
    SplitPlain(text[from..], '\n');
  }

  lemma {:induction false} PlainLinesFrom(text: string, from: nat)
    requires from <= |text| && '\r' !in text
    ensures LinesFrom(text, from) == WithoutLastEmpty(Split(text[from..], '\n'))
    decreases |text| - from
  {
    var at := NextFeed(text, from);
    if at == |text| {
      LastPiece(text, from);
    } else {
      PlainLinesFrom(text, at + 1);
      SplitAtFeed(text, from, at);
      WithoutLastCons(text[from..at], Split(text[at + 1..], '\n'));
      PlainStretch(text, from, at);
    }
  }

  lemma PlainStretch(text: string, from: nat, at: nat)
    requires from <= at <= |text| && '\r' !in text
    ensures StripReturn(text[from..at]) == text[from..at]
  {
    assert '\r' !in text[from..at];
  }

  /** A text without carriage returns has the pieces between its line feeds as its lines, less a
      last empty one. */
  lemma PlainLines(text: string)
    requires '\r' !in text
    ensures Lines(text) == WithoutLastEmpty(Split(text, '\n'))
  {
    PlainLinesFrom(text, 0);
    assert text[0..] == text;
  }
}
