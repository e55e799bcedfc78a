/** Reading a compacted stream back from its text. A kept line may be written exactly like a gap
    marker, but the first and the last sixteen printed lines are always kept ones, and a kept line
    between them holds a diagnostic keyword, which no marker does: nothing is lost. */
module StreamReading {
  import opened Text
  import opened Seqs
  import opened Wrappers
  import opened CompactStream
  import opened LinePositions

  const GAP_HEAD: string := "[... "
  const GAP_TAIL: string := " lines omitted ...]"

  // ---------- numbers ----------

  predicate Digits(s: string) {
    forall i :: 0 <= i < |s| ==> '0' <= s[i] <= '9'
  }

  function ParseDecimal(s: string): (r: nat)
    requires Digits(s)
  {
    if s == "" then 0 else 10 * ParseDecimal(s[..|s| - 1]) + (s[|s| - 1] as int - '0' as int)
  }

  lemma {:induction false} ParsePrinted(n: nat)
    ensures Decimal(n) != "" && Digits(Decimal(n)) && ParseDecimal(Decimal(n)) == n
  {
    if n < 10 {
      assert Decimal(n)[..0] == "";
    } else {
      ParsePrinted(n / 10);
      var init, last := Decimal(n / 10), ('0' as int + n % 10) as char;
      assert (init + [last])[..|init|] == init;
    }
  }

  // ---------- one line ----------

  function GapText(n: nat): (r: string) {
    GAP_HEAD + Decimal(n) + GAP_TAIL
  }

  /** The number of a line that is exactly a gap marker. */
  function GapCount(line: string, head: string, tail: string): (r: Option<nat>) {
    if |line| < |head| + |tail| || line[..|head|] != head || line[|line| - |tail|..] != tail then None
    else
      var middle := line[|head|..|line| - |tail|];
      if Digits(middle) && Decimal(ParseDecimal(middle)) == middle then Some(ParseDecimal(middle)) else None
  }

  lemma GapTextParts(head: string, middle: string, tail: string)
    ensures var text := head + middle + tail;
            && text[..|head|] == head && text[|text| - |tail|..] == tail
            && text[|head|..|text| - |tail|] == middle
  {}

  lemma GapCountExactly(line: string, head: string, tail: string, n: nat)
    ensures GapCount(line, head, tail) == Some(n) <==> line == head + Decimal(n) + tail
  {
    ParsePrinted(n);
    GapTextParts(head, Decimal(n), tail);
    if GapCount(line, head, tail) == Some(n) {
      assert line == line[..|head|] + line[|head|..|line| - |tail|] + line[|line| - |tail|..];
    }
  }

  predicate LooksLikeGap(line: string) {
    GapCount(line, GAP_HEAD, GAP_TAIL).Some?
  }

  function ReadLine(line: string): (r: Item) {
    var count := GapCount(line, GAP_HEAD, GAP_TAIL);
    if count.Some? then Gap(count.value) else Keep(line)
  }

  /** A printed item is read back exactly unless it is a kept line that looks like a gap. */
  lemma ItemBack(item: Item)
    ensures ReadLine(RenderItem(item)) == item <==> (item.Keep? ==> !LooksLikeGap(item.line))
  {
    if item.Gap? {
      GapCountExactly(GapText(item.count), GAP_HEAD, GAP_TAIL, item.count);
    }
  }

  // ---------- markers hold no keyword ----------

  lemma {:induction false} DecimalDigits(n: nat)
    ensures forall i :: 0 <= i < |Decimal(n)| ==> '0' <= Decimal(n)[i] <= '9'
  {
    ParsePrinted(n);
  }

  /** None of the letters that tell the keywords from a marker, in either case. */
  predicate MarkerChar(c: char) {
    c !in "rpfx" && c !in "RPFX"
  }

  lemma MarkerCharsOf(n: nat)
    ensures forall c :: c in GapText(n) ==> MarkerChar(c)
  {
    DecimalDigits(n);
    HeadChars();
    TailChars();
    forall c | c in GapText(n)
      ensures MarkerChar(c)
    {
      if c in Decimal(n) {
        DigitIsMarkerChar(c);
      }
    }
  }

  lemma DigitIsMarkerChar(c: char)
    requires '0' <= c <= '9'
    ensures MarkerChar(c)
  {}

  lemma HeadChars()
    ensures forall c :: c in GAP_HEAD ==> MarkerChar(c)
  {}

  lemma TailChars()
    ensures forall c :: c in GAP_TAIL ==> MarkerChar(c)
  {}

  lemma LowerLacks(line: string, c: char)
    requires 'a' <= c <= 'z' && c !in line && ((c as int - 32) as char) !in line
    ensures c !in LowerAscii(line)
  {}

  /** No letter that some keyword has and no marker does. */
  predicate Keyless(lower: string) {
    'r' !in lower && 'p' !in lower && 'f' !in lower && 'x' !in lower
  }

  lemma MarkerIsKeyless(line: string)
    requires LooksLikeGap(line)
    ensures Keyless(LowerAscii(line))
  {
    var n := GapCount(line, GAP_HEAD, GAP_TAIL).value;
    GapCountExactly(line, GAP_HEAD, GAP_TAIL, n);
    MarkerCharsOf(n);
    assert forall c :: c in line ==> MarkerChar(c);
    LettersOf(line);
  }

  lemma LettersOf(line: string)
    requires forall c :: c in line ==> MarkerChar(c)
    ensures Keyless(LowerAscii(line))
  {
    assert !MarkerChar('r') && !MarkerChar('p') && !MarkerChar('f') && !MarkerChar('x');
    assert !MarkerChar('R') && !MarkerChar('P') && !MarkerChar('F') && !MarkerChar('X');
    LowerLacks(line, 'r');
    LowerLacks(line, 'p');
    LowerLacks(line, 'f');
    LowerLacks(line, 'x');
  }

  lemma KeylessLacksKeywords(lower: string, k: nat)
    requires Keyless(lower) && k < |KEYWORDS|
    ensures !Contains(lower, KEYWORDS[k])
  {
    CharLacks(lower, "error", 1);
    CharLacks(lower, "warning", 2);
    CharLacks(lower, "panic", 0);
    CharLacks(lower, "failed", 0);
    CharLacks(lower, "exception", 1);
  }

  /** A line written like a gap marker is not a diagnostic one. */
  lemma MarkersAreNotDiagnostic(line: string)
    ensures LooksLikeGap(line) ==> !IsDiagnostic(line)
  {
    if LooksLikeGap(line) {
      MarkerIsKeyless(line);
      forall k | 0 <= k < |KEYWORDS| ensures !Contains(LowerAscii(line), KEYWORDS[k]) {
        KeylessLacksKeywords(LowerAscii(line), k);
      }
    }
  }

  /** A line that was cut ends differently from any gap marker. */
  lemma TruncatedIsNoGap(line: string)
    ensures LooksLikeGap(TruncateLine(line, LINE_CHARS)) <==> |line| <= LINE_CHARS && LooksLikeGap(line)
  {
    var cut := TruncateLine(line, LINE_CHARS);
    if |line| > LINE_CHARS {
      assert cut[|cut| - |GAP_TAIL|..][|GAP_TAIL| - 2] == cut[|cut| - 2] == TRUNCATION_MARK[|TRUNCATION_MARK| - 2];
    }
  }

  lemma KeptDiagnosticIsNoGap(line: string)
    requires IsDiagnostic(line)
    ensures !LooksLikeGap(TruncateLine(line, LINE_CHARS))
  {
    TruncatedIsNoGap(line);
    MarkersAreNotDiagnostic(line);
  }

  // ---------- the shape of the printed list ----------

  /** The lines from `from` up to `to`, all kept. */
  function Kept(lines: seq<string>, from: nat, to: nat): (r: seq<Item>)
    requires from <= to <= |lines|
    ensures |r| == to - from
  {
    if from == to then [] else Kept(lines, from, to - 1) + [Keep(TruncateLine(lines[to - 1], LINE_CHARS))]
  }

  ghost predicate AllKept(items: seq<Item>) {
    forall k :: 0 <= k < |items| ==> items[k].Keep?
  }

  lemma {:induction false} KeptAreKept(lines: seq<string>, from: nat, to: nat)
    requires from <= to <= |lines|
    ensures AllKept(Kept(lines, from, to))
  {
    if from < to { KeptAreKept(lines, from, to - 1); }
  }

  /** A selected line right after a selected line is printed without a gap. */
  lemma NextKept(lines: seq<string>, selected: set<nat>, i: nat)
    requires 0 < i < |lines| && i - 1 in selected && i in selected
    ensures ItemsBelow(lines, selected, i + 1)
         == ItemsBelow(lines, selected, i) + [Keep(TruncateLine(lines[i], LINE_CHARS))]
  {
    assert LastBelow(selected, i) == Some(i - 1);
  }

  /** An unbroken stretch of selected lines prints the gap before it and then those lines. */
  lemma {:induction false} Stretch(lines: seq<string>, selected: set<nat>, from: nat, to: nat)
    requires from < to <= |lines| && forall i :: from <= i < to ==> i in selected
    ensures ItemsBelow(lines, selected, to)
         == ItemsBelow(lines, selected, from) + GapTo(LastBelow(selected, from), from) + Kept(lines, from, to)
  {
    if to == from + 1 {
      assert Kept(lines, from, to) == [Keep(TruncateLine(lines[from], LINE_CHARS))];
    } else {
      Stretch(lines, selected, from, to - 1);
      NextKept(lines, selected, to - 1);
      Associative(ItemsBelow(lines, selected, from) + GapTo(LastBelow(selected, from), from),
                  Kept(lines, from, to - 1), [Keep(TruncateLine(lines[to - 1], LINE_CHARS))]);
    }
  }

  /** No kept line is like that. */
  ghost predicate NoneLike(items: seq<Item>, like: string -> bool) {
    forall k :: 0 <= k < |items| && items[k].Keep? ==> !like(items[k].line)
  }

  lemma NoneLikePush(items: seq<Item>, gap: seq<Item>, kept: Item, like: string -> bool)
    requires NoneLike(items, like) && |gap| <= 1 && (gap != [] ==> gap[0].Gap?)
    requires kept.Keep? && !like(kept.line)
    ensures NoneLike(items + gap + [kept], like)
  {}

  /** What the lines from `from` up to `to` print, if none of those selected is like that. */
  lemma {:induction false} Middle(lines: seq<string>, selected: set<nat>, from: nat, to: nat, like: string -> bool)
      returns (middle: seq<Item>)
    requires from <= to <= |lines|
    requires forall i :: from <= i < to && i in selected ==> !like(TruncateLine(lines[i], LINE_CHARS))
    ensures ItemsBelow(lines, selected, to) == ItemsBelow(lines, selected, from) + middle
    ensures NoneLike(middle, like)
  {
    if from == to {
      middle := [];
      assert ItemsBelow(lines, selected, from) + [] == ItemsBelow(lines, selected, from);
    } else {
      middle := Middle(lines, selected, from, to - 1, like);
      if to - 1 in selected {
        var gap := GapTo(LastBelow(selected, to - 1), to - 1);
        var kept := Keep(TruncateLine(lines[to - 1], LINE_CHARS));
        NoneLikePush(middle, gap, kept, like);
        Regroup(ItemsBelow(lines, selected, from), middle, gap, [kept]);
        middle := middle + gap + [kept];
      }
    }
  }

  lemma Regroup(a: seq<Item>, b: seq<Item>, c: seq<Item>, d: seq<Item>)
    ensures a + b + c + d == a + (b + c + d)
  {}

  lemma {:induction false} AllKeptWidth(items: seq<Item>)
    requires AllKept(items)
    ensures Width(items) == |items|
  {
    if items != [] { AllKeptWidth(items[..|items| - 1]); }
  }

  lemma HeadStretch(lines: seq<string>, selected: set<nat>, to: nat)
    requires 0 < to <= |lines| && forall i :: 0 <= i < to ==> i in selected
    ensures ItemsBelow(lines, selected, to) == Kept(lines, 0, to)
  {
    Stretch(lines, selected, 0, to);
    assert ItemsBelow(lines, selected, 0) == [] && GapTo(LastBelow(selected, 0), 0) == [];
  }

  /** Head and tail are selected, and between them only diagnostic lines. */
  ghost predicate HeadTailDiagnostics(lines: seq<string>, selected: set<nat>, t: nat)
    requires t <= |lines|
  {
    && (forall i :: 0 <= i < HEAD_LINES ==> i in selected)
    && (forall i :: t <= i < |lines| ==> i in selected)
    && (forall i :: HEAD_LINES <= i < t && i in selected ==> IsDiagnostic(lines[i]))
  }

  lemma SelectionParts(lines: seq<string>, selected: set<nat>)
    requires |lines| > HEAD_LINES + TAIL_LINES && IsSelection(lines, IsDiagnostic, selected)
    ensures HeadTailDiagnostics(lines, selected, |lines| - TAIL_LINES)
  {}

  /** A long stream prints its first sixteen lines, something in between that holds no line
      written like a marker, and its last sixteen lines. */
  lemma LongShape(lines: seq<string>, selected: set<nat>, t: nat) returns (middle: seq<Item>)
    requires HEAD_LINES <= t < |lines| && HeadTailDiagnostics(lines, selected, t)
    ensures ItemsBelow(lines, selected, |lines|) == Kept(lines, 0, HEAD_LINES) + middle + Kept(lines, t, |lines|)
    ensures NoneLike(middle, LooksLikeGap)
  {
    HeadStretch(lines, selected, HEAD_LINES);
    forall i | HEAD_LINES <= i < t && i in selected
      ensures !LooksLikeGap(TruncateLine(lines[i], LINE_CHARS))
    {
      KeptDiagnosticIsNoGap(lines[i]);
    }
    middle := Middle(lines, selected, HEAD_LINES, t, LooksLikeGap);
    Stretch(lines, selected, t, |lines|);
    var gap := GapTo(LastBelow(selected, t), t);
    Associative(Kept(lines, 0, HEAD_LINES), middle, gap);
    NoneLikeGap(middle, gap, LooksLikeGap);
    middle := middle + gap;
  }

  lemma NoneLikeGap(items: seq<Item>, gap: seq<Item>, like: string -> bool)
    requires NoneLike(items, like) && |gap| <= 1 && (gap != [] ==> gap[0].Gap?)
    ensures NoneLike(items + gap, like)
  {}

  lemma MiddleNotEmpty(lines: seq<string>, middle: seq<Item>)
    requires |lines| > HEAD_LINES + TAIL_LINES
    requires Width(Kept(lines, 0, HEAD_LINES) + middle + Kept(lines, |lines| - TAIL_LINES, |lines|)) == |lines|
    ensures middle != []
  {
    var head, tail := Kept(lines, 0, HEAD_LINES), Kept(lines, |lines| - TAIL_LINES, |lines|);
    if middle == [] {
      KeptAreKept(lines, 0, HEAD_LINES);
      KeptAreKept(lines, |lines| - TAIL_LINES, |lines|);
      AllKeptWidth(head + middle + tail);
      assert false;
    }
  }

  // ---------- reading ----------

  function KeepLine(line: string): (r: Item) {
    Keep(line)
  }

  /** Up to thirty-two lines are all kept ones; of more, the first and the last sixteen are, and
      those between them are read one by one. */
  function ReadStream(parts: seq<string>): (r: seq<Item>) {
    if |parts| <= HEAD_LINES + TAIL_LINES then Map(KeepLine, parts)
    else
      var t := |parts| - TAIL_LINES;
      Map(KeepLine, parts[..HEAD_LINES]) + Map(ReadLine, parts[HEAD_LINES..t]) + Map(KeepLine, parts[t..])
  }

  lemma ReadKept(items: seq<Item>)
    requires AllKept(items)
    ensures Map(KeepLine, Map(RenderItem, items)) == items
  {}

  lemma ReadMiddle(items: seq<Item>)
    requires NoneLike(items, LooksLikeGap)
    ensures Map(ReadLine, Map(RenderItem, items)) == items
  {
    forall k | 0 <= k < |items| ensures ReadLine(RenderItem(items[k])) == items[k] {
      ItemBack(items[k]);
    }
  }

  lemma ReadThree(head: seq<Item>, middle: seq<Item>, tail: seq<Item>)
    requires |head| == HEAD_LINES && |tail| == TAIL_LINES && middle != []
    requires AllKept(head) && NoneLike(middle, LooksLikeGap) && AllKept(tail)
    ensures ReadStream(Map(RenderItem, head + middle + tail)) == head + middle + tail
  {
    var parts := Map(RenderItem, head + middle + tail);
    var t := |parts| - TAIL_LINES;
    assert parts[..HEAD_LINES] == Map(RenderItem, head);
    assert parts[HEAD_LINES..t] == Map(RenderItem, middle);
    assert parts[t..] == Map(RenderItem, tail);
    ReadKept(head);
    ReadMiddle(middle);
    ReadKept(tail);
  }

  lemma ShortReadBack(lines: seq<string>, selected: set<nat>)
    requires 0 < |lines| <= HEAD_LINES + TAIL_LINES && IsSelection(lines, IsDiagnostic, selected)
    ensures var items := ItemsBelow(lines, selected, |lines|);
            ReadStream(Map(RenderItem, items)) == items
  {
    HeadStretch(lines, selected, |lines|);
    KeptAreKept(lines, 0, |lines|);
    ReadKept(Kept(lines, 0, |lines|));
  }

  /** The three parts that a long stream prints. */
  lemma LongParts(lines: seq<string>, selected: set<nat>, items: seq<Item>) returns (middle: seq<Item>)
    requires |lines| > HEAD_LINES + TAIL_LINES
    requires HeadTailDiagnostics(lines, selected, |lines| - TAIL_LINES)
    requires items == ItemsBelow(lines, selected, |lines|) && Width(items) == |lines|
    ensures items == Kept(lines, 0, HEAD_LINES) + middle + Kept(lines, |lines| - TAIL_LINES, |lines|)
    ensures middle != [] && NoneLike(middle, LooksLikeGap)
  {
    middle := LongShape(lines, selected, |lines| - TAIL_LINES);
    MiddleNotEmpty(lines, middle);
  }

  lemma LongReadBack(lines: seq<string>, selected: set<nat>)
    requires |lines| > HEAD_LINES + TAIL_LINES
    requires HeadTailDiagnostics(lines, selected, |lines| - TAIL_LINES)
    requires Width(ItemsBelow(lines, selected, |lines|)) == |lines|
    ensures var items := ItemsBelow(lines, selected, |lines|);
            ReadStream(Map(RenderItem, items)) == items
  {
    var middle := LongParts(lines, selected, ItemsBelow(lines, selected, |lines|));
    KeptAreKept(lines, 0, HEAD_LINES);
    KeptAreKept(lines, |lines| - TAIL_LINES, |lines|);
    ReadThree(Kept(lines, 0, HEAD_LINES), middle, Kept(lines, |lines| - TAIL_LINES, |lines|));
  }

  /** Reading the printed items gives them back, whatever the lines are. */
  lemma ItemsReadBack(lines: seq<string>)
    requires lines != []
    ensures ReadStream(Map(RenderItem, StreamItems(lines, IsDiagnostic))) == StreamItems(lines, IsDiagnostic)
  {
    StreamDecodes(lines, IsDiagnostic);
    NoTrailingGap(lines, IsDiagnostic);
    SelectionOf(lines);
    if |lines| <= HEAD_LINES + TAIL_LINES {
      ShortReadBack(lines, Selected(lines, IsDiagnostic));
    } else {
      SelectionParts(lines, Selected(lines, IsDiagnostic));
      LongReadBack(lines, Selected(lines, IsDiagnostic));
    }
  }

  lemma SelectionOf(lines: seq<string>)
    ensures IsSelection(lines, IsDiagnostic, Selected(lines, IsDiagnostic))
  {}

  // ---------- the text ----------

  ghost predicate AllSingle(lines: seq<string>) {
    forall i :: 0 <= i < |lines| ==> '\n' !in lines[i]
  }

  ghost predicate SingleLines(items: seq<Item>) {
    forall k :: 0 <= k < |items| && items[k].Keep? ==> '\n' !in items[k].line
  }

  lemma RenderPlain(item: Item)
    requires item.Keep? ==> '\n' !in item.line
    ensures '\n' !in RenderItem(item)
  {
    if item.Gap? {
      DecimalDigits(item.count);
      assert '\n' !in GAP_HEAD && '\n' !in GAP_TAIL;
    }
  }

  lemma PrintedLines(items: seq<Item>)
    requires items != [] && SingleLines(items)
    ensures Split(RenderItems(items), '\n') == Map(RenderItem, items)
  {
    var parts := Map(RenderItem, items);
    forall i | 0 <= i < |parts| ensures '\n' !in parts[i] { RenderPlain(items[i]); }
    assert RenderItems(items) == Join(parts, '\n') by {
      assert parts == seq(|items|, i requires 0 <= i < |items| => RenderItem(items[i]));
    }
    SplitJoin(parts, '\n');
  }

  lemma TruncatedIsSingle(line: string)
    requires '\n' !in line
    ensures '\n' !in TruncateLine(line, LINE_CHARS)
  {
    assert '\n' !in TRUNCATION_MARK;
  }

  lemma SinglePush(items: seq<Item>, gap: seq<Item>, kept: Item)
    requires SingleLines(items) && |gap| <= 1 && (gap != [] ==> gap[0].Gap?)
    requires kept.Keep? && '\n' !in kept.line
    ensures SingleLines(items + gap + [kept])
  {}

  lemma {:induction false} ItemsSingle(lines: seq<string>, selected: set<nat>, n: nat)
    requires AllSingle(lines) && n <= |lines|
    ensures SingleLines(ItemsBelow(lines, selected, n))
  {
    if n > 0 {
      ItemsSingle(lines, selected, n - 1);
      if n - 1 in selected {
        TruncatedIsSingle(lines[n - 1]);
        SinglePush(ItemsBelow(lines, selected, n - 1), GapTo(LastBelow(selected, n - 1), n - 1),
                   Keep(TruncateLine(lines[n - 1], LINE_CHARS)));
      }
    }
  }

  lemma LinesAreSingle(text: string)
    ensures AllSingle(Lines(text))
  {
    var feeds := Feeds(text, |text|);
    LinesByPosition(text, feeds);
    forall i | 0 <= i < |Lines(text)| ensures '\n' !in Lines(text)[i] {
      LineIsSingle(text, feeds, i);
    }
  }

  lemma PrintedBack(lines: seq<string>)
    requires lines != [] && AllSingle(lines)
    ensures ReadStream(Split(RenderItems(StreamItems(lines, IsDiagnostic)), '\n')) == StreamItems(lines, IsDiagnostic)
  {
    StreamDecodes(lines, IsDiagnostic);
    NoTrailingGap(lines, IsDiagnostic);
    ItemsSingle(lines, Selected(lines, IsDiagnostic), |lines|);
    PrintedLines(StreamItems(lines, IsDiagnostic));
    ItemsReadBack(lines);
  }

  /** Every compacted text tells which lines were kept and how many were left out between them. */
  lemma CompactReadsBack(text: string)
    requires Compresses(Lines(text))
    ensures ReadStream(Split(Compact(text), '\n')) == StreamItems(Lines(text), IsDiagnostic)
  {
    LinesAreSingle(text);
    PrintedBack(Lines(text));
  }

  lemma {:induction false} SameAt(items: seq<Item>, a: seq<string>, b: seq<string>, p: nat)
    requires Faithful(items, a) && Faithful(items, b) && p in Positions(items)
    ensures p < |a| && p < |b| && TruncateLine(a[p], LINE_CHARS) == TruncateLine(b[p], LINE_CHARS)
  {
    var init := items[..|items| - 1];
    if p in Positions(init) { SameAt(init, a, b, p); }
  }

  /** So two streams with the same compacted text have equally many lines, the same selected
      positions, and the same lines there up to truncation. */
  lemma CompactDetermines(a: string, b: string)
    requires Compresses(Lines(a)) && Compresses(Lines(b)) && Compact(a) == Compact(b)
    ensures StreamItems(Lines(a), IsDiagnostic) == StreamItems(Lines(b), IsDiagnostic)
    ensures |Lines(a)| == |Lines(b)| && Selected(Lines(a), IsDiagnostic) == Selected(Lines(b), IsDiagnostic)
    ensures forall i :: i in Selected(Lines(a), IsDiagnostic) ==> i < |Lines(a)|
    ensures forall i :: i in Selected(Lines(a), IsDiagnostic) ==>
      TruncateLine(Lines(a)[i], LINE_CHARS) == TruncateLine(Lines(b)[i], LINE_CHARS)
  {
    CompactReadsBack(a);
    CompactReadsBack(b);
    SameItems(Lines(a), Lines(b), IsDiagnostic);
  }

  lemma SameItems(a: seq<string>, b: seq<string>, diagnostic: string -> bool)
    requires a != [] && b != [] && StreamItems(a, diagnostic) == StreamItems(b, diagnostic)
    ensures |a| == |b| && Selected(a, diagnostic) == Selected(b, diagnostic)
    ensures forall i :: i in Selected(a, diagnostic) ==> i < |a|
    ensures forall i :: i in Selected(a, diagnostic) ==>
      TruncateLine(a[i], LINE_CHARS) == TruncateLine(b[i], LINE_CHARS)
  {
    StreamDecodes(a, diagnostic);
    StreamDecodes(b, diagnostic);
    EndsSelected(a, diagnostic);
    forall i | i in Selected(a, diagnostic)
      ensures TruncateLine(a[i], LINE_CHARS) == TruncateLine(b[i], LINE_CHARS)
    {
      SameAt(StreamItems(a, diagnostic), a, b, i);
    }
  }

  // ---------- the compacted text by position ----------

  /** A line as it is printed. */
  function Shortened(line: string): (r: string) {
    if |line| <= 1200 then line else line[..1200] + "... [line truncated]"
  }

  lemma {:induction false} KeptAt(lines: seq<string>, from: nat, to: nat, k: nat)
    requires from + k < to <= |lines|
    ensures Kept(lines, from, to)[k] == Keep(Shortened(lines[from + k]))
  {
    if from + k < to - 1 { KeptAt(lines, from, to - 1, k); }
  }

  lemma KeptPrinted(lines: seq<string>, from: nat, to: nat)
    requires from <= to <= |lines|
    ensures Map(RenderItem, Kept(lines, from, to)) == Map(Shortened, lines[from..to])
  {
    forall k | 0 <= k < to - from
      ensures RenderItem(Kept(lines, from, to)[k]) == Shortened(lines[from..to][k])
    {
      KeptAt(lines, from, to, k);
    }
  }

  /** Up to thirty-two lines are all printed; of more, the first and the last sixteen printed lines
      are the first and the last sixteen lines. */
  ghost predicate HeadAndTail(parts: seq<string>, lines: seq<string>) {
    if |lines| <= 32 then parts == Map(Shortened, lines)
    else
      && |parts| > 32
      && parts[..16] == Map(Shortened, lines[..16])
      && parts[|parts| - 16..] == Map(Shortened, lines[|lines| - 16..])
  }

  lemma ShortHeadAndTail(lines: seq<string>, selected: set<nat>)
    requires 0 < |lines| <= HEAD_LINES + TAIL_LINES && IsSelection(lines, IsDiagnostic, selected)
    ensures HeadAndTail(Map(RenderItem, ItemsBelow(lines, selected, |lines|)), lines)
  {
    HeadStretch(lines, selected, |lines|);
    KeptPrinted(lines, 0, |lines|);
    assert lines[0..|lines|] == lines;
  }

  lemma LongHeadAndTail(lines: seq<string>, selected: set<nat>)
    requires |lines| > HEAD_LINES + TAIL_LINES
    requires HeadTailDiagnostics(lines, selected, |lines| - TAIL_LINES)
    requires Width(ItemsBelow(lines, selected, |lines|)) == |lines|
    ensures HeadAndTail(Map(RenderItem, ItemsBelow(lines, selected, |lines|)), lines)
  {
    var middle := LongParts(lines, selected, ItemsBelow(lines, selected, |lines|));
    PartsHeadAndTail(lines, middle);
  }

  lemma PartsHeadAndTail(lines: seq<string>, middle: seq<Item>)
    requires |lines| > 32 && middle != []
    ensures HeadAndTail(Map(RenderItem, Kept(lines, 0, 16) + middle + Kept(lines, |lines| - 16, |lines|)), lines)
  {
    var t := |lines| - 16;
    KeptPrinted(lines, 0, 16);
    KeptPrinted(lines, t, |lines|);
    assert lines[0..16] == lines[..16] && lines[t..|lines|] == lines[t..];
    ThreePrinted(Kept(lines, 0, 16), middle, Kept(lines, t, |lines|));
  }

  lemma ThreePrinted(head: seq<Item>, middle: seq<Item>, tail: seq<Item>)
    requires |head| == 16 == |tail|
    ensures var parts := Map(RenderItem, head + middle + tail);
            && |parts| == 32 + |middle|
            && parts[..16] == Map(RenderItem, head)
            && parts[|parts| - 16..] == Map(RenderItem, tail)
  {
    MapAppend(RenderItem, head + middle, tail);
    MapAppend(RenderItem, head, middle);
  }

  lemma PrintedHeadAndTail(lines: seq<string>)
    requires lines != [] && AllSingle(lines)
    ensures HeadAndTail(Split(RenderItems(StreamItems(lines, IsDiagnostic)), '\n'), lines)
  {
    StreamDecodes(lines, IsDiagnostic);
    NoTrailingGap(lines, IsDiagnostic);
    ItemsSingle(lines, Selected(lines, IsDiagnostic), |lines|);
    PrintedLines(StreamItems(lines, IsDiagnostic));
    SelectionOf(lines);
    if |lines| <= HEAD_LINES + TAIL_LINES {
      ShortHeadAndTail(lines, Selected(lines, IsDiagnostic));
    } else {
      SelectionParts(lines, Selected(lines, IsDiagnostic));
      LongHeadAndTail(lines, Selected(lines, IsDiagnostic));
    }
  }

  /** The stretches of the text between its line feeds. */
  function Stretches(text: string, feeds: seq<nat>): (r: seq<string>)
    ensures |r| == LineCount(text, feeds)
    ensures forall i :: 0 <= i < |r| ==> r[i] == LineAt(text, feeds, i)
  {
    seq(LineCount(text, feeds), i requires 0 <= i < LineCount(text, feeds) => LineAt(text, feeds, i))
  }

  /** A text of at most thirty-two lines, none over 1,200 characters, stays as it is; of any other
      the first and the last printed lines are the first and the last stretches of the text, in
      their order and cut after 1,200 characters. */
  lemma CompactByPosition(text: string, feeds: seq<nat>)
    requires IsFeeds(text, feeds)
    ensures var lines := Stretches(text, feeds);
            if |lines| <= 32 && (forall i :: 0 <= i < |lines| ==> |lines[i]| <= 1200) then Compact(text) == text
            else HeadAndTail(Split(Compact(text), '\n'), lines)
  {
    var lines := Stretches(text, feeds);
    LinesByPosition(text, feeds);
    assert Lines(text) == lines;
    LinesAreSingle(text);
    if Compresses(lines) {
      PrintedHeadAndTail(lines);
    }
  }

  // ---------- diagnostic lines ----------

  /** The letters of `word` stand at `at`, in either case. */
  ghost predicate SpeltAt(line: string, word: string, at: nat) {
    at + |word| <= |line| &&
    forall j :: 0 <= j < |word| ==> line[at + j] == word[j] || line[at + j] as int + 32 == word[j] as int
  }

  ghost predicate Spelt(line: string, word: string) {
    exists at: nat :: SpeltAt(line, word, at)
  }

  predicate LowerLetters(word: string) {
    forall j :: 0 <= j < |word| ==> 'a' <= word[j] <= 'z'
  }

  lemma SpeltExactly(line: string, word: string)
    requires LowerLetters(word)
    ensures Contains(LowerAscii(line), word) <==> Spelt(line, word)
  {
    var lower := LowerAscii(line);
    var k := IndexOf(lower, word);
    if k >= 0 {
      assert lower[k..k + |word|] == word;
      forall j | 0 <= j < |word|
        ensures line[k + j] == word[j] || line[k + j] as int + 32 == word[j] as int
      {
        assert lower[k..k + |word|][j] == lower[k + j];
      }
      assert SpeltAt(line, word, k);
    }
    if at: nat :| SpeltAt(line, word, at) {
      LowerSpelt(line, word, at);
      assert OccursAt(lower, word, at);
    }
  }

  lemma LowerSpelt(line: string, word: string, at: nat)
    requires LowerLetters(word) && SpeltAt(line, word, at)
    ensures LowerAscii(line)[at..at + |word|] == word
  {
    var lower := LowerAscii(line);
    forall j | 0 <= j < |word| ensures lower[at..at + |word|][j] == word[j] {
      assert line[at + j] == word[j] || line[at + j] as int + 32 == word[j] as int;
    }
  }

  lemma WordsAreLower()
    ensures LowerLetters("error") && LowerLetters("warning") && LowerLetters("panic")
    ensures LowerLetters("failed") && LowerLetters("exception")
  {}

  /** A line is diagnostic if and only if one of the five words stands in it, in any case. */
  lemma DiagnosticExactly(line: string)
    ensures IsDiagnostic(line)
       <==> Spelt(line, "error") || Spelt(line, "warning") || Spelt(line, "panic") || Spelt(line, "failed")
            || Spelt(line, "exception")
  {
    WordsAreLower();
    SpeltExactly(line, "error");
    SpeltExactly(line, "warning");
    SpeltExactly(line, "panic");
    SpeltExactly(line, "failed");
    SpeltExactly(line, "exception");
    KeywordContained(LowerAscii(line));
  }

  lemma KeywordContained(lower: string)
    ensures (exists k :: 0 <= k < |KEYWORDS| && Contains(lower, KEYWORDS[k]))
       <==> Contains(lower, "error") || Contains(lower, "warning") || Contains(lower, "panic")
            || Contains(lower, "failed") || Contains(lower, "exception")
  {
    assert KEYWORDS[0] == "error" && KEYWORDS[1] == "warning" && KEYWORDS[2] == "panic";
    assert KEYWORDS[3] == "failed" && KEYWORDS[4] == "exception";
  }

  /** The distinct diagnostic lines before position `i`. */
  function DiagnosticsBefore(lines: seq<string>, i: nat): (r: set<string>)
    requires i <= |lines|
  {
    set line | line in lines[..i] && IsDiagnostic(line)
  }

  lemma BeforeCounted(lines: seq<string>, i: nat)
    requires i <= |lines|
    ensures |DiagnosticsBefore(lines, i)| == Rank(lines, IsDiagnostic, i)
  {
    ValuesSize(lines, IsDiagnostic, i);
    assert DiagnosticsBefore(lines, i) == DiagnosticValues(lines, IsDiagnostic, i);
  }

  /** A line is selected if and only if it is one of the first or last sixteen, or the first of its
      kind among the diagnostic lines and one of the first sixteen kinds. */
  lemma SelectedExactly(lines: seq<string>, i: nat)
    requires i < |lines|
    ensures i in Selected(lines, IsDiagnostic)
       <==> || i < 16 || |lines| <= i + 16
            || (IsDiagnostic(lines[i]) && lines[i] !in lines[..i] && |DiagnosticsBefore(lines, i)| < 16)
  {
    SelectionOf(lines);
    BeforeCounted(lines, i);
    FirstOfKind(lines, i);
  }

  lemma FirstOfKind(lines: seq<string>, i: nat)
    requires i < |lines|
    ensures FirstDiagnostic(lines, IsDiagnostic, i) <==> IsDiagnostic(lines[i]) && lines[i] !in lines[..i]
  {}
}
