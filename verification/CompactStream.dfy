/** The stream compactor of the tool-output compressor: which lines of a long command
    output survive, how the omitted stretches are marked, and what can be read back from
    the marks. */
module CompactStream {
  import opened Text
  import opened Wrappers

  const HEAD_LINES: nat := 16
  const TAIL_LINES: nat := 16
  const DIAGNOSTIC_LINES: nat := 16
  const LINE_CHARS: nat := 1200
  const TRUNCATION_MARK := "... [line truncated]"
  const KEYWORDS := ["error", "warning", "panic", "failed", "exception"]

  /** One line of the compacted output. */
  datatype Item = Keep(line: string) | Gap(count: nat)

  // ---------- single lines ----------

  function LowerAscii(s: string): (r: string) {
    seq(|s|, i requires 0 <= i < |s| =>
      if 'A' <= s[i] <= 'Z' then ((s[i] as int) + 32) as char else s[i])
  }

  predicate IsDiagnostic(line: string) {
    exists k :: 0 <= k < |KEYWORDS| && Contains(LowerAscii(line), KEYWORDS[k])
  }

  function TruncateLine(line: string, maxChars: nat): (r: string)
    ensures |r| <= maxChars + |TRUNCATION_MARK|
  {
    if |line| <= maxChars then line else line[..maxChars] + TRUNCATION_MARK
  }

  /** Truncating a truncated line changes nothing more. */
  lemma TruncateIdempotent(line: string, maxChars: nat)
    ensures TruncateLine(TruncateLine(line, maxChars), maxChars) == TruncateLine(line, maxChars)
  {
    if |line| > maxChars {
      assert TruncateLine(line, maxChars)[..maxChars] == line[..maxChars];
    }
  }

  function Decimal(n: nat): (r: string) {
    if n < 10 then [('0' as int + n) as char] else Decimal(n / 10) + [('0' as int + n % 10) as char]
  }

  function RenderItem(item: Item): (r: string) {
    match item
    case Keep(line) => line
    case Gap(count) => "[... " + Decimal(count) + " lines omitted ...]"
  }

  function RenderItems(items: seq<Item>): (r: string) {
    Join(seq(|items|, i requires 0 <= i < |items| => RenderItem(items[i])), '\n')
  }

  // ---------- which lines are selected ----------

  /** `lines[i]` is diagnostic and no earlier line is identical. */
  predicate FirstDiagnostic(lines: seq<string>, diagnostic: string -> bool, i: nat) {
    i < |lines| && diagnostic(lines[i]) && lines[i] !in lines[..i]
  }

  /** How many distinct diagnostic lines the first `n` lines hold. */
  function Rank(lines: seq<string>, diagnostic: string -> bool, n: nat): (r: nat)
    requires n <= |lines|
  {
    if n == 0 then 0
    else Rank(lines, diagnostic, n - 1) + (if FirstDiagnostic(lines, diagnostic, n - 1) then 1 else 0)
  }

  /** The distinct diagnostic lines among the first `n`. */
  function DiagnosticValues(lines: seq<string>, diagnostic: string -> bool, n: nat): (r: set<string>)
    requires n <= |lines|
    ensures forall v {:trigger v in r} :: v in r <==> diagnostic(v) && v in lines[..n]
  {
    if n == 0 then {}
    else
      assert lines[..n] == lines[..n - 1] + [lines[n - 1]];
      DiagnosticValues(lines, diagnostic, n - 1)
      + (if diagnostic(lines[n - 1]) then {lines[n - 1]} else {})
  }

  /** The first sixteen distinct diagnostic lines, as far as position `n`. */
  function Chosen(lines: seq<string>, diagnostic: string -> bool, n: nat): (r: set<nat>)
    requires n <= |lines|
    ensures forall i {:trigger i in r} :: i in r <==>
      0 <= i < n && FirstDiagnostic(lines, diagnostic, i) && Rank(lines, diagnostic, i) < DIAGNOSTIC_LINES
  {
    if n == 0 then {}
    else
      Chosen(lines, diagnostic, n - 1)
      + (if FirstDiagnostic(lines, diagnostic, n - 1) && Rank(lines, diagnostic, n - 1) < DIAGNOSTIC_LINES
         then {n - 1} else {})
  }

  function TailStart(count: nat): (r: nat) {
    if count <= TAIL_LINES then 0 else count - TAIL_LINES
  }

  function HeadEnd(count: nat): (r: nat) {
    if count <= HEAD_LINES then count else HEAD_LINES
  }

  /** The indices from `lo` up to but not including `hi`. */
  function Range(lo: nat, hi: nat): (r: set<nat>)
    requires lo <= hi
    ensures forall i {:trigger i in r} :: i in r <==> lo <= i < hi
  {
    if lo == hi then {} else Range(lo, hi - 1) + {hi - 1}
  }

  function Selected(lines: seq<string>, diagnostic: string -> bool): (r: set<nat>) {
    var n := |lines|;
    Range(0, HeadEnd(n)) + Range(TailStart(n), n) + Chosen(lines, diagnostic, n)
  }

  predicate HasLongLine(lines: seq<string>) {
    exists i :: 0 <= i < |lines| && |lines[i]| > LINE_CHARS
  }

  /** The guard of the compressing path. */
  predicate Compresses(lines: seq<string>) {
    lines != [] && (|lines| > HEAD_LINES + TAIL_LINES || HasLongLine(lines))
  }

  // ---------- the printed items ----------

  /** The greatest selected index below `n`. */
  function LastBelow(selected: set<nat>, n: nat): (r: Option<nat>)
    ensures r.Some? ==> r.value < n && r.value in selected
    ensures forall i {:trigger i in selected} ::
      (if r.Some? then r.value < i else 0 <= i) && i < n ==> i !in selected
  {
    if n == 0 then None
    else if n - 1 in selected then Some(n - 1)
    else LastBelow(selected, n - 1)
  }

  /** The marker for the lines strictly between the last selected line and `index`. */
  function GapTo(previous: Option<nat>, index: nat): (r: seq<Item>)
    requires previous.Some? ==> previous.value < index
  {
    if previous.Some? && index > previous.value + 1 then [Gap(index - previous.value - 1)] else []
  }

  /** What the selected indices below `n` print. */
  function ItemsBelow(lines: seq<string>, selected: set<nat>, n: nat): (r: seq<Item>)
    requires n <= |lines|
  {
    if n == 0 then []
    else if n - 1 !in selected then ItemsBelow(lines, selected, n - 1)
    else ItemsBelow(lines, selected, n - 1)
         + GapTo(LastBelow(selected, n - 1), n - 1)
         + [Keep(TruncateLine(lines[n - 1], LINE_CHARS))]
  }

  function StreamItems(lines: seq<string>, diagnostic: string -> bool): (r: seq<Item>) {
    var selected := Selected(lines, diagnostic);
    ItemsBelow(lines, selected, |lines|) + GapTo(LastBelow(selected, |lines|), |lines|)
  }

  function Compact(text: string): (r: string) {
    var lines := Lines(text);
    if Compresses(lines) then RenderItems(StreamItems(lines, IsDiagnostic)) else text
  }

  // ---------- the loops ----------

  method CompactText(text: string) returns (out: string)
    ensures out == Compact(text)
  {
    var lines := Lines(text);
    if |lines| == 0 {
      return text;
    }
    if |lines| <= HEAD_LINES + TAIL_LINES && !HasLongLine(lines) {
      return text;
    }
    var selected := SelectLines(lines, IsDiagnostic);
    var items := EmitItems(lines, selected);
    out := RenderItems(items);
  }

  /** Head, tail and the first distinct diagnostic lines, counted while scanning. */
  method SelectLines(lines: seq<string>, diagnostic: string -> bool) returns (selected: set<nat>)
    ensures selected == Selected(lines, diagnostic)
  {
    selected := {};
    for index := 0 to HeadEnd(|lines|)
      invariant selected == Range(0, index)
    {
      selected := selected + {index};
    }
    for index := TailStart(|lines|) to |lines|
      invariant selected == Range(0, HeadEnd(|lines|)) + Range(TailStart(|lines|), index)
    {
      selected := selected + {index};
    }
    var chosen := SelectDiagnostics(lines, diagnostic);
    selected := selected + chosen;
  }

  method SelectDiagnostics(lines: seq<string>, diagnostic: string -> bool) returns (chosen: set<nat>)
    ensures chosen == Chosen(lines, diagnostic, |lines|)
  {
    chosen := {};
    var diagnosticCount := 0;
    var diagnosticLines: set<string> := {};
    for index := 0 to |lines|
      invariant diagnosticCount == Rank(lines, diagnostic, index)
      invariant diagnosticLines == DiagnosticValues(lines, diagnostic, index)
      invariant chosen == Chosen(lines, diagnostic, index)
    {
      if diagnosticCount >= DIAGNOSTIC_LINES {
        ChosenStops(lines, diagnostic, index);
        return;
      }
      if !diagnostic(lines[index]) || lines[index] in diagnosticLines {
        continue;
      }
      diagnosticLines := diagnosticLines + {lines[index]};
      diagnosticCount := diagnosticCount + 1;
      chosen := chosen + {index};
    }
  }

  /** The selected lines in ascending order, with a marker wherever indices were skipped. */
  method EmitItems(lines: seq<string>, selected: set<nat>) returns (items: seq<Item>)
    ensures items == ItemsBelow(lines, selected, |lines|) + GapTo(LastBelow(selected, |lines|), |lines|)
  {
    items := [];
    var previous: Option<nat> := None;
    for index := 0 to |lines|
      invariant items == ItemsBelow(lines, selected, index)
      invariant previous == LastBelow(selected, index)
    {
      if index in selected {
        if previous.Some? {
          if index > previous.value + 1 {
            items := items + [Gap(index - previous.value - 1)];
          }
        }
        items := items + [Keep(TruncateLine(lines[index], LINE_CHARS))];
        previous := Some(index);
      }
    }
    if previous.Some? {
      if previous.value + 1 < |lines| {
        items := items + [Gap(|lines| - previous.value - 1)];
      }
    }
  }

  lemma {:induction false} RankMonotone(lines: seq<string>, diagnostic: string -> bool, m: nat, n: nat)
    requires m <= n <= |lines|
    ensures Rank(lines, diagnostic, m) <= Rank(lines, diagnostic, n)
  {
    if m < n { RankMonotone(lines, diagnostic, m, n - 1); }
  }

  /** Once sixteen are chosen, scanning on would choose nothing more. */
  lemma ChosenStops(lines: seq<string>, diagnostic: string -> bool, n: nat)
    requires n <= |lines| && Rank(lines, diagnostic, n) >= DIAGNOSTIC_LINES
    ensures Chosen(lines, diagnostic, n) == Chosen(lines, diagnostic, |lines|)
  {
    forall i: nat | n <= i < |lines|
      ensures Rank(lines, diagnostic, i) >= DIAGNOSTIC_LINES
    {
      RankMonotone(lines, diagnostic, n, i);
    }
  }

  // ---------- reading the items back ----------

  /** How many original lines the items stand for. */
  function Width(items: seq<Item>): (r: nat) {
    if items == [] then 0
    else
      var last := items[|items| - 1];
      Width(items[..|items| - 1]) + (if last.Keep? then 1 else last.count)
  }

  /** The original positions of the kept lines, recovered from the items alone. */
  function Positions(items: seq<Item>): (r: set<nat>) {
    if items == [] then {}
    else
      var init := items[..|items| - 1];
      Positions(init) + (if items[|items| - 1].Keep? then {Width(init)} else {})
  }

  /** Every kept line is the (truncated) original at its recovered position. */
  predicate Faithful(items: seq<Item>, lines: seq<string>) {
    items == [] ||
    (var init, last := items[..|items| - 1], items[|items| - 1];
     && Faithful(init, lines)
     && (last.Keep? ==>
           Width(init) < |lines| && last.line == TruncateLine(lines[Width(init)], LINE_CHARS)))
  }

  /** Gaps are non-empty, never first and never adjacent. */
  predicate Canonical(items: seq<Item>) {
    items == [] ||
    (var init, last := items[..|items| - 1], items[|items| - 1];
     && Canonical(init)
     && (last.Gap? ==> last.count > 0 && init != [] && init[|init| - 1].Keep?))
  }

  lemma PositionsBelowWidth(items: seq<Item>)
    ensures forall p :: p in Positions(items) ==> p < Width(items)
  {}

  lemma WidthPush(items: seq<Item>, item: Item)
    ensures Width(items + [item]) == Width(items) + (if item.Keep? then 1 else item.count)
    ensures Positions(items + [item]) == Positions(items) + (if item.Keep? then {Width(items)} else {})
  {
    assert (items + [item])[..|items|] == items;
  }

  lemma FaithfulPush(items: seq<Item>, item: Item, lines: seq<string>)
    requires Faithful(items, lines)
    requires item.Keep? ==> Width(items) < |lines| && item.line == TruncateLine(lines[Width(items)], LINE_CHARS)
    ensures Faithful(items + [item], lines)
  {
    assert (items + [item])[..|items|] == items;
  }

  function Covered(selected: set<nat>, n: nat): (r: nat) {
    match LastBelow(selected, n) case None => 0 case Some(p) => p + 1
  }

  lemma GapWidth(items: seq<Item>, selected: set<nat>, n: nat)
    requires Width(items) == Covered(selected, n) && (n > 0 ==> 0 in selected)
    ensures Width(items + GapTo(LastBelow(selected, n), n)) == n
    ensures Positions(items + GapTo(LastBelow(selected, n), n)) == Positions(items)
  {
    var gap := GapTo(LastBelow(selected, n), n);
    if gap == [] {
      assert items + gap == items;
    } else {
      assert items + gap == items + [gap[0]];
      WidthPush(items, gap[0]);
    }
  }

  lemma {:induction false} ItemsWidth(lines: seq<string>, selected: set<nat>, n: nat)
    requires n <= |lines| && (n > 0 ==> 0 in selected)
    ensures Width(ItemsBelow(lines, selected, n)) == Covered(selected, n)
  {
    if n > 0 {
      ItemsWidth(lines, selected, n - 1);
      if n - 1 in selected {
        var before := ItemsBelow(lines, selected, n - 1);
        GapWidth(before, selected, n - 1);
        WidthPush(before + GapTo(LastBelow(selected, n - 1), n - 1), Keep(TruncateLine(lines[n - 1], LINE_CHARS)));
      }
    }
  }

  /** Printing a selected line adds exactly its own position. */
  lemma PositionsStep(lines: seq<string>, selected: set<nat>, n: nat)
    requires n < |lines| && n in selected && 0 in selected
    ensures Positions(ItemsBelow(lines, selected, n + 1)) == Positions(ItemsBelow(lines, selected, n)) + {n}
  {
    var before := ItemsBelow(lines, selected, n);
    var gap := GapTo(LastBelow(selected, n), n);
    ItemsWidth(lines, selected, n);
    GapWidth(before, selected, n);
    WidthPush(before + gap, Keep(TruncateLine(lines[n], LINE_CHARS)));
  }

  lemma {:induction false} ItemsPositions(lines: seq<string>, selected: set<nat>, n: nat)
    requires n <= |lines| && (n > 0 ==> 0 in selected)
    ensures Positions(ItemsBelow(lines, selected, n)) == SelectedBelow(selected, n)
  {
    if n > 0 {
      ItemsPositions(lines, selected, n - 1);
      if n - 1 in selected { PositionsStep(lines, selected, n - 1); }
    }
  }

  function SelectedBelow(selected: set<nat>, n: nat): (r: set<nat>)
    ensures forall i {:trigger i in r} :: i in r <==> i in selected && 0 <= i < n
  {
    if n == 0 then {}
    else SelectedBelow(selected, n - 1) + (if n - 1 in selected then {n - 1} else {})
  }

  lemma ItemsFaithfulNext(lines: seq<string>, selected: set<nat>, m: nat)
    requires m < |lines| && m in selected && 0 in selected
    requires Faithful(ItemsBelow(lines, selected, m), lines)
    ensures Faithful(ItemsBelow(lines, selected, m + 1), lines)
  {
    var before := ItemsBelow(lines, selected, m);
    ItemsWidth(lines, selected, m);
    GapWidth(before, selected, m);
    FaithfulStep(before, GapTo(LastBelow(selected, m), m), lines, m);
  }

  lemma {:induction false} ItemsFaithful(lines: seq<string>, selected: set<nat>, n: nat)
    requires n <= |lines| && (n > 0 ==> 0 in selected)
    ensures Faithful(ItemsBelow(lines, selected, n), lines)
  {
    if n > 0 {
      ItemsFaithful(lines, selected, n - 1);
      if n - 1 in selected {
        ItemsFaithfulNext(lines, selected, n - 1);
      }
    }
  }

  lemma FaithfulStep(before: seq<Item>, gap: seq<Item>, lines: seq<string>, m: nat)
    requires Faithful(before, lines) && |gap| <= 1 && (gap != [] ==> gap[0].Gap?)
    requires m < |lines| && Width(before + gap) == m
    ensures Faithful(before + gap + [Keep(TruncateLine(lines[m], LINE_CHARS))], lines)
  {
    if gap == [] {
      assert before + gap == before;
    } else {
      assert before + gap == before + [gap[0]];
      FaithfulPush(before, gap[0], lines);
    }
    FaithfulPush(before + gap, Keep(TruncateLine(lines[m], LINE_CHARS)), lines);
  }

  lemma {:induction false} ItemsCanonical(lines: seq<string>, selected: set<nat>, n: nat)
    requires n <= |lines|
    ensures var items := ItemsBelow(lines, selected, n);
            && Canonical(items)
            && (items == [] <==> LastBelow(selected, n).None?)
            && (items != [] ==> items[|items| - 1].Keep?)
  {
    if n > 0 {
      ItemsCanonical(lines, selected, n - 1);
      if n - 1 in selected {
        var before := ItemsBelow(lines, selected, n - 1);
        var gap := GapTo(LastBelow(selected, n - 1), n - 1);
        var keep := Keep(TruncateLine(lines[n - 1], LINE_CHARS));
        assert (before + gap + [keep])[..|before + gap|] == before + gap;
        if gap == [] {
          assert before + gap == before;
        } else {
          assert (before + gap)[..|before|] == before;
        }
      }
    }
  }

  lemma EndsSelected(lines: seq<string>, diagnostic: string -> bool)
    requires lines != []
    ensures 0 in Selected(lines, diagnostic) && |lines| - 1 in Selected(lines, diagnostic)
    ensures forall i :: i in Selected(lines, diagnostic) ==> i < |lines|
  {}

  lemma NoTrailingGap(lines: seq<string>, diagnostic: string -> bool)
    requires lines != []
    ensures LastBelow(Selected(lines, diagnostic), |lines|) == Some(|lines| - 1)
    ensures StreamItems(lines, diagnostic) == ItemsBelow(lines, Selected(lines, diagnostic), |lines|)
  {
    EndsSelected(lines, diagnostic);
  }

  /** On the compressing path the items decode to exactly the selected lines: they stand for
      every original line once, the recovered positions are the selected ones, each kept line
      is its original up to truncation, and the list ends in a kept line, never in a gap. */
  lemma StreamDecodes(lines: seq<string>, diagnostic: string -> bool)
    requires lines != []
    ensures var items := StreamItems(lines, diagnostic);
            && Width(items) == |lines|
            && Positions(items) == Selected(lines, diagnostic)
            && Faithful(items, lines)
            && Canonical(items)
            && items != [] && items[|items| - 1].Keep?
  {
    var selected := Selected(lines, diagnostic);
    EndsSelected(lines, diagnostic);
    ItemsWidth(lines, selected, |lines|);
    ItemsPositions(lines, selected, |lines|);
    ItemsFaithful(lines, selected, |lines|);
    ItemsCanonical(lines, selected, |lines|);
    NoTrailingGap(lines, diagnostic);
  }

  /** No other well-formed list of kept lines and gaps reads back to the same positions. */
  lemma {:induction false} DecodingIsUnique(a: seq<Item>, b: seq<Item>, lines: seq<string>)
    requires Canonical(a) && Canonical(b) && Faithful(a, lines) && Faithful(b, lines)
    requires Positions(a) == Positions(b)
    requires Width(a) == Width(b)
    ensures a == b
    decreases |a| + |b|
  {
    CanonicalWidth(a);
    CanonicalWidth(b);
    if a != [] {
      SameLast(a, b, lines);
      DecodingIsUnique(a[..|a| - 1], b[..|b| - 1], lines);
      assert a == a[..|a| - 1] + [a[|a| - 1]];
      assert b == b[..|b| - 1] + [b[|b| - 1]];
    }
  }

  function Last(a: seq<Item>): (r: Item)
    requires a != []
  {
    a[|a| - 1]
  }

  lemma SameLast(a: seq<Item>, b: seq<Item>, lines: seq<string>)
    requires a != [] && b != []
    requires Canonical(a) && Canonical(b) && Faithful(a, lines) && Faithful(b, lines)
    requires Positions(a) == Positions(b) && Width(a) == Width(b)
    ensures Last(a) == Last(b)
    ensures Width(a[..|a| - 1]) == Width(b[..|b| - 1])
    ensures Positions(a[..|a| - 1]) == Positions(b[..|b| - 1])
  {
    LastKind(a);
    LastKind(b);
    if a[|a| - 1].Gap? {
      SameGap(a, b);
    } else {
      KeptLast(a, lines);
      KeptLast(b, lines);
    }
  }

  lemma KeptLast(a: seq<Item>, lines: seq<string>)
    requires a != [] && Faithful(a, lines) && a[|a| - 1].Keep?
    ensures 0 < Width(a) <= |lines|
    ensures a[|a| - 1] == Keep(TruncateLine(lines[Width(a) - 1], LINE_CHARS))
  {}

  /** The last original line is kept exactly when the last item is a kept line. */
  lemma LastKind(a: seq<Item>)
    requires a != [] && Canonical(a)
    ensures Width(a) > 0
    ensures a[|a| - 1].Keep? <==> Width(a) - 1 in Positions(a)
    ensures a[|a| - 1].Keep? ==>
      Width(a[..|a| - 1]) == Width(a) - 1 && Positions(a[..|a| - 1]) == Positions(a) - {Width(a) - 1}
    ensures a[|a| - 1].Gap? ==> Positions(a[..|a| - 1]) == Positions(a)
  {
    PositionsBelowWidth(a[..|a| - 1]);
    CanonicalWidth(a);
  }

  /** Two closing gaps over the same positions begin at the same place. */
  lemma SameGap(a: seq<Item>, b: seq<Item>)
    requires a != [] && b != [] && Canonical(a) && Canonical(b)
    requires a[|a| - 1].Gap? && b[|b| - 1].Gap?
    requires Positions(a) == Positions(b)
    ensures Width(a[..|a| - 1]) == Width(b[..|b| - 1])
  {
    KeepBeforeGap(a);
    KeepBeforeGap(b);
    PositionsBelowWidth(a[..|a| - 1]);
    PositionsBelowWidth(b[..|b| - 1]);
  }

  lemma CanonicalWidth(a: seq<Item>)
    requires Canonical(a)
    ensures Width(a) == 0 <==> a == []
  {}

  lemma KeepBeforeGap(a: seq<Item>)
    requires a != [] && Canonical(a) && a[|a| - 1].Gap?
    ensures var init := a[..|a| - 1];
            init != [] && Width(init) > 0 && Width(init) - 1 in Positions(init)
  {
    var init := a[..|a| - 1];
    assert init[|init| - 1] == a[|a| - 2];
  }

  // ---------- size bounds ----------

  function CountKeeps(items: seq<Item>): (r: nat)
    ensures r <= |items|
  {
    if items == [] then 0
    else CountKeeps(items[..|items| - 1]) + (if items[|items| - 1].Keep? then 1 else 0)
  }

  function CountGaps(items: seq<Item>): (r: nat) {
    |items| - CountKeeps(items)
  }

  function Min(a: nat, b: nat): (r: nat) {
    if a <= b then a else b
  }

  lemma KeepsPush(before: seq<Item>, gap: seq<Item>, keep: Item)
    requires keep.Keep? && |gap| <= 1 && (gap != [] ==> gap[0].Gap?)
    ensures CountKeeps(before + gap + [keep]) == CountKeeps(before) + 1
    ensures CountGaps(before + gap + [keep]) == CountGaps(before) + |gap|
  {
    assert (before + gap + [keep])[..|before + gap|] == before + gap;
    if gap == [] {
      assert before + gap == before;
    } else {
      assert (before + gap)[..|before|] == before;
    }
  }

  /** The selection, membership by membership. */
  ghost predicate IsSelection(lines: seq<string>, diagnostic: string -> bool, selected: set<nat>) {
    forall i :: 0 <= i < |lines| ==>
      (i in selected <==>
        || i < HEAD_LINES || TailStart(|lines|) <= i
        || (FirstDiagnostic(lines, diagnostic, i) && Rank(lines, diagnostic, i) < DIAGNOSTIC_LINES))
  }

  /** What one more line adds to the two counts. */
  lemma CountStep(lines: seq<string>, selected: set<nat>, n: nat)
    requires n < |lines|
    ensures var (old', new') := (ItemsBelow(lines, selected, n), ItemsBelow(lines, selected, n + 1));
            && CountKeeps(new') == CountKeeps(old') + (if n in selected then 1 else 0)
            && CountGaps(new') <= CountGaps(old') + (if n in selected then 1 else 0)
            && (n > 0 && n - 1 in selected ==> CountGaps(new') == CountGaps(old'))
            && (n == 0 ==> CountGaps(new') == CountGaps(old'))
  {
    if n in selected {
      var gap := GapTo(LastBelow(selected, n), n);
      KeepsPush(ItemsBelow(lines, selected, n), gap, Keep(TruncateLine(lines[n], LINE_CHARS)));
      assert n > 0 && n - 1 in selected ==> gap == [];
    }
  }

  lemma BoundStep(lines: seq<string>, diagnostic: string -> bool, selected: set<nat>, n: nat)
    requires n < |lines| && IsSelection(lines, diagnostic, selected)
    ensures var (old', new') := (ItemsBelow(lines, selected, n), ItemsBelow(lines, selected, n + 1));
            var free := n < HEAD_LINES || TailStart(|lines|) <= n;
            var paid := FirstDiagnostic(lines, diagnostic, n) && Rank(lines, diagnostic, n) < DIAGNOSTIC_LINES;
            && CountKeeps(new') <= CountKeeps(old') + (if free || paid then 1 else 0)
            && CountGaps(new') <= CountGaps(old') + (if paid || n == TailStart(|lines|) then 1 else 0)
  {
    CountStep(lines, selected, n);
    assert n > 0 ==> (n - 1 in selected || n - 1 !in selected);
  }

  /** Every kept line is paid for by the head, the tail or the diagnostic budget. */
  function KeepBudget(n: nat, tail: nat, rank: nat): (r: nat) {
    Min(n, HEAD_LINES) + (if n <= tail then 0 else n - tail) + Min(rank, DIAGNOSTIC_LINES)
  }

  /** Every gap is paid for by the start of the tail or by a chosen diagnostic line. */
  function GapBudget(n: nat, tail: nat, rank: nat): (r: nat) {
    (if n <= tail then 0 else 1) + Min(rank, DIAGNOSTIC_LINES)
  }

  lemma BudgetStep(n: nat, tail: nat, rank: nat, first: bool)
    ensures var paid := first && rank < DIAGNOSTIC_LINES;
            var next := rank + (if first then 1 else 0);
            && KeepBudget(n + 1, tail, next)
               == KeepBudget(n, tail, rank) + (if n < HEAD_LINES then 1 else 0) + (if tail <= n then 1 else 0)
                  + (if paid then 1 else 0)
            && GapBudget(n + 1, tail, next)
               == GapBudget(n, tail, rank) + (if n == tail then 1 else 0) + (if paid then 1 else 0)
  {}

  ghost predicate WithinBudget(lines: seq<string>, diagnostic: string -> bool, selected: set<nat>, n: nat)
    requires n <= |lines|
  {
    var items := ItemsBelow(lines, selected, n);
    && CountKeeps(items) <= KeepBudget(n, TailStart(|lines|), Rank(lines, diagnostic, n))
    && CountGaps(items) <= GapBudget(n, TailStart(|lines|), Rank(lines, diagnostic, n))
  }

  lemma WithinNext(lines: seq<string>, diagnostic: string -> bool, selected: set<nat>, n: nat)
    requires n < |lines| && IsSelection(lines, diagnostic, selected)
    requires WithinBudget(lines, diagnostic, selected, n)
    ensures WithinBudget(lines, diagnostic, selected, n + 1)
  {
    BoundStep(lines, diagnostic, selected, n);
    BudgetStep(n, TailStart(|lines|), Rank(lines, diagnostic, n), FirstDiagnostic(lines, diagnostic, n));
  }

  lemma {:induction false} BelowBounds(lines: seq<string>, diagnostic: string -> bool, selected: set<nat>, n: nat)
    requires n <= |lines| && IsSelection(lines, diagnostic, selected)
    ensures WithinBudget(lines, diagnostic, selected, n)
  {
    if n > 0 {
      BelowBounds(lines, diagnostic, selected, n - 1);
      WithinNext(lines, diagnostic, selected, n - 1);
    }
  }

  ghost predicate ShortLines(items: seq<Item>) {
    forall k :: 0 <= k < |items| && items[k].Keep? ==> |items[k].line| <= 1220
  }

  lemma {:induction false} KeptLengths(lines: seq<string>, selected: set<nat>, n: nat)
    requires n <= |lines|
    ensures ShortLines(ItemsBelow(lines, selected, n))
  {
    if n > 0 {
      KeptLengths(lines, selected, n - 1);
      assert |TruncateLine(lines[n - 1], LINE_CHARS)| <= 1220;
    }
  }

  /** Whatever the lines, at most 48 are kept, at most 17 gaps are printed, and no kept line
      has more than 1,220 characters. */
  lemma StreamBounds(lines: seq<string>, diagnostic: string -> bool)
    requires lines != []
    ensures var items := StreamItems(lines, diagnostic);
            && CountKeeps(items) <= 48
            && CountGaps(items) <= 17
            && ShortLines(items)
  {
    NoTrailingGap(lines, diagnostic);
    BelowBounds(lines, diagnostic, Selected(lines, diagnostic), |lines|);
    KeptLengths(lines, Selected(lines, diagnostic), |lines|);
  }

  // ---------- diagnostics survive ----------

  function FirstEqual(lines: seq<string>, line: string): (r: nat)
    requires line in lines
    ensures r < |lines| && lines[r] == line && line !in lines[..r]
  {
    if lines[0] == line then 0
    else
      var r := FirstEqual(lines[1..], line);
      assert forall k :: 0 <= k < r ==> lines[1..][k] in lines[1..][..r];
      r + 1
  }

  lemma {:induction false} ValuesSize(lines: seq<string>, diagnostic: string -> bool, n: nat)
    requires n <= |lines|
    ensures |DiagnosticValues(lines, diagnostic, n)| == Rank(lines, diagnostic, n)
  {
    if n > 0 {
      ValuesSize(lines, diagnostic, n - 1);
      var values, line := DiagnosticValues(lines, diagnostic, n - 1), lines[n - 1];
      assert FirstDiagnostic(lines, diagnostic, n - 1) <==> diagnostic(line) && line !in values;
      assert line in values ==> values + {line} == values;
    }
  }

  /** With at most sixteen distinct diagnostic lines, each of them survives. */
  lemma DiagnosticsSurvive(lines: seq<string>, diagnostic: string -> bool, i: nat)
    requires i < |lines| && diagnostic(lines[i])
    requires |DiagnosticValues(lines, diagnostic, |lines|)| <= DIAGNOSTIC_LINES
    ensures exists j :: j in Selected(lines, diagnostic) && j < |lines| && lines[j] == lines[i]
  {
    var j := FirstEqual(lines, lines[i]);
    ValuesSize(lines, diagnostic, |lines|);
    FirstIsChosen(lines, diagnostic, j);
  }

  lemma FirstIsChosen(lines: seq<string>, diagnostic: string -> bool, j: nat)
    requires j < |lines| && diagnostic(lines[j]) && lines[j] !in lines[..j]
    requires Rank(lines, diagnostic, |lines|) <= DIAGNOSTIC_LINES
    ensures j in Chosen(lines, diagnostic, |lines|)
  {
    assert FirstDiagnostic(lines, diagnostic, j);
    RankMonotone(lines, diagnostic, j + 1, |lines|);
  }
}
