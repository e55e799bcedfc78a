/** The line counts of a task summary: what was added to and removed from each file, counted
    without regard to where in the file a line stands. */
module LineChanges {
  import opened Names
  import opened Text
  import opened Wrappers

  datatype Kind = FileCreated | FileModified | FileDeleted

  datatype RestorePoint = RestorePoint(
    id: nat, path: string, original: Option<string>, applied: Option<string>, createdAt: int)

  datatype FileChange = FileChange(path: string, kind: Kind, added: nat, removed: nat)

  // ---------- one file ----------

  function LineBag(text: string): (r: multiset<string>) {
    multiset(Lines(text))
  }

  function Added(original: string, applied: string): (r: nat) {
    |LineBag(applied) - LineBag(original)|
  }

  function Removed(original: string, applied: string): (r: nat) {
    |LineBag(original) - LineBag(applied)|
  }

  function Count(counts: map<string, int>, line: string): (r: int) {
    if line in counts then counts[line] else 0
  }

  method LineChangeCounts(original: string, applied: string) returns (added: nat, removed: nat)
    ensures added == Added(original, applied) && removed == Removed(original, applied)
  {
    var counts := CountDown(map[], Lines(original));
    counts := CountUp(counts, Lines(applied));
    added, removed := SumDeltas(counts, LineBag(original), LineBag(applied));
  }

  method CountDown(start: map<string, int>, lines: seq<string>) returns (counts: map<string, int>)
    ensures forall x :: Count(counts, x) == Count(start, x) - (multiset(lines)[x] as int)
    ensures forall x :: x in start || x in multiset(lines) ==> x in counts
  {
    counts := start;
    ghost var seen: multiset<string> := multiset{};
    for i := 0 to |lines|
      invariant seen == multiset(lines[..i])
      invariant forall x :: Count(counts, x) == Count(start, x) - (seen[x] as int)
      invariant forall x :: x in start || x in seen ==> x in counts
    {
      assert lines[..i + 1] == lines[..i] + [lines[i]];
      counts := counts[lines[i] := Count(counts, lines[i]) - 1];
      seen := seen + multiset{lines[i]};
    }
    assert lines[..|lines|] == lines;
  }

  method CountUp(start: map<string, int>, lines: seq<string>) returns (counts: map<string, int>)
    ensures forall x :: Count(counts, x) == Count(start, x) + (multiset(lines)[x] as int)
    ensures forall x :: x in start || x in multiset(lines) ==> x in counts
  {
    counts := start;
    ghost var seen: multiset<string> := multiset{};
    for i := 0 to |lines|
      invariant seen == multiset(lines[..i])
      invariant forall x :: Count(counts, x) == Count(start, x) + (seen[x] as int)
      invariant forall x :: x in start || x in seen ==> x in counts
    {
      assert lines[..i + 1] == lines[..i] + [lines[i]];
      counts := counts[lines[i] := Count(counts, lines[i]) + 1];
      seen := seen + multiset{lines[i]};
    }
    assert lines[..|lines|] == lines;
  }

  /** Sums the positive and the negative counts, meeting the keys in any order. */
  method SumDeltas(counts: map<string, int>, ghost before: multiset<string>, ghost after: multiset<string>)
      returns (added: nat, removed: nat)
    requires forall x :: x in before || x in after ==> x in counts
    requires forall x :: Count(counts, x) == after[x] as int - before[x] as int
    ensures added == |after - before| && removed == |before - after|
  {
    added, removed := 0, 0;
    var rest := counts.Keys;
    ghost var gained, lost := after - before, before - after;
    while rest != {}
      invariant rest <= counts.Keys
      invariant forall x :: gained[x] == if x in rest then (after - before)[x] else 0
      invariant forall x :: lost[x] == if x in rest then (before - after)[x] else 0
      invariant added + |gained| == |after - before|
      invariant removed + |lost| == |before - after|
    {
      var line :| line in rest;
      rest := rest - {line};
      var delta := counts[line];
      if delta > 0 {
        added := added + delta;
      } else if delta < 0 {
        removed := removed + -delta;
      }
      gained, lost := gained[line := 0], lost[line := 0];
    }
    assert gained == multiset{} && lost == multiset{};
  }

  lemma BagSubset(a: multiset<string>, b: multiset<string>)
    requires a <= b
    ensures |a| <= |b|
  {
    assert b == a + (b - a);
  }

  /** Added minus removed is the change in the number of lines. */
  lemma CountsBalance(original: string, applied: string)
    ensures Added(original, applied) - Removed(original, applied) == |Lines(applied)| - |Lines(original)|
  {
    var a, b := LineBag(original), LineBag(applied);
    assert a == (a - b) + (a * b);
    assert b == (b - a) + (a * b);
    assert |a| == |Lines(original)| && |b| == |Lines(applied)|;
  }

  /** Both counts are zero exactly when one text's lines are a permutation of the other's. */
  lemma ZeroMeansPermutation(original: string, applied: string)
    ensures Added(original, applied) == 0 && Removed(original, applied) == 0
            <==> multiset(Lines(original)) == multiset(Lines(applied))
  {
    BagZero(LineBag(original), LineBag(applied));
  }

  lemma BagZero(a: multiset<string>, b: multiset<string>)
    ensures |b - a| == 0 && |a - b| == 0 <==> a == b
  {
    if |b - a| == 0 && |a - b| == 0 {
      assert b - a == multiset{} && a - b == multiset{};
      forall x ensures a[x] == b[x] {
        assert (a - b)[x] == 0 && (b - a)[x] == 0;
      }
    }
  }

  /** Undoing a change swaps the two counts. */
  lemma UndoSwaps(original: string, applied: string)
    ensures Added(applied, original) == Removed(original, applied)
    ensures Removed(applied, original) == Added(original, applied)
  {}

  /** Going through an intermediate text never counts fewer lines. */
  lemma Triangle(first: string, middle: string, last: string)
    ensures Added(first, last) <= Added(first, middle) + Added(middle, last)
    ensures Removed(first, last) <= Removed(first, middle) + Removed(middle, last)
  {
    BagTriangle(LineBag(first), LineBag(middle), LineBag(last));
    BagTriangle(LineBag(last), LineBag(middle), LineBag(first));
  }

  lemma BagTriangle(a: multiset<string>, b: multiset<string>, c: multiset<string>)
    ensures |c - a| <= |b - a| + |c - b|
  {
    var sum := (b - a) + (c - b);
    assert forall x :: (c - a)[x] <= sum[x];
    BagSubset(c - a, sum);
  }

  function TextOf(t: Option<string>): (r: string) {
    if t.Some? then t.value else ""
  }

  function ClassifyFileChange(original: Option<string>, applied: string): (r: Kind) {
    match original
    case None => if applied == "" then FileModified else FileCreated
    case Some(text) =>
      if text == "" && applied != "" then FileCreated
      else if text != "" && applied == "" then FileDeleted
      else FileModified
  }

  /** Only the empty text has no lines. */
  lemma NoLines(text: string)
    ensures Lines(text) == [] <==> text == ""
  {}

  /** A file counts as created if and only if it had no lines and has some, as deleted if and only if
      it had some and has none, and as modified in every other case. */
  lemma KindExactly(original: Option<string>, applied: string)
    ensures var before, after := |Lines(TextOf(original))|, |Lines(applied)|;
            ClassifyFileChange(original, applied)
            == if before == 0 && after > 0 then FileCreated
               else if before > 0 && after == 0 then FileDeleted
               else FileModified
  {
    NoLines(TextOf(original));
    NoLines(applied);
  }

  lemma FromNothing(text: string)
    ensures Added("", text) == |Lines(text)| && Removed("", text) == 0
  {
    assert LineBag("") == multiset{};
    CountsBalance("", text);
    assert LineBag("") - LineBag(text) == multiset{};
  }

  /** A created file removed nothing and gained all its lines; a deleted one the reverse. */
  lemma KindAgreesWithCounts(original: Option<string>, applied: string)
    ensures ClassifyFileChange(original, applied) == FileCreated ==>
      Removed(TextOf(original), applied) == 0 && Added(TextOf(original), applied) == |Lines(applied)| > 0
    ensures ClassifyFileChange(original, applied) == FileDeleted ==>
      Added(TextOf(original), applied) == 0 && Removed(TextOf(original), applied) == |Lines(TextOf(original))| > 0
  {
    KindExactly(original, applied);
    NoLines(TextOf(original));
    NoLines(applied);
    FromNothing(applied);
    FromNothing(TextOf(original));
    UndoSwaps(TextOf(original), "");
  }

  // ---------- the whole task ----------

  /** The point that ends up in the table: the last one listed for the path. */
  function LastFor(points: seq<RestorePoint>, path: string): (r: Option<RestorePoint>)
    ensures r.Some? ==> r.value in points && r.value.path == path
    ensures r.None? ==> forall p :: p in points ==> p.path != path
  {
    if points == [] then None
    else if points[|points| - 1].path == path then Some(points[|points| - 1])
    else LastFor(points[..|points| - 1], path)
  }

  function ChangeFor(path: string, p: RestorePoint): (r: FileChange) {
    FileChange(path, ClassifyFileChange(p.original, TextOf(p.applied)),
               Added(TextOf(p.original), TextOf(p.applied)), Removed(TextOf(p.original), TextOf(p.applied)))
  }

  function SumAdded(changes: seq<FileChange>): (r: nat) {
    if changes == [] then 0 else SumAdded(changes[..|changes| - 1]) + changes[|changes| - 1].added
  }

  function SumRemoved(changes: seq<FileChange>): (r: nat) {
    if changes == [] then 0 else SumRemoved(changes[..|changes| - 1]) + changes[|changes| - 1].removed
  }

  function Paths(changes: seq<FileChange>): (r: seq<string>) {
    seq(|changes|, i requires 0 <= i < |changes| => changes[i].path)
  }

  /** One change per path of the restore points, in path order, each computed from the last
      point listed for its path. */
  ghost predicate Summarises(changes: seq<FileChange>, points: seq<RestorePoint>) {
    && Ascending(Paths(changes))
    && (forall p :: p in points ==> p.path in Paths(changes))
    && (forall c :: c in changes ==>
          LastFor(points, c.path).Some? && c == ChangeFor(c.path, LastFor(points, c.path).value))
  }

  /** The totals count every change once. */
  lemma {:induction false} TotalsAdd(a: seq<FileChange>, b: seq<FileChange>, c: FileChange)
    ensures SumAdded(a + b) == SumAdded(a) + SumAdded(b) && SumRemoved(a + b) == SumRemoved(a) + SumRemoved(b)
    ensures SumAdded([c]) == c.added && SumRemoved([c]) == c.removed
    ensures SumAdded([]) == 0 && SumRemoved([]) == 0
    decreases |b|
  {
    assert [c][..0] == [];
    if b == [] {
      assert a + b == a;
    } else {
      TotalsAdd(a, b[..|b| - 1], c);
      assert (a + b)[..|a + b| - 1] == a + b[..|b| - 1];
    }
  }

  method TaskSummary(points: seq<RestorePoint>) returns (changes: seq<FileChange>, added: nat, removed: nat)
    ensures Summarises(changes, points)
    ensures added == SumAdded(changes) && removed == SumRemoved(changes)
  {
    var byPath := LatestByPath(points);
    changes, added, removed := [], 0, 0;
    var rest := byPath.Keys;
    ghost var names: seq<string> := [];
    while rest != {}
      invariant rest <= byPath.Keys && names == Paths(changes)
      invariant forall x :: x in byPath ==> x in rest || x in names
      invariant forall c :: c in changes ==> c.path in byPath && c == ChangeFor(c.path, byPath[c.path])
      invariant forall n, x :: n in names && x in rest ==> Less(n, x)
      invariant Ascending(names)
      invariant added == SumAdded(changes) && removed == SumRemoved(changes)
    {
      var path := LeastName(rest);
      var change := ChangeOf(path, byPath[path]);
      AscendingPush(names, path);
      SumsPush(changes, change);
      changes := changes + [change];
      added, removed := added + change.added, removed + change.removed;
      names := names + [path];
      rest := rest - {path};
    }
  }

  method ChangeOf(path: string, p: RestorePoint) returns (change: FileChange)
    ensures change == ChangeFor(path, p)
  {
    var plus, minus := LineChangeCounts(TextOf(p.original), TextOf(p.applied));
    change := FileChange(path, ClassifyFileChange(p.original, TextOf(p.applied)), plus, minus);
  }

  lemma AscendingPush(names: seq<string>, name: string)
    requires Ascending(names) && forall n :: n in names ==> Less(n, name)
    ensures Ascending(names + [name])
  {}

  lemma SumsPush(changes: seq<FileChange>, change: FileChange)
    ensures SumAdded(changes + [change]) == SumAdded(changes) + change.added
    ensures SumRemoved(changes + [change]) == SumRemoved(changes) + change.removed
    ensures Paths(changes + [change]) == Paths(changes) + [change.path]
  {
    assert (changes + [change])[..|changes|] == changes;
  }

  method LatestByPath(points: seq<RestorePoint>) returns (byPath: map<string, RestorePoint>)
    ensures forall x :: x in byPath <==> LastFor(points, x).Some?
    ensures forall x :: x in byPath ==> LastFor(points, x) == Some(byPath[x])
  {
    byPath := map[];
    for i := 0 to |points|
      invariant forall x :: x in byPath <==> LastFor(points[..i], x).Some?
      invariant forall x :: x in byPath ==> LastFor(points[..i], x) == Some(byPath[x])
    {
      assert points[..i + 1][..i] == points[..i];
      byPath := byPath[points[i].path := points[i]];
    }
    assert points[..|points|] == points;
  }

  /** The file list does not depend on anything but the restore points. */
  lemma SummaryUnique(a: seq<FileChange>, b: seq<FileChange>, points: seq<RestorePoint>)
    requires Summarises(a, points) && Summarises(b, points)
    ensures a == b
  {
    PathsOf(a, points);
    PathsOf(b, points);
    AscendingUnique(Paths(a), Paths(b));
    assert |a| == |Paths(a)| && |b| == |Paths(b)|;
    forall i | 0 <= i < |a| ensures a[i] == b[i] {
      assert Paths(a)[i] == Paths(b)[i];
      assert a[i] in a && b[i] in b;
    }
  }

  lemma PathsOf(a: seq<FileChange>, points: seq<RestorePoint>)
    requires Summarises(a, points)
    ensures forall x :: x in Paths(a) <==> LastFor(points, x).Some?
  {
    forall x | x in Paths(a) ensures LastFor(points, x).Some? {
      var i :| 0 <= i < |Paths(a)| && Paths(a)[i] == x;
      assert a[i] in a;
    }
  }

  /** The store lists restore points newest first, so the table ends up with the OLDEST point
      of each path: a file's counts describe its first recorded change, not its last. */
  lemma {:induction false} NewestFirstKeepsOldest(points: seq<RestorePoint>, p: RestorePoint)
    requires forall i, j :: 0 <= i < j < |points| ==> points[i].createdAt >= points[j].createdAt
    requires p in points
    ensures LastFor(points, p.path).Some? && LastFor(points, p.path).value.createdAt <= p.createdAt
  {
    var init, last := points[..|points| - 1], points[|points| - 1];
    if last.path == p.path {
      var i :| 0 <= i < |points| && points[i] == p;
    } else {
      var i :| 0 <= i < |points| && points[i] == p;
      assert init[i] == p;
      NewestFirstKeepsOldest(init, p);
    }
  }

  /** No listed point of the path is newer than the one the table holds. */
  ghost predicate HoldsNewest(points: seq<RestorePoint>, path: string) {
    LastFor(points, path).Some? &&
    forall p :: p in points && p.path == path ==> p.createdAt <= LastFor(points, path).value.createdAt
  }

  ghost predicate SameTime(points: seq<RestorePoint>, path: string) {
    forall p, q :: p in points && q in points && p.path == path && q.path == path ==> p.createdAt == q.createdAt
  }

  /** So the table called latest holds a point of the latest time of a path exactly when all points
      of that path were made at the same time. */
  lemma LatestTimeExactly(points: seq<RestorePoint>, path: string)
    requires forall i, j :: 0 <= i < j < |points| ==> points[i].createdAt >= points[j].createdAt
    requires exists p :: p in points && p.path == path
    ensures HoldsNewest(points, path) <==> SameTime(points, path)
  {
    forall p | p in points && p.path == path
      ensures LastFor(points, path).Some? && LastFor(points, path).value.createdAt <= p.createdAt
    {
      NewestFirstKeepsOldest(points, p);
    }
  }

  /** The point the store lists first for a path: its newest, by time and then by row. */
  function FirstFor(points: seq<RestorePoint>, path: string): (r: Option<RestorePoint>)
    ensures r.Some? ==> r.value in points && r.value.path == path
  {
    if points == [] then None
    else if points[0].path == path then Some(points[0])
    else FirstFor(points[1..], path)
  }

  ghost predicate DistinctIds(points: seq<RestorePoint>) {
    forall i, j :: 0 <= i < j < |points| ==> points[i].id != points[j].id
  }

  lemma {:induction false} FirstIndex(points: seq<RestorePoint>, path: string) returns (i: nat)
    requires exists p :: p in points && p.path == path
    ensures i < |points| && points[i].path == path && FirstFor(points, path) == Some(points[i])
    ensures forall j :: 0 <= j < i ==> points[j].path != path
  {
    if points[0].path == path {
      i := 0;
    } else {
      assert points == [points[0]] + points[1..];
      i := FirstIndex(points[1..], path);
      i := i + 1;
    }
  }

  lemma {:induction false} LastIndex(points: seq<RestorePoint>, path: string) returns (i: nat)
    requires exists p :: p in points && p.path == path
    ensures i < |points| && points[i].path == path && LastFor(points, path) == Some(points[i])
    ensures forall j :: i < j < |points| ==> points[j].path != path
  {
    var init := points[..|points| - 1];
    if points[|points| - 1].path == path {
      i := |points| - 1;
    } else {
      assert points == init + [points[|points| - 1]];
      i := LastIndex(init, path);
    }
  }

  /** The table holds the newest point of a path, the one the store lists first, if and only if
      the path is listed once. */
  lemma LatestExactly(points: seq<RestorePoint>, path: string)
    requires DistinctIds(points) && exists p :: p in points && p.path == path
    ensures LastFor(points, path) == FirstFor(points, path)
       <==> forall i, j :: 0 <= i < |points| && 0 <= j < |points| && points[i].path == path == points[j].path ==> i == j
  {
    var first := FirstIndex(points, path);
    var last := LastIndex(points, path);
    assert first <= last;
    assert points[first] == points[last] <==> first == last;
  }

  /** Two points of one path, the newer listed first: the summary tells the older one's change. */
  lemma OlderOfTwo(newer: RestorePoint, older: RestorePoint, changes: seq<FileChange>)
    requires newer.path == older.path && Summarises(changes, [newer, older])
    ensures changes == [ChangeFor(older.path, older)]
  {
    var points, expected := [newer, older], [ChangeFor(older.path, older)];
    assert LastFor(points, older.path) == Some(older);
    assert Paths(expected) == [older.path];
    assert forall p :: p in points ==> p.path == older.path && p.path in Paths(expected);
    SummaryUnique(changes, expected, points);
  }

  lemma OneLine()
    ensures |Lines("x")| == 1
  {}

  lemma CreateAndDelete(created: RestorePoint, deleted: RestorePoint)
    requires created.original == None && created.applied == Some("x")
    requires deleted.original == Some("x") && deleted.applied == Some("")
    ensures ChangeFor("f", created) == FileChange("f", FileCreated, 1, 0)
    ensures ChangeFor("f", deleted) == FileChange("f", FileDeleted, 0, 1)
  {
    KindAgreesWithCounts(created.original, "x");
    KindAgreesWithCounts(deleted.original, "");
    OneLine();
  }

  /** A file that was created and then deleted is summarised as created, with its line added,
      although its latest restore point removes that line. */
  lemma DeletedShownAsCreated(changes: seq<FileChange>)
    requires Summarises(changes, [RestorePoint(2, "f", Some("x"), Some(""), 2),
                                  RestorePoint(1, "f", None, Some("x"), 1)])
    ensures changes == [FileChange("f", FileCreated, 1, 0)]
    ensures ChangeFor("f", RestorePoint(2, "f", Some("x"), Some(""), 2)) == FileChange("f", FileDeleted, 0, 1)
  {
    var newer, older := RestorePoint(2, "f", Some("x"), Some(""), 2), RestorePoint(1, "f", None, Some("x"), 1);
    OlderOfTwo(newer, older, changes);
    CreateAndDelete(older, newer);
  }
}
