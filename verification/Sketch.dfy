/** The workspace sketch: the first forty entries of a breadth-first walk over the workspace,
    three levels deep, leaving out generated directories. */
module Sketch {
  import opened Seqs
  import opened Text

  const MAX_RELEVANT_PATHS: nat := 40
  const SKETCH_MAX_DEPTH: nat := 2
  const IGNORED := [".git", ".xcoding", "node_modules", "target", "dist", "build", ".next", "coverage",
                    "__pycache__", ".venv", "venv", ".cargo"]

  /** A file system as the walk sees it; `Unknown` entries refuse to tell their type. */
  datatype Node = File | Symlink | Special | Unknown | Dir(readable: bool, entries: seq<Child>)

  datatype Child = Child(name: string, node: Node)

  /** One line of the sketch. */
  datatype Shown = Shown(path: seq<string>, dir: bool)

  /** A directory to visit. */
  datatype Place = Place(path: seq<string>, node: Node)

  // ---------- entries ----------

  predicate IsVisible(c: Child) {
    c.node.File? || (c.node.Dir? && c.name !in IGNORED)
  }

  function InsertChild(c: Child, sorted: seq<Child>): (r: seq<Child>) {
    if sorted == [] || !Less(sorted[0].name, c.name) then [c] + sorted
    else [sorted[0]] + InsertChild(c, sorted[1..])
  }

  /** The entries by file name. */
  function SortChildren(entries: seq<Child>): (r: seq<Child>) {
    if entries == [] then [] else InsertChild(entries[0], SortChildren(entries[1..]))
  }

  /** What reading a directory yields: nothing if it cannot be read. */
  function Children(node: Node): (r: seq<Child>) {
    if node.Dir? && node.readable then SortChildren(node.entries) else []
  }

  function Render(s: Shown): (r: string) {
    Slashed(Join(s.path, '/')) + (if s.dir then "/" else "")
  }

  // ---------- the level-order listing ----------

  function OutKids(path: seq<string>, kids: seq<Child>): (r: seq<Shown>) {
    if kids == [] then []
    else
      var last := kids[|kids| - 1];
      OutKids(path, kids[..|kids| - 1])
      + (if IsVisible(last) then [Shown(path + [last.name], last.node.Dir?)] else [])
  }

  function SubKids(path: seq<string>, kids: seq<Child>): (r: seq<Place>) {
    if kids == [] then []
    else
      var last := kids[|kids| - 1];
      SubKids(path, kids[..|kids| - 1])
      + (if IsVisible(last) && last.node.Dir? then [Place(path + [last.name], last.node)] else [])
  }

  function OutOf(p: Place): (r: seq<Shown>) {
    OutKids(p.path, Children(p.node))
  }

  function SubsOf(p: Place): (r: seq<Place>) {
    SubKids(p.path, Children(p.node))
  }

  /** All visible entries of the given directories, in order. */
  function OutLevel(places: seq<Place>): (r: seq<Shown>) {
    FlatMap(OutOf, places)
  }

  /** All visible subdirectories of the given directories, in order. */
  function SubLevel(places: seq<Place>): (r: seq<Place>) {
    FlatMap(SubsOf, places)
  }

  /** The listing level by level, directories deeper than the limit not opened. */
  function Levels(places: seq<Place>, depth: nat): (r: seq<Shown>)
    requires depth <= SKETCH_MAX_DEPTH
    decreases SKETCH_MAX_DEPTH - depth
  {
    OutLevel(places) + (if depth < SKETCH_MAX_DEPTH then Levels(SubLevel(places), depth + 1) else [])
  }

  function Listing(root: Node): (r: seq<Shown>) {
    Levels([Place([], root)], 0)
  }

  function First<T>(s: seq<T>, n: nat): (r: seq<T>) {
    if |s| <= n then s else s[..n]
  }

  // ---------- the work queue ----------

  datatype Job = Job(place: Place, depth: nat)

  function Jobs(places: seq<Place>, depth: nat): (r: seq<Job>) {
    seq(|places|, i requires 0 <= i < |places| => Job(places[i], depth))
  }

  /** What is still to be printed when `current` remain of one level and `next` have been
      found of the following one. */
  function Remaining(current: seq<Place>, next: seq<Place>, depth: nat): (r: seq<Shown>)
    requires depth <= SKETCH_MAX_DEPTH
  {
    OutLevel(current) + (if depth < SKETCH_MAX_DEPTH then Levels(next + SubLevel(current), depth + 1) else [])
  }

  function Deeper(depth: nat, places: seq<Place>): (r: seq<Place>) {
    if depth < SKETCH_MAX_DEPTH then places else []
  }

  /** Taking the first directory of the level: its entries come next, its subdirectories join
      the next level. */
  lemma RemainingStep(current: seq<Place>, next: seq<Place>, depth: nat)
    requires depth <= SKETCH_MAX_DEPTH && current != []
    ensures var kids := Children(current[0].node);
            Remaining(current, next, depth)
            == OutKids(current[0].path, kids)
               + Remaining(current[1..], next + Deeper(depth, SubKids(current[0].path, kids)), depth)
  {
    var kids := Children(current[0].node);
    var subs := SubKids(current[0].path, kids);
    if depth < SKETCH_MAX_DEPTH {
      Associative(next, subs, SubLevel(current[1..]));
      Associative(OutKids(current[0].path, kids), OutLevel(current[1..]), Levels(next + SubLevel(current), depth + 1));
    } else {
      assert next + Deeper(depth, subs) == next;
    }
  }

  /** When a level is used up, the next one becomes current. */
  lemma LevelStep(next: seq<Place>, depth: nat)
    requires depth < SKETCH_MAX_DEPTH
    ensures Remaining([], next, depth) == Remaining(next, [], depth + 1)
  {
    assert next + SubLevel([]) == next;
    assert [] + SubLevel(next) == SubLevel(next);
    assert OutLevel([]) + Levels(next, depth + 1) == Levels(next, depth + 1);
  }

  // ---------- the queue as a function ----------

  function Size(node: Node): (r: nat)
    ensures r >= 1
  {
    if node.Dir? then 1 + SizeAll(node.entries) else 1
  }

  function SizeAll(entries: seq<Child>): (r: nat) {
    if entries == [] then 0 else Size(entries[0].node) + SizeAll(entries[1..])
  }

  function Weight(jobs: seq<Job>): (r: nat) {
    if jobs == [] then 0 else Size(jobs[0].place.node) + Weight(jobs[1..])
  }

  lemma {:induction false} WeightAppend(a: seq<Job>, b: seq<Job>)
    ensures Weight(a + b) == Weight(a) + Weight(b)
  {
    if a == [] {
      assert a + b == b;
    } else {
      assert (a + b)[0] == a[0] && (a + b)[1..] == a[1..] + b;
      WeightAppend(a[1..], b);
    }
  }

  lemma {:induction false} InsertSize(c: Child, sorted: seq<Child>)
    ensures SizeAll(InsertChild(c, sorted)) == Size(c.node) + SizeAll(sorted)
  {
    if sorted == [] || !Less(sorted[0].name, c.name) {
      assert ([c] + sorted)[1..] == sorted;
    } else {
      InsertSize(c, sorted[1..]);
      assert InsertChild(c, sorted)[1..] == InsertChild(c, sorted[1..]);
    }
  }

  lemma {:induction false} SortSize(entries: seq<Child>)
    ensures SizeAll(SortChildren(entries)) == SizeAll(entries)
  {
    if entries != [] {
      SortSize(entries[1..]);
      InsertSize(entries[0], SortChildren(entries[1..]));
    }
  }

  lemma {:induction false} SizeAllSplit(a: seq<Child>, c: Child)
    ensures SizeAll(a + [c]) == SizeAll(a) + Size(c.node)
  {
    if a == [] {
      assert a + [c] == [c] && [c][1..] == [];
    } else {
      assert (a + [c])[1..] == a[1..] + [c];
      SizeAllSplit(a[1..], c);
    }
  }

  lemma {:induction false} SubKidsWeight(path: seq<string>, kids: seq<Child>, depth: nat)
    ensures Weight(Jobs(SubKids(path, kids), depth)) <= SizeAll(kids)
  {
    if kids != [] {
      var init, last := kids[..|kids| - 1], kids[|kids| - 1];
      assert kids == init + [last];
      SizeAllSplit(init, last);
      SubKidsWeight(path, init, depth);
      if IsVisible(last) && last.node.Dir? {
        var place := Place(path + [last.name], last.node);
        assert Jobs(SubKids(path, kids), depth) == Jobs(SubKids(path, init), depth) + [Job(place, depth)];
        WeightAppend(Jobs(SubKids(path, init), depth), [Job(place, depth)]);
        assert [Job(place, depth)][1..] == [];
      } else {
        assert SubKids(path, kids) == SubKids(path, init);
      }
    }
  }

  function Entries(job: Job): (r: seq<Shown>) {
    OutKids(job.place.path, Children(job.place.node))
  }

  function Found(job: Job): (r: seq<Place>) {
    Deeper(job.depth, SubKids(job.place.path, Children(job.place.node)))
  }

  function Pop(pending: seq<Job>): (r: seq<Job>)
    requires pending != []
  {
    pending[1..] + Jobs(Found(pending[0]), pending[0].depth + 1)
  }

  /** Replacing a directory by its subdirectories makes the queue lighter. */
  lemma PopShrinks(pending: seq<Job>)
    requires pending != []
    ensures Weight(Pop(pending)) < Weight(pending)
  {
    var job := pending[0];
    WeightAppend(pending[1..], Jobs(Found(job), job.depth + 1));
    SubKidsWeight(job.place.path, Children(job.place.node), job.depth + 1);
    if job.place.node.Dir? { SortSize(job.place.node.entries); }
    assert Weight([]) == 0 && Jobs([], job.depth + 1) == [];
  }

  /** Everything a queue still prints, without a limit on the number of paths. */
  function QueueListing(pending: seq<Job>): (r: seq<Shown>)
    decreases Weight(pending)
  {
    if pending == [] then []
    else
      PopShrinks(pending);
      Entries(pending[0]) + QueueListing(Pop(pending))
  }

  /** A queue that holds the rest of one level and then part of the next prints exactly what
      the level-order listing has left. */
  lemma {:induction false} QueueIsLevelOrder(current: seq<Place>, next: seq<Place>, depth: nat)
    requires depth <= SKETCH_MAX_DEPTH && (depth == SKETCH_MAX_DEPTH ==> next == [])
    ensures QueueListing(Jobs(current, depth) + Jobs(next, depth + 1)) == Remaining(current, next, depth)
    decreases SKETCH_MAX_DEPTH - depth, |current|
  {
    var pending := Jobs(current, depth) + Jobs(next, depth + 1);
    if current != [] {
      var found := Found(Job(current[0], depth));
      RemainingStep(current, next, depth);
      QueuePop(current, next, depth);
      QueueIsLevelOrder(current[1..], next + found, depth);
    } else if depth < SKETCH_MAX_DEPTH {
      LevelStep(next, depth);
      QueueIsLevelOrder(next, [], depth + 1);
      assert pending == Jobs(next, depth + 1) + Jobs([], depth + 2);
    } else {
      assert pending == [];
    }
  }

  lemma QueuePop(current: seq<Place>, next: seq<Place>, depth: nat)
    requires current != []
    ensures var job := Job(current[0], depth);
            QueueListing(Jobs(current, depth) + Jobs(next, depth + 1))
            == Entries(job) + QueueListing(Jobs(current[1..], depth) + Jobs(next + Found(job), depth + 1))
  {
    var pending := Jobs(current, depth) + Jobs(next, depth + 1);
    assert pending[0] == Job(current[0], depth);
    QueueStep(current, next, depth, Found(pending[0]));
    PopShrinks(pending);
  }

  lemma WholeLevels(places: seq<Place>, depth: nat)
    requires depth <= SKETCH_MAX_DEPTH
    ensures Remaining(places, [], depth) == Levels(places, depth)
    ensures Jobs(places, depth) + Jobs([], depth + 1) == Jobs(places, depth)
  {
    assert [] + SubLevel(places) == SubLevel(places);
  }

  lemma QueueListsLevels(places: seq<Place>, depth: nat)
    requires depth <= SKETCH_MAX_DEPTH
    ensures QueueListing(Jobs(places, depth)) == Levels(places, depth)
  {
    QueueIsLevelOrder(places, [], depth);
    WholeLevels(places, depth);
  }

  lemma QueueListsRoot(root: Node)
    ensures QueueListing([Job(Place([], root), 0)]) == Listing(root)
  {
    QueueListsLevels([Place([], root)], 0);
    assert Jobs([Place([], root)], 0) == [Job(Place([], root), 0)];
  }

  // ---------- the walk ----------

  ghost predicate Reachable(pending: seq<Job>) {
    forall i :: 0 <= i < |pending| ==> pending[i].depth <= SKETCH_MAX_DEPTH
  }

  /** One turn of the loop: a directory leaves the queue, its entries are printed while there
      is room, and its subdirectories join the queue. */
  method VisitNext(pending: seq<Job>, paths: seq<string>, render: Shown -> string, ghost done: seq<Shown>)
      returns (full: bool, pending': seq<Job>, paths': seq<string>, ghost done': seq<Shown>)
    requires pending != [] && Reachable(pending)
    requires |done| <= MAX_RELEVANT_PATHS && paths == Map(render, done)
    ensures |done'| <= MAX_RELEVANT_PATHS && paths' == Map(render, done')
    ensures !full ==> pending' == Pop(pending) && Reachable(pending')
    ensures !full ==> done' + QueueListing(pending') == done + QueueListing(pending)
    ensures full ==> |done'| == MAX_RELEVANT_PATHS && done' <= done + QueueListing(pending)
  {
    var added, found;
    full, added, found := VisitDirectory(pending[0], |paths|);
    MapAppend(render, done, added);
    paths' := paths + Map(render, added);
    done' := done + added;
    pending' := pending[1..] + Jobs(found, pending[0].depth + 1);
    if full {
      FullPrefix(pending, done, added);
    } else {
      QueueUnfold(pending, done);
      PopReachable(pending);
    }
  }

  lemma QueueUnfold(pending: seq<Job>, done: seq<Shown>)
    requires pending != []
    ensures done + QueueListing(pending) == (done + Entries(pending[0])) + QueueListing(Pop(pending))
  {
    PopShrinks(pending);
    assert QueueListing(pending) == Entries(pending[0]) + QueueListing(Pop(pending));
  }

  lemma FullPrefix(pending: seq<Job>, done: seq<Shown>, added: seq<Shown>)
    requires pending != [] && added <= Entries(pending[0])
    ensures done + added <= done + QueueListing(pending)
  {
    PopShrinks(pending);
    assert QueueListing(pending) == Entries(pending[0]) + QueueListing(Pop(pending));
    PrefixOfThree(done, added, Entries(pending[0]), QueueListing(Pop(pending)));
  }

  lemma PopReachable(pending: seq<Job>)
    requires pending != [] && Reachable(pending)
    ensures Reachable(Pop(pending))
  {
    FoundDepths(pending[0]);
  }

  /** The walk: a queue of directories, each with its depth, and an early return once forty
      paths are collected. */
  method Walk(start: Job, render: Shown -> string) returns (paths: seq<string>)
    requires start.depth <= SKETCH_MAX_DEPTH
    ensures paths == Map(render, First(QueueListing([start]), MAX_RELEVANT_PATHS))
  {
    paths := [];
    var pending := [start];
    ghost var done: seq<Shown> := [];
    ghost var all := QueueListing([start]);
    while pending != []
      invariant |done| <= MAX_RELEVANT_PATHS && paths == Map(render, done)
      invariant all == done + QueueListing(pending) && Reachable(pending)
      decreases Weight(pending)
    {
      PopShrinks(pending);
      var full;
      full, pending, paths, done := VisitNext(pending, paths, render, done);
      if full {
        return;
      }
    }
  }

  lemma FoundDepths(job: Job)
    requires job.depth <= SKETCH_MAX_DEPTH
    ensures Found(job) != [] ==> job.depth + 1 <= SKETCH_MAX_DEPTH
  {}

  method WorkspacePathSketch(root: Node) returns (paths: seq<string>)
    ensures paths == Map(Render, First(Listing(root), MAX_RELEVANT_PATHS))
  {
    QueueListsRoot(root);
    paths := Walk(Job(Place([], root), 0), Render);
  }

  /** One directory: its visible entries, as long as there is room, and the subdirectories to
      visit later. */
  method VisitDirectory(job: Job, count: nat) returns (full: bool, added: seq<Shown>, found: seq<Place>)
    requires count <= MAX_RELEVANT_PATHS && job.depth <= SKETCH_MAX_DEPTH
    ensures count + |added| <= MAX_RELEVANT_PATHS
    ensures !full ==> added == Entries(job) && found == Found(job)
    ensures full ==> count + |added| == MAX_RELEVANT_PATHS && added <= Entries(job)
  {
    var path := job.place.path;
    var children := Children(job.place.node);
    added, found := [], [];
    for i := 0 to |children|
      invariant added == OutKids(path, children[..i])
      invariant found == Deeper(job.depth, SubKids(path, children[..i]))
      invariant count + |added| <= MAX_RELEVANT_PATHS
    {
      OutKidsPrefix(path, children, i);
      if count + |added| >= MAX_RELEVANT_PATHS {
        return true, added, found;
      }
      var entry := children[i];
      assert children[..i + 1][..i] == children[..i];
      if entry.node.Unknown? || entry.node.Symlink? {
        continue;
      }
      if entry.node.Dir? && entry.name in IGNORED {
        continue;
      }
      if entry.node.Dir? {
        added := added + [Shown(path + [entry.name], true)];
        if job.depth + 1 <= SKETCH_MAX_DEPTH {
          found := found + [Place(path + [entry.name], entry.node)];
        }
      } else if entry.node.File? {
        added := added + [Shown(path + [entry.name], false)];
      }
    }
    assert children[..|children|] == children;
    full := false;
  }

  lemma QueueStep(current: seq<Place>, next: seq<Place>, depth: nat, found: seq<Place>)
    requires current != []
    ensures (Jobs(current, depth) + Jobs(next, depth + 1))[1..] + Jobs(found, depth + 1)
            == Jobs(current[1..], depth) + Jobs(next + found, depth + 1)
  {}

  lemma PrefixOfThree(done: seq<Shown>, added: seq<Shown>, out: seq<Shown>, rest: seq<Shown>)
    requires added <= out
    ensures done + added <= done + (out + rest)
  {}

  lemma {:induction false} OutKidsPrefix(path: seq<string>, kids: seq<Child>, i: nat)
    requires i <= |kids|
    ensures OutKids(path, kids[..i]) <= OutKids(path, kids)
    decreases |kids|
  {
    if i == |kids| {
      assert kids[..i] == kids;
    } else {
      var init := kids[..|kids| - 1];
      OutKidsPrefix(path, init, i);
      assert init[..i] == kids[..i];
    }
  }

  // ---------- what the listing holds ----------

  lemma {:induction false} InsertMembers(c: Child, sorted: seq<Child>)
    ensures forall x :: x in InsertChild(c, sorted) <==> x == c || x in sorted
  {
    if sorted != [] && Less(sorted[0].name, c.name) {
      InsertMembers(c, sorted[1..]);
      assert sorted == [sorted[0]] + sorted[1..];
    }
  }

  /** Names in ascending order, equal ones allowed. */
  ghost predicate NamesAscend(entries: seq<Child>) {
    forall i, j :: 0 <= i < j < |entries| ==> !Less(entries[j].name, entries[i].name)
  }

  lemma {:induction false} InsertAscends(c: Child, sorted: seq<Child>)
    requires NamesAscend(sorted)
    ensures NamesAscend(InsertChild(c, sorted))
  {
    if sorted != [] && Less(sorted[0].name, c.name) {
      InsertAscends(c, sorted[1..]);
      InsertMembers(c, sorted[1..]);
      LessTotal(sorted[0].name, c.name);
      ConsAscends(sorted[0], InsertChild(c, sorted[1..]));
    } else {
      forall x | x in sorted
        ensures !Less(x.name, c.name)
      {
        if sorted[0] != x && Less(x.name, c.name) {
          LessTotal(sorted[0].name, c.name);
          LessTotal(sorted[0].name, x.name);
          NotAbove(sorted[0].name, x.name, c.name);
        }
      }
      ConsAscends(c, sorted);
    }
  }

  lemma NotAbove(a: string, b: string, c: string)
    requires !Less(b, a) && !Less(a, c)
    ensures !Less(b, c)
  {
    LessTotal(a, b);
    LessTotal(a, c);
    if Less(b, c) && Less(a, b) { LessTransitive(a, b, c); }
  }

  lemma ConsAscends(c: Child, rest: seq<Child>)
    requires NamesAscend(rest) && forall x :: x in rest ==> !Less(x.name, c.name)
    ensures NamesAscend([c] + rest)
  {
    var all := [c] + rest;
    forall i, j | 0 <= i < j < |all|
      ensures !Less(all[j].name, all[i].name)
    {
      assert all[j] == rest[j - 1];
      if i > 0 { assert all[i] == rest[i - 1]; }
    }
  }

  /** The entries of a directory are listed by name, whatever order reading it gave. */
  lemma {:induction false} SortAscends(entries: seq<Child>)
    ensures NamesAscend(SortChildren(entries)) && multiset(SortChildren(entries)) == multiset(entries)
  {
    if entries != [] {
      SortAscends(entries[1..]);
      InsertAscends(entries[0], SortChildren(entries[1..]));
      InsertKeeps(entries[0], SortChildren(entries[1..]));
      assert entries == [entries[0]] + entries[1..];
    }
  }

  lemma {:induction false} InsertKeeps(c: Child, sorted: seq<Child>)
    ensures multiset(InsertChild(c, sorted)) == multiset([c]) + multiset(sorted)
  {
    if sorted != [] && Less(sorted[0].name, c.name) {
      InsertKeeps(c, sorted[1..]);
      assert sorted == [sorted[0]] + sorted[1..];
    }
  }

  lemma {:induction false} SortMembers(entries: seq<Child>)
    ensures forall x :: x in SortChildren(entries) <==> x in entries
  {
    if entries != [] {
      SortMembers(entries[1..]);
      InsertMembers(entries[0], SortChildren(entries[1..]));
      assert entries == [entries[0]] + entries[1..];
    }
  }

  lemma {:induction false} OutKidsMembers(path: seq<string>, kids: seq<Child>, s: Shown)
    ensures s in OutKids(path, kids) <==>
      exists c :: c in kids && IsVisible(c) && s == Shown(path + [c.name], c.node.Dir?)
  {
    if kids != [] {
      var init, last := kids[..|kids| - 1], kids[|kids| - 1];
      assert kids == init + [last];
      OutKidsMembers(path, init, s);
    }
  }

  lemma {:induction false} SubKidsMembers(path: seq<string>, kids: seq<Child>, p: Place)
    ensures p in SubKids(path, kids) <==>
      exists c :: c in kids && IsVisible(c) && c.node.Dir? && p == Place(path + [c.name], c.node)
  {
    if kids != [] {
      var init, last := kids[..|kids| - 1], kids[|kids| - 1];
      assert kids == init + [last];
      SubKidsMembers(path, init, p);
    }
  }

  /** `path` leads from the directory to an entry, through readable directories that are not
      ignored, and `dir` tells what the entry is: the reading of the sketch that no walk is
      needed for. */
  ghost predicate Leads(node: Node, path: seq<string>, dir: bool)
    decreases path
  {
    && path != [] && node.Dir? && node.readable
    && exists c :: c in node.entries && IsVisible(c) && c.name == path[0]
                   && (if |path| == 1 then c.node.Dir? == dir else Leads(c.node, path[1..], dir))
  }

  /** `s` lies below the place, at most `levels` components further down. */
  ghost predicate Below(p: Place, s: Shown, levels: nat) {
    && |p.path| < |s.path| <= |p.path| + levels
    && s.path[..|p.path|] == p.path
    && Leads(p.node, s.path[|p.path|..], s.dir)
  }

  lemma OutIsBelow(p: Place, s: Shown)
    ensures s in OutOf(p) <==> Below(p, s, 1)
  {
    OutKidsMembers(p.path, Children(p.node), s);
    if p.node.Dir? && p.node.readable { SortMembers(p.node.entries); }
    if s in OutKids(p.path, Children(p.node)) {
      var c :| c in Children(p.node) && IsVisible(c) && s == Shown(p.path + [c.name], c.node.Dir?);
      assert s.path[|p.path|..] == [c.name];
    }
    if Below(p, s, 1) {
      var rest := s.path[|p.path|..];
      assert |rest| == 1;
      var c :| c in p.node.entries && IsVisible(c) && c.name == rest[0] && c.node.Dir? == s.dir;
      assert s.path == p.path + [c.name];
    }
  }

  lemma SubKidsAre(p: Place, q: Place)
    ensures q in SubsOf(p) <==>
      p.node.Dir? && p.node.readable
      && exists c :: c in p.node.entries && IsVisible(c) && c.node.Dir? && q == Place(p.path + [c.name], c.node)
  {
    SubKidsMembers(p.path, Children(p.node), q);
    if p.node.Dir? && p.node.readable { SortMembers(p.node.entries); }
  }

  lemma SubUp(p: Place, q: Place, s: Shown, levels: nat)
    requires q in SubsOf(p) && Below(q, s, levels)
    ensures Below(p, s, levels + 1) && |s.path| > |p.path| + 1
  {
    SubKidsAre(p, q);
    var c :| c in p.node.entries && IsVisible(c) && c.node.Dir? && q == Place(p.path + [c.name], c.node);
    var rest := s.path[|p.path|..];
    assert s.path[..|q.path|][|p.path|] == c.name;
    assert rest[0] == c.name && rest[1..] == s.path[|q.path|..];
    assert s.path[..|p.path|] == s.path[..|q.path|][..|p.path|] == p.path;
  }

  lemma SubDown(p: Place, s: Shown, levels: nat) returns (q: Place)
    requires Below(p, s, levels + 1) && |s.path| > |p.path| + 1
    ensures q in SubsOf(p) && Below(q, s, levels)
  {
    var rest := s.path[|p.path|..];
    var c :| c in p.node.entries && IsVisible(c) && c.name == rest[0] && Leads(c.node, rest[1..], s.dir);
    q := Place(p.path + [c.name], c.node);
    SubKidsAre(p, q);
    assert s.path[..|q.path|] == q.path;
    assert rest[1..] == s.path[|q.path|..];
  }

  ghost predicate SomeBelow(places: seq<Place>, s: Shown, levels: nat) {
    exists i :: 0 <= i < |places| && Below(places[i], s, levels)
  }

  lemma OutLevelBelow(places: seq<Place>, s: Shown)
    ensures s in OutLevel(places) <==> SomeBelow(places, s, 1)
  {
    FlatMapMembers(OutOf, places, s);
    if i :| 0 <= i < |places| && s in OutOf(places[i]) { OutIsBelow(places[i], s); }
    if i :| 0 <= i < |places| && Below(places[i], s, 1) { OutIsBelow(places[i], s); }
  }

  lemma DeeperUp(places: seq<Place>, s: Shown, levels: nat)
    requires SomeBelow(SubLevel(places), s, levels)
    ensures SomeBelow(places, s, levels + 1)
  {
    var subs := SubLevel(places);
    var j :| 0 <= j < |subs| && Below(subs[j], s, levels);
    FlatMapMembers(SubsOf, places, subs[j]);
    var i :| 0 <= i < |places| && subs[j] in SubsOf(places[i]);
    SubUp(places[i], subs[j], s, levels);
  }

  lemma DeeperDown(places: seq<Place>, i: nat, s: Shown, levels: nat)
    requires i < |places| && Below(places[i], s, levels + 1) && |s.path| > |places[i].path| + 1
    ensures SomeBelow(SubLevel(places), s, levels)
  {
    var q := SubDown(places[i], s, levels);
    FlatMapMembers(SubsOf, places, q);
    var subs := SubLevel(places);
    var j :| 0 <= j < |subs| && subs[j] == q;
  }

  lemma BelowMore(places: seq<Place>, s: Shown, levels: nat)
    requires levels >= 1 && SomeBelow(places, s, 1)
    ensures SomeBelow(places, s, levels)
  {
    var i :| 0 <= i < |places| && Below(places[i], s, 1);
    assert Below(places[i], s, levels);
  }

  lemma {:induction false} LevelsMembers(places: seq<Place>, depth: nat, s: Shown)
    requires depth <= SKETCH_MAX_DEPTH
    ensures s in Levels(places, depth) <==> SomeBelow(places, s, SKETCH_MAX_DEPTH + 1 - depth)
    decreases SKETCH_MAX_DEPTH - depth
  {
    var levels := SKETCH_MAX_DEPTH - depth;
    OutLevelBelow(places, s);
    if s in OutLevel(places) {
      BelowMore(places, s, levels + 1);
    } else if depth < SKETCH_MAX_DEPTH {
      LevelsMembers(SubLevel(places), depth + 1, s);
      if s in Levels(SubLevel(places), depth + 1) {
        DeeperUp(places, s, levels);
      }
      if i :| 0 <= i < |places| && Below(places[i], s, levels + 1) {
        assert !Below(places[i], s, 1);
        DeeperDown(places, i, s, levels);
      }
    }
  }

  /** The listing holds exactly the entries that a path of one to three components leads to. */
  lemma ListingIsComplete(root: Node, s: Shown)
    ensures s in Listing(root) <==> 1 <= |s.path| <= 3 && Leads(root, s.path, s.dir)
  {
    var start := [Place([], root)];
    LevelsMembers(start, 0, s);
    assert s.path[0..] == s.path && s.path[..0] == [];
    assert SomeBelow(start, s, 3) <==> Below(start[0], s, 3);
  }

  // ---------- order ----------

  ghost predicate AtDepth(places: seq<Place>, depth: nat) {
    forall i :: 0 <= i < |places| ==> |places[i].path| == depth
  }

  lemma {:induction false} SubLevelDepth(places: seq<Place>, depth: nat)
    requires AtDepth(places, depth)
    ensures AtDepth(SubLevel(places), depth + 1)
  {
    var subs := SubLevel(places);
    forall j | 0 <= j < |subs| ensures |subs[j].path| == depth + 1 {
      FlatMapMembers(SubsOf, places, subs[j]);
      var i :| 0 <= i < |places| && subs[j] in SubsOf(places[i]);
      SubKidsAre(places[i], subs[j]);
    }
  }

  lemma OutLevelDepth(places: seq<Place>, depth: nat, s: Shown)
    requires AtDepth(places, depth) && s in OutLevel(places)
    ensures |s.path| == depth + 1
  {
    OutLevelBelow(places, s);
  }

  /** Paths never get shorter and have between `lo` and three components. */
  ghost predicate Ordered(list: seq<Shown>, lo: nat) {
    && (forall i :: 0 <= i < |list| ==> lo <= |list[i].path| <= SKETCH_MAX_DEPTH + 1)
    && (forall i, j :: 0 <= i < j < |list| ==> |list[i].path| <= |list[j].path|)
  }

  lemma OrderedConcat(out: seq<Shown>, rest: seq<Shown>, lo: nat)
    requires lo <= SKETCH_MAX_DEPTH + 1 && Ordered(rest, lo)
    requires forall i :: 0 <= i < |out| ==> |out[i].path| == lo
    ensures Ordered(out + rest, lo)
  {}

  /** Along a level-order listing paths never get shorter. */
  lemma {:induction false} LevelsOrdered(places: seq<Place>, depth: nat)
    requires depth <= SKETCH_MAX_DEPTH && AtDepth(places, depth)
    ensures Ordered(Levels(places, depth), depth + 1)
    decreases SKETCH_MAX_DEPTH - depth
  {
    var out := OutLevel(places);
    forall i | 0 <= i < |out| ensures |out[i].path| == depth + 1 {
      OutLevelDepth(places, depth, out[i]);
    }
    if depth < SKETCH_MAX_DEPTH {
      SubLevelDepth(places, depth);
      LevelsOrdered(SubLevel(places), depth + 1);
      OrderedConcat(out, Levels(SubLevel(places), depth + 1), depth + 1);
    } else {
      OrderedConcat(out, [], depth + 1);
    }
  }

  function Parent(s: Shown): (r: Shown)
    requires s.path != []
  {
    Shown(s.path[..|s.path| - 1], true)
  }

  /** The directory of `s` is one of the given ones. */
  ghost predicate InSome(places: seq<Place>, s: Shown) {
    s.path != [] && exists i :: 0 <= i < |places| && places[i].path == s.path[..|s.path| - 1]
  }

  lemma OutInSome(places: seq<Place>, s: Shown)
    requires s in OutLevel(places)
    ensures InSome(places, s)
  {
    OutLevelBelow(places, s);
    var i :| 0 <= i < |places| && Below(places[i], s, 1);
    assert |places[i].path| == |s.path| - 1;
  }

  lemma SubShown(places: seq<Place>, s: Shown)
    requires InSome(SubLevel(places), s)
    ensures Parent(s) in OutLevel(places)
  {
    var subs := SubLevel(places);
    var j :| 0 <= j < |subs| && subs[j].path == s.path[..|s.path| - 1];
    FlatMapMembers(SubsOf, places, subs[j]);
    var i :| 0 <= i < |places| && subs[j] in SubsOf(places[i]);
    SubKidsAre(places[i], subs[j]);
    var c :| c in places[i].node.entries && IsVisible(c) && c.node.Dir?
             && subs[j] == Place(places[i].path + [c.name], c.node);
    SortMembers(places[i].node.entries);
    OutKidsMembers(places[i].path, Children(places[i].node), Parent(s));
    FlatMapMembers(OutOf, places, Parent(s));
  }

  /** Every entry is in one of the starting directories or comes after the line of its own. */
  ghost predicate Parented(list: seq<Shown>, places: seq<Place>) {
    forall j :: 0 <= j < |list| ==> list[j].path != [] && (InSome(places, list[j]) || Parent(list[j]) in list[..j])
  }

  lemma ParentedConcat(out: seq<Shown>, rest: seq<Shown>, places: seq<Place>, subs: seq<Place>)
    requires forall i :: 0 <= i < |out| ==> InSome(places, out[i])
    requires Parented(rest, subs)
    requires forall s :: s in rest && InSome(subs, s) ==> Parent(s) in out
    ensures Parented(out + rest, places)
  {
    var all := out + rest;
    forall j | |out| <= j < |all| ensures Parent(all[j]) in all[..j] {
      var k := j - |out|;
      assert all[j] == rest[k] && rest[k] in rest;
      assert all[..j] == out + rest[..k];
    }
  }

  lemma AllInSome(places: seq<Place>)
    ensures forall i :: 0 <= i < |OutLevel(places)| ==> InSome(places, OutLevel(places)[i])
  {
    var out := OutLevel(places);
    forall i | 0 <= i < |out| ensures InSome(places, out[i]) { OutInSome(places, out[i]); }
  }

  lemma ParentsAbove(places: seq<Place>, rest: seq<Shown>)
    requires Parented(rest, SubLevel(places))
    ensures Parented(OutLevel(places) + rest, places)
  {
    AllInSome(places);
    forall s | s in rest && InSome(SubLevel(places), s) ensures Parent(s) in OutLevel(places) { SubShown(places, s); }
    ParentedConcat(OutLevel(places), rest, places, SubLevel(places));
  }

  lemma {:induction false} ParentsFirst(places: seq<Place>, depth: nat)
    requires depth <= SKETCH_MAX_DEPTH
    ensures Parented(Levels(places, depth), places)
    decreases SKETCH_MAX_DEPTH - depth
  {
    if depth < SKETCH_MAX_DEPTH {
      ParentsFirst(SubLevel(places), depth + 1);
      ParentsAbove(places, Levels(SubLevel(places), depth + 1));
    } else {
      ParentsAbove(places, []);
    }
  }

  /** In the sketch: at most forty lines of at most three components, paths never getting
      shorter, and every entry of a directory after the line of that directory. */
  lemma SketchIsOrderly(root: Node)
    ensures var sketch := First(Listing(root), MAX_RELEVANT_PATHS);
            && |sketch| <= 40
            && (forall j :: 0 <= j < |sketch| ==> 1 <= |sketch[j].path| <= 3)
            && (forall i, j :: 0 <= i < j < |sketch| ==> |sketch[i].path| <= |sketch[j].path|)
            && (forall j :: 0 <= j < |sketch| && |sketch[j].path| > 1 ==> Parent(sketch[j]) in sketch[..j])
  {
    var start := [Place([], root)];
    LevelsOrdered(start, 0);
    ParentsFirst(start, 0);
    PrefixIsOrderly(Listing(root), First(Listing(root), MAX_RELEVANT_PATHS), start);
  }

  lemma PrefixIsOrderly(all: seq<Shown>, sketch: seq<Shown>, start: seq<Place>)
    requires sketch <= all && Ordered(all, 1) && Parented(all, start) && AtDepth(start, 0)
    ensures forall j :: 0 <= j < |sketch| ==> 1 <= |sketch[j].path| <= 3
    ensures forall i, j :: 0 <= i < j < |sketch| ==> |sketch[i].path| <= |sketch[j].path|
    ensures forall j :: 0 <= j < |sketch| && |sketch[j].path| > 1 ==> Parent(sketch[j]) in sketch[..j]
  {
    forall j | 0 <= j < |sketch| && |sketch[j].path| > 1
      ensures Parent(sketch[j]) in sketch[..j]
    {
      assert sketch[j] == all[j] && sketch[..j] == all[..j];
      NotAtTop(start, all[j]);
    }
  }

  lemma NotAtTop(start: seq<Place>, s: Shown)
    requires AtDepth(start, 0) && |s.path| > 1
    ensures !InSome(start, s)
  {}
}
