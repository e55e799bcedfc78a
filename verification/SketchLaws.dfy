/** The sketch told without a walk: which entries it may show, how a line is written, and that the
    lines stand in the one order given by depth and then by path. */
module SketchLaws {
  import opened Seqs
  import opened Text
  import opened Sketch

  // ---------- which entries ----------

  /** Directories of generated or private files. */
  predicate Generated(name: string) {
    || name == ".git" || name == ".xcoding" || name == "node_modules" || name == "target" || name == "dist"
    || name == "build" || name == ".next" || name == "coverage" || name == "__pycache__" || name == ".venv"
    || name == "venv" || name == ".cargo"
  }

  lemma GeneratedExactly(name: string)
    ensures name in IGNORED <==> Generated(name)
  {
    assert IGNORED[0] == ".git" && IGNORED[1] == ".xcoding" && IGNORED[2] == "node_modules" && IGNORED[3] == "target";
    assert IGNORED[4] == "dist" && IGNORED[5] == "build" && IGNORED[6] == ".next" && IGNORED[7] == "coverage";
    assert IGNORED[8] == "__pycache__" && IGNORED[9] == ".venv" && IGNORED[10] == "venv" && IGNORED[11] == ".cargo";
  }

  /** The entry at the end of a path: a regular file, or a directory that is not generated. */
  predicate Ends(c: Child, dir: bool) {
    if dir then c.node.Dir? && !Generated(c.name) else c.node.File?
  }

  /** A path from a directory to an entry, through readable directories that are not generated. */
  ghost predicate Reaches(node: Node, path: seq<string>, dir: bool)
    decreases path
  {
    && path != [] && node.Dir? && node.readable
    && exists c :: c in node.entries && c.name == path[0]
                   && (if |path| == 1 then Ends(c, dir) else Ends(c, true) && Reaches(c.node, path[1..], dir))
  }

  lemma VisibleExactly(c: Child)
    ensures IsVisible(c) <==> Ends(c, false) || Ends(c, true)
  {
    GeneratedExactly(c.name);
  }

  lemma {:induction false} LeadsExactly(node: Node, path: seq<string>, dir: bool)
    ensures Leads(node, path, dir) <==> Reaches(node, path, dir)
    decreases path
  {
    if path != [] && node.Dir? && node.readable {
      forall c | c in node.entries && c.name == path[0]
        ensures (IsVisible(c) && (if |path| == 1 then c.node.Dir? == dir else Leads(c.node, path[1..], dir)))
           <==> (if |path| == 1 then Ends(c, dir) else Ends(c, true) && Reaches(c.node, path[1..], dir))
      {
        VisibleExactly(c);
        if |path| > 1 { LeadsExactly(c.node, path[1..], dir); }
      }
    }
  }

  /** The listing holds exactly the files and directories that a path of one to three components
      leads to. */
  lemma ListingExactly(root: Node, s: Shown)
    ensures s in Listing(root) <==> 1 <= |s.path| <= 3 && Reaches(root, s.path, s.dir)
  {
    ListingIsComplete(root, s);
    LeadsExactly(root, s.path, s.dir);
  }

  // ---------- how a line is written ----------

  ghost predicate PlainComponents(path: seq<string>) {
    forall i, j :: 0 <= i < |path| && 0 <= j < |path[i]| ==> path[i][j] != '/' && path[i][j] != '\\'
  }

  lemma {:induction false} JoinPlain(path: seq<string>)
    requires PlainComponents(path)
    ensures '\\' !in Join(path, '/')
  {
    if |path| > 1 {
      JoinPlain(path[1..]);
    }
  }

  lemma {:induction false} JoinSlash(path: seq<string>)
    requires path != []
    ensures Join(path + [""], '/') == Join(path, '/') + "/"
  {
    if |path| == 1 {
      assert (path + [""])[1..] == [""];
    } else {
      JoinSlash(path[1..]);
      assert (path + [""])[1..] == path[1..] + [""];
    }
  }

  lemma SlashedPlain(s: string)
    requires '\\' !in s
    ensures Slashed(s) == s
  {}

  /** A line read at its slashes gives the components back, and an empty last piece exactly for a
      directory. */
  lemma LineBack(s: Shown)
    requires s.path != [] && PlainComponents(s.path)
    ensures Split(Render(s), '/') == if s.dir then s.path + [""] else s.path
  {
    JoinPlain(s.path);
    SlashedPlain(Join(s.path, '/'));
    if s.dir {
      JoinSlash(s.path);
      SplitJoin(s.path + [""], '/');
    } else {
      assert Join(s.path, '/') + "" == Join(s.path, '/');
      SplitJoin(s.path, '/');
    }
  }

  // ---------- the order of paths ----------

  /** Component by component. */
  predicate PathLess(a: seq<string>, b: seq<string>) {
    b != [] && (a == [] || Less(a[0], b[0]) || (a[0] == b[0] && PathLess(a[1..], b[1..])))
  }

  lemma {:induction false} SiblingsLess(p: seq<string>, a: string, b: string)
    requires Less(a, b)
    ensures PathLess(p + [a], p + [b])
  {
    if p != [] {
      SiblingsLess(p[1..], a, b);
      assert (p + [a])[1..] == p[1..] + [a] && (p + [b])[1..] == p[1..] + [b];
    }
  }

  lemma {:induction false} CousinsLess(p: seq<string>, q: seq<string>, a: string, b: string)
    requires |p| == |q| && PathLess(p, q)
    ensures PathLess(p + [a], q + [b])
  {
    if p[0] == q[0] && !Less(p[0], q[0]) {
      CousinsLess(p[1..], q[1..], a, b);
      assert (p + [a])[1..] == p[1..] + [a] && (q + [b])[1..] == q[1..] + [b];
    }
  }

  ghost predicate Ascend<X(!new)>(xs: seq<X>, pathOf: X -> seq<string>) {
    forall i, j :: 0 <= i < j < |xs| ==> PathLess(pathOf(xs[i]), pathOf(xs[j]))
  }

  function PlacePath(p: Place): (r: seq<string>) {
    p.path
  }

  function ShownPath(s: Shown): (r: seq<string>) {
    s.path
  }

  /** The entry lies directly in the directory at `path`. */
  ghost predicate Within(path: seq<string>, inner: seq<string>) {
    |inner| == |path| + 1 && inner[..|path|] == path
  }

  lemma AcrossPlaces(p: seq<string>, q: seq<string>, a: seq<string>, b: seq<string>)
    requires |p| == |q| && PathLess(p, q) && Within(p, a) && Within(q, b)
    ensures PathLess(a, b)
  {
    CousinsLess(p, q, a[|p|], b[|q|]);
    assert a == p + [a[|p|]] && b == q + [b[|q|]];
  }

  lemma AscendAppend<X(!new)>(xs: seq<X>, ys: seq<X>, pathOf: X -> seq<string>)
    requires Ascend(xs, pathOf) && Ascend(ys, pathOf)
    requires forall x, y :: x in xs && y in ys ==> PathLess(pathOf(x), pathOf(y))
    ensures Ascend(xs + ys, pathOf)
  {
    var all := xs + ys;
    forall i, j | 0 <= i < j < |all|
      ensures PathLess(pathOf(all[i]), pathOf(all[j]))
    {
      if i < |xs| <= j { assert all[i] in xs && all[j] in ys; }
    }
  }

  ghost predicate FromPlaces<X(!new)>(f: Place -> seq<X>, pathOf: X -> seq<string>, places: seq<Place>) {
    forall i :: 0 <= i < |places| ==>
      Ascend(f(places[i]), pathOf) && forall x :: x in f(places[i]) ==> Within(places[i].path, pathOf(x))
  }

  /** Directories of one depth in path order give their entries in path order. */
  lemma {:induction false} LevelAscends<X(!new)>(f: Place -> seq<X>, pathOf: X -> seq<string>, places: seq<Place>,
                                                 depth: nat)
    requires Ascend(places, PlacePath) && AtDepth(places, depth) && FromPlaces(f, pathOf, places)
    ensures Ascend(FlatMap(f, places), pathOf)
  {
    if places != [] {
      var rest := places[1..];
      assert forall i :: 0 <= i < |rest| ==> rest[i] == places[i + 1];
      LevelAscends(f, pathOf, rest, depth);
      forall x, y | x in f(places[0]) && y in FlatMap(f, rest)
        ensures PathLess(pathOf(x), pathOf(y))
      {
        FlatMapMembers(f, rest, y);
        var j :| 0 <= j < |rest| && y in f(rest[j]);
        assert rest[j] == places[j + 1] && PathLess(PlacePath(places[0]), PlacePath(places[j + 1]));
        AcrossPlaces(places[0].path, rest[j].path, pathOf(x), pathOf(y));
      }
      AscendAppend(f(places[0]), FlatMap(f, rest), pathOf);
    }
  }

  // ---------- one directory ----------

  ghost predicate StrictNames(kids: seq<Child>) {
    forall i, j :: 0 <= i < j < |kids| ==> Less(kids[i].name, kids[j].name)
  }

  /** No two entries of a directory have the same name, here and below. */
  ghost predicate DistinctNames(node: Node) {
    node.Dir? ==>
      && (forall i, j :: 0 <= i < j < |node.entries| ==> node.entries[i].name != node.entries[j].name)
      && (forall i :: 0 <= i < |node.entries| ==> DistinctNames(node.entries[i].node))
  }

  lemma ConsStrict(c: Child, rest: seq<Child>)
    requires StrictNames(rest) && forall x :: x in rest ==> Less(c.name, x.name)
    ensures StrictNames([c] + rest)
  {
    var all := [c] + rest;
    forall i, j | 0 <= i < j < |all|
      ensures Less(all[i].name, all[j].name)
    {
      assert all[j] == rest[j - 1] && rest[j - 1] in rest;
      if i > 0 { assert all[i] == rest[i - 1]; }
    }
  }

  lemma {:induction false} InsertStrict(c: Child, sorted: seq<Child>)
    requires StrictNames(sorted) && forall x :: x in sorted ==> x.name != c.name
    ensures StrictNames(InsertChild(c, sorted))
  {
    if sorted != [] && Less(sorted[0].name, c.name) {
      var rest := sorted[1..];
      assert forall i :: 0 <= i < |rest| ==> rest[i] == sorted[i + 1];
      InsertStrict(c, rest);
      InsertMembers(c, rest);
      HeadLess(sorted);
      ConsStrict(sorted[0], InsertChild(c, rest));
    } else {
      BelowAll(c, sorted);
      ConsStrict(c, sorted);
    }
  }

  lemma HeadLess(sorted: seq<Child>)
    requires StrictNames(sorted) && sorted != []
    ensures forall x :: x in sorted[1..] ==> Less(sorted[0].name, x.name)
  {
    forall x | x in sorted[1..] ensures Less(sorted[0].name, x.name) {
      var i :| 0 <= i < |sorted[1..]| && sorted[1..][i] == x;
      assert sorted[i + 1] == x;
    }
  }

  lemma BelowAll(c: Child, sorted: seq<Child>)
    requires StrictNames(sorted) && (forall x :: x in sorted ==> x.name != c.name)
    requires sorted == [] || !Less(sorted[0].name, c.name)
    ensures forall x :: x in sorted ==> Less(c.name, x.name)
  {
    forall x | x in sorted ensures Less(c.name, x.name) {
      var i :| 0 <= i < |sorted| && sorted[i] == x;
      assert sorted[0] in sorted;
      LessTotal(sorted[0].name, c.name);
      if i > 0 { LessTransitive(c.name, sorted[0].name, x.name); }
    }
  }

  lemma {:induction false} SortStrict(entries: seq<Child>)
    requires forall i, j :: 0 <= i < j < |entries| ==> entries[i].name != entries[j].name
    ensures StrictNames(SortChildren(entries))
  {
    if entries != [] {
      var rest := entries[1..];
      assert forall i :: 0 <= i < |rest| ==> rest[i] == entries[i + 1];
      SortStrict(rest);
      SortMembers(rest);
      InsertStrict(entries[0], SortChildren(rest));
    }
  }

  lemma {:induction false} OutKidsAscend(path: seq<string>, kids: seq<Child>)
    requires StrictNames(kids)
    ensures Ascend(OutKids(path, kids), ShownPath)
    ensures forall s :: s in OutKids(path, kids) ==> Within(path, s.path)
  {
    if kids != [] {
      var init, last := kids[..|kids| - 1], kids[|kids| - 1];
      assert forall i :: 0 <= i < |init| ==> init[i] == kids[i];
      OutKidsAscend(path, init);
      if IsVisible(last) {
        var line := Shown(path + [last.name], last.node.Dir?);
        forall x | x in OutKids(path, init) ensures PathLess(ShownPath(x), ShownPath(line)) {
          OutKidsMembers(path, init, x);
          var c :| c in init && IsVisible(c) && x == Shown(path + [c.name], c.node.Dir?);
          var i :| 0 <= i < |init| && init[i] == c;
          assert Less(kids[i].name, kids[|kids| - 1].name);
          SiblingsLess(path, c.name, last.name);
        }
        AscendAppend(OutKids(path, init), [line], ShownPath);
      }
    }
  }

  lemma {:induction false} SubKidsAscend(path: seq<string>, kids: seq<Child>)
    requires StrictNames(kids)
    ensures Ascend(SubKids(path, kids), PlacePath)
    ensures forall p :: p in SubKids(path, kids) ==> Within(path, p.path)
  {
    if kids != [] {
      var init, last := kids[..|kids| - 1], kids[|kids| - 1];
      assert forall i :: 0 <= i < |init| ==> init[i] == kids[i];
      SubKidsAscend(path, init);
      if IsVisible(last) && last.node.Dir? {
        var place := Place(path + [last.name], last.node);
        forall x | x in SubKids(path, init) ensures PathLess(PlacePath(x), PlacePath(place)) {
          SubKidsMembers(path, init, x);
          var c :| c in init && IsVisible(c) && c.node.Dir? && x == Place(path + [c.name], c.node);
          var i :| 0 <= i < |init| && init[i] == c;
          assert Less(kids[i].name, kids[|kids| - 1].name);
          SiblingsLess(path, c.name, last.name);
        }
        AscendAppend(SubKids(path, init), [place], PlacePath);
      }
    }
  }

  lemma ChildrenStrict(node: Node)
    requires DistinctNames(node)
    ensures StrictNames(Children(node))
  {
    if node.Dir? && node.readable { SortStrict(node.entries); }
  }

  // ---------- levels ----------

  ghost predicate AllDistinct(places: seq<Place>) {
    forall i :: 0 <= i < |places| ==> DistinctNames(places[i].node)
  }

  lemma SubsDistinct(places: seq<Place>)
    requires AllDistinct(places)
    ensures AllDistinct(SubLevel(places))
  {
    var subs := SubLevel(places);
    forall j | 0 <= j < |subs| ensures DistinctNames(subs[j].node) {
      FlatMapMembers(SubsOf, places, subs[j]);
      var i :| 0 <= i < |places| && subs[j] in SubsOf(places[i]);
      SubKidsAre(places[i], subs[j]);
      var c :| c in places[i].node.entries && IsVisible(c) && c.node.Dir?
               && subs[j] == Place(places[i].path + [c.name], c.node);
    }
  }

  lemma LevelInOrder(places: seq<Place>, depth: nat)
    requires Ascend(places, PlacePath) && AtDepth(places, depth) && AllDistinct(places)
    ensures Ascend(OutLevel(places), ShownPath)
    ensures Ascend(SubLevel(places), PlacePath)
  {
    forall i | 0 <= i < |places|
      ensures Ascend(OutOf(places[i]), ShownPath)
      ensures forall s :: s in OutOf(places[i]) ==> Within(places[i].path, s.path)
      ensures Ascend(SubsOf(places[i]), PlacePath)
      ensures forall p :: p in SubsOf(places[i]) ==> Within(places[i].path, p.path)
    {
      ChildrenStrict(places[i].node);
      OutKidsAscend(places[i].path, Children(places[i].node));
      SubKidsAscend(places[i].path, Children(places[i].node));
    }
    LevelAscends(OutOf, ShownPath, places, depth);
    LevelAscends(SubsOf, PlacePath, places, depth);
  }

  /** Shorter paths first, and among paths of one length the lesser first. */
  predicate ComesBefore(a: Shown, b: Shown) {
    |a.path| < |b.path| || (|a.path| == |b.path| && PathLess(a.path, b.path))
  }

  ghost predicate InPathOrder(list: seq<Shown>) {
    forall i, j :: 0 <= i < j < |list| ==> ComesBefore(list[i], list[j])
  }

  lemma LevelThenDeeper(out: seq<Shown>, rest: seq<Shown>, depth: nat)
    requires Ascend(out, ShownPath) && InPathOrder(rest)
    requires forall i :: 0 <= i < |out| ==> |out[i].path| == depth + 1
    requires forall i :: 0 <= i < |rest| ==> |rest[i].path| > depth + 1
    ensures InPathOrder(out + rest)
  {
    var all := out + rest;
    forall i, j | 0 <= i < j < |all| ensures ComesBefore(all[i], all[j]) {
      if j < |out| {
        assert PathLess(ShownPath(out[i]), ShownPath(out[j]));
      } else {
        assert all[j] == rest[j - |out|];
        if i >= |out| { assert all[i] == rest[i - |out|]; }
      }
    }
  }

  lemma {:induction false} LevelsInOrder(places: seq<Place>, depth: nat)
    requires depth <= SKETCH_MAX_DEPTH && Ascend(places, PlacePath) && AtDepth(places, depth) && AllDistinct(places)
    ensures InPathOrder(Levels(places, depth))
    decreases SKETCH_MAX_DEPTH - depth
  {
    var out := OutLevel(places);
    LevelInOrder(places, depth);
    forall i | 0 <= i < |out| ensures |out[i].path| == depth + 1 { OutLevelDepth(places, depth, out[i]); }
    if depth < SKETCH_MAX_DEPTH {
      SubsDistinct(places);
      SubLevelDepth(places, depth);
      LevelsInOrder(SubLevel(places), depth + 1);
      LevelsOrdered(SubLevel(places), depth + 1);
      LevelThenDeeper(out, Levels(SubLevel(places), depth + 1), depth);
    } else {
      LevelThenDeeper(out, [], depth);
    }
  }

  /** The listing is in strict order of depth and path. */
  lemma ListingInOrder(root: Node)
    requires DistinctNames(root)
    ensures InPathOrder(Listing(root))
  {
    LevelsInOrder([Place([], root)], 0);
  }

  // ---------- there is only one such listing ----------

  lemma {:induction false} PathLessOneWay(a: seq<string>, b: seq<string>)
    ensures !(PathLess(a, b) && PathLess(b, a))
  {
    if a != [] && b != [] {
      LessTotal(a[0], b[0]);
      if a[0] == b[0] { PathLessOneWay(a[1..], b[1..]); }
    }
  }

  lemma HeadFirst(list: seq<Shown>, x: Shown)
    requires InPathOrder(list) && x in list
    ensures x == list[0] || ComesBefore(list[0], x)
  {
    var i :| 0 <= i < |list| && list[i] == x;
  }

  lemma SameHead(a: seq<Shown>, b: seq<Shown>)
    requires InPathOrder(a) && InPathOrder(b) && a != [] && b != [] && forall x :: x in a <==> x in b
    ensures a[0] == b[0]
  {
    HeadFirst(a, b[0]);
    HeadFirst(b, a[0]);
    PathLessOneWay(a[0].path, b[0].path);
  }

  lemma TailMembers(list: seq<Shown>)
    requires InPathOrder(list) && list != []
    ensures InPathOrder(list[1..]) && forall x :: x in list[1..] <==> x in list && x != list[0]
  {
    forall x | x in list[1..] ensures x in list && x != list[0] {
      var i :| 0 <= i < |list[1..]| && list[1..][i] == x;
      assert list[i + 1] == x && ComesBefore(list[0], list[i + 1]);
      PathLessOneWay(x.path, x.path);
    }
    forall x | x in list && x != list[0] ensures x in list[1..] {
      var i :| 0 <= i < |list| && list[i] == x;
      assert list[1..][i - 1] == x;
    }
  }

  lemma HasMember(list: seq<Shown>)
    ensures list == [] || list[0] in list
  {}

  lemma {:induction false} OrderUnique(a: seq<Shown>, b: seq<Shown>)
    requires InPathOrder(a) && InPathOrder(b) && forall x :: x in a <==> x in b
    ensures a == b
  {
    HasMember(a);
    HasMember(b);
    if a != [] && b != [] {
      SameHead(a, b);
      TailMembers(a);
      TailMembers(b);
      OrderUnique(a[1..], b[1..]);
      assert a == [a[0]] + a[1..] && b == [b[0]] + b[1..];
    }
  }

  /** The listing is the one list, in order of depth and path, of the files and directories that
      paths of one to three components lead to. */
  lemma ListingIsTheOne(root: Node, list: seq<Shown>)
    requires DistinctNames(root) && InPathOrder(list)
    requires forall s :: s in list <==> 1 <= |s.path| <= 3 && Reaches(root, s.path, s.dir)
    ensures list == Listing(root)
  {
    ListingInOrder(root);
    forall s ensures s in list <==> s in Listing(root) { ListingExactly(root, s); }
    OrderUnique(list, Listing(root));
  }
}
