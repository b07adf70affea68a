/**
 * Guessing the content type of a directory tree (gio/gcontenttype.c): the forest
 * of matchlets that is built from lines tagged with a depth, and matching it.
 */
module TreeMagic {
  import opened Wrappers
  import opened TreeMagicWalk

  datatype FileType = Unknown | Regular | Directory | SymbolicLink

  /** The tests of a treemagic line, whose path is already split, and the matchlets below it. */
  datatype TreeMatchlet = TreeMatchlet(
    components: seq<Name>,
    fileType: FileType,
    mimetype: Option<string>,
    executable: bool,
    matchCase: bool,
    nonEmpty: bool,
    matches: seq<TreeMatchlet>)

  // ---------------------------------------------------------------- building the forest

  /** A line: its depth, and a matchlet with nothing below it. */
  datatype Line = Line(depth: int, matchlet: TreeMatchlet)

  predicate Bare(m: TreeMatchlet) { m.matches == [] }

  /** How many levels the last matchlet, the last below it, and so on, make. */
  function Height(forest: seq<TreeMatchlet>): nat
  {
    if forest == [] then 0 else
      assert forest[|forest| - 1] in forest;
      1 + Height(forest[|forest| - 1].matches)
  }

  /**
   * Where insert_matchlet puts a matchlet: behind the last one at its depth, which
   * must exist one level up; None when it does not.  A negative depth counts as 1.
   */
  function Inserted(forest: seq<TreeMatchlet>, m: TreeMatchlet, depth: int): (r: Option<seq<TreeMatchlet>>)
    decreases forest
  {
    if depth == 0 then Some(forest + [m])
    else if forest == [] then None
    else
      var last := forest[|forest| - 1];
      assert last in forest;
      match Inserted(last.matches, m, if depth > 1 then depth - 1 else 0)
      case None => None
      case Some(below) => Some(forest[..|forest| - 1] + [last.(matches := below)])
  }

  /** The matchlets in preorder, as lines. */
  function Listing(forest: seq<TreeMatchlet>, depth: nat): seq<Line>
    decreases forest
  {
    if forest == [] then [] else
      var last := forest[|forest| - 1];
      assert last in forest;
      Listing(forest[..|forest| - 1], depth) + [Line(depth, last.(matches := []))] + Listing(last.matches, depth + 1)
  }

  /** The depth a line really gets. */
  function DepthUsed(depth: int): nat { if depth < 0 then 1 else depth }

  lemma ListingLast(front: seq<TreeMatchlet>, last: TreeMatchlet, base: nat)
    ensures
      Listing(front + [last], base)
      == Listing(front, base) + [Line(base, last.(matches := []))] + Listing(last.matches, base + 1)
    ensures Height(front + [last]) == 1 + Height(last.matches)
  {
    var forest := front + [last];
    assert forest[..|forest| - 1] == front && forest[|forest| - 1] == last;
  }

  lemma ListingBelow(front: seq<TreeMatchlet>, last: TreeMatchlet, below: seq<TreeMatchlet>, line: Line, base: nat)
    requires Listing(below, base + 1) == Listing(last.matches, base + 1) + [line]
    ensures
      var after := front + [last.(matches := below)];
      Listing(after, base) == Listing(front + [last], base) + [line]
  {
    ListingLast(front, last, base);
    ListingLast(front, last.(matches := below), base);
    assert last.(matches := []) == last.(matches := below).(matches := []);
  }

  /** A matchlet finds its place exactly when it is not too deep for the last branch. */
  lemma {:induction false} InsertedFits(forest: seq<TreeMatchlet>, m: TreeMatchlet, depth: int)
    requires Bare(m)
    ensures Inserted(forest, m, depth).Some? <==> DepthUsed(depth) <= Height(forest)
    ensures Inserted(forest, m, depth).Some? ==> Height(Inserted(forest, m, depth).value) == DepthUsed(depth) + 1
    decreases forest
  {
    if depth == 0 {
      ListingLast(forest, m, 0);
    } else if forest != [] {
      var front, last := forest[..|forest| - 1], forest[|forest| - 1];
      assert last in forest;
      var d := if depth > 1 then depth - 1 else 0;
      InsertedFits(last.matches, m, d);
      if Inserted(last.matches, m, d).Some? {
        ListingLast(front, last.(matches := Inserted(last.matches, m, d).value), 0);
      }
    }
  }

  /** And then it adds itself to the listing. */
  lemma {:induction false} InsertedListing(forest: seq<TreeMatchlet>, m: TreeMatchlet, depth: int, base: nat)
    requires Bare(m) && Inserted(forest, m, depth).Some?
    ensures Listing(Inserted(forest, m, depth).value, base) == Listing(forest, base) + [Line(base + DepthUsed(depth), m)]
    decreases forest
  {
    if depth == 0 {
      ListingLast(forest, m, base);
      assert m.(matches := []) == m;
    } else {
      var front, last := forest[..|forest| - 1], forest[|forest| - 1];
      assert last in forest && forest == front + [last];
      var d := if depth > 1 then depth - 1 else 0;
      InsertedListing(last.matches, m, d, base + 1);
      ListingBelow(front, last, Inserted(last.matches, m, d).value, Line(base + DepthUsed(depth), m), base);
    }
  }

  class TreeMatch {
    const priority: int
    const contentType: string
    var matches: seq<TreeMatchlet>

    constructor (priority: int, contentType: string)
      ensures this.priority == priority && this.contentType == contentType && matches == []
    {
      this.priority, this.contentType := priority, contentType;
      matches := [];
    }

    /** A line that is too deep is dropped. */
    method InsertMatchlet(m: TreeMatchlet, depth: int) returns (ok: bool)
      requires Bare(m)
      modifies this
      ensures ok <==> (if depth < 0 then 1 else depth) <= Height(old(matches))
      ensures ok ==> Listing(matches, 0) == Listing(old(matches), 0) + [Line(if depth < 0 then 1 else depth, m)]
      ensures ok ==> Height(matches) == DepthUsed(depth) + 1
      ensures !ok ==> matches == old(matches)
    {
      InsertedFits(matches, m, depth);
      var inserted := Inserted(matches, m, depth);
      ok := inserted.Some?;
      if ok {
        InsertedListing(matches, m, depth, 0);
        matches := inserted.value;
      }
    }

    /** The lines of one section of a treemagic file. */
    method InsertAll(lines: seq<Line>)
      requires matches == [] && forall l :: l in lines ==> Bare(l.matchlet)
      modifies this
      ensures Listing(matches, 0) == Kept(lines, 0)
    {
      for i := 0 to |lines|
        invariant Kept(lines, 0) == Listing(matches, 0) + Kept(lines[i..], Height(matches))
      {
        assert lines[i..][0] == lines[i] && lines[i..][1..] == lines[i + 1..];
        var ok := InsertMatchlet(lines[i].matchlet, lines[i].depth);
      }
    }
  }

  /** The lines that find their place, when the last branch has `height` levels so far. */
  function Kept(lines: seq<Line>, height: nat): seq<Line>
  {
    if lines == [] then []
    else
      var level := DepthUsed(lines[0].depth);
      if level <= height then [Line(level, lines[0].matchlet)] + Kept(lines[1..], level + 1)
      else Kept(lines[1..], height)
  }

  /** Depths that start at most at `height` and never rise by more than one. */
  predicate Stepwise(lines: seq<Line>, height: nat)
  {
    lines != [] ==> 0 <= lines[0].depth <= height && Stepwise(lines[1..], lines[0].depth + 1)
  }

  /** Nothing is dropped or moved exactly when the depths are such. */
  lemma {:induction false} StepwiseIsKept(lines: seq<Line>, height: nat)
    ensures |Kept(lines, height)| <= |lines|
    ensures Kept(lines, height) == lines <==> Stepwise(lines, height)
  {
    if lines != [] {
      var level := DepthUsed(lines[0].depth);
      StepwiseIsKept(lines[1..], level + 1);
      StepwiseIsKept(lines[1..], height);
      assert lines == [lines[0]] + lines[1..];
      if level <= height {
        var kept := Kept(lines, height);
        assert kept[0] == Line(level, lines[0].matchlet) && kept[1..] == Kept(lines[1..], level + 1);
      }
    }
  }

  // ---------------------------------------------------------------- the sorted list of matches

  ghost predicate Sorted(matches: seq<TreeMatch>)
  {
    forall i, j :: 0 <= i < j < |matches| ==> matches[i].priority >= matches[j].priority
  }

  /** g_list_insert_sorted: in front of the first that is not of a higher priority, so of equals the newest is first. */
  method InsertSorted(matches: seq<TreeMatch>, match_: TreeMatch) returns (r: seq<TreeMatch>, ghost at: nat)
    requires Sorted(matches)
    ensures Sorted(r) && at <= |matches| && r == matches[..at] + [match_] + matches[at..]
    ensures forall i :: 0 <= i < at ==> matches[i].priority > match_.priority
    ensures forall i :: at <= i < |matches| ==> matches[i].priority <= match_.priority
  {
    if matches == [] {
      return [match_], 0;
    }
    var i := 0;
    var cmp := matches[0].priority - match_.priority;
    while i + 1 < |matches| && cmp > 0
      invariant 0 <= i < |matches| && cmp == matches[i].priority - match_.priority
      invariant forall k :: 0 <= k < i ==> matches[k].priority > match_.priority
    {
      i := i + 1;
      cmp := matches[i].priority - match_.priority;
    }
    if i + 1 == |matches| && cmp > 0 {
      return matches + [match_], |matches|;
    }
    r, at := matches[..i] + [match_] + matches[i..], i;
  }

  // ---------------------------------------------------------------- matching

  datatype Info = Info(fileType: FileType, canExecute: bool, contentType: string)

  /** The files: what can be enumerated, and what can be queried. */
  datatype Disk = Disk(tree: Tree, infos: map<File, Info>, fold: Name -> Name)

  predicate Passes(disk: Disk, m: TreeMatchlet, file: File)
  {
    && file in disk.infos
    && (m.fileType.Unknown? || disk.infos[file].fileType == m.fileType)
    && (m.executable ==> disk.infos[file].canExecute)
    && (m.nonEmpty ==> file in disk.tree && disk.tree[file] != [])
    && (m.mimetype.Some? ==> m.mimetype.value == disk.infos[file].contentType)
  }

  function PatternOf(disk: Disk, m: TreeMatchlet): Pattern
  {
    Pattern(m.components, !m.matchCase, disk.fold)
  }

  /** A walk has a file that passes, with no stop before it. */
  predicate Finds(disk: Disk, m: TreeMatchlet, walk: seq<Option<File>>)
  {
    walk != [] && walk[0].Some? && (Passes(disk, m, walk[0].value) || Finds(disk, m, walk[1..]))
  }

  ghost predicate Matches(disk: Disk, m: TreeMatchlet)
  {
    && m.components != [] && Finds(disk, m, WalkFromRoot(disk.tree, PatternOf(disk, m)))
    && (m.matches == [] || exists i :: 0 <= i < |m.matches| && Matches(disk, m.matches[i]))
  }

  /** No matchlet has an empty path. */
  predicate Searchable(m: TreeMatchlet)
  {
    m.components != [] && forall i :: 0 <= i < |m.matches| ==> Searchable(m.matches[i])
  }

  predicate PassesAt(disk: Disk, m: TreeMatchlet, file: Option<File>) { file.Some? && Passes(disk, m, file.value) }

  lemma {:induction false} FindsAt(disk: Disk, m: TreeMatchlet, walk: seq<Option<File>>)
    ensures
      Finds(disk, m, walk)
      <==> exists i :: 0 <= i < |walk| && PassesAt(disk, m, walk[i]) && None !in walk[..i]
  {
    if walk != [] {
      FindsAt(disk, m, walk[1..]);
      var rest := walk[1..];
      if i :| 0 <= i < |rest| && PassesAt(disk, m, rest[i]) && None !in rest[..i] {
        assert walk[..i + 1] == [walk[0]] + rest[..i];
        assert walk[i + 1] == rest[i];
      }
      if i :| 0 < i < |walk| && PassesAt(disk, m, walk[i]) && None !in walk[..i] {
        assert walk[..i] == [walk[0]] + rest[..i - 1];
        assert rest[i - 1] == walk[i] && walk[0] in walk[..i];
      }
    }
  }

  ghost predicate SomePathPasses(disk: Disk, m: TreeMatchlet)
  {
    exists file ::
      Leads(disk.tree, PatternOf(disk, m), file) && |file| == |m.components| && Passes(disk, m, file)
  }

  /** A file that passes comes in the walk before the first stop. */
  ghost predicate PassesBeforeStop(disk: Disk, m: TreeMatchlet)
    requires m.components != []
  {
    var walk := WalkFromRoot(disk.tree, PatternOf(disk, m));
    exists i :: 0 <= i < |walk| && PassesAt(disk, m, walk[i]) && None !in walk[..i]
  }

  /** The files that pass are in the walk, and there is a stop in it only where a file cannot be enumerated. */
  lemma PassesInWalk(disk: Disk, m: TreeMatchlet)
    requires m.components != []
    ensures
      var walk := WalkFromRoot(disk.tree, PatternOf(disk, m));
      && (SomePathPasses(disk, m) <==> exists i :: 0 <= i < |walk| && PassesAt(disk, m, walk[i]))
      && (Open(disk.tree, PatternOf(disk, m)) ==> None !in walk)
  {
    var pattern := PatternOf(disk, m);
    var walk := WalkFromRoot(disk.tree, pattern);
    if i :| 0 <= i < |walk| && PassesAt(disk, m, walk[i]) {
      WholeWalk(disk.tree, pattern, walk[i].value);
    }
    if file :| Leads(disk.tree, pattern, file) && |file| == |m.components| && Passes(disk, m, file) {
      assert file[..0] == [];
      WholeWalk(disk.tree, pattern, file);
      var i :| 0 <= i < |walk| && walk[i] == Some(file);
      assert PassesAt(disk, m, walk[i]);
    }
    if [] in disk.tree {
      WholeWalk(disk.tree, pattern, []);
    }
  }

  /**
   * What a matchlet means.  It matches exactly when a file that passes the tests
   * comes before any that cannot be enumerated and, if there are matchlets below it,
   * one of them matches.  Such a file is at the end of a path; where every file that
   * has to be enumerated can be, any path to a file that passes is enough.
   */
  lemma MatchesMeans(disk: Disk, m: TreeMatchlet)
    requires m.components != []
    ensures
      Matches(disk, m) <==>
        && PassesBeforeStop(disk, m)
        && (m.matches == [] || exists i :: 0 <= i < |m.matches| && Matches(disk, m.matches[i]))
    ensures PassesBeforeStop(disk, m) ==> SomePathPasses(disk, m)
    ensures Open(disk.tree, PatternOf(disk, m)) ==> (PassesBeforeStop(disk, m) <==> SomePathPasses(disk, m))
  {
    var walk := WalkFromRoot(disk.tree, PatternOf(disk, m));
    FindsAt(disk, m, walk);
    PassesInWalk(disk, m);
    if i :| 0 <= i < |walk| && PassesAt(disk, m, walk[i]) && None !in walk {
      assert None !in walk[..i];
    }
  }

  /** Elsewhere it can miss one: a file FOO before a directory foo hides what is in that directory. */
  lemma HiddenByStop(fold: Name -> Name) returns (disk: Disk, m: TreeMatchlet)
    requires fold("FOO") == fold("foo")
    ensures Searchable(m) && m.matches == [] && SomePathPasses(disk, m) && !Matches(disk, m)
  {
    m := TreeMatchlet(["foo", "bar"], Unknown, None, false, false, false, []);
    var file: File := ["foo", "bar"];
    var tree: Tree := map[[] := ["FOO", "foo"], ["foo"] := ["bar"]];
    disk := Disk(tree, map[file := Info(Regular, false, "")], fold);
    var pattern := PatternOf(disk, m);
    assert file[..0] == [] && file[..1] == ["foo"];
    assert Leads(tree, pattern, file) && Passes(disk, m, file);
    assert ["FOO"] !in tree by {
      assert ["FOO"][0] != ["foo"][0];
    }
    assert [] + ["FOO"] == ["FOO"];
    assert WalkName(tree, pattern, [], "FOO", 0) == [None];
    assert WalkFromRoot(tree, pattern)[0] == None;
  }

  /** The names of a path are listed, one below the other, and are the components, up to case where that is ignored. */
  ghost predicate OnPath(disk: Disk, m: TreeMatchlet, file: File)
  {
    |file| <= |m.components|
    && forall k :: 0 <= k < |file| ==>
      && file[..k] in disk.tree && file[k] in disk.tree[file[..k]]
      && (file[k] == m.components[k] || (!m.matchCase && disk.fold(file[k]) == disk.fold(m.components[k])))
  }

  ghost predicate AtPath(disk: Disk, m: TreeMatchlet, file: File)
  {
    |file| == |m.components| && OnPath(disk, m, file)
  }

  lemma OnPathLeads(disk: Disk, m: TreeMatchlet, file: File)
    ensures OnPath(disk, m, file) <==> Leads(disk.tree, PatternOf(disk, m), file)
  {
  }

  /** A matchlet that matches has a file at its path that has all it asks for. */
  lemma MatchHasFile(disk: Disk, m: TreeMatchlet) returns (file: File)
    requires Matches(disk, m)
    ensures AtPath(disk, m, file) && file in disk.infos
    ensures m.fileType != Unknown ==> disk.infos[file].fileType == m.fileType
    ensures m.executable ==> disk.infos[file].canExecute
    ensures m.nonEmpty ==> file in disk.tree && |disk.tree[file]| > 0
    ensures m.mimetype.Some? ==> disk.infos[file].contentType == m.mimetype.value
    ensures m.matches != [] ==> exists i :: 0 <= i < |m.matches| && Matches(disk, m.matches[i])
  {
    MatchesMeans(disk, m);
    file :| Leads(disk.tree, PatternOf(disk, m), file) && |file| == |m.components| && Passes(disk, m, file);
    OnPathLeads(disk, m, file);
  }

  /** And one file like that is enough, where every directory on the way to the path can be enumerated. */
  lemma FileIsEnough(disk: Disk, m: TreeMatchlet, file: File)
    requires m.components != [] && AtPath(disk, m, file) && file in disk.infos
    requires m.fileType != Unknown ==> disk.infos[file].fileType == m.fileType
    requires m.executable ==> disk.infos[file].canExecute
    requires m.nonEmpty ==> file in disk.tree && |disk.tree[file]| > 0
    requires m.mimetype.Some? ==> disk.infos[file].contentType == m.mimetype.value
    requires m.matches != [] ==> exists i :: 0 <= i < |m.matches| && Matches(disk, m.matches[i])
    requires forall d :: OnPath(disk, m, d) && |d| < |m.components| ==> d in disk.tree
    ensures Matches(disk, m)
  {
    forall d
      ensures OnPath(disk, m, d) <==> Leads(disk.tree, PatternOf(disk, m), d)
    {
      OnPathLeads(disk, m, d);
    }
    assert OnPath(disk, m, []);
    MatchesMeans(disk, m);
  }

  /** A file that fails any one of the tests is not enough: where all do, nothing matches. */
  lemma EveryTestIsNeeded(disk: Disk, m: TreeMatchlet)
    requires
      forall file :: AtPath(disk, m, file) ==>
        || file !in disk.infos
        || (m.fileType != Unknown && disk.infos[file].fileType != m.fileType)
        || (m.executable && !disk.infos[file].canExecute)
        || (m.nonEmpty && (file !in disk.tree || disk.tree[file] == []))
        || (m.mimetype.Some? && disk.infos[file].contentType != m.mimetype.value)
    ensures !Matches(disk, m)
  {
    if Matches(disk, m) {
      var file := MatchHasFile(disk, m);
    }
  }

  method MatchletMatch(disk: Disk, m: TreeMatchlet) returns (r: bool)
    requires Searchable(m)
    ensures r == Matches(disk, m)
    decreases m
  {
    var e := new Enumerator(disk.tree, PatternOf(disk, m));
    var last := |m.components| - 1;
    var result := false;
    while !result
      invariant e.Valid() && e.Traced(last) && fresh(e) && fresh(e.enumerators) && fresh(e.children)
      invariant Finds(disk, m, WalkFromRoot(disk.tree, PatternOf(disk, m))) <==> result || Finds(disk, m, e.left[last])
      decreases !result, |e.left[last]|
    {
      ghost var before := e.left[last];
      var file := e.EnumeratorNext();
      assert before != [] ==> before[0] == file && before[1..] == e.left[last];
      if file.None? {
        return false;
      }
      result := Passes(disk, m, file.value);
    }
    if m.matches == [] {
      return true;
    }
    for i := 0 to |m.matches|
      invariant forall k :: 0 <= k < i ==> !Matches(disk, m.matches[k])
    {
      var sub := MatchletMatch(disk, m.matches[i]);
      if sub {
        return true;
      }
    }
    return false;
  }

  ghost predicate AnyMatches(disk: Disk, matches: seq<TreeMatchlet>)
  {
    exists i :: 0 <= i < |matches| && Matches(disk, matches[i])
  }

  method MatchMatch(disk: Disk, match_: TreeMatch, types: seq<string>) returns (r: seq<string>)
    requires forall m :: m in match_.matches ==> Searchable(m)
    ensures r == types + if AnyMatches(disk, match_.matches) then [match_.contentType] else []
    ensures |r| > |types| <==> exists i :: 0 <= i < |match_.matches| && Matches(disk, match_.matches[i])
  {
    for i := 0 to |match_.matches|
      invariant forall k :: 0 <= k < i ==> !Matches(disk, match_.matches[k])
    {
      var matched := MatchletMatch(disk, match_.matches[i]);
      if matched {
        return types + [match_.contentType];
      }
    }
    return types;
  }

  /** The types of the matches that match, each once, best first: `picks` says where in the list they are. */
  method GuessForTree(disk: Disk, matches: seq<TreeMatch>) returns (types: seq<string>, ghost picks: seq<nat>)
    requires Sorted(matches)
    requires forall i :: 0 <= i < |matches| ==> forall m :: m in matches[i].matches ==> Searchable(m)
    ensures |types| == |picks|
    ensures forall k :: 0 <= k < |picks| ==> picks[k] < |matches| && types[k] == matches[picks[k]].contentType
    ensures forall i :: 0 <= i < |matches| ==>
      (i in picks <==> exists j :: 0 <= j < |matches[i].matches| && Matches(disk, matches[i].matches[j]))
    ensures forall k, l :: 0 <= k < l < |picks| ==>
      picks[k] < picks[l] < |matches| && matches[picks[k]].priority >= matches[picks[l]].priority
  {
    types, picks := [], [];
    for i := 0 to |matches|
      invariant |types| == |picks|
      invariant forall k :: 0 <= k < |picks| ==> picks[k] < i && types[k] == matches[picks[k]].contentType
      invariant forall j :: 0 <= j < i ==> (j in picks <==> AnyMatches(disk, matches[j].matches))
      invariant forall k, l :: 0 <= k < l < |picks| ==> picks[k] < picks[l]
    {
      types := MatchMatch(disk, matches[i], types);
      picks := picks + if AnyMatches(disk, matches[i].matches) then [i] else [];
    }
  }
}
