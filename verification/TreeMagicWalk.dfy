/**
 * The filtering enumerator of the tree-magic matcher (gio/gcontenttype.c): a
 * resumable walk that gives, one call at a time, the files whose names match the
 * components of a path, each ignoring case or not.
 */
module TreeMagicWalk {
  import opened Wrappers

  type Name = string

  /** A file is the names that lead to it from the root; the root is []. */
  type File = seq<Name>

  /** What can be enumerated, in the order of its enumeration, and the rest cannot. */
  type Tree = map<File, seq<Name>>

  /** `fold` is g_utf8_collate_key of g_utf8_casefold. */
  datatype Pattern = Pattern(components: seq<Name>, ignoreCase: bool, fold: Name -> Name)

  predicate ComponentMatch(pattern: Pattern, depth: nat, name: Name)
    requires depth < |pattern.components|
  {
    || name == pattern.components[depth]
    || (pattern.ignoreCase && pattern.fold(name) == pattern.fold(pattern.components[depth]))
  }

  // ---------------------------------------------------------------- the walk, depth first

  /**
   * The walk through the given names in `dir`, at a depth: files to give, and a
   * None where a file matches that is not the last of its path and cannot be
   * enumerated.
   */
  function Walk(tree: Tree, pattern: Pattern, dir: File, names: seq<Name>, depth: nat): seq<Option<File>>
    requires depth < |pattern.components|
    decreases |pattern.components| - depth, |names|
  {
    if names == [] then []
    else WalkName(tree, pattern, dir, names[0], depth) + Walk(tree, pattern, dir, names[1..], depth)
  }

  function WalkName(tree: Tree, pattern: Pattern, dir: File, name: Name, depth: nat): seq<Option<File>>
    requires depth < |pattern.components|
    decreases |pattern.components| - depth, 0
  {
    if !ComponentMatch(pattern, depth, name) then []
    else if depth == |pattern.components| - 1 then [Some(dir + [name])]
    else if dir + [name] !in tree then [None]
    else Walk(tree, pattern, dir + [name], tree[dir + [name]], depth + 1)
  }

  /** A path whose k-th name is listed where it should be and matches component k. */
  ghost predicate Leads(tree: Tree, pattern: Pattern, file: File)
  {
    && |file| <= |pattern.components|
    && forall k :: 0 <= k < |file| ==>
      file[..k] in tree && file[k] in tree[file[..k]] && ComponentMatch(pattern, k, file[k])
  }

  /** Every matched file that is not the last of its path can be enumerated. */
  ghost predicate Open(tree: Tree, pattern: Pattern)
  {
    [] in tree && forall f :: Leads(tree, pattern, f) && |f| < |pattern.components| ==> f in tree
  }

  lemma LeadsOn(tree: Tree, pattern: Pattern, dir: File, name: Name)
    requires Leads(tree, pattern, dir) && |dir| < |pattern.components|
    requires dir in tree && name in tree[dir] && ComponentMatch(pattern, |dir|, name)
    ensures Leads(tree, pattern, dir + [name])
  {
    var child := dir + [name];
    forall k | 0 <= k < |child|
      ensures child[..k] in tree && child[k] in tree[child[..k]] && ComponentMatch(pattern, k, child[k])
    {
      assert child[..k] == dir[..k];
      assert dir[..|dir|] == dir;
    }
  }

  /** What the walk gives below one name. */
  ghost predicate Below(tree: Tree, pattern: Pattern, dir: File, name: Name, file: File)
  {
    Leads(tree, pattern, file) && dir + [name] <= file
  }

  lemma BelowMeans(tree: Tree, pattern: Pattern, dir: File, name: Name, file: File)
    requires |dir| < |pattern.components| && Below(tree, pattern, dir, name, file)
    ensures file[|dir|] == name && ComponentMatch(pattern, |dir|, name)
    ensures |file| > |dir| + 1 ==> dir + [name] in tree && file[|dir| + 1] in tree[dir + [name]]
  {
    var k := |dir| + 1;
    assert file[..k] == dir + [name];
    assert file[k - 1] == file[..k][k - 1];
    if |file| > k {
      assert file[..k + 1] == dir + [name] + [file[k]];
      assert file[..k] in tree;
    }
  }

  lemma {:induction false} WalkNameGives(tree: Tree, pattern: Pattern, dir: File, name: Name, file: File)
    requires Leads(tree, pattern, dir) && |dir| < |pattern.components| && dir in tree && name in tree[dir]
    ensures
      Some(file) in WalkName(tree, pattern, dir, name, |dir|)
      <==> Below(tree, pattern, dir, name, file) && |file| == |pattern.components|
    decreases |pattern.components| - |dir|, 0
  {
    var child := dir + [name];
    if Below(tree, pattern, dir, name, file) {
      BelowMeans(tree, pattern, dir, name, file);
    }
    if ComponentMatch(pattern, |dir|, name) {
      LeadsOn(tree, pattern, dir, name);
      if |child| == |pattern.components| {
        assert |file| == |child| && child <= file ==> file == child;
      } else if child in tree {
        WalkGives(tree, pattern, child, tree[child], file);
      }
    }
  }

  /** The walk gives exactly the full-length paths that lead through one of the names. */
  lemma {:induction false} WalkGives(tree: Tree, pattern: Pattern, dir: File, names: seq<Name>, file: File)
    requires Leads(tree, pattern, dir) && |dir| < |pattern.components| && dir in tree
    requires forall n :: n in names ==> n in tree[dir]
    ensures
      Some(file) in Walk(tree, pattern, dir, names, |dir|)
      <==> |file| == |pattern.components| && dir <= file && file[|dir|] in names && Leads(tree, pattern, file)
    decreases |pattern.components| - |dir|, |names| + 1
  {
    if names != [] {
      WalkNameGives(tree, pattern, dir, names[0], file);
      WalkGives(tree, pattern, dir, names[1..], file);
      if |file| == |pattern.components| && dir <= file {
        assert dir + [names[0]] <= file <==> file[|dir|] == names[0];
      }
    }
  }

  /** No listing has a name twice. */
  ghost predicate Distinct<T(!new)>(s: seq<T>)
  {
    forall i, j :: 0 <= i < j < |s| ==> s[i] != s[j]
  }

  ghost predicate DistinctFiles(s: seq<Option<File>>)
  {
    forall i, j :: 0 <= i < j < |s| && s[i].Some? ==> s[i] != s[j]
  }

  /** No file is given twice. */
  lemma {:induction false} WalkGivesOnce(tree: Tree, pattern: Pattern, dir: File, names: seq<Name>)
    requires Leads(tree, pattern, dir) && |dir| < |pattern.components| && dir in tree
    requires Distinct(names) && forall n :: n in names ==> n in tree[dir]
    requires forall d :: d in tree ==> Distinct(tree[d])
    ensures DistinctFiles(Walk(tree, pattern, dir, names, |dir|))
    decreases |pattern.components| - |dir|, |names|
  {
    if names != [] {
      var name, child := names[0], dir + [names[0]];
      var first := WalkName(tree, pattern, dir, name, |dir|);
      var rest := Walk(tree, pattern, dir, names[1..], |dir|);
      WalkGivesOnce(tree, pattern, dir, names[1..]);
      if ComponentMatch(pattern, |dir|, name) && |child| < |pattern.components| && child in tree {
        LeadsOn(tree, pattern, dir, name);
        WalkGivesOnce(tree, pattern, child, tree[child]);
      }
      forall i, j | 0 <= i < |first| && 0 <= j < |rest| && first[i].Some?
        ensures first[i] != rest[j]
      {
        var file := first[i].value;
        WalkNameGives(tree, pattern, dir, name, file);
        WalkGives(tree, pattern, dir, names[1..], file);
        BelowMeans(tree, pattern, dir, name, file);
      }
    }
  }

  /** The walk stops at a file below one of the names that should be enumerated and cannot. */
  ghost predicate Shut(tree: Tree, pattern: Pattern, dir: File, names: seq<Name>, file: File)
  {
    Leads(tree, pattern, file) && |dir| < |file| < |pattern.components| && dir <= file && file[|dir|] in names && file !in tree
  }

  lemma {:induction false} WalkStops(tree: Tree, pattern: Pattern, dir: File, names: seq<Name>)
    requires Leads(tree, pattern, dir) && |dir| < |pattern.components| && dir in tree
    requires forall n :: n in names ==> n in tree[dir]
    ensures None in Walk(tree, pattern, dir, names, |dir|) <==> exists file :: Shut(tree, pattern, dir, names, file)
    decreases |pattern.components| - |dir|, |names|
  {
    if names != [] {
      var name, child := names[0], dir + [names[0]];
      WalkStops(tree, pattern, dir, names[1..]);
      forall file | Shut(tree, pattern, dir, names[1..], file)
        ensures Shut(tree, pattern, dir, names, file)
      {
      }
      if ComponentMatch(pattern, |dir|, name) && |child| < |pattern.components| {
        LeadsOn(tree, pattern, dir, name);
        if child in tree {
          WalkStops(tree, pattern, child, tree[child]);
          forall file | Shut(tree, pattern, child, tree[child], file)
            ensures Shut(tree, pattern, dir, names, file)
          {
            assert file[|dir|] == child[|dir|];
          }
        } else {
          assert Shut(tree, pattern, dir, names, child);
        }
      }
      forall file | Shut(tree, pattern, dir, names, file)
        ensures None in Walk(tree, pattern, dir, names, |dir|)
      {
        if file[|dir|] in names[1..] {
          assert Shut(tree, pattern, dir, names[1..], file);
        } else {
          assert dir + [name] == file[..|dir| + 1];
          BelowMeans(tree, pattern, dir, name, file);
          if |file| == |child| {
            assert file == child;
          } else {
            assert Shut(tree, pattern, child, tree[child], file);
          }
        }
      }
    }
  }

  /** The walk from the root is without a stop exactly when every file it has to enumerate can be. */
  lemma WholeWalk(tree: Tree, pattern: Pattern, file: File)
    requires pattern.components != [] && [] in tree
    ensures
      Some(file) in Walk(tree, pattern, [], tree[[]], 0)
      <==> |file| == |pattern.components| && Leads(tree, pattern, file)
    ensures None !in Walk(tree, pattern, [], tree[[]], 0) <==> Open(tree, pattern)
    ensures (forall d :: d in tree ==> Distinct(tree[d])) ==> DistinctFiles(Walk(tree, pattern, [], tree[[]], 0))
  {
    WalkGives(tree, pattern, [], tree[[]], file);
    if |file| == |pattern.components| && Leads(tree, pattern, file) {
      assert file[..0] == [];
    }
    WalkStops(tree, pattern, [], tree[[]]);
    forall f | Leads(tree, pattern, f) && |f| < |pattern.components| && f !in tree
      ensures Shut(tree, pattern, [], tree[[]], f)
    {
      assert f != [];
      assert f[..0] == [];
    }
    if forall d :: d in tree ==> Distinct(tree[d]) {
      WalkGivesOnce(tree, pattern, [], tree[[]]);
    }
  }

  // ---------------------------------------------------------------- level by level

  /** The files of one directory that match. */
  function Level(pattern: Pattern, dir: File, names: seq<Name>, depth: nat): seq<Option<File>>
    requires depth < |pattern.components|
  {
    if names == [] then []
    else
      (if ComponentMatch(pattern, depth, names[0]) then [Some(dir + [names[0]])] else [])
      + Level(pattern, dir, names[1..], depth)
  }

  /** What one file, or stop, of the level before becomes. */
  function ExpandOne(tree: Tree, pattern: Pattern, file: Option<File>, depth: nat): seq<Option<File>>
    requires depth < |pattern.components|
  {
    if file.None? || file.value !in tree then [None] else Level(pattern, file.value, tree[file.value], depth)
  }

  function Expand(tree: Tree, pattern: Pattern, files: seq<Option<File>>, depth: nat): seq<Option<File>>
    requires depth < |pattern.components|
  {
    if files == [] then []
    else ExpandOne(tree, pattern, files[0], depth) + Expand(tree, pattern, files[1..], depth)
  }

  function ExpandAll(tree: Tree, pattern: Pattern, files: seq<Option<File>>, depth: nat): seq<Option<File>>
    requires depth <= |pattern.components|
    decreases |pattern.components| - depth
  {
    if depth == |pattern.components| then files
    else ExpandAll(tree, pattern, Expand(tree, pattern, files, depth), depth + 1)
  }

  lemma {:induction false} ExpandAppend(
    tree: Tree, pattern: Pattern, a: seq<Option<File>>, b: seq<Option<File>>, depth: nat)
    requires depth < |pattern.components|
    ensures Expand(tree, pattern, a + b, depth) == Expand(tree, pattern, a, depth) + Expand(tree, pattern, b, depth)
  {
    if a == [] {
      assert a + b == b;
    } else {
      assert (a + b)[1..] == a[1..] + b;
      ExpandAppend(tree, pattern, a[1..], b, depth);
    }
  }

  lemma {:induction false} ExpandAllAppend(
    tree: Tree, pattern: Pattern, a: seq<Option<File>>, b: seq<Option<File>>, depth: nat)
    requires depth <= |pattern.components|
    ensures
      ExpandAll(tree, pattern, a + b, depth)
      == ExpandAll(tree, pattern, a, depth) + ExpandAll(tree, pattern, b, depth)
    decreases |pattern.components| - depth
  {
    if depth < |pattern.components| {
      ExpandAppend(tree, pattern, a, b, depth);
      ExpandAllAppend(tree, pattern, Expand(tree, pattern, a, depth), Expand(tree, pattern, b, depth), depth + 1);
    }
  }

  lemma {:induction false} ExpandAllNone(tree: Tree, pattern: Pattern, depth: nat)
    requires depth <= |pattern.components|
    ensures ExpandAll(tree, pattern, [None], depth) == [None] && ExpandAll(tree, pattern, [], depth) == []
    decreases |pattern.components| - depth
  {
    if depth < |pattern.components| {
      assert Expand(tree, pattern, [None], depth) == [None];
      ExpandAllNone(tree, pattern, depth + 1);
    }
  }

  /** The depth-first walk, made level by level. */
  lemma {:induction false} WalkByLevels(tree: Tree, pattern: Pattern, dir: File, names: seq<Name>, depth: nat)
    requires depth < |pattern.components|
    ensures
      Walk(tree, pattern, dir, names, depth)
      == ExpandAll(tree, pattern, Level(pattern, dir, names, depth), depth + 1)
    decreases |pattern.components| - depth, |names|
  {
    ExpandAllNone(tree, pattern, depth + 1);
    if names != [] {
      var child := dir + [names[0]];
      var rest := Level(pattern, dir, names[1..], depth);
      WalkByLevels(tree, pattern, dir, names[1..], depth);
      if ComponentMatch(pattern, depth, names[0]) {
        ExpandAllAppend(tree, pattern, [Some(child)], rest, depth + 1);
        if depth + 1 < |pattern.components| {
          assert Expand(tree, pattern, [Some(child)], depth + 1) == ExpandOne(tree, pattern, Some(child), depth + 1);
          if child in tree {
            WalkByLevels(tree, pattern, child, tree[child], depth + 1);
          } else {
            ExpandAllNone(tree, pattern, depth + 2);
          }
        }
      } else {
        assert Level(pattern, dir, names, depth) == rest;
      }
    }
  }

  /** The walk down to a level, from its first level. */
  ghost function DownTo(tree: Tree, pattern: Pattern, first: seq<Option<File>>, depth: nat): seq<Option<File>>
    requires depth < |pattern.components|
  {
    if depth == 0 then first else Expand(tree, pattern, DownTo(tree, pattern, first, depth - 1), depth)
  }

  lemma {:induction false} DownToAll(tree: Tree, pattern: Pattern, first: seq<Option<File>>, depth: nat)
    requires depth < |pattern.components|
    ensures
      ExpandAll(tree, pattern, DownTo(tree, pattern, first, depth), depth + 1) == ExpandAll(tree, pattern, first, 1)
  {
    if depth > 0 {
      assert DownTo(tree, pattern, first, depth) == Expand(tree, pattern, DownTo(tree, pattern, first, depth - 1), depth);
      DownToAll(tree, pattern, first, depth - 1);
    }
  }

  ghost function WalkFromRoot(tree: Tree, pattern: Pattern): seq<Option<File>>
    requires pattern.components != []
  {
    if [] in tree then Walk(tree, pattern, [], tree[[]], 0) else []
  }

  ghost function FirstLevel(tree: Tree, pattern: Pattern): seq<Option<File>>
    requires pattern.components != []
  {
    if [] in tree then Level(pattern, [], tree[[]], 0) else []
  }

  lemma DownToLast(tree: Tree, pattern: Pattern)
    requires pattern.components != []
    ensures
      DownTo(tree, pattern, FirstLevel(tree, pattern), |pattern.components| - 1) == WalkFromRoot(tree, pattern)
  {
    DownToAll(tree, pattern, FirstLevel(tree, pattern), |pattern.components| - 1);
    ExpandAllNone(tree, pattern, 1);
    if [] in tree {
      WalkByLevels(tree, pattern, [], tree[[]], 0);
    }
  }

  /** The walk down to each level. */
  ghost function Plan(tree: Tree, pattern: Pattern): (s: seq<seq<Option<File>>>)
    requires pattern.components != []
    ensures |s| == |pattern.components|
    ensures forall k :: 0 <= k < |s| ==> s[k] == DownTo(tree, pattern, FirstLevel(tree, pattern), k)
  {
    seq(
      |pattern.components|,
      k requires 0 <= k < |pattern.components| => DownTo(tree, pattern, FirstLevel(tree, pattern), k))
  }

  /** The step of a walk that takes one file, or a stop; at its end there is nothing to take. */
  ghost predicate Took(file: Option<File>, before: seq<Option<File>>, after: seq<Option<File>>)
  {
    if before == [] then file == None && after == [] else [file] + after == before
  }

  lemma TakeFirst(
    all: seq<Option<File>>, open: seq<Option<File>>, rest: seq<Option<File>>, below: seq<Option<File>>, file: Option<File>)
    requires all == open + below && [file] + rest == open
    ensures all != [] && all[1..] == rest + below && Took(file, all, all[1..])
  {
  }

  lemma ExpandTook(
    tree: Tree, pattern: Pattern, file: Option<File>, before: seq<Option<File>>, after: seq<Option<File>>, depth: nat)
    requires depth < |pattern.components| && before != [] && Took(file, before, after)
    ensures
      Expand(tree, pattern, before, depth)
      == ExpandOne(tree, pattern, file, depth) + Expand(tree, pattern, after, depth)
  {
    assert before[0] == file && before[1..] == after;
  }

  /**
   * `left` says of each level what is left of the walk down to it: the rest of its
   * open directory, and then what is left of the level before, expanded.
   */
  class Enumerator {
    const tree: Tree
    const pattern: Pattern
    const enumerators: array<Option<seq<Name>>>   // what is left of each level's open directory
    const children: array<Option<File>>           // that directory
    ghost var left: seq<seq<Option<File>>>

    ghost predicate Valid()
      reads this, enumerators, children
    {
      && enumerators != children && 0 < |pattern.components| == enumerators.Length == children.Length == |left|
      && forall k :: 0 <= k < enumerators.Length && enumerators[k].Some? ==> children[k].Some?
    }

    ghost function OpenLevel(depth: nat): seq<Option<File>>
      requires Valid() && depth < |pattern.components|
      reads this, enumerators, children
    {
      if enumerators[depth].None? then []
      else Level(pattern, children[depth].value, enumerators[depth].value, depth)
    }

    ghost predicate TracedAt(k: nat)
      requires Valid() && k < |pattern.components|
      reads this, enumerators, children
    {
      left[k] == OpenLevel(k) + FromBelow(k)
    }

    ghost function FromBelow(k: nat): seq<Option<File>>
      requires Valid() && k < |pattern.components|
      reads this, enumerators, children
    {
      if k == 0 then [] else Expand(tree, pattern, left[k - 1], k)
    }

    ghost predicate Traced(depth: nat)
      requires Valid() && depth < |pattern.components|
      reads this, enumerators, children
    {
      forall k :: 0 <= k <= depth ==> TracedAt(k)
    }

    twostate predicate OnlyDownTo(depth: nat)
      requires old(Valid()) && Valid() && depth < |pattern.components|
      reads this, enumerators, children
    {
      && forall k :: depth < k < enumerators.Length ==>
        enumerators[k] == old(enumerators[k]) && children[k] == old(children[k]) && left[k] == old(left[k])
    }

    constructor (tree: Tree, pattern: Pattern)
      requires pattern.components != []
      ensures fresh(enumerators) && fresh(children) && this.tree == tree && this.pattern == pattern
      ensures Valid() && Traced(|pattern.components| - 1)
      ensures left[|pattern.components| - 1] == WalkFromRoot(tree, pattern)
    {
      this.tree, this.pattern := tree, pattern;
      children := new Option<File>[|pattern.components|](i => if i == 0 then Some([]) else None);
      enumerators := new Option<seq<Name>>[|pattern.components|](
        i => if i == 0 && [] in tree then Some(tree[[]]) else None);
      left := Plan(tree, pattern);
      new;
      PlanIsTraced();
    }

    lemma PlanIsTraced()
      requires Valid() && left == Plan(tree, pattern)
      requires forall k :: 1 <= k < |pattern.components| ==> enumerators[k].None?
      requires children[0] == Some([]) && enumerators[0] == if [] in tree then Some(tree[[]]) else None
      ensures left[|pattern.components| - 1] == WalkFromRoot(tree, pattern)
      ensures Traced(|pattern.components| - 1)
    {
      DownToLast(tree, pattern);
      assert TracedAt(0);
      forall k | 1 <= k < |pattern.components|
        ensures TracedAt(k)
      {
        assert OpenLevel(k) == [];
      }
    }

    /** The next match in the open directory of a level, or None at its end. */
    method NextInLevel(depth: nat) returns (file: Option<File>)
      requires Valid() && depth < |pattern.components| && enumerators[depth].Some?
      modifies enumerators
      ensures Valid() && enumerators[depth].Some?
      ensures forall k :: 0 <= k < enumerators.Length && k != depth ==> enumerators[k] == old(enumerators[k])
      ensures Took(file, old(OpenLevel(depth)), OpenLevel(depth)) && (file.None? <==> old(OpenLevel(depth)) == [])
    {
      var names := enumerators[depth].value;
      var dir := children[depth].value;
      ghost var before := OpenLevel(depth);
      while names != []
        invariant Level(pattern, dir, names, depth) == before
        invariant enumerators[..] == old(enumerators[..])
        decreases |names|
      {
        var name := names[0];
        names := names[1..];
        if ComponentMatch(pattern, depth, name) {
          assert before == [Some(dir + [name])] + Level(pattern, dir, names, depth);
          enumerators[depth] := Some(names);
          assert OpenLevel(depth) == Level(pattern, dir, names, depth);
          return Some(dir + [name]);
        }
      }
      assert before == [];
      enumerators[depth] := Some([]);
      return None;
    }

    twostate lemma TracedKept(depth: nat)
      requires old(Valid()) && Valid() && depth < |pattern.components| && old(Traced(depth))
      requires forall k :: 0 <= k <= depth ==>
        enumerators[k] == old(enumerators[k]) && children[k] == old(children[k]) && left[k] == old(left[k])
      ensures Traced(depth)
    {
      forall k | 0 <= k <= depth
        ensures TracedAt(k)
      {
        assert old(TracedAt(k));
        assert OpenLevel(k) == old(OpenLevel(k));
      }
    }

    /** The levels up to this one are still traced when only this one changed, and agrees with what is left of it. */
    twostate lemma TracedAgain(depth: nat)
      requires old(Valid()) && Valid() && depth < |pattern.components| && old(Traced(depth))
      requires forall k :: 0 <= k < depth ==>
        enumerators[k] == old(enumerators[k]) && children[k] == old(children[k]) && left[k] == old(left[k])
      requires left[depth] == OpenLevel(depth) + old(FromBelow(depth))
      ensures Traced(depth)
    {
      if depth > 0 {
        TracedKept(depth - 1);
      }
      assert TracedAt(depth);
    }

    /** Take the next match of a level's open directory; None at its end. */
    method TakeInLevel(depth: nat) returns (file: Option<File>)
      requires Valid() && depth < |pattern.components| && Traced(depth) && enumerators[depth].Some?
      modifies this`left, enumerators
      ensures Valid() && Traced(depth) && OnlyDownTo(depth) && enumerators[depth].Some?
      ensures forall k :: 0 <= k < depth ==> left[k] == old(left[k])
      ensures file.Some? ==> Took(file, old(left[depth]), left[depth])
      ensures file.None? ==> left[depth] == old(left[depth]) && OpenLevel(depth) == []
    {
      assert TracedAt(depth);
      file := NextInLevel(depth);
      if file.Some? {
        TakeFirst(left[depth], old(OpenLevel(depth)), OpenLevel(depth), old(FromBelow(depth)), file);
        left := left[depth := left[depth][1..]];
      }
      TracedAgain(depth);
    }

    /** Close a level's directory, which is at its end. */
    method CloseLevel(depth: nat)
      requires Valid() && depth < |pattern.components| && Traced(depth) && enumerators[depth].Some? && OpenLevel(depth) == []
      modifies enumerators, children
      ensures Valid() && Traced(depth) && OnlyDownTo(depth) && enumerators[depth].None?
    {
      assert TracedAt(depth);
      enumerators[depth], children[depth] := None, None;
      TracedAgain(depth);
    }

    /** What a file from the level before means for a level: its directory, or a stop. */
    method OpenDirectory(depth: nat, file: Option<File>, ghost before: seq<Option<File>>) returns (found: bool)
      requires Valid() && 0 < depth < |pattern.components| && Traced(depth - 1) && enumerators[depth].None?
      requires Took(file, before, left[depth - 1]) && left[depth] == Expand(tree, pattern, before, depth)
      modifies this`left, enumerators, children
      ensures Valid() && Traced(depth) && OnlyDownTo(depth)
      ensures forall k :: 0 <= k < depth ==> left[k] == old(left[k])
      ensures found <==> enumerators[depth].Some?
      ensures found ==> left[depth] == old(left[depth]) && before != []
      ensures !found ==> Took(None, old(left[depth]), left[depth])
    {
      if before != [] {
        ExpandTook(tree, pattern, file, before, left[depth - 1], depth);
      }
      if file.Some? {
        children[depth] := file;
        enumerators[depth] := if file.value in tree then Some(tree[file.value]) else None;
      }
      found := enumerators[depth].Some?;
      if !found {
        left := left[depth := Expand(tree, pattern, left[depth - 1], depth)];
      }
      TracedKept(depth - 1);
      assert TracedAt(depth);
    }

    /** Open the next directory of a level; where there is none, or it cannot be enumerated, the walk stops. */
    method OpenNext(depth: nat) returns (found: bool)
      requires Valid() && 0 < depth < |pattern.components| && Traced(depth) && enumerators[depth].None?
      modifies this`left, enumerators, children
      ensures Valid() && Traced(depth) && OnlyDownTo(depth)
      ensures found <==> enumerators[depth].Some?
      ensures found ==> left[depth] == old(left[depth]) && |left[depth - 1]| < |old(left[depth - 1])|
      ensures !found ==> Took(None, old(left[depth]), left[depth])
      decreases depth, 0
    {
      assert TracedAt(depth);
      var file := NextMatchRecurse(depth - 1);
      found := OpenDirectory(depth, file, old(left[depth - 1]));
    }

    method NextMatchRecurse(depth: nat) returns (file: Option<File>)
      requires Valid() && depth < |pattern.components| && Traced(depth)
      modifies this`left, enumerators, children
      ensures Valid() && Traced(depth) && OnlyDownTo(depth)
      ensures Took(file, old(left[depth]), left[depth])
      decreases depth, 1
    {
      while true
        invariant Valid() && Traced(depth) && OnlyDownTo(depth) && left[depth] == old(left[depth])
        decreases if depth > 0 then |left[depth - 1]| else 0, enumerators[depth].Some?
      {
        if enumerators[depth].None? {
          if depth == 0 {
            assert TracedAt(0);
            return None;
          }
          var found := OpenNext(depth);
          if !found {
            return None;
          }
        }
        file := TakeInLevel(depth);
        if file.Some? {
          return;
        }
        CloseLevel(depth);
      }
    }

    /** The next file of the walk, or None: at a stop, or at the end, and then for ever. */
    method EnumeratorNext() returns (file: Option<File>)
      requires Valid() && Traced(|pattern.components| - 1)
      modifies this`left, enumerators, children
      ensures Valid() && Traced(|pattern.components| - 1)
      ensures Took(file, old(left[|pattern.components| - 1]), left[|pattern.components| - 1])
    {
      file := NextMatchRecurse(|pattern.components| - 1);
    }
  }
}
