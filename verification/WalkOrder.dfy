/** When the order in which `MergePackages` (pkg/pkgutil/pkgutil.go) walks its Go map shows in the
    files written. */
module WalkOrder {
  import opened Strings
  import opened Documents
  import opened PkgUtil
  import opened Merging

  /** What one sub-package prints into a file. */
  function Prints(res: Subpackages, sub: string, path: string): seq<Node> {
    Map(Stripped, GroupAt(RelocateAll(sub, NodesOf(res, sub)), path))
  }

  /** What the sub-packages print into a file, walked in this order. */
  function PrintsIn(res: Subpackages, order: seq<string>, path: string): seq<Node> {
    if order == [] then [] else Prints(res, order[0], path) + PrintsIn(res, order[1..], path)
  }

  lemma {:induction false} PrintsOfMerged(res: Subpackages, order: seq<string>, path: string)
    ensures Map(Stripped, GroupAt(MergedIn(res, order), path)) == PrintsIn(res, order, path)
  {
    if order != [] {
      PrintsOfMerged(res, order[1..], path);
      var head, rest := RelocateAll(order[0], NodesOf(res, order[0])), MergedIn(res, order[1..]);
      GroupAppend(head, rest, path);
      MapAppend(Stripped, GroupAt(head, path), GroupAt(rest, path));
    }
  }

  /** Two sub-packages print the same into every file whichever comes first. */
  ghost predicate Commute(res: Subpackages) {
    forall a, b, path :: a in res && b in res ==> CommuteAt(res, a, b, path)
  }

  predicate CommuteAt(res: Subpackages, a: string, b: string, path: string) {
    Prints(res, a, path) + Prints(res, b, path) == Prints(res, b, path) + Prints(res, a, path)
  }

  // ---------- commuting is enough ----------

  lemma {:induction false} PrintsAppend(res: Subpackages, a: seq<string>, b: seq<string>, path: string)
    ensures PrintsIn(res, a + b, path) == PrintsIn(res, a, path) + PrintsIn(res, b, path)
  {
    if a == [] {
      assert a + b == b;
    } else {
      assert (a + b)[0] == a[0] && (a + b)[1..] == a[1..] + b;
      PrintsAppend(res, a[1..], b, path);
      AppendAssociates(Prints(res, a[0], path), PrintsIn(res, a[1..], path), PrintsIn(res, b, path));
    }
  }

  lemma {:induction false} MoveToFront(res: Subpackages, front: seq<string>, k: string, path: string)
    requires forall i :: 0 <= i < |front| ==> CommuteAt(res, front[i], k, path)
    ensures PrintsIn(res, front, path) + Prints(res, k, path) == Prints(res, k, path) + PrintsIn(res, front, path)
  {
    if front != [] {
      var first, rest, moved := Prints(res, front[0], path), PrintsIn(res, front[1..], path), Prints(res, k, path);
      MoveToFront(res, front[1..], k, path);
      assert CommuteAt(res, front[0], k, path);
      AppendAssociates(first, rest, moved);
      AppendAssociates(first, moved, rest);
      AppendAssociates(moved, first, rest);
    }
  }

  lemma SplitListing(order: seq<string>, k: string) returns (front: seq<string>, back: seq<string>)
    requires NoDuplicates(order) && k in order
    ensures order == front + [k] + back && ListingOf(front + back, Elements(order) - {k})
  {
    var i :| 0 <= i < |order| && order[i] == k;
    front, back := order[..i], order[i + 1..];
    var rest := front + back;
    assert forall j :: 0 <= j < |rest| ==> rest[j] == order[if j < i then j else j + 1];
    forall x ensures x in Elements(rest) <==> x in Elements(order) - {k} {
      if x in order && x != k {
        var j :| 0 <= j < |order| && order[j] == x;
        assert rest[if j < i then j else j - 1] == x;
      }
    }
  }

  lemma {:induction false} SamePrints(res: Subpackages, order: seq<string>, order': seq<string>, keys: set<string>, path: string)
    requires ListingOf(order, keys) && ListingOf(order', keys)
    requires forall a, b :: a in keys && b in keys ==> CommuteAt(res, a, b, path)
    ensures PrintsIn(res, order, path) == PrintsIn(res, order', path)
    decreases |order|
  {
    NoElements(order);
    NoElements(order');
    if order != [] {
      var k := order[0];
      assert k in Elements(order) && k in Elements(order');
      var front, back := SplitListing(order', k);
      TailElements(order);
      SamePrints(res, order[1..], front + back, keys - {k}, path);
      MovedPrints(res, front, k, back, order', path);
    }
  }

  lemma PrintsAround(res: Subpackages, front: seq<string>, k: string, back: seq<string>, path: string)
    ensures PrintsIn(res, front + [k] + back, path)
            == PrintsIn(res, front, path) + Prints(res, k, path) + PrintsIn(res, back, path)
  {
    PrintsAppend(res, front + [k], back, path);
    PrintsAppend(res, front, [k], path);
    assert PrintsIn(res, [k], path) == Prints(res, k, path) by { assert [k][1..] == []; }
  }

  lemma MovedPrints(res: Subpackages, front: seq<string>, k: string, back: seq<string>, order: seq<string>, path: string)
    requires order == front + [k] + back
    requires forall a, b :: a in order && b in order ==> CommuteAt(res, a, b, path)
    ensures PrintsIn(res, order, path) == Prints(res, k, path) + PrintsIn(res, front + back, path)
  {
    forall i | 0 <= i < |front| ensures CommuteAt(res, front[i], k, path) {
      assert front[i] == order[i] && order[|front|] == k;
    }
    PrintsAround(res, front, k, back, path);
    MoveToFront(res, front, k, path);
    PrintsAppend(res, front, back, path);
    AppendAssociates(Prints(res, k, path), PrintsIn(res, front, path), PrintsIn(res, back, path));
  }

  // ---------- files and prints ----------

  /** Files are the same when every path is printed the same. */
  lemma SamePrintsSameFiles(orig: Files, a: seq<Node>, b: seq<Node>)
    requires forall p :: Map(Stripped, GroupAt(a, p)) == Map(Stripped, GroupAt(b, p))
    ensures Overlay(orig, a) == Overlay(orig, b)
  {
    forall p ensures p in PathsOf(a) <==> p in PathsOf(b) { SamePrintsSamePath(a, b, p); }
    assert PathsOf(a) == PathsOf(b);
  }

  lemma SamePrintsSamePath(a: seq<Node>, b: seq<Node>, path: string)
    requires Map(Stripped, GroupAt(a, path)) == Map(Stripped, GroupAt(b, path))
    ensures path in PathsOf(a) <==> path in PathsOf(b)
  {
    assert |Map(Stripped, GroupAt(a, path))| == |Map(Stripped, GroupAt(b, path))|;
    GroupMembers(a, path);
    GroupMembers(b, path);
  }

  lemma SameFilesSamePrints(orig: Files, a: seq<Node>, b: seq<Node>, path: string)
    requires Overlay(orig, a) == Overlay(orig, b) && GroupAt(a, path) != [] && GroupAt(b, path) != []
    ensures Map(Stripped, GroupAt(a, path)) == Map(Stripped, GroupAt(b, path))
  {
    GroupMembers(a, path);
    GroupMembers(b, path);
    assert Overlay(orig, a)[path] == Rendered(GroupAt(a, path));
    assert Overlay(orig, b)[path] == Rendered(GroupAt(b, path));
  }

  lemma MergedPrints(packageName: string, res: Subpackages, order: seq<string>, path: string)
    ensures Map(Stripped, GroupAt(Merged(packageName, res, order), path))
            == Map(Stripped, GroupAt([Kptfile(packageName)], path)) + PrintsIn(res, order, path)
  {
    GroupAppend([Kptfile(packageName)], MergedIn(res, order), path);
    MapAppend(Stripped, GroupAt([Kptfile(packageName)], path), GroupAt(MergedIn(res, order), path));
    PrintsOfMerged(res, order, path);
  }

  // ---------- the exact condition ----------

  /** The files written are the same for every order of the walk. */
  ghost predicate WalkNeverShows(packageName: string, res: Subpackages, orig: Files) {
    forall o, o' :: ListingOf(o, res.Keys) && ListingOf(o', res.Keys)
                    ==> Overlay(orig, Merged(packageName, res, o)) == Overlay(orig, Merged(packageName, res, o'))
  }

  lemma CancelAround<T>(u: seq<T>, a: seq<T>, b: seq<T>, v: seq<T>)
    requires u + (a + v) == u + (b + v) && |a| == |b|
    ensures a == b
  {
    assert (u + (a + v))[|u|..] == a + v;
    assert (u + (b + v))[|u|..] == b + v;
    assert (a + v)[..|a|] == a && (b + v)[..|b|] == b;
  }

  lemma TwoFirst(res: Subpackages, a: string, b: string, rest: seq<string>, path: string)
    ensures PrintsIn(res, [a, b] + rest, path)
            == Prints(res, a, path) + Prints(res, b, path) + PrintsIn(res, rest, path)
  {
    assert ([a, b] + rest)[1..] == [b] + rest && ([b] + rest)[1..] == rest;
    AppendAssociates(Prints(res, a, path), Prints(res, b, path), PrintsIn(res, rest, path));
  }

  lemma TwoListings(keys: set<string>, a: string, b: string) returns (rest: seq<string>)
    requires a in keys && b in keys && a != b
    ensures ListingOf([a, b] + rest, keys) && ListingOf([b, a] + rest, keys)
  {
    rest := ListingExists(keys - {a, b});
    assert forall i :: 0 <= i < |rest| ==> rest[i] in Elements(rest);
    assert Elements([a, b] + rest) == {a, b} + Elements(rest) == keys;
    assert Elements([b, a] + rest) == {a, b} + Elements(rest) == keys;
  }

  lemma PrintsOfTwo(packageName: string, res: Subpackages, a: string, b: string, rest: seq<string>, path: string)
    requires Prints(res, a, path) != []
    ensures var m := Merged(packageName, res, [a, b] + rest);
            && GroupAt(m, path) != []
            && Map(Stripped, GroupAt(m, path))
               == Map(Stripped, GroupAt([Kptfile(packageName)], path))
                  + (Prints(res, a, path) + Prints(res, b, path) + PrintsIn(res, rest, path))
  {
    MergedPrints(packageName, res, [a, b] + rest, path);
    TwoFirst(res, a, b, rest, path);
  }

  lemma SwappedCommute(packageName: string, res: Subpackages, orig: Files, a: string, b: string, rest: seq<string>, path: string)
    requires Prints(res, a, path) != [] && Prints(res, b, path) != []
    requires Overlay(orig, Merged(packageName, res, [a, b] + rest)) == Overlay(orig, Merged(packageName, res, [b, a] + rest))
    ensures CommuteAt(res, a, b, path)
  {
    PrintsOfTwo(packageName, res, a, b, rest, path);
    PrintsOfTwo(packageName, res, b, a, rest, path);
    SameFilesSamePrints(orig, Merged(packageName, res, [a, b] + rest), Merged(packageName, res, [b, a] + rest), path);
    CancelAround(Map(Stripped, GroupAt([Kptfile(packageName)], path)),
                 Prints(res, a, path) + Prints(res, b, path), Prints(res, b, path) + Prints(res, a, path),
                 PrintsIn(res, rest, path));
  }

  lemma EmptyCommutes(res: Subpackages, a: string, b: string, path: string)
    requires a == b || Prints(res, a, path) == [] || Prints(res, b, path) == []
    ensures CommuteAt(res, a, b, path)
  {
  }

  lemma SameFilesCommute(packageName: string, res: Subpackages, orig: Files, a: string, b: string, path: string)
    requires WalkNeverShows(packageName, res, orig) && a in res && b in res
    ensures CommuteAt(res, a, b, path)
  {
    if a == b || Prints(res, a, path) == [] || Prints(res, b, path) == [] {
      EmptyCommutes(res, a, b, path);
    } else {
      var rest := TwoListings(res.Keys, a, b);
      SwappedCommute(packageName, res, orig, a, b, rest, path);
    }
  }

  /** The walk over the Go map never shows in the files written, whatever they were before, if and
      only if any two sub-packages print the same into each file whichever comes first. */
  lemma WalkNeverShowsIff(packageName: string, res: Subpackages, orig: Files)
    ensures WalkNeverShows(packageName, res, orig) <==> Commute(res)
  {
    if Commute(res) {
      forall o, o' | ListingOf(o, res.Keys) && ListingOf(o', res.Keys)
        ensures Overlay(orig, Merged(packageName, res, o)) == Overlay(orig, Merged(packageName, res, o'))
      {
        forall p
          ensures Map(Stripped, GroupAt(Merged(packageName, res, o), p)) == Map(Stripped, GroupAt(Merged(packageName, res, o'), p))
        {
          MergedPrints(packageName, res, o, p);
          MergedPrints(packageName, res, o', p);
          SamePrints(res, o, o', res.Keys, p);
        }
        SamePrintsSameFiles(orig, Merged(packageName, res, o), Merged(packageName, res, o'));
      }
    }
    if WalkNeverShows(packageName, res, orig) {
      forall a, b, path | a in res && b in res ensures CommuteAt(res, a, b, path) {
        SameFilesCommute(packageName, res, orig, a, b, path);
      }
    }
  }

  // ---------- distinct documents ----------

  /** Documents of two sub-packages are different documents of the merged package. */
  lemma {:induction false} BlocksCount(res: Subpackages, order: seq<string>, a: string, b: string, c: Node)
    requires NoDuplicates(order) && a in order && b in order && a != b
    ensures multiset(Map(Cleared, MergedIn(res, order)))[c]
            >= multiset(Map(Cleared, RelocateAll(a, NodesOf(res, a))))[c] + multiset(Map(Cleared, RelocateAll(b, NodesOf(res, b))))[c]
  {
    var rest := order[1..];
    MergedSplits(res, order, c);
    if order[0] == a {
      BlockCount(res, rest, b, c);
    } else if order[0] == b {
      BlockCount(res, rest, a, c);
    } else {
      BlocksCount(res, rest, a, b, c);
    }
  }

  lemma {:induction false} BlockCount(res: Subpackages, order: seq<string>, a: string, c: Node)
    requires a in order
    ensures multiset(Map(Cleared, MergedIn(res, order)))[c] >= multiset(Map(Cleared, RelocateAll(a, NodesOf(res, a))))[c]
  {
    MergedSplits(res, order, c);
    if order[0] != a { BlockCount(res, order[1..], a, c); }
  }

  lemma MergedSplits(res: Subpackages, order: seq<string>, c: Node)
    requires order != []
    ensures multiset(Map(Cleared, MergedIn(res, order)))[c]
            == multiset(Map(Cleared, RelocateAll(order[0], NodesOf(res, order[0]))))[c]
               + multiset(Map(Cleared, MergedIn(res, order[1..])))[c]
  {
    MapAppend(Cleared, RelocateAll(order[0], NodesOf(res, order[0])), MergedIn(res, order[1..]));
  }

  lemma FirstPrinted(nodes: seq<Node>, path: string) returns (n: Node)
    requires path in PathsOf(nodes)
    ensures n in nodes && Map(Stripped, GroupAt(nodes, path)) != [] && Map(Stripped, GroupAt(nodes, path))[0] == Stripped(n)
  {
    GroupMembers(nodes, path);
    n := GroupAt(nodes, path)[0];
  }

  lemma SharedFileShows(packageName: string, res: Subpackages, order: seq<string>, a: string, b: string, path: string)
    requires ListingOf(order, res.Keys) && NoDuplicates(Map(Cleared, Merged(packageName, res, order)))
    requires a in res && b in res && a != b && path in FilesOf(res, a) && path in FilesOf(res, b)
    ensures !CommuteAt(res, a, b, path)
  {
    var x := FirstPrinted(RelocateAll(a, NodesOf(res, a)), path);
    var y := FirstPrinted(RelocateAll(b, NodesOf(res, b)), path);
    if CommuteAt(res, a, b, path) {
      assert (Prints(res, a, path) + Prints(res, b, path))[0] == Stripped(x);
      assert (Prints(res, b, path) + Prints(res, a, path))[0] == Stripped(y);
      SharedTextRepeats(packageName, res, order, a, x, b, y);
    }
  }

  lemma SharedTextRepeats(packageName: string, res: Subpackages, order: seq<string>, a: string, x: Node, b: string, y: Node)
    requires ListingOf(order, res.Keys) && a in res && b in res && a != b
    requires x in RelocateAll(a, NodesOf(res, a)) && y in RelocateAll(b, NodesOf(res, b)) && Stripped(x) == Stripped(y)
    ensures !NoDuplicates(Map(Cleared, Merged(packageName, res, order)))
  {
    var c := Cleared(x);
    assert c == Cleared(Stripped(x)) == Cleared(Stripped(y)) == Cleared(y);
    assert a in Elements(order) && b in Elements(order);
    BlocksCount(res, order, a, b, c);
    MapHas(RelocateAll(a, NodesOf(res, a)), x);
    MapHas(RelocateAll(b, NodesOf(res, b)), y);
    MapAppend(Cleared, [Kptfile(packageName)], MergedIn(res, order));
    if NoDuplicates(Map(Cleared, Merged(packageName, res, order))) {
      CountOnce(Map(Cleared, Merged(packageName, res, order)), c);
    }
  }

  lemma MapHas(nodes: seq<Node>, n: Node)
    requires n in nodes
    ensures multiset(Map(Cleared, nodes))[Cleared(n)] >= 1
  {
    var i :| 0 <= i < |nodes| && nodes[i] == n;
    assert Map(Cleared, nodes)[i] == Cleared(n);
    assert Cleared(n) in multiset(Map(Cleared, nodes));
  }

  /** For distinct documents, annotations aside, the walk never shows if and only if no file holds
      documents of two sub-packages. */
  lemma DistinctWalkNeverShowsIff(packageName: string, res: Subpackages, order: seq<string>, orig: Files)
    requires ListingOf(order, res.Keys) && NoDuplicates(Map(Cleared, Merged(packageName, res, order)))
    ensures WalkNeverShows(packageName, res, orig) <==> DisjointFiles(res)
  {
    WalkNeverShowsIff(packageName, res, orig);
    if DisjointFiles(res) {
      DisjointFilesCommute(res);
    } else {
      var a, b :| a in res && b in res && a != b && !(FilesOf(res, a) !! FilesOf(res, b));
      var path :| path in FilesOf(res, a) && path in FilesOf(res, b);
      SharedFileShows(packageName, res, order, a, b, path);
    }
  }

  lemma DisjointFilesCommute(res: Subpackages)
    requires DisjointFiles(res)
    ensures Commute(res)
  {
    forall a, b, path | a in res && b in res ensures CommuteAt(res, a, b, path) {
      GroupMembers(RelocateAll(a, NodesOf(res, a)), path);
      GroupMembers(RelocateAll(b, NodesOf(res, b)), path);
      if a != b { assert FilesOf(res, a) !! FilesOf(res, b); }
    }
  }
}
