/** Merging sub-packages under one package (pkg/pkgutil/pkgutil.go, MergePackages), on values: the
    order in which the Go map of sub-packages is walked is a parameter. */
module Merging {
  import opened Strings
  import opened Paths
  import opened Documents
  import opened PkgUtil

  type Subpackages = map<string, seq<Node>>

  /** The generated Kptfile of a package (pkg/kptfile/v1/kptfile.go). */
  function Kptfile(packageName: string): Node {
    Node(packageName, "kind: Kptfile",
         map[INDEX := "0", PATH := "Kptfile", "config.kubernetes.io/local-config" := "true"])
  }

  /** The generated Namespace of a tenant (pkg/namespace/v1/namespace.go). */
  function Namespace(tenant: string): Node {
    Node(tenant, "kind: Namespace", map[INDEX := "0", PATH := "namespace.yaml"])
  }

  /** A document moved below the directory of its sub-package. */
  function Relocate(sub: string, n: Node): Node {
    var path := if PATH in n.annotations then n.annotations[PATH] else "";
    n.(annotations := n.annotations[PATH := JoinPath(sub, path)])
  }

  function RelocateAll(sub: string, nodes: seq<Node>): (r: seq<Node>)
    ensures |r| == |nodes| && forall i :: 0 <= i < |nodes| ==> r[i] == Relocate(sub, nodes[i])
  {
    if nodes == [] then [] else [Relocate(sub, nodes[0])] + RelocateAll(sub, nodes[1..])
  }

  function NodesOf(res: Subpackages, sub: string): seq<Node> {
    if sub in res then res[sub] else []
  }

  /** The documents of the sub-packages, walked in the given order. */
  function MergedIn(res: Subpackages, order: seq<string>): seq<Node> {
    if order == [] then []
    else RelocateAll(order[0], NodesOf(res, order[0])) + MergedIn(res, order[1..])
  }

  /** What `MergePackages` returns when the map is walked in the given order. */
  function Merged(packageName: string, res: Subpackages, order: seq<string>): seq<Node> {
    [Kptfile(packageName)] + MergedIn(res, order)
  }

  lemma {:induction false} MergedInAppend(res: Subpackages, a: seq<string>, b: seq<string>)
    ensures MergedIn(res, a + b) == MergedIn(res, a) + MergedIn(res, b)
  {
    if a == [] {
      assert a + b == b;
    } else {
      assert (a + b)[1..] == a[1..] + b;
      MergedInAppend(res, a[1..], b);
      var head := RelocateAll(a[0], NodesOf(res, a[0]));
      assert head + (MergedIn(res, a[1..]) + MergedIn(res, b)) == head + MergedIn(res, a[1..]) + MergedIn(res, b);
    }
  }

  // ---------- what merging keeps ----------

  /** Documents that differ in nothing but where they are to be written. */
  predicate SameButPath(n: Node, m: Node) {
    && m.name == n.name && m.body == n.body
    && (forall k :: k in m.annotations && k != PATH ==> k in n.annotations && m.annotations[k] == n.annotations[k])
    && (forall k :: k in n.annotations && k != PATH ==> k in m.annotations)
  }

  lemma RelocateKeeps(sub: string, n: Node)
    ensures SameButPath(n, Relocate(sub, n))
    ensures Stripped(Relocate(sub, n)) == Stripped(n) && Cleared(Relocate(sub, n)) == Cleared(n)
  {
  }

  /** The documents of the sub-packages as they were, walked in the given order. */
  function Unmoved(res: Subpackages, order: seq<string>): seq<Node> {
    if order == [] then [] else NodesOf(res, order[0]) + Unmoved(res, order[1..])
  }

  lemma {:induction false} MergedInKeeps(res: Subpackages, order: seq<string>)
    ensures |MergedIn(res, order)| == |Unmoved(res, order)|
    ensures forall i :: 0 <= i < |Unmoved(res, order)| ==> SameButPath(Unmoved(res, order)[i], MergedIn(res, order)[i])
  {
    if order != [] {
      MergedInKeeps(res, order[1..]);
      var nodes := NodesOf(res, order[0]);
      forall i | 0 <= i < |nodes| ensures SameButPath(nodes[i], RelocateAll(order[0], nodes)[i]) {
        RelocateKeeps(order[0], nodes[i]);
      }
    }
  }

  /** A merged package holds its own Kptfile and every document of the sub-packages, in the order of the
      walk, each with its name, its body and every annotation but its path. */
  lemma MergedKeeps(packageName: string, res: Subpackages, order: seq<string>)
    ensures var docs := [Kptfile(packageName)] + Unmoved(res, order);
            && |Merged(packageName, res, order)| == |docs|
            && forall i :: 0 <= i < |docs| ==> SameButPath(docs[i], Merged(packageName, res, order)[i])
  {
    MergedInKeeps(res, order);
  }

  lemma SameButPathStripped(docs: seq<Node>, moved: seq<Node>)
    requires |docs| == |moved| && forall i :: 0 <= i < |docs| ==> SameButPath(docs[i], moved[i])
    ensures Map(Stripped, docs) == Map(Stripped, moved) && Map(Cleared, docs) == Map(Cleared, moved)
  {
    forall i | 0 <= i < |docs| ensures Stripped(docs[i]) == Stripped(moved[i]) {
      StrippedSame(docs[i], moved[i]);
    }
  }

  lemma StrippedSame(n: Node, m: Node)
    requires SameButPath(n, m)
    ensures Stripped(n) == Stripped(m)
  {
    assert Stripped(n).annotations == Stripped(m).annotations;
  }

  // ---------- order independence ----------

  function FilesOf(res: Subpackages, sub: string): set<string> {
    PathsOf(RelocateAll(sub, NodesOf(res, sub)))
  }

  /** No file holds documents of two sub-packages. */
  ghost predicate DisjointFiles(res: Subpackages) {
    forall a, b :: a in res && b in res && a != b ==> FilesOf(res, a) !! FilesOf(res, b)
  }

  lemma {:induction false} GroupOfStrangers(res: Subpackages, order: seq<string>, path: string)
    requires forall k :: k in order ==> path !in FilesOf(res, k)
    ensures GroupAt(MergedIn(res, order), path) == []
  {
    if order != [] {
      GroupOfStrangers(res, order[1..], path);
      var head := RelocateAll(order[0], NodesOf(res, order[0]));
      GroupMembers(head, path);
      assert order[0] in order;
      GroupAppend(head, MergedIn(res, order[1..]), path);
    }
  }

  lemma {:induction false} GroupOfOwner(res: Subpackages, order: seq<string>, path: string, owner: string)
    requires NoDuplicates(order) && owner in order
    requires forall k :: k in order && k != owner ==> path !in FilesOf(res, k)
    ensures GroupAt(MergedIn(res, order), path) == GroupAt(RelocateAll(owner, NodesOf(res, owner)), path)
  {
    var head, rest := RelocateAll(order[0], NodesOf(res, order[0])), MergedIn(res, order[1..]);
    assert MergedIn(res, order) == head + rest;
    GroupAppend(head, rest, path);
    if order[0] == owner {
      forall k | k in order[1..] ensures k in order && k != owner {
        var i :| 0 <= i < |order[1..]| && order[1..][i] == k;
        assert order[i + 1] == k;
      }
      GroupOfStrangers(res, order[1..], path);
    } else {
      GroupMembers(head, path);
      assert order[0] in order;
      GroupOfOwner(res, order[1..], path, owner);
    }
  }

  lemma SameGroups(res: Subpackages, order: seq<string>, order': seq<string>, path: string)
    requires DisjointFiles(res)
    requires ListingOf(order, res.Keys) && ListingOf(order', res.Keys)
    ensures GroupAt(MergedIn(res, order), path) == GroupAt(MergedIn(res, order'), path)
  {
    forall k ensures k in order <==> k in res ensures k in order' <==> k in res {
      assert k in order <==> k in Elements(order);
      assert k in order' <==> k in Elements(order');
    }
    if owner :| owner in res && path in FilesOf(res, owner) {
      assert forall k :: k in res && k != owner ==> FilesOf(res, owner) !! FilesOf(res, k);
      GroupOfOwner(res, order, path, owner);
      GroupOfOwner(res, order', path, owner);
    } else {
      GroupOfStrangers(res, order, path);
      GroupOfStrangers(res, order', path);
    }
  }

  /** Files that depend only on the groups of the documents. */
  lemma SameGroupsSameFiles(orig: Files, a: seq<Node>, b: seq<Node>)
    requires forall p :: GroupAt(a, p) == GroupAt(b, p)
    ensures Overlay(orig, a) == Overlay(orig, b)
  {
    forall p ensures p in PathsOf(a) <==> p in PathsOf(b) {
      assert GroupAt(a, p) == GroupAt(b, p);
      GroupMembers(a, p);
      GroupMembers(b, p);
    }
    assert PathsOf(a) == PathsOf(b);
  }

  /** The order in which the map of sub-packages is walked shows neither in the files written nor
      in the documents compared. */
  lemma MergeOrderDoesNotShow(packageName: string, res: Subpackages, order: seq<string>, order': seq<string>, orig: Files)
    requires DisjointFiles(res)
    requires ListingOf(order, res.Keys) && ListingOf(order', res.Keys)
    ensures Overlay(orig, Merged(packageName, res, order)) == Overlay(orig, Merged(packageName, res, order'))
    ensures multiset(Merged(packageName, res, order)) == multiset(Merged(packageName, res, order'))
  {
    var a, b := Merged(packageName, res, order), Merged(packageName, res, order');
    forall p ensures GroupAt(a, p) == GroupAt(b, p) {
      SameGroups(res, order, order', p);
      GroupAppend([Kptfile(packageName)], MergedIn(res, order), p);
      GroupAppend([Kptfile(packageName)], MergedIn(res, order'), p);
    }
    SameGroupsSameFiles(orig, a, b);
    SameGroupsSameDocuments(a, b);
  }

  /** One-component names, and documents at clean relative paths that do not climb. */
  ghost predicate CleanSubpackages(res: Subpackages) {
    forall sub :: sub in res ==> Normal(sub) && CleanDocuments(res[sub])
  }

  predicate CleanDocuments(nodes: seq<Node>) {
    forall i :: 0 <= i < |nodes| ==> PATH in nodes[i].annotations && CleanRelative(nodes[i].annotations[PATH])
  }

  lemma CleanSubpackagesAreDisjoint(res: Subpackages)
    requires CleanSubpackages(res)
    ensures DisjointFiles(res)
  {
    forall a, b | a in res && b in res && a != b ensures FilesOf(res, a) !! FilesOf(res, b) {
      forall p | p in FilesOf(res, a) ensures p !in FilesOf(res, b) {
        if p in FilesOf(res, b) {
          var i := FileOwner(res, a, p);
          var j := FileOwner(res, b, p);
          DirectoriesAreDisjoint(a, res[a][i].annotations[PATH], b, res[b][j].annotations[PATH]);
        }
      }
    }
  }

  lemma FileOwner(res: Subpackages, sub: string, path: string) returns (i: nat)
    requires sub in res && CleanDocuments(res[sub]) && path in FilesOf(res, sub)
    ensures i < |res[sub]| && path == JoinPath(sub, res[sub][i].annotations[PATH])
  {
    var moved := RelocateAll(sub, res[sub]);
    var n :| n in moved && GetPath(n) == path;
    i :| 0 <= i < |moved| && moved[i] == n;
  }

  /** Climbing out of a one-component directory undoes the join. */
  lemma ClimbingUndoesJoin(dir: string, path: string)
    requires Normal(dir) && CleanRelative(path)
    ensures JoinPath(dir, "../" + path) == path
  {
    var full := dir + "/" + ("../" + path);
    ClimbingComponents(dir, path);
    NoSlash(dir);
    assert full[0] == dir[0];
    ClimbingCleaned(dir, Components(path));
    JoinSplit(path, "/");
  }

  lemma ClimbingComponents(dir: string, path: string)
    requires Normal(dir)
    ensures Components(dir + "/" + ("../" + path)) == [dir] + ([".."] + Components(path))
  {
    SplitAcross(dir, "/", "../" + path);
    SplitWhole(dir, "/");
    assert "../" + path == ".." + "/" + path;
    SplitAcross("..", "/", path);
    NoSlash("..");
    SplitWhole("..", "/");
  }

  lemma ClimbingCleaned(dir: string, rest: seq<string>)
    requires Normal(dir) && AllNormal(rest)
    ensures CleanFrom([], [dir] + ([".."] + rest), false) == rest
  {
    assert ([dir] + ([".."] + rest))[1..] == [".."] + rest && ([".."] + rest)[1..] == rest;
    assert CleanStep([], dir, false) == [] + [dir] == [dir];
    assert CleanStep([dir], "..", false) == [];
    CleanFromNormal([], rest, false);
    assert [] + rest == rest;
  }

  /** Without the condition the order does show: two documents that climb to one file are written
      in the order of the walk. */
  lemma ClimbingShowsTheOrder(a: string, b: string, path: string, n: Node, m: Node)
    requires Normal(a) && Normal(b) && a != b && CleanRelative(path) && IncludeFile(path) && path != "Kptfile"
    requires n.annotations == m.annotations == map[PATH := "../" + path] && n != m
    ensures var res := map[a := [n], b := [m]];
            Overlay(map[], Merged("", res, [a, b])) != Overlay(map[], Merged("", res, [b, a]))
  {
    var res := map[a := [n], b := [m]];
    ClimbingUndoesJoin(a, path);
    ClimbingUndoesJoin(b, path);
    ClimbingGroup(res, a, b, path, n, m);
    ClimbingGroup(res, b, a, path, m, n);
    RenderedInOrder(Relocate(a, n), Relocate(b, m));
    assert Overlay(map[], Merged("", res, [a, b]))[path] == Rendered([Relocate(a, n), Relocate(b, m)]);
    assert Overlay(map[], Merged("", res, [b, a]))[path] == Rendered([Relocate(b, m), Relocate(a, n)]);
  }

  lemma RenderedInOrder(x: Node, y: Node)
    requires x.name != y.name || x.body != y.body
    ensures Rendered([x, y]) != Rendered([y, x])
  {
    assert Map(Stripped, [x, y])[0] == Stripped(x) && Map(Stripped, [y, x])[0] == Stripped(y);
  }

  lemma ClimbingGroup(res: Subpackages, a: string, b: string, path: string, n: Node, m: Node)
    requires a in res && b in res && res[a] == [n] && res[b] == [m] && path != "Kptfile"
    requires GetPath(Relocate(a, n)) == path && GetPath(Relocate(b, m)) == path
    ensures path in PathsOf(Merged("", res, [a, b]))
    ensures GroupAt(Merged("", res, [a, b]), path) == [Relocate(a, n), Relocate(b, m)]
  {
    assert [a, b][1..] == [b] && [b][1..] == [];
    assert RelocateAll(a, [n]) == [Relocate(a, n)] && RelocateAll(b, [m]) == [Relocate(b, m)];
    assert MergedIn(res, [b]) == [Relocate(b, m)];
    assert MergedIn(res, [a, b]) == [Relocate(a, n), Relocate(b, m)];
    GroupAppend([Kptfile("")], [Relocate(a, n), Relocate(b, m)], path);
    GroupOfOnePath([Relocate(a, n), Relocate(b, m)], path, path);
    assert GetPath(Kptfile("")) == "Kptfile";
    GroupOfOnePath([Kptfile("")], "Kptfile", path);
    GroupMembers(Merged("", res, [a, b]), path);
  }

  // ---------- the tenant's package ----------

  /** Every document has a path annotation that names a KRM file, as the reader of a package
      guarantees for the files it selects. */
  predicate InContents(nodes: seq<Node>) {
    forall i :: 0 <= i < |nodes| ==> PATH in nodes[i].annotations && IncludeFile(nodes[i].annotations[PATH])
  }

  lemma {:induction false} ReadKeysInContents(files: Files, keys: seq<string>)
    requires ReadKeys(files, keys).Some? && forall k :: k in keys ==> IncludeFile(k)
    ensures InContents(ReadKeys(files, keys).value)
  {
    if keys != [] {
      ReadKeysInContents(files, keys[1..]);
      AnnotatedPath(keys[0], Parse(At(files, keys[0])).value, 0);
    }
  }

  lemma ReadInContents(files: Files)
    requires Read(files).Some?
    ensures InContents(Read(files).value)
  {
    SortedKeysMembers(Contents(files));
    ReadKeysInContents(files, SortedKeys(Contents(files)));
  }

  lemma {:induction false} MergedInContents(res: Subpackages, order: seq<string>)
    requires forall k :: k in res ==> InContents(res[k])
    ensures AllIncluded(MergedIn(res, order))
  {
    if order != [] {
      MergedInContents(res, order[1..]);
      var nodes := NodesOf(res, order[0]);
      var moved := RelocateAll(order[0], nodes);
      forall n | n in moved ensures IncludeFile(GetPath(n)) {
        var i :| 0 <= i < |moved| && moved[i] == n;
        IncludeFileJoin(order[0], nodes[i].annotations[PATH]);
      }
    }
  }

  /** Every document of a merged package goes to a KRM file, whatever the names of the
      sub-packages, so writing the package loses none of them. */
  lemma MergedPackageIsKept(packageName: string, res: Subpackages, order: seq<string>)
    requires forall k :: k in res ==> InContents(res[k])
    ensures AllIncluded(Merged(packageName, res, order))
  {
    MergedInContents(res, order);
    OwnKptfileIsKept(packageName);
  }

  lemma OwnKptfileIsKept(packageName: string)
    ensures IncludeFile(GetPath(Kptfile(packageName)))
  {
    PlainContents(Kptfile(packageName).annotations[PATH]);
  }
}
