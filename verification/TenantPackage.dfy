/** The package a tenant asks for (internal/controllers/tenant/reconciler.go, createSourcePackage and
    createNewPackage, merged by MergePackages). How a document is retargeted to the tenant is a
    parameter: it fails, or edits fields of the document, never its annotations. */
module TenantPackage {
  import opened Options
  import opened Strings
  import opened Paths
  import opened Documents
  import opened PkgUtil
  import opened Merging
  import opened WalkOrder
  import opened AppResource
  import opened Naming
  import opened Judgement

  // ---------- the documents ----------

  /** Every document retargeted, or None when one cannot be. */
  function Retargeted(docs: seq<Node>, retarget: Node -> Option<Node>): (r: Option<seq<Node>>)
    ensures r.Some? <==> forall i :: 0 <= i < |docs| ==> retarget(docs[i]).Some?
    ensures r.Some? ==> |r.value| == |docs| && forall i :: 0 <= i < |docs| ==> retarget(docs[i]) == Some(r.value[i])
  {
    if docs == [] then Some([])
    else
      match (retarget(docs[0]), Retargeted(docs[1..], retarget))
      case (Some(first), Some(rest)) =>
        assert forall i :: 0 < i < |docs| ==> docs[i] == docs[1..][i - 1];
        Some([first] + rest)
      case (None, _) => None
      case (_, None) =>
        assert exists i :: 0 <= i < |docs[1..]| && retarget(docs[1..][i]).None?;
        None
  }

  /** The documents of the source package for this tenant, when its files could be read. */
  ghost function SourceDocuments(files: Option<Files>, retarget: Node -> Option<Node>): Option<seq<Node>> {
    match files
    case None => None
    case Some(f) =>
      match Read(f)
      case None => None
      case Some(docs) => Retargeted(docs, retarget)
  }

  /** The documents generated for a tenant. */
  function Generated(tenant: string): seq<Node> {
    [Namespace(tenant), Kptfile("namespace")]
  }

  /** The sub-packages of a tenant: the source under its own name, and `namespace`, which takes the
      place of a source of that name, as the second entry of the Go map literal does. */
  function TenantSubpackages(tenant: string, source: string, documents: seq<Node>): Subpackages {
    map[source := documents]["namespace" := Generated(tenant)]
  }

  /** The package when the map of the two is walked in this order. */
  function TenantMerged(tenant: string, source: string, documents: seq<Node>, order: seq<string>): seq<Node> {
    Merged(PackageName(tenant), TenantSubpackages(tenant, source, documents), order)
  }

  ghost predicate IsWalk(tenant: string, source: string, documents: seq<Node>, order: seq<string>) {
    ListingOf(order, TenantSubpackages(tenant, source, documents).Keys)
  }

  /** One of the packages that a run for these documents can build. */
  ghost predicate IsTenantPackage(tenant: string, source: string, documents: seq<Node>, want: seq<Node>) {
    exists order :: IsWalk(tenant, source, documents, order) && want == TenantMerged(tenant, source, documents, order)
  }

  // ---------- building it ----------

  /** The loop of `createSourcePackage`: every document is retargeted in place, until one cannot be. */
  method Retarget(nodes: seq<RNode>, retarget: Node -> Option<Node>) returns (ok: bool)
    requires NoDuplicates(nodes)
    modifies nodes
    ensures ok <==> Retargeted(old(Views(nodes)), retarget).Some?
    ensures ok ==> Some(Views(nodes)) == Retargeted(old(Views(nodes)), retarget)
  {
    var i := 0;
    while i < |nodes|
      invariant 0 <= i <= |nodes|
      invariant forall j :: 0 <= j < i ==> retarget(old(nodes[j].node)) == Some(nodes[j].node)
      invariant forall j :: i <= j < |nodes| ==> nodes[j].node == old(nodes[j].node)
    {
      var edited := retarget(nodes[i].node);
      if edited == None {
        return false;
      }
      nodes[i].node := edited.value;
      i := i + 1;
    }
    assert Views(nodes) == Retargeted(old(Views(nodes)), retarget).value;
    ok := true;
  }

  /** The wanted package, or None when the source package could not be read, parsed or retargeted. */
  method BuildWanted(tenant: string, source: string, files: Option<Files>, retarget: Node -> Option<Node>)
    returns (package: Option<Resources>)
    ensures package.Some? <==> SourceDocuments(files, retarget).Some?
    ensures package.Some? ==>
              && fresh(package.value)
              && IsTenantPackage(tenant, source, SourceDocuments(files, retarget).value, Views(package.value.resources))
  {
    if files == None {
      return None;
    }
    var pkgBuf := ResourcesToPackageBuffer(files.value);
    if pkgBuf == None {
      return None;
    }
    var sourceNodes := FreshNodes(pkgBuf.value);
    var ok := Retarget(sourceNodes, retarget);
    if !ok {
      return None;
    }
    ghost var documents := Views(sourceNodes);
    var namespaceNodes := FreshNodes(Generated(tenant));
    assert Views(sourceNodes) == documents;
    ghost var order;
    var merged;
    merged, order := MergeTwo(tenant, source, sourceNodes, namespaceNodes, documents);
    assert IsWalk(tenant, source, documents, order);
    package := Some(merged);
  }

  method MergeTwo(tenant: string, source: string, sourceNodes: seq<RNode>, namespaceNodes: seq<RNode>, ghost documents: seq<Node>)
    returns (merged: Resources, ghost order: seq<string>)
    requires NoDuplicates(sourceNodes) && NoDuplicates(namespaceNodes) && Apart(sourceNodes, namespaceNodes)
    requires Views(sourceNodes) == documents && Views(namespaceNodes) == Generated(tenant)
    modifies sourceNodes, namespaceNodes
    ensures fresh(merged)
    ensures IsWalk(tenant, source, documents, order)
    ensures Views(merged.resources) == TenantMerged(tenant, source, documents, order)
  {
    var res := map[source := sourceNodes]["namespace" := namespaceNodes];
    assert Apart(namespaceNodes, sourceNodes);
    assert Separate(res);
    forall r | r in NodesIn(res) ensures r in sourceNodes || r in namespaceNodes {}
    assert SubpackageViews(res) == TenantSubpackages(tenant, source, documents);
    merged, order := MergePackages(PackageName(tenant), res);
  }

  // ---------- which documents it has ----------

  ghost predicate KeepsAnnotations(retarget: Node -> Option<Node>) {
    forall n: Node :: retarget(n).Some? ==> retarget(n).value.annotations == n.annotations
  }

  lemma RetargetedInContents(docs: seq<Node>, retarget: Node -> Option<Node>)
    requires KeepsAnnotations(retarget) && InContents(docs) && Retargeted(docs, retarget).Some?
    ensures InContents(Retargeted(docs, retarget).value)
  {
    var r := Retargeted(docs, retarget).value;
    forall i | 0 <= i < |r| ensures r[i].annotations == docs[i].annotations { assert retarget(docs[i]) == Some(r[i]); }
  }

  lemma SourceInContents(files: Option<Files>, retarget: Node -> Option<Node>)
    requires KeepsAnnotations(retarget) && SourceDocuments(files, retarget).Some?
    ensures InContents(SourceDocuments(files, retarget).value)
  {
    ReadInContents(files.value);
    RetargetedInContents(Read(files.value).value, retarget);
  }

  lemma OnlyPlainNames(nodes: seq<Node>)
    requires forall i :: 0 <= i < |nodes| ==>
               PATH in nodes[i].annotations && '/' !in nodes[i].annotations[PATH] && MatchesContents(nodes[i].annotations[PATH])
    ensures InContents(nodes) && CleanDocuments(nodes)
  {
    forall i | 0 <= i < |nodes| ensures IncludeFile(nodes[i].annotations[PATH]) && CleanRelative(nodes[i].annotations[PATH]) {
      PlainContents(nodes[i].annotations[PATH]);
    }
  }

  lemma GeneratedInContents(tenant: string)
    ensures InContents(Generated(tenant)) && CleanDocuments(Generated(tenant))
  {
    assert HasSuffix("namespace.yaml", ".yaml");
    OnlyPlainNames(Generated(tenant));
  }

  lemma OrderOfOne(order: seq<string>, a: string)
    requires ListingOf(order, {a})
    ensures order == [a]
  {
    ListingLength(order, {a});
    assert order[0] in Elements(order);
  }

  lemma OrdersOfTwo(order: seq<string>, a: string, b: string)
    requires ListingOf(order, {a, b}) && a != b
    ensures order == [a, b] || order == [b, a]
  {
    ListingLength(order, {a, b});
    assert order[0] in Elements(order) && order[1] in Elements(order);
  }

  lemma MergedOfOne(res: Subpackages, a: string)
    requires a in res
    ensures MergedIn(res, [a]) == RelocateAll(a, res[a])
  {
    assert MergedIn(res, [a][1..]) == [];
  }

  lemma MergedOfTwo(res: Subpackages, a: string, b: string)
    requires a in res && b in res
    ensures MergedIn(res, [a, b]) == RelocateAll(a, res[a]) + RelocateAll(b, res[b])
  {
    assert [a, b][1..] == [b];
    MergedOfOne(res, b);
  }

  /** Two sub-packages put the same documents into the merged package whichever comes first. */
  lemma DocumentsOfTwo(packageName: string, res: Subpackages, a: string, b: string, order: seq<string>)
    requires a != b && res.Keys == {a, b} && ListingOf(order, res.Keys)
    ensures multiset(Merged(packageName, res, order))
            == multiset{Kptfile(packageName)} + multiset(RelocateAll(a, res[a])) + multiset(RelocateAll(b, res[b]))
  {
    OrdersOfTwo(order, a, b);
    MergedOfTwo(res, a, b);
    MergedOfTwo(res, b, a);
  }

  /** The documents of the wanted package, whichever way the map is walked: the package's Kptfile, the
      generated ones, and each of the source unless it is called `namespace`: then none of them. */
  lemma TenantDocuments(tenant: string, source: string, documents: seq<Node>, order: seq<string>)
    requires IsWalk(tenant, source, documents, order)
    ensures multiset(TenantMerged(tenant, source, documents, order))
            == multiset{Kptfile(PackageName(tenant))} + multiset(RelocateAll("namespace", Generated(tenant)))
               + if source == "namespace" then multiset{} else multiset(RelocateAll(source, documents))
  {
    var res := TenantSubpackages(tenant, source, documents);
    if source == "namespace" {
      assert res.Keys == {"namespace"};
      OrderOfOne(order, "namespace");
      MergedOfOne(res, "namespace");
      assert MergedIn(res, order) == RelocateAll("namespace", Generated(tenant));
    } else {
      assert res.Keys == {"namespace", source};
      DocumentsOfTwo(PackageName(tenant), res, "namespace", source, order);
    }
  }

  // ---------- when it can be aimed for ----------

  /** No document of the source repeats another or a generated one, annotations aside. */
  ghost predicate DistinctSource(tenant: string, documents: seq<Node>) {
    NoDuplicates(Map(Cleared, [Kptfile(PackageName(tenant))] + Generated(tenant) + documents))
  }

  /** Seen through anything that the path annotation does not show in, moving changes nothing. */
  lemma RelocatedThrough<T>(f: Node -> T, sub: string, nodes: seq<Node>)
    requires forall k, n :: f(Relocate(k, n)) == f(n)
    ensures Map(f, RelocateAll(sub, nodes)) == Map(f, nodes)
  {
    var moved := RelocateAll(sub, nodes);
    assert forall i :: 0 <= i < |nodes| ==> f(moved[i]) == f(nodes[i]);
  }

  lemma RelocatedTexts(sub: string, nodes: seq<Node>)
    ensures Map(Cleared, RelocateAll(sub, nodes)) == Map(Cleared, nodes)
  {
    forall k, n ensures Cleared(Relocate(k, n)) == Cleared(n) { RelocateKeeps(k, n); }
    RelocatedThrough(Cleared, sub, nodes);
  }

  lemma GeneratedDiffer(tenant: string)
    ensures DistinctSource(tenant, [])
  {
    PackageNameShape(tenant);
    assert PackageName(tenant)[0] == 'a';
    assert Kptfile(PackageName(tenant)).name != Kptfile("namespace").name;
    assert |"kind: Kptfile"| != |"kind: Namespace"|;
    var all := [Kptfile(PackageName(tenant))] + Generated(tenant) + [];
    assert all == [Kptfile(PackageName(tenant)), Namespace(tenant), Kptfile("namespace")];
  }

  lemma MapParts<T>(f: Node -> T, a: seq<Node>, b: seq<Node>, c: seq<Node>)
    ensures multiset(Map(f, a + b + c)) == multiset(Map(f, a)) + multiset(Map(f, b)) + multiset(Map(f, c))
  {
    MapAppend(f, a + b, c);
    MapAppend(f, a, b);
  }

  /** The documents that go into a tenant's package. */
  function TenantSources(tenant: string, source: string, documents: seq<Node>): seq<Node> {
    [Kptfile(PackageName(tenant))] + Generated(tenant) + if source == "namespace" then [] else documents
  }

  lemma TenantThrough<T>(f: Node -> T, tenant: string, source: string, documents: seq<Node>, order: seq<string>)
    requires IsWalk(tenant, source, documents, order)
    requires forall k, n :: f(Relocate(k, n)) == f(n)
    ensures multiset(Map(f, TenantMerged(tenant, source, documents, order))) == multiset(Map(f, TenantSources(tenant, source, documents)))
  {
    var k, gen, docs := [Kptfile(PackageName(tenant))], RelocateAll("namespace", Generated(tenant)), RelocateAll(source, documents);
    var kept := if source == "namespace" then [] else docs;
    TenantDocuments(tenant, source, documents, order);
    assert multiset(TenantMerged(tenant, source, documents, order)) == multiset(k + gen + kept);
    MapMultiset(f, TenantMerged(tenant, source, documents, order), k + gen + kept);
    MapParts(f, k, gen, kept);
    MapParts(f, k, Generated(tenant), if source == "namespace" then [] else documents);
    RelocatedThrough(f, "namespace", Generated(tenant));
    RelocatedThrough(f, source, documents);
  }

  /** The texts of the wanted package, whichever way the map is walked. */
  lemma TenantTexts(tenant: string, source: string, documents: seq<Node>, order: seq<string>)
    requires IsWalk(tenant, source, documents, order)
    ensures multiset(Map(Cleared, TenantMerged(tenant, source, documents, order)))
            == multiset(Map(Cleared, TenantSources(tenant, source, documents)))
  {
    forall k, n ensures Cleared(Relocate(k, n)) == Cleared(n) { RelocateKeeps(k, n); }
    TenantThrough(Cleared, tenant, source, documents, order);
  }

  /** And every annotation of theirs is there, but the two that a reader adds and a writer removes. */
  lemma TenantAnnotations(tenant: string, source: string, documents: seq<Node>, order: seq<string>)
    requires IsWalk(tenant, source, documents, order)
    ensures multiset(Map(Stripped, TenantMerged(tenant, source, documents, order)))
            == multiset(Map(Stripped, TenantSources(tenant, source, documents)))
  {
    forall k, n ensures Stripped(Relocate(k, n)) == Stripped(n) { RelocateKeeps(k, n); }
    TenantThrough(Stripped, tenant, source, documents, order);
  }

  /** Once written, over any files, the package holds exactly these documents with these annotations. */
  lemma TenantWritten(tenant: string, source: string, documents: seq<Node>, want: seq<Node>, orig: Files)
    requires InContents(documents) && IsTenantPackage(tenant, source, documents, want)
    ensures Read(Overlay(orig, want)).Some?
    ensures multiset(Map(Stripped, Read(Overlay(orig, want)).value))
            == multiset(Map(Stripped, TenantSources(tenant, source, documents)))
  {
    var order :| IsWalk(tenant, source, documents, order) && want == TenantMerged(tenant, source, documents, order);
    TenantAnnotations(tenant, source, documents, order);
    TenantIncluded(tenant, source, documents, order);
    WrittenAnnotationsReadBack(orig, want);
  }

  /** Whichever way the map is walked, the same documents are asked for. */
  lemma WalksAskTheSame(tenant: string, source: string, documents: seq<Node>, want: seq<Node>, want': seq<Node>)
    requires IsTenantPackage(tenant, source, documents, want) && IsTenantPackage(tenant, source, documents, want')
    ensures SameWant(want, want')
  {
    var o :| IsWalk(tenant, source, documents, o) && want == TenantMerged(tenant, source, documents, o);
    var o' :| IsWalk(tenant, source, documents, o') && want' == TenantMerged(tenant, source, documents, o');
    TenantTexts(tenant, source, documents, o);
    TenantTexts(tenant, source, documents, o');
  }

  lemma TenantIncluded(tenant: string, source: string, documents: seq<Node>, order: seq<string>)
    requires InContents(documents)
    ensures AllIncluded(TenantMerged(tenant, source, documents, order))
  {
    var res := TenantSubpackages(tenant, source, documents);
    GeneratedInContents(tenant);
    forall k | k in res ensures InContents(res[k]) {}
    MergedPackageIsKept(PackageName(tenant), res, order);
  }

  lemma TenantDistinctIff(tenant: string, source: string, documents: seq<Node>, order: seq<string>)
    requires IsWalk(tenant, source, documents, order)
    ensures NoDuplicates(Map(Cleared, TenantMerged(tenant, source, documents, order)))
            <==> source == "namespace" || DistinctSource(tenant, documents)
  {
    TenantTexts(tenant, source, documents, order);
    SameDistinct(Map(Cleared, TenantMerged(tenant, source, documents, order)),
                 Map(Cleared, TenantSources(tenant, source, documents)));
    GeneratedDiffer(tenant);
  }

  /** Wherever the files of the source are, every document of the wanted package goes to a KRM file.
      The package can be aimed for exactly when the source repeats no document and none of the
      generated ones, annotations aside, or is called `namespace`. */
  lemma WantedPackageIff(tenant: string, source: string, documents: seq<Node>, want: seq<Node>)
    requires InContents(documents) && IsTenantPackage(tenant, source, documents, want)
    ensures AllIncluded(want)
    ensures Wanted(want) <==> source == "namespace" || DistinctSource(tenant, documents)
  {
    var order :| IsWalk(tenant, source, documents, order) && want == TenantMerged(tenant, source, documents, order);
    TenantIncluded(tenant, source, documents, order);
    TenantDistinctIff(tenant, source, documents, order);
  }

  lemma SameDistinct<T>(a: seq<T>, b: seq<T>)
    requires multiset(a) == multiset(b)
    ensures NoDuplicates(a) <==> NoDuplicates(b)
  {
    if NoDuplicates(a) { SameMultisetSameDuplicates(a, b); }
    if NoDuplicates(b) { SameMultisetSameDuplicates(b, a); }
  }

  // ---------- when the walk shows ----------

  lemma CleanPair(source: string, documents: seq<Node>, name: string, generated: seq<Node>)
    requires Normal(source) && CleanDocuments(documents)
    requires name !in {"", ".", ".."} && '/' !in name && CleanDocuments(generated)
    ensures CleanSubpackages(map[source := documents][name := generated])
  {
    PlainName(name);
  }

  /** For a source package with a one-component name and clean paths, the order in which Go walks the
      two sub-packages shows neither in the files written nor in the documents compared. */
  lemma WalkDoesNotShow(tenant: string, source: string, documents: seq<Node>, order: seq<string>, order': seq<string>, orig: Files)
    requires Normal(source) && CleanDocuments(documents)
    requires IsWalk(tenant, source, documents, order) && IsWalk(tenant, source, documents, order')
    ensures Overlay(orig, TenantMerged(tenant, source, documents, order)) == Overlay(orig, TenantMerged(tenant, source, documents, order'))
    ensures multiset(TenantMerged(tenant, source, documents, order)) == multiset(TenantMerged(tenant, source, documents, order'))
  {
    var res := TenantSubpackages(tenant, source, documents);
    GeneratedInContents(tenant);
    CleanPair(source, documents, "namespace", Generated(tenant));
    CleanSubpackagesAreDisjoint(res);
    MergeOrderDoesNotShow(PackageName(tenant), res, order, order', orig);
  }

  /** No document of the source climbs into the directory of the generated ones and onto their files. */
  ghost predicate StaysOff(source: string, documents: seq<Node>) {
    forall n :: n in RelocateAll(source, documents) ==>
      GetPath(n) != JoinPath("namespace", "namespace.yaml") && GetPath(n) != JoinPath("namespace", "Kptfile")
  }

  lemma GeneratedPaths(tenant: string)
    ensures PathsOf(RelocateAll("namespace", Generated(tenant)))
            == {JoinPath("namespace", "namespace.yaml"), JoinPath("namespace", "Kptfile")}
  {
    var moved := RelocateAll("namespace", Generated(tenant));
    assert moved == [Relocate("namespace", Namespace(tenant)), Relocate("namespace", Kptfile("namespace"))];
    assert GetPath(moved[0]) == JoinPath("namespace", "namespace.yaml");
    assert GetPath(moved[1]) == JoinPath("namespace", "Kptfile");
    assert moved[0] in moved && moved[1] in moved;
  }

  lemma DisjointPairIff(res: Subpackages, a: string, b: string)
    requires a != b && res.Keys == {a, b}
    ensures DisjointFiles(res) <==> FilesOf(res, a) !! FilesOf(res, b)
  {
    assert a in res && b in res;
  }

  lemma StaysOffIff(tenant: string, source: string, documents: seq<Node>)
    requires source != "namespace"
    ensures DisjointFiles(TenantSubpackages(tenant, source, documents)) <==> StaysOff(source, documents)
  {
    var res := TenantSubpackages(tenant, source, documents);
    DisjointPairIff(res, source, "namespace");
    GeneratedPaths(tenant);
    OffPaths(RelocateAll(source, documents), JoinPath("namespace", "namespace.yaml"), JoinPath("namespace", "Kptfile"));
  }

  lemma OffPaths(nodes: seq<Node>, a: string, b: string)
    ensures PathsOf(nodes) !! {a, b} <==> forall n :: n in nodes ==> GetPath(n) != a && GetPath(n) != b
  {
    assert forall n :: n in nodes ==> GetPath(n) in PathsOf(nodes);
  }

  /** Exactly when the walk shows in the files: for a package that can be aimed for, if and only if a
      document of the source climbs onto a generated file. */
  lemma TenantWalkNeverShowsIff(tenant: string, source: string, documents: seq<Node>, orig: Files)
    requires source != "namespace" && DistinctSource(tenant, documents)
    ensures WalkNeverShows(PackageName(tenant), TenantSubpackages(tenant, source, documents), orig) <==> StaysOff(source, documents)
  {
    var res := TenantSubpackages(tenant, source, documents);
    var order := ListingExists(res.Keys);
    TenantDistinctIff(tenant, source, documents, order);
    DistinctWalkNeverShowsIff(PackageName(tenant), res, order, orig);
    StaysOffIff(tenant, source, documents);
  }
}
