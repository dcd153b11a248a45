/** Tenants whose source is one file of any documents: what the comparison says of their packages.
    It is decided by the name of the source and by the order in which Go walks a map of two. So a
    document that stands twice in the source can be fatal, harmless or hidden, and stays so after the
    source is repaired. */
module TwinPackages {
  import opened Options
  import opened Strings
  import opened Paths
  import opened Documents
  import opened PkgUtil
  import opened Merging
  import opened SliceScan
  import opened LookUp
  import opened Protocol
  import opened Safety
  import opened Quiescence
  import opened Judgement
  import opened Convergence
  import opened Outcome
  import opened Naming
  import opened TenantPackage

  // ---------- what is read back ----------

  /** Documents are read back in the order of any sorted list with the same groups. */
  lemma ReadsBackAs(base: Files, want: seq<Node>, sorted: seq<Node>)
    requires AllIncluded(want) && StableSortOf(sorted, want)
    ensures Read(Overlay(base, want)).Some?
    ensures Map(Cleared, Read(Overlay(base, want)).value) == Map(Cleared, sorted)
  {
    WriteThenReadIsStableSort(base, want);
    var r, s := Map(Located, Read(Overlay(base, want)).value), Map(Located, sorted);
    LocatedSorted(sorted);
    forall p ensures GroupAt(r, p) == GroupAt(s, p) {
      GroupOfLocated(sorted, p);
      GroupOfLocated(want, p);
      assert GroupAt(sorted, p) == GroupAt(want, p);
    }
    StableSortUnique(r, s);
    ClearedOfLocated(Read(Overlay(base, want)).value);
    ClearedOfLocated(sorted);
  }

  lemma LocatedSorted(nodes: seq<Node>)
    requires SortedByPath(nodes)
    ensures SortedByPath(Map(Located, nodes))
  {
    forall i | 0 <= i < |nodes| ensures GetPath(Map(Located, nodes)[i]) == GetPath(nodes[i]) { LocatedKeeps(nodes[i]); }
  }

  lemma SwapGroups(a: seq<Node>, b: seq<Node>, c: seq<Node>, d: seq<Node>, path: string)
    requires PathsOf(b) !! PathsOf(c)
    ensures GroupAt(a + b + c + d, path) == GroupAt(a + c + b + d, path)
  {
    GroupOfFour(a, b, c, d, path);
    GroupOfFour(a, c, b, d, path);
    GroupMembers(b, path);
    GroupMembers(c, path);
  }

  lemma GroupOfFour(a: seq<Node>, b: seq<Node>, c: seq<Node>, d: seq<Node>, path: string)
    ensures GroupAt(a + b + c + d, path) == GroupAt(a, path) + GroupAt(b, path) + GroupAt(c, path) + GroupAt(d, path)
  {
    GroupAppend(a + b + c, d, path);
    GroupAppend(a + b, c, path);
    GroupAppend(a, b, path);
  }

  // ---------- the order of paths ----------

  lemma LeqByFirst(a: string, b: string)
    requires a != "" && b != "" && a[0] < b[0]
    ensures Leq(a, b)
  {
  }

  lemma {:induction false} LeqBehind(u: string, a: string, b: string)
    ensures Leq(u + a, u + b) <==> Leq(a, b)
  {
    if u == "" {
      assert u + a == a && u + b == b;
    } else {
      assert (u + a)[1..] == u[1..] + a && (u + b)[1..] == u[1..] + b;
      LeqBehind(u[1..], a, b);
    }
  }

  /** Names of different directories decide the order of the paths below them. */
  lemma {:induction false} NamesDecide(a: string, b: string, u: string, v: string, u': string, v': string)
    requires a != b && '/' !in a && '/' !in b
    ensures a + "/" + u != b + "/" + v
    ensures Leq(a + "/" + u, b + "/" + v) <==> Leq(a + "/" + u', b + "/" + v')
  {
    var x, y, x', y' := a + "/" + u, b + "/" + v, a + "/" + u', b + "/" + v';
    assert x[0] == x'[0] == (if a == "" then '/' else a[0]);
    assert y[0] == y'[0] == (if b == "" then '/' else b[0]);
    if a != "" && b != "" && a[0] == b[0] {
      assert a == [a[0]] + a[1..] && b == [b[0]] + b[1..];
      NamesDecide(a[1..], b[1..], u, v, u', v');
      assert x[1..] == a[1..] + "/" + u && y[1..] == b[1..] + "/" + v;
      assert x'[1..] == a[1..] + "/" + u' && y'[1..] == b[1..] + "/" + v';
    }
  }

  // ---------- the package ----------

  /** All documents are in one file, which is a KRM file at a clean path. */
  ghost predicate OneFile(docs: seq<Node>, path: string) {
    && IncludeFile(path) && CleanRelative(path)
    && forall i :: 0 <= i < |docs| ==> PATH in docs[i].annotations && docs[i].annotations[PATH] == path
  }

  /** The documents of the merged package: its Kptfile, the two generated and those of the source. */
  datatype Parts = Parts(kptfile: Node, namespace: Node, generated: Node, docs: seq<Node>)

  function PartsOf(tenant: string, source: string, docs: seq<Node>): Parts {
    Parts(Kptfile(PackageName(tenant)), Relocate("namespace", Namespace(tenant)),
          Relocate("namespace", Kptfile("namespace")), RelocateAll(source, docs))
  }

  function SourceFirst(x: Parts): seq<Node> {
    [x.kptfile] + x.docs + [x.namespace, x.generated]
  }

  function SourceLast(x: Parts): seq<Node> {
    [x.kptfile] + [x.namespace, x.generated] + x.docs
  }

  lemma RelocatedPair(sub: string, a: Node, b: Node)
    ensures RelocateAll(sub, [a, b]) == [Relocate(sub, a), Relocate(sub, b)]
  {
  }

  lemma MergedParts(tenant: string, source: string, docs: seq<Node>)
    requires source != "namespace"
    ensures var x := PartsOf(tenant, source, docs);
            && TenantMerged(tenant, source, docs, [source, "namespace"]) == SourceFirst(x)
            && TenantMerged(tenant, source, docs, ["namespace", source]) == SourceLast(x)
  {
    var res, x := TenantSubpackages(tenant, source, docs), PartsOf(tenant, source, docs);
    MergedOfTwo(res, source, "namespace");
    MergedOfTwo(res, "namespace", source);
    RelocatedPair("namespace", Namespace(tenant), Kptfile("namespace"));
    AppendAssociates([x.kptfile], x.docs, [x.namespace, x.generated]);
    AppendAssociates([x.kptfile], [x.namespace, x.generated], x.docs);
  }

  /** Where the parts go. */
  ghost predicate HasPaths(x: Parts, source: string, path: string) {
    && GetPath(x.kptfile) == "Kptfile"
    && GetPath(x.namespace) == "namespace" + "/" + "namespace.yaml"
    && GetPath(x.generated) == "namespace" + "/" + "Kptfile"
    && forall i :: 0 <= i < |x.docs| ==> GetPath(x.docs[i]) == source + "/" + path
  }

  lemma GeneratedJoins(tenant: string, name: string)
    requires name != "" && name != "." && name != ".." && '/' !in name
    ensures JoinPath(name, "namespace.yaml") == name + "/" + "namespace.yaml"
    ensures JoinPath(name, "Kptfile") == name + "/" + "Kptfile"
  {
    PlainName(name);
    GeneratedInContents(tenant);
    var g := Generated(tenant);
    assert g[0].annotations[PATH] == "namespace.yaml" && g[1].annotations[PATH] == "Kptfile";
    JoinBelow(name, g[0].annotations[PATH]);
    JoinBelow(name, g[1].annotations[PATH]);
  }

  lemma PartPaths(tenant: string, source: string, docs: seq<Node>, path: string)
    requires Normal(source) && OneFile(docs, path)
    ensures HasPaths(PartsOf(tenant, source, docs), source, path)
  {
    JoinBelow(source, path);
    GeneratedJoins(tenant, "namespace");
  }

  // ---------- in which order it is read back ----------

  /** The source comes before `namespace`. */
  predicate IsBefore(source: string) {
    Leq(source + "/", "namespace" + "/")
  }

  lemma BeforeDecides(source: string, u: string, v: string)
    requires Normal(source) && source != "namespace"
    ensures IsBefore(source) ==> Leq(source + "/" + u, "namespace" + "/" + v)
    ensures !IsBefore(source) ==> Leq("namespace" + "/" + v, source + "/" + u)
    ensures source + "/" + u != "namespace" + "/" + v
  {
    NoSlash(source);
    NamesDecide(source, "namespace", u, v, "", "");
    assert source + "/" + "" == source + "/" && "namespace" + "/" + "" == "namespace" + "/";
    LeqTotal(source + "/" + u, "namespace" + "/" + v);
  }

  /** The package as it is read back: the Kptfile anywhere in front of the generated documents. */
  function ReadBack(x: Parts, before: bool, early: bool): seq<Node> {
    if !before then [x.kptfile] + [x.generated, x.namespace] + x.docs
    else if early then x.docs + [x.kptfile] + [x.generated, x.namespace]
    else [x.kptfile] + x.docs + [x.generated, x.namespace]
  }

  lemma SortedBlocks(a: seq<Node>, b: seq<Node>)
    requires SortedByPath(a) && SortedByPath(b)
    requires forall i, j :: 0 <= i < |a| && 0 <= j < |b| ==> Leq(GetPath(a[i]), GetPath(b[j]))
    ensures SortedByPath(a + b)
  {
  }

  lemma SortedOneFile(docs: seq<Node>, path: string)
    requires forall i :: 0 <= i < |docs| ==> GetPath(docs[i]) == path
    ensures SortedByPath(docs)
  {
    LeqTotal(path, path);
  }

  lemma GeneratedSorted(x: Parts, source: string, path: string)
    requires HasPaths(x, source, path)
    ensures SortedByPath([x.generated, x.namespace])
    ensures Leq(GetPath(x.kptfile), GetPath(x.generated)) && Leq(GetPath(x.kptfile), GetPath(x.namespace))
  {
    LeqByFirst("Kptfile", "namespace.yaml");
    LeqBehind("namespace" + "/", "Kptfile", "namespace.yaml");
    assert GetPath(x.generated)[0] == 'n' && GetPath(x.namespace)[0] == 'n' && GetPath(x.kptfile)[0] == 'K';
  }

  lemma DocsOrder(x: Parts, source: string, path: string)
    requires Normal(source) && source != "namespace" && HasPaths(x, source, path)
    ensures forall i :: 0 <= i < |x.docs| ==>
              if IsBefore(source) then Leq(GetPath(x.docs[i]), GetPath(x.generated)) && Leq(GetPath(x.docs[i]), GetPath(x.namespace))
              else Leq(GetPath(x.generated), GetPath(x.docs[i])) && Leq(GetPath(x.namespace), GetPath(x.docs[i]))
  {
    BeforeDecides(source, path, "Kptfile");
    BeforeDecides(source, path, "namespace.yaml");
  }

  /** Whether the file of the source comes before the Kptfile. */
  predicate IsEarly(source: string, path: string) {
    Leq(source + "/" + path, "Kptfile")
  }

  lemma ReadBackSorted(x: Parts, source: string, path: string)
    requires Normal(source) && source != "namespace" && HasPaths(x, source, path)
    ensures SortedByPath(ReadBack(x, IsBefore(source), IsEarly(source, path)))
  {
    GeneratedSorted(x, source, path);
    DocsOrder(x, source, path);
    SortedOneFile(x.docs, source + "/" + path);
    LeqTotal(source + "/" + path, "Kptfile");
    var k, o := [x.kptfile], [x.generated, x.namespace];
    if !IsBefore(source) {
      forall i | 0 <= i < |x.docs| ensures Leq(GetPath(x.kptfile), GetPath(x.docs[i])) {
        LeqTransitive(GetPath(x.kptfile), GetPath(x.generated), GetPath(x.docs[i]));
      }
      SortedBlocks(k, o);
      SortedBlocks(k + o, x.docs);
    } else if IsEarly(source, path) {
      SortedBlocks(x.docs, k);
      SortedBlocks(x.docs + k, o);
    } else {
      SortedBlocks(k, x.docs);
      SortedBlocks(k + x.docs, o);
    }
  }

  lemma OtherPaths(x: Parts, source: string, path: string)
    requires Normal(source) && source != "namespace" && HasPaths(x, source, path)
    ensures PathsOf([x.namespace]) !! PathsOf([x.generated])
    ensures PathsOf([x.namespace, x.generated]) !! PathsOf(x.docs) && PathsOf([x.kptfile]) !! PathsOf(x.docs)
  {
    assert |GetPath(x.namespace)| != |GetPath(x.generated)|;
    BeforeDecides(source, path, "Kptfile");
    BeforeDecides(source, path, "namespace.yaml");
    assert (source + "/" + path)[|source|] == '/' && '/' !in "Kptfile";
  }

  lemma OrderGroups(x: Parts, at: string)
    requires PathsOf([x.namespace, x.generated]) !! PathsOf(x.docs)
    ensures GroupAt(SourceLast(x), at) == GroupAt(SourceFirst(x), at)
  {
    var k, o := [x.kptfile], [x.namespace, x.generated];
    SwapGroups(k, o, x.docs, [], at);
    assert k + o + x.docs + [] == SourceLast(x) && k + x.docs + o + [] == SourceFirst(x);
  }

  lemma MiddleGroups(x: Parts, at: string)
    requires PathsOf([x.namespace]) !! PathsOf([x.generated])
    ensures GroupAt(ReadBack(x, true, false), at) == GroupAt(SourceFirst(x), at)
  {
    var front, n, g := [x.kptfile] + x.docs, [x.namespace], [x.generated];
    SwapGroups(front, n, g, [], at);
    assert front + n + g + [] == SourceFirst(x) && front + g + n + [] == ReadBack(x, true, false);
  }

  lemma EarlyGroups(x: Parts, at: string)
    requires PathsOf([x.kptfile]) !! PathsOf(x.docs)
    ensures GroupAt(ReadBack(x, true, true), at) == GroupAt(ReadBack(x, true, false), at)
  {
    var k, o := [x.kptfile], [x.generated, x.namespace];
    SwapGroups([], k, x.docs, o, at);
    assert [] + k + x.docs + o == ReadBack(x, true, false) && [] + x.docs + k + o == ReadBack(x, true, true);
  }

  lemma EndGroups(x: Parts, at: string)
    requires PathsOf([x.namespace]) !! PathsOf([x.generated])
    ensures GroupAt(ReadBack(x, false, false), at) == GroupAt(SourceLast(x), at)
  {
    var k, n, g := [x.kptfile], [x.namespace], [x.generated];
    SwapGroups(k, n, g, x.docs, at);
    assert k + n + g + x.docs == SourceLast(x) && k + g + n + x.docs == ReadBack(x, false, false);
  }

  lemma SameGroupsAll(x: Parts, source: string, path: string, before: bool, early: bool, at: string)
    requires Normal(source) && source != "namespace" && HasPaths(x, source, path)
    ensures GroupAt(ReadBack(x, before, early), at) == GroupAt(SourceFirst(x), at) == GroupAt(SourceLast(x), at)
  {
    OtherPaths(x, source, path);
    OrderGroups(x, at);
    MiddleGroups(x, at);
    EarlyGroups(x, at);
    EndGroups(x, at);
    assert ReadBack(x, false, early) == ReadBack(x, false, false);
  }

  /** However the map was walked when the package was written, it is read back like this. */
  lemma IsReadBack(x: Parts, source: string, path: string, base: Files, written: seq<Node>)
    requires Normal(source) && source != "namespace" && HasPaths(x, source, path)
    requires AllIncluded(written) && (written == SourceFirst(x) || written == SourceLast(x))
    ensures Read(Overlay(base, written)).Some?
    ensures Map(Cleared, Read(Overlay(base, written)).value)
            == Map(Cleared, ReadBack(x, IsBefore(source), IsEarly(source, path)))
  {
    var sorted := ReadBack(x, IsBefore(source), IsEarly(source, path));
    ReadBackSorted(x, source, path);
    forall at ensures GroupAt(sorted, at) == GroupAt(written, at) {
      SameGroupsAll(x, source, path, IsBefore(source), IsEarly(source, path), at);
    }
    ReadsBackAs(base, written, sorted);
  }

  // ---------- the look-ups ----------

  lemma TakeOnly<T>(x: T, rest: seq<T>, front: seq<T>, back: seq<T>)
    requires x !in front && x !in back
    ensures LookUps([x] + rest, front + [x] + back) == LookUps(rest, front + back)
  {
    var live := front + [x] + back;
    ThinAround(x, front, back);
    BehindNone(x, back);
    RunsOutBehind(x, front, back);
    assert ([x] + rest)[1..] == rest && live[|front|] == x;
    assert back != [] ==> back[|back| - 1] in back;
  }

  lemma TakeFirst<T>(x: T, rest: seq<T>, back: seq<T>)
    requires x !in back
    ensures LookUps([x] + rest, [x] + back) == LookUps(rest, back)
  {
    TakeOnly(x, rest, [], back);
    assert [] + [x] + back == [x] + back && [] + back == back;
  }

  lemma TakeLast<T>(x: T, rest: seq<T>, front: seq<T>)
    requires x !in front
    ensures LookUps([x] + rest, front + [x]) == LookUps(rest, front)
  {
    TakeOnly(x, rest, front, []);
    assert front + [x] + [] == front + [x] && front + [] == front;
  }

  lemma TakeTwin<T>(x: T, rest: seq<T>, back: seq<T>)
    requires x !in back && back != []
    ensures LookUps([x] + rest, [x, x] + back) == LookUps(rest, [x] + back)
  {
    ThinAround(x, [], [x] + back);
    BehindNone(x, [x] + back);
    RunsOutBehind(x, [], [x] + back);
    assert [] + [x] + ([x] + back) == [x, x] + back && [] + ([x] + back) == [x] + back;
    assert ([x] + back)[1..] == back && ([x] + rest)[1..] == rest;
    assert back[|back| - 1] in back;
  }

  lemma RunOut<T>(x: T, rest: seq<T>, front: seq<T>)
    ensures LookUps([x] + rest, front + [x, x]) == Panic
  {
    var live := front + [x, x];
    assert live[|live| - 1] == x && live[..|live| - 1][|front|] == x;
    assert ([x] + rest)[0] == x;
  }

  lemma TwoSwapped<T>(n: T, k: T)
    requires n != k
    ensures LookUps([n, k], [k, n]) == Answer(true)
  {
    TakeLast(n, [k], [k]);
    assert [n] + [k] == [n, k] && [k] + [n] == [k, n];
    TakeFirst(k, [], []);
    assert [k] + [] == [k];
  }

  lemma TwinsThenTwo<T>(d: T, n: T, k: T)
    requires d != k && d != n && n != k
    ensures LookUps([d, d, n, k], [d, d, k, n]) == Answer(true)
  {
    TakeTwin(d, [d, n, k], [k, n]);
    assert [d] + [d, n, k] == [d, d, n, k] && [d, d] + [k, n] == [d, d, k, n];
    TakeFirst(d, [n, k], [k, n]);
    assert [d] + [n, k] == [d, n, k] && [d] + [k, n] == [d, k, n];
    TwoSwapped(n, k);
  }

  lemma TwoThenTwins<T>(d: T, n: T, k: T)
    requires d != k && d != n && n != k
    ensures LookUps([n, k, d, d], [d, d, k, n]) == Panic
  {
    TakeLast(n, [k, d, d], [d, d, k]);
    assert [n] + [k, d, d] == [n, k, d, d] && [d, d, k] + [n] == [d, d, k, n];
    TakeLast(k, [d, d], [d, d]);
    assert [k] + [d, d] == [k, d, d] && [d, d] + [k] == [d, d, k];
    RunOut(d, [d], []);
    assert [d] + [d] == [d, d] && [] + [d, d] == [d, d];
  }

  lemma TwinsBeforeTwo<T>(d: T, n: T, k: T)
    ensures LookUps([d, d, n, k], [k, n, d, d]) == Panic
  {
    RunOut(d, [d, n, k], [k, n]);
    assert [d] + [d, n, k] == [d, d, n, k] && [k, n] + [d, d] == [k, n, d, d];
  }

  lemma TwoBeforeTwins<T>(d: T, n: T, k: T)
    requires d != k && d != n && n != k
    ensures LookUps([n, k, d, d], [k, n, d, d]) == Panic
  {
    TakeOnly(n, [k, d, d], [k], [d, d]);
    assert [n] + [k, d, d] == [n, k, d, d] && [k] + [n] + [d, d] == [k, n, d, d] && [k] + [d, d] == [k, d, d];
    TakeFirst(k, [d, d], [d, d]);
    assert [k] + [d, d] == [k, d, d];
    RunOut(d, [d], []);
    assert [d] + [d] == [d, d] && [] + [d, d] == [d, d];
  }

  /** Something stands between the copies: both go at once. */
  lemma SpacedTwins<T>(d: T, e: T, n: T, g: T)
    requires d != e && d != n && d != g && e != n && e != g && n != g
    ensures LookUps([d, e] + [n, g], [d, e, d] + [g, n]) == Answer(true)
  {
    var live, rest := [d, e, d] + [g, n], [e] + [g, n];
    assert live[1] == e && live[2..] == [d] + [g, n] && rest == [e, g, n];
    ThinMatch(d, live);
    ThinAround(d, [], [g, n]);
    BehindNone(d, [g, n]);
    assert [] + [d] + [g, n] == [d] + [g, n] && [] + [g, n] == [g, n];
    assert Thin(d, live) == rest;
    assert !RunsOut(d, live) && ([d, e] + [n, g])[1..] == [e] + [n, g];
    TakeFirst(e, [n, g], [g, n]);
    TwoSwapped(n, g);
  }

  /** One copy is wanted, two stand last. */
  lemma TwinsLeft<T>(d: T, n: T, g: T)
    requires d != n && d != g && n != g
    ensures LookUps([d] + [n, g], [g, n] + [d, d]) == Panic
    ensures LookUps([n, g] + [d], [g, n] + [d, d]) == Panic
  {
    RunOut(d, [n, g], [g, n]);
    TakeOnly(n, [g] + [d], [g], [d, d]);
    assert [n] + ([g] + [d]) == [n, g] + [d] && [g] + [n] + [d, d] == [g, n] + [d, d] && [g] + [d, d] == [g, d, d];
    TakeFirst(g, [d], [d, d]);
    assert [g] + [d, d] == [g, d, d];
    RunOut(d, [], []);
    assert [d] + [] == [d] && [] + [d, d] == [d, d];
  }

  // ---------- the verdict ----------

  /** None of the documents is one of the generated ones, annotations aside. */
  predicate NotGenerated(tenant: string, docs: seq<Node>) {
    forall i :: 0 <= i < |docs| ==>
      Cleared(docs[i]) !in [Cleared(Kptfile(PackageName(tenant))), Cleared(Namespace(tenant)), Cleared(Kptfile("namespace"))]
  }

  /** What is looked up, the package's Kptfile aside, in the order of the walk. */
  function LookedUp(tenant: string, docs: seq<Node>, sourceFirst: bool): seq<Node> {
    var generated := [Cleared(Namespace(tenant)), Cleared(Kptfile("namespace"))];
    if sourceFirst then Map(Cleared, docs) + generated else generated + Map(Cleared, docs)
  }

  /** And where. */
  function Among(tenant: string, docs: seq<Node>, before: bool): seq<Node> {
    var generated := [Cleared(Kptfile("namespace")), Cleared(Namespace(tenant))];
    if before then Map(Cleared, docs) + generated else generated + Map(Cleared, docs)
  }

  lemma PartTexts(tenant: string, source: string, docs: seq<Node>)
    ensures var x := PartsOf(tenant, source, docs);
            && Map(Cleared, x.docs) == Map(Cleared, docs) && Map(Cleared, [x.kptfile]) == [Cleared(Kptfile(PackageName(tenant)))]
            && Map(Cleared, [x.namespace, x.generated]) == [Cleared(Namespace(tenant)), Cleared(Kptfile("namespace"))]
            && Map(Cleared, [x.generated, x.namespace]) == [Cleared(Kptfile("namespace")), Cleared(Namespace(tenant))]
  {
    RelocatedTexts(source, docs);
  }

  lemma ThreeTexts(a: seq<Node>, b: seq<Node>, c: seq<Node>)
    ensures Map(Cleared, a + b + c) == Map(Cleared, a) + Map(Cleared, b) + Map(Cleared, c)
  {
    MapAppend(Cleared, a + b, c);
    MapAppend(Cleared, a, b);
  }

  lemma BuiltTexts(tenant: string, source: string, docs: seq<Node>, sourceFirst: bool)
    ensures var x := PartsOf(tenant, source, docs);
            Map(Cleared, if sourceFirst then SourceFirst(x) else SourceLast(x))
            == [Cleared(Kptfile(PackageName(tenant)))] + LookedUp(tenant, docs, sourceFirst)
  {
    var x := PartsOf(tenant, source, docs);
    var k, o := [x.kptfile], [x.namespace, x.generated];
    PartTexts(tenant, source, docs);
    ThreeTexts(k, x.docs, o);
    ThreeTexts(k, o, x.docs);
    AppendAssociates(Map(Cleared, k), Map(Cleared, x.docs), Map(Cleared, o));
    AppendAssociates(Map(Cleared, k), Map(Cleared, o), Map(Cleared, x.docs));
  }

  /** The texts read back, around the Kptfile. */
  lemma FoundTexts(tenant: string, source: string, docs: seq<Node>, before: bool, early: bool) returns (front: seq<Node>, back: seq<Node>)
    ensures Map(Cleared, ReadBack(PartsOf(tenant, source, docs), before, early))
            == front + [Cleared(Kptfile(PackageName(tenant)))] + back
    ensures front + back == Among(tenant, docs, before)
  {
    var x := PartsOf(tenant, source, docs);
    var k, o := [x.kptfile], [x.generated, x.namespace];
    PartTexts(tenant, source, docs);
    ThreeTexts(k, o, x.docs);
    ThreeTexts(x.docs, k, o);
    ThreeTexts(k, x.docs, o);
    if before && early {
      front, back := Map(Cleared, x.docs), Map(Cleared, o);
    } else {
      front, back := [], Among(tenant, docs, before);
      assert [] + back == back && [] + Map(Cleared, k) == Map(Cleared, k);
      AppendAssociates(Map(Cleared, k), Map(Cleared, o), Map(Cleared, x.docs));
      AppendAssociates(Map(Cleared, k), Map(Cleared, x.docs), Map(Cleared, o));
    }
  }

  lemma GeneratedTexts(tenant: string)
    ensures Cleared(Kptfile(PackageName(tenant))) != Cleared(Namespace(tenant))
    ensures Cleared(Kptfile(PackageName(tenant))) != Cleared(Kptfile("namespace"))
    ensures Cleared(Namespace(tenant)) != Cleared(Kptfile("namespace"))
  {
    GeneratedDiffer(tenant);
    var all := [Kptfile(PackageName(tenant))] + Generated(tenant) + [];
    var texts := Map(Cleared, all);
    assert texts[0] == Cleared(all[0]) && texts[1] == Cleared(all[1]) && texts[2] == Cleared(all[2]);
  }

  lemma KptfileApart(tenant: string, docs: seq<Node>, before: bool)
    requires NotGenerated(tenant, docs)
    ensures Cleared(Kptfile(PackageName(tenant))) !in Among(tenant, docs, before)
  {
    GeneratedTexts(tenant);
    var texts := Map(Cleared, docs);
    forall i | 0 <= i < |texts| ensures texts[i] != Cleared(Kptfile(PackageName(tenant))) { assert texts[i] == Cleared(docs[i]); }
  }

  /** What the comparison says of a tenant's package, when its source is one file: for any documents that
      were written and any that are wanted now. It is a look-up without the package's Kptfile, in the
      order of the walk when the source was built, and in the order of the names when it was written. */
  lemma FileVerdict(tenant: string, source: string, was: seq<Node>, docs: seq<Node>, path: string, base: Files,
                    written: seq<string>, built: seq<string>)
    requires Normal(source) && source != "namespace" && OneFile(was, path) && NotGenerated(tenant, was)
    requires IsWalk(tenant, source, was, written) && IsWalk(tenant, source, docs, built)
    ensures CompareWith(TenantMerged(tenant, source, docs, built), Overlay(base, TenantMerged(tenant, source, was, written)))
            == Some(LookUps(LookedUp(tenant, docs, built == [source, "namespace"]), Among(tenant, was, IsBefore(source))))
  {
    var x := PartsOf(tenant, source, was);
    var files := Overlay(base, TenantMerged(tenant, source, was, written));
    WalksOfTwo(tenant, source, was, written);
    WalksOfTwo(tenant, source, docs, built);
    PartPaths(tenant, source, was, path);
    OneFileIncluded(tenant, source, was, path, written);
    IsReadBack(x, source, path, base, TenantMerged(tenant, source, was, written));
    var front, back := FoundTexts(tenant, source, was, IsBefore(source), IsEarly(source, path));
    KptfileApart(tenant, was, IsBefore(source));
    BuiltTexts(tenant, source, docs, built == [source, "namespace"]);
    TakeOnly(Cleared(x.kptfile), LookedUp(tenant, docs, built == [source, "namespace"]), front, back);
    IsEqualIsLookUps(Map(Cleared, TenantMerged(tenant, source, docs, built)), Map(Cleared, Read(files).value));
  }

  lemma WalksOfTwo(tenant: string, source: string, docs: seq<Node>, order: seq<string>)
    requires source != "namespace" && IsWalk(tenant, source, docs, order)
    ensures var x := PartsOf(tenant, source, docs);
            TenantMerged(tenant, source, docs, order) == if order == [source, "namespace"] then SourceFirst(x) else SourceLast(x)
  {
    assert TenantSubpackages(tenant, source, docs).Keys == {source, "namespace"};
    OrdersOfTwo(order, source, "namespace");
    MergedParts(tenant, source, docs);
  }

  lemma OneFileIncluded(tenant: string, source: string, docs: seq<Node>, path: string, order: seq<string>)
    requires OneFile(docs, path)
    ensures AllIncluded(TenantMerged(tenant, source, docs, order))
  {
    TenantIncluded(tenant, source, docs, order);
  }

  // ---------- one document twice ----------

  /** A source of one file, none of whose documents is a generated one. */
  ghost predicate IsFileSource(tenant: string, source: string, docs: seq<Node>, path: string) {
    Normal(source) && source != "namespace" && OneFile(docs, path) && NotGenerated(tenant, docs)
  }

  lemma ApartFromGenerated(tenant: string, docs: seq<Node>, i: nat)
    requires NotGenerated(tenant, docs) && i < |docs|
    ensures Cleared(docs[i]) != Cleared(Namespace(tenant)) && Cleared(docs[i]) != Cleared(Kptfile("namespace"))
    ensures Cleared(Namespace(tenant)) != Cleared(Kptfile("namespace"))
  {
    GeneratedTexts(tenant);
  }

  /** The document stands twice, one copy right behind the other: the comparison with the package once
      written says yes when the source comes before `namespace` and Go happens to walk it first. In all
      other cases it panics, and that run is over. */
  lemma TwinSourceVerdict(tenant: string, source: string, d: Node, path: string, base: Files, written: seq<string>, built: seq<string>)
    requires IsFileSource(tenant, source, [d, d], path)
    requires IsWalk(tenant, source, [d, d], written) && IsWalk(tenant, source, [d, d], built)
    ensures CompareWith(TenantMerged(tenant, source, [d, d], built), Overlay(base, TenantMerged(tenant, source, [d, d], written)))
            == Some(if built == [source, "namespace"] && IsBefore(source) then Answer(true) else Panic)
  {
    var t, n, g := Cleared(d), Cleared(Namespace(tenant)), Cleared(Kptfile("namespace"));
    ApartFromGenerated(tenant, [d, d], 0);
    FileVerdict(tenant, source, [d, d], [d, d], path, base, written, built);
    assert Map(Cleared, [d, d]) == [t, t];
    TwinLookUps(t, n, g, built == [source, "namespace"], IsBefore(source));
  }

  lemma TwinLookUps<T>(t: T, n: T, g: T, first: bool, before: bool)
    requires t != n && t != g && n != g
    ensures LookUps(if first then [t, t] + [n, g] else [n, g] + [t, t], if before then [t, t] + [g, n] else [g, n] + [t, t])
            == if first && before then Answer(true) else Panic
  {
    assert [t, t] + [n, g] == [t, t, n, g] && [n, g] + [t, t] == [n, g, t, t];
    assert [t, t] + [g, n] == [t, t, g, n] && [g, n] + [t, t] == [g, n, t, t];
    if first {
      if before { TwinsThenTwo(t, n, g); } else { TwinsBeforeTwo(t, n, g); }
    } else {
      if before { TwoThenTwins(t, n, g); } else { TwoBeforeTwins(t, n, g); }
    }
  }

  /** So a fault-free run over that package, once published, is at its report in that one case, and
      over without a report in all others: a tenant whose source is named `app` may settle, run by run
      as Go walks the map, and one whose source is named `src` never does. */
  lemma TwinSourceRun(tenant: string, source: string, d: Node, path: string, base: Files, written: seq<string>, built: seq<string>, s: State, evs: seq<Event>)
    requires IsFileSource(tenant, source, [d, d], path)
    requires IsWalk(tenant, source, [d, d], written) && IsWalk(tenant, source, [d, d], built)
    requires Ready(PackageName(tenant), s)
    requires TopHolds(s.store, Overlay(base, TenantMerged(tenant, source, [d, d], written)))
    requires TrustedRun(PackageName(tenant), s, evs) && FaultFree(evs) && |evs| == 6
    requires evs[2].call == BuildPackage(TenantMerged(tenant, source, [d, d], built))
    ensures Run(PackageName(tenant), s, evs).Some? && Run(PackageName(tenant), s, evs).value.store == s.store
    ensures var pc := Run(PackageName(tenant), s, evs).value.pc;
            if built == [source, "namespace"] && IsBefore(source) then IsReporting(pc) else pc == Idle
  {
    var files := Overlay(base, TenantMerged(tenant, source, [d, d], written));
    LooksDecide(PackageName(tenant), s, evs, files);
    TwinSourceVerdict(tenant, source, d, path, base, written, built);
    DecidedBy(Run(PackageName(tenant), s, evs).value.pc, TenantMerged(tenant, source, [d, d], built), files);
  }

  lemma DecidedBy(pc: PC, want: seq<Node>, files: Files)
    requires Decided(pc, want, files)
    ensures CompareWith(want, files) == Some(Answer(true)) ==> IsReporting(pc)
    ensures CompareWith(want, files) == Some(Panic) ==> pc == Idle
  {
    GoesIff(pc, CompareWith(want, files));
  }

  /** All packages built are the tenant's, from these documents. */
  ghost predicate AllBuilt(evs: seq<Event>, tenant: string, source: string, docs: seq<Node>) {
    forall i :: 0 <= i < |evs| && evs[i].answer != Failed && evs[i].call.BuildPackage? ==>
      IsTenantPackage(tenant, source, docs, evs[i].call.desired)
  }

  /** When the comparison panics for every package that these documents make, no sequence of runs ever
      reports or writes. */
  lemma PanicsForever(tenant: string, source: string, docs: seq<Node>, files: Files, s: State, evs: seq<Event>)
    requires forall want :: IsTenantPackage(tenant, source, docs, want) ==> Gets(want, files, Panic)
    requires Inv(PackageName(tenant), s) && s.pc == Idle && s.tenant == Present(false, true) && TopHolds(s.store, files)
    requires TrustedRun(PackageName(tenant), s, evs) && NoUserCalls(evs) && AllBuilt(evs, tenant, source, docs)
    ensures Run(PackageName(tenant), s, evs).Some? && Run(PackageName(tenant), s, evs).value.store == s.store
    ensures !IsReporting(Run(PackageName(tenant), s, evs).value.pc)
  {
    AllPanic(tenant, source, docs, files, evs);
    RestsIdle(PackageName(tenant), s, files, Panic);
    PanicNeverReports(PackageName(tenant), s, evs, files);
  }

  lemma PanicNeverReports(p: string, s: State, evs: seq<Event>, files: Files)
    requires Resting(p, s, files, Panic) && TrustedRun(p, s, evs) && NoUserCalls(evs) && AllGet(evs, files, Panic)
    ensures Run(p, s, evs).Some? && Run(p, s, evs).value.store == s.store && !IsReporting(Run(p, s, evs).value.pc)
  {
    RestingForever(p, s, evs, files, Panic);
  }

  lemma AllPanic(tenant: string, source: string, docs: seq<Node>, files: Files, evs: seq<Event>)
    requires forall want :: IsTenantPackage(tenant, source, docs, want) ==> Gets(want, files, Panic)
    requires AllBuilt(evs, tenant, source, docs)
    ensures AllGet(evs, files, Panic)
  {
  }

  lemma LateTwinsPanic(tenant: string, source: string, d: Node, path: string, base: Files, written: seq<string>, want: seq<Node>)
    requires IsFileSource(tenant, source, [d, d], path) && !IsBefore(source) && IsWalk(tenant, source, [d, d], written)
    requires IsTenantPackage(tenant, source, [d, d], want)
    ensures Gets(want, Overlay(base, TenantMerged(tenant, source, [d, d], written)), Panic)
  {
    var built :| IsWalk(tenant, source, [d, d], built) && want == TenantMerged(tenant, source, [d, d], built);
    TwinSourceVerdict(tenant, source, d, path, base, written, built);
  }

  /** A source named after `namespace` with twins is never settled: once its package is published, no
      sequence of runs, faulty or not, writes to the store or is ever at its report. */
  lemma LateTwinSourceNeverReports(tenant: string, source: string, d: Node, path: string, base: Files, written: seq<string>, s: State, evs: seq<Event>)
    requires IsFileSource(tenant, source, [d, d], path) && !IsBefore(source) && IsWalk(tenant, source, [d, d], written)
    requires Inv(PackageName(tenant), s) && s.pc == Idle && s.tenant == Present(false, true)
    requires TopHolds(s.store, Overlay(base, TenantMerged(tenant, source, [d, d], written)))
    requires TrustedRun(PackageName(tenant), s, evs) && NoUserCalls(evs) && AllBuilt(evs, tenant, source, [d, d])
    ensures Run(PackageName(tenant), s, evs).Some? && Run(PackageName(tenant), s, evs).value.store == s.store
    ensures !IsReporting(Run(PackageName(tenant), s, evs).value.pc)
  {
    var files := Overlay(base, TenantMerged(tenant, source, [d, d], written));
    forall want | IsTenantPackage(tenant, source, [d, d], want) ensures Gets(want, files, Panic) {
      LateTwinsPanic(tenant, source, d, path, base, written, want);
    }
    PanicsForever(tenant, source, [d, d], files, s, evs);
  }

  // ---------- a source that was repaired ----------

  lemma RepairedPanics(tenant: string, source: string, d: Node, path: string, base: Files, written: seq<string>, want: seq<Node>)
    requires IsFileSource(tenant, source, [d, d], path) && !IsBefore(source) && IsWalk(tenant, source, [d, d], written)
    requires IsTenantPackage(tenant, source, [d], want)
    ensures Gets(want, Overlay(base, TenantMerged(tenant, source, [d, d], written)), Panic)
  {
    var built :| IsWalk(tenant, source, [d], built) && want == TenantMerged(tenant, source, [d], built);
    var t := Cleared(d);
    ApartFromGenerated(tenant, [d, d], 0);
    FileVerdict(tenant, source, [d, d], [d], path, base, written, built);
    assert Map(Cleared, [d]) == [t] && Map(Cleared, [d, d]) == [t, t];
    TwinsLeft(t, Cleared(Namespace(tenant)), Cleared(Kptfile("namespace")));
  }

  /** Repairing such a source does not help: with the twins published, the comparison with the package
      of the repaired source panics as well, so no run ever reports or writes again. */
  lemma RepairedSourceNeverReports(tenant: string, source: string, d: Node, path: string, base: Files, written: seq<string>, s: State, evs: seq<Event>)
    requires IsFileSource(tenant, source, [d, d], path) && !IsBefore(source) && IsWalk(tenant, source, [d, d], written)
    requires Inv(PackageName(tenant), s) && s.pc == Idle && s.tenant == Present(false, true)
    requires TopHolds(s.store, Overlay(base, TenantMerged(tenant, source, [d, d], written)))
    requires TrustedRun(PackageName(tenant), s, evs) && NoUserCalls(evs) && AllBuilt(evs, tenant, source, [d])
    ensures Run(PackageName(tenant), s, evs).Some? && Run(PackageName(tenant), s, evs).value.store == s.store
    ensures !IsReporting(Run(PackageName(tenant), s, evs).value.pc)
  {
    var files := Overlay(base, TenantMerged(tenant, source, [d, d], written));
    forall want | IsTenantPackage(tenant, source, [d], want) ensures Gets(want, files, Panic) {
      RepairedPanics(tenant, source, d, path, base, written, want);
    }
    PanicsForever(tenant, source, [d], files, s, evs);
  }

  /** Two copies with another document between them, and a source before `namespace`: walked first, the
      repaired source is taken for the one published. */
  lemma HiddenTwinVerdict(tenant: string, source: string, d: Node, e: Node, path: string, base: Files, written: seq<string>)
    requires IsFileSource(tenant, source, [d, e, d], path) && IsBefore(source) && Cleared(d) != Cleared(e)
    requires IsWalk(tenant, source, [d, e, d], written)
    ensures IsWalk(tenant, source, [d, e], [source, "namespace"])
    ensures var want := TenantMerged(tenant, source, [d, e], [source, "namespace"]);
            var files := Overlay(base, TenantMerged(tenant, source, [d, e, d], written));
            Accepts(want, files) && !SameDocuments(want, files)
  {
    var t, u, n, g := Cleared(d), Cleared(e), Cleared(Namespace(tenant)), Cleared(Kptfile("namespace"));
    var want := TenantMerged(tenant, source, [d, e], [source, "namespace"]);
    ApartFromGenerated(tenant, [d, e, d], 0);
    ApartFromGenerated(tenant, [d, e, d], 1);
    FirstWalk(tenant, source, [d, e]);
    FileVerdict(tenant, source, [d, e, d], [d, e], path, base, written, [source, "namespace"]);
    ThreeInARow(d, e);
    SpacedTwins(t, u, n, g);
    OneFileIncluded(tenant, source, [d, e, d], path, written);
    FewerDocuments(tenant, source, [d, e], [d, e, d], [source, "namespace"], written, base);
  }

  lemma ThreeInARow(d: Node, e: Node)
    ensures Map(Cleared, [d, e]) == [Cleared(d), Cleared(e)] && Map(Cleared, [d, e, d]) == [Cleared(d), Cleared(e), Cleared(d)]
  {
  }

  lemma FirstWalk(tenant: string, source: string, docs: seq<Node>)
    requires source != "namespace"
    ensures IsWalk(tenant, source, docs, [source, "namespace"])
  {
    assert Elements([source, "namespace"]) == {source, "namespace"};
  }

  /** A package with fewer documents holds other documents. */
  lemma FewerDocuments(tenant: string, source: string, docs: seq<Node>, was: seq<Node>, built: seq<string>, written: seq<string>, base: Files)
    requires source != "namespace" && |docs| != |was|
    requires IsWalk(tenant, source, docs, built) && IsWalk(tenant, source, was, written)
    requires AllIncluded(TenantMerged(tenant, source, was, written))
    ensures !SameDocuments(TenantMerged(tenant, source, docs, built), Overlay(base, TenantMerged(tenant, source, was, written)))
  {
    var want, before := TenantMerged(tenant, source, docs, built), TenantMerged(tenant, source, was, written);
    WrittenDocumentsReadBack(base, before);
    TenantDocuments(tenant, source, docs, built);
    TenantDocuments(tenant, source, was, written);
    assert |want| == |multiset(want)| == 3 + |docs| && |before| == |multiset(before)| == 3 + |was|;
    assert |multiset(Map(Cleared, want))| == |want| && |multiset(Map(Cleared, before))| == |before|;
  }

  lemma BuildsWell(evs: seq<Event>, i: nat, want: seq<Node>)
    requires FaultFree(evs) && AllAdmissible(evs) && i < |evs| && evs[i].call == BuildPackage(want)
    ensures Wanted(want)
  {
    assert evs[i].answer == Done && AdmissibleEvent(evs[i]);
  }

  /** So a tenant can be Available for a source that was repaired while its package keeps the document
      that was to go: a fault-free run that walks the source first is at its report, not converged. */
  lemma HiddenTwinStays(tenant: string, source: string, d: Node, e: Node, path: string, base: Files, written: seq<string>, s: State, evs: seq<Event>)
    returns (k: nat, s': State)
    requires IsFileSource(tenant, source, [d, e, d], path) && IsBefore(source) && Cleared(d) != Cleared(e)
    requires IsWalk(tenant, source, [d, e, d], written)
    requires Ready(PackageName(tenant), s)
    requires TopIs(s.store, Overlay(base, TenantMerged(tenant, source, [d, e, d], written)))
    requires AimedRun(PackageName(tenant), s, evs, TenantMerged(tenant, source, [d, e], [source, "namespace"]))
    requires FaultFree(evs) && |evs| >= 14
    requires evs[2].call == BuildPackage(TenantMerged(tenant, source, [d, e], [source, "namespace"]))
    ensures k <= 13 && EndsAfter(PackageName(tenant), s, evs, k, s') && IsReporting(s'.pc)
    ensures !Converged(s'.store, TenantMerged(tenant, source, [d, e], [source, "namespace"]))
    ensures TopIs(s'.store, Overlay(base, TenantMerged(tenant, source, [d, e, d], written)))
  {
    var want := TenantMerged(tenant, source, [d, e], [source, "namespace"]);
    var files := Overlay(base, TenantMerged(tenant, source, [d, e, d], written));
    HiddenTwinVerdict(tenant, source, d, e, path, base, written);
    BuildsWell(evs, 2, want);
    k, s' := RunConvergesIff(PackageName(tenant), s, evs, want, files);
  }
}
