/** Reading a package's files into an ordered list of documents, and writing a list of documents over
    a package's files (pkg/pkgutil/pkgutil.go). */
module PkgUtil {
  import opened Options
  import opened Strings
  import opened Numerals
  import opened Paths
  import opened Documents

  // ---------- reading ----------

  /** What the reader of one file yields: path and position are recorded as annotations. */
  function Annotate(path: string, docs: seq<Node>, from: nat): (r: seq<Node>)
    ensures |r| == |docs|
  {
    if docs == [] then []
    else [docs[0].(annotations := docs[0].annotations[PATH := path][INDEX := Itoa(from)])]
         + Annotate(path, docs[1..], from + 1)
  }

  /** The readers of the given files, in order; one that cannot parse fails them all. */
  function ReadKeys(files: Files, keys: seq<string>): Option<seq<Node>>
  {
    if keys == [] then Some([])
    else
      match (Parse(At(files, keys[0])), ReadKeys(files, keys[1..]))
      case (Some(docs), Some(rest)) => Some(Annotate(keys[0], docs, 0) + rest)
      case _ => None
  }

  predicate ParsesAll(files: Files, keys: seq<string>) {
    forall k :: k in keys ==> Parse(At(files, k)).Some?
  }

  /** Every document goes to a file that holds KRM documents. */
  predicate AllIncluded(nodes: seq<Node>) {
    forall n :: n in nodes ==> IncludeFile(GetPath(n))
  }

  /** The files that hold KRM documents. */
  function Contents(files: Files): set<string> {
    set k | k in files && IncludeFile(k)
  }

  ghost predicate ListingOf(keys: seq<string>, s: set<string>) {
    NoDuplicates(keys) && Elements(keys) == s
  }

  lemma {:induction false} ListingExists(s: set<string>) returns (keys: seq<string>)
    ensures ListingOf(keys, s)
  {
    if s == {} {
      keys := [];
    } else {
      var k :| k in s;
      var rest := ListingExists(s - {k});
      keys := [k] + rest;
      assert k in rest <==> k in Elements(rest);
      assert Elements(keys) == {k} + Elements(rest);
    }
  }

  lemma SortedListingExists(s: set<string>)
    ensures exists keys :: ListingOf(keys, s) && Sorted(keys)
  {
    var keys := ListingExists(s);
    SortKeeps(keys);
    assert ListingOf(Sort(keys), s);
  }

  /** The one sorted listing of a set of keys. */
  ghost function SortedKeys(s: set<string>): (keys: seq<string>)
    ensures ListingOf(keys, s) && Sorted(keys)
  {
    SortedListingExists(s);
    var keys :| ListingOf(keys, s) && Sorted(keys);
    keys
  }

  lemma SortedKeysMembers(s: set<string>)
    ensures forall k :: k in SortedKeys(s) <==> k in s
  {
    forall k ensures k in SortedKeys(s) <==> k in s {
      assert k in SortedKeys(s) <==> k in Elements(SortedKeys(s));
    }
  }

  /** What `ResourcesToPackageBuffer` returns, with no order of the Go map left in it. */
  ghost function Read(files: Files): Option<seq<Node>> {
    ReadKeys(files, SortedKeys(Contents(files)))
  }

  /** `ResourcesToPackageBuffer`. */
  method ResourcesToPackageBuffer(resources: Files) returns (pb: Option<seq<Node>>)
    ensures pb == Read(resources)
  {
    var keys := CollectKeys(resources);
    pb := ParseFiles(resources, keys);
  }

  lemma ElementsGrow<T>(s: seq<T>, x: T)
    ensures Elements(s + [x]) == Elements(s) + {x}
    ensures NoDuplicates(s) && x !in Elements(s) ==> NoDuplicates(s + [x])
  {
  }

  /** The first loop of `ResourcesToPackageBuffer`, which walks the Go map in any order. */
  method CollectKeys(resources: Files) returns (keys: seq<string>)
    ensures keys == SortedKeys(Contents(resources))
  {
    keys := [];
    var todo := resources.Keys;
    while todo != {}
      invariant todo <= resources.Keys
      invariant NoDuplicates(keys)
      invariant Elements(keys) == ContentKeys(resources.Keys - todo)
      decreases todo
    {
      var k :| k in todo;
      assert resources.Keys - (todo - {k}) == resources.Keys - todo + {k};
      ContentKeysGrow(resources.Keys - todo, k);
      ElementsGrow(keys, k);
      todo := todo - {k};
      if !IncludeFile(k) {
        continue;
      }
      keys := keys + [k];
    }
    assert ContentKeys(resources.Keys - todo) == Contents(resources);
    SortKeeps(keys);
    keys := Sort(keys);
    SortedUnique(keys, SortedKeys(Contents(resources)));
  }

  function ContentKeys(keys: set<string>): set<string> {
    set k | k in keys && IncludeFile(k)
  }

  lemma ContentKeysGrow(keys: set<string>, k: string)
    ensures ContentKeys(keys + {k}) == if IncludeFile(k) then ContentKeys(keys) + {k} else ContentKeys(keys)
  {
  }

  /** The second loop of `ResourcesToPackageBuffer`. */
  method ParseFiles(resources: Files, keys: seq<string>) returns (pb: Option<seq<Node>>)
    ensures pb == ReadKeys(resources, keys)
  {
    var nodes := [];
    var i := 0;
    assert keys[0..] == keys;
    PrependedNothing(ReadKeys(resources, keys));
    while i < |keys|
      invariant 0 <= i <= |keys|
      invariant ReadKeys(resources, keys) == Prepended(nodes, ReadKeys(resources, keys[i..]))
    {
      assert keys[i..][0] == keys[i] && keys[i..][1..] == keys[i + 1..];
      match Parse(At(resources, keys[i])) {
        case None => return None;
        case Some(docs) =>
          PrependedTwice(nodes, Annotate(keys[i], docs, 0), ReadKeys(resources, keys[i + 1..]));
          nodes := nodes + Annotate(keys[i], docs, 0);
      }
      i := i + 1;
    }
    assert ReadKeys(resources, keys[i..]) == Some([]) && nodes + [] == nodes;
    return Some(nodes);
  }

  function Prepended(nodes: seq<Node>, rest: Option<seq<Node>>): Option<seq<Node>> {
    match rest
    case Some(more) => Some(nodes + more)
    case None => None
  }

  lemma PrependedNothing(rest: Option<seq<Node>>)
    ensures Prepended([], rest) == rest
  {
    if rest.Some? { assert [] + rest.value == rest.value; }
  }

  lemma PrependedTwice(a: seq<Node>, b: seq<Node>, rest: Option<seq<Node>>)
    ensures Prepended(a, Prepended(b, rest)) == Prepended(a + b, rest)
  {
    if rest.Some? { assert a + (b + rest.value) == a + b + rest.value; }
  }

  // ---------- writing ----------

  function PathsOf(nodes: seq<Node>): set<string> {
    set n | n in nodes :: GetPath(n)
  }

  /** The documents that go to one file, in list order. */
  function GroupAt(nodes: seq<Node>, path: string): seq<Node> {
    if nodes == [] then []
    else (if GetPath(nodes[0]) == path then [nodes[0]] else []) + GroupAt(nodes[1..], path)
  }

  /** The text written for one file. */
  function Rendered(group: seq<Node>): Text {
    Printed(Map(Stripped, group))
  }

  /** `resourceWriter.Write`: every path of the nodes gets the nodes of that path, the rest stays. */
  function WrittenOver(base: Files, nodes: seq<Node>): Files {
    map k | k in base.Keys + PathsOf(nodes) ::
      if k in PathsOf(nodes) then Rendered(GroupAt(nodes, k)) else base[k]
  }

  /** The files that are not KRM documents. */
  function Kept(files: Files): Files {
    map k | k in files && !IncludeFile(k) :: files[k]
  }

  /** What `CreateUpdatedResource` returns. */
  function Overlay(orig: Files, nodes: seq<Node>): Files {
    WrittenOver(Kept(orig), nodes)
  }

  class ResourceWriter {
    var resources: Files

    constructor (resources: Files)
      ensures this.resources == resources
    {
      this.resources := resources;
    }

    /** The nodes are grouped by path, then each group is printed into a buffer that is reused; the
        second loop walks the Go map of groups in any order. */
    method Write(nodes: seq<Node>)
      modifies this
      ensures resources == WrittenOver(old(resources), nodes)
    {
      var paths: map<string, seq<Node>> := map[];
      var i := 0;
      while i < |nodes|
        invariant 0 <= i <= |nodes|
        invariant resources == old(resources)
        invariant Grouped(paths, nodes[..i])
      {
        var path := GetPath(nodes[i]);
        assert nodes[..i + 1] == nodes[..i] + [nodes[i]];
        GroupedGrows(paths, nodes[..i], nodes[i]);
        paths := paths[path := (if path in paths then paths[path] else []) + [nodes[i]]];
        i := i + 1;
      }
      assert nodes[..|nodes|] == nodes;

      var buf: seq<Node> := [];
      var todo := paths.Keys;
      assert resources == WrittenPart(resources, paths, paths.Keys - todo);
      while todo != {}
        invariant todo <= paths.Keys && buf == []
        invariant resources == WrittenPart(old(resources), paths, paths.Keys - todo)
        decreases todo
      {
        var path :| path in todo;
        assert paths.Keys - (todo - {path}) == paths.Keys - todo + {path};
        WrittenPartGrows(old(resources), paths, paths.Keys - todo, path);
        todo := todo - {path};
        buf := buf + Map(Stripped, paths[path]);
        assert buf == Map(Stripped, paths[path]);
        resources := resources[path := Printed(buf)];
        buf := [];
      }
      assert paths.Keys - todo == paths.Keys;
      GroupedWritten(old(resources), paths, nodes);
    }
  }

  /** The groups collected from the nodes seen so far. */
  ghost predicate Grouped(paths: map<string, seq<Node>>, nodes: seq<Node>) {
    paths.Keys == PathsOf(nodes) && forall p :: p in paths ==> paths[p] == GroupAt(nodes, p)
  }

  lemma GroupedGrows(paths: map<string, seq<Node>>, nodes: seq<Node>, n: Node)
    requires Grouped(paths, nodes)
    ensures Grouped(paths[GetPath(n) := (if GetPath(n) in paths then paths[GetPath(n)] else []) + [n]], nodes + [n])
  {
    GroupsGrow(nodes, n);
  }

  /** The files once the groups in `written` have been printed. */
  function WrittenPart(base: Files, paths: map<string, seq<Node>>, written: set<string>): Files
    requires written <= paths.Keys
  {
    map k | k in base.Keys + written :: if k in written then Rendered(paths[k]) else base[k]
  }

  lemma WrittenPartGrows(base: Files, paths: map<string, seq<Node>>, written: set<string>, path: string)
    requires written <= paths.Keys && path in paths
    ensures WrittenPart(base, paths, written)[path := Rendered(paths[path])]
            == WrittenPart(base, paths, written + {path})
  {
  }

  lemma GroupedWritten(base: Files, paths: map<string, seq<Node>>, nodes: seq<Node>)
    requires Grouped(paths, nodes)
    ensures WrittenPart(base, paths, paths.Keys) == WrittenOver(base, nodes)
  {
  }

  /** The part of the kept files that is among the keys seen. */
  function KeptPart(files: Files, seen: set<string>): Files {
    map k | k in seen && k in files && !IncludeFile(k) :: files[k]
  }

  lemma KeptPartGrows(files: Files, seen: set<string>, k: string)
    requires k in files
    ensures KeptPart(files, seen + {k})
            == if IncludeFile(k) then KeptPart(files, seen) else KeptPart(files, seen)[k := files[k]]
  {
  }

  /** `CreateUpdatedResource`. */
  method CreateUpdatedResource(origResources: Files, nodes: seq<Node>) returns (newResources: Files)
    ensures newResources == Overlay(origResources, nodes)
  {
    var copied := CopyKept(origResources);
    var rw := new ResourceWriter(copied);
    rw.Write(nodes);
    return rw.resources;
  }

  /** The first loop of `CreateUpdatedResource`. */
  method CopyKept(origResources: Files) returns (copied: Files)
    ensures copied == Kept(origResources)
  {
    copied := map[];
    var todo := origResources.Keys;
    while todo != {}
      invariant todo <= origResources.Keys
      invariant copied == KeptPart(origResources, origResources.Keys - todo)
      decreases todo
    {
      var k :| k in todo;
      KeptPartGrows(origResources, origResources.Keys - todo, k);
      assert origResources.Keys - (todo - {k}) == origResources.Keys - todo + {k};
      todo := todo - {k};
      if !IncludeFile(k) {
        copied := copied[k := origResources[k]];
      }
    }
    assert KeptPart(origResources, origResources.Keys - todo) == Kept(origResources);
  }

  // ---------- files that hold no KRM documents ----------

  lemma {:induction false} ReadKeysSame(files: Files, files': Files, keys: seq<string>)
    requires forall k :: k in keys ==> At(files, k) == At(files', k)
    ensures ReadKeys(files, keys) == ReadKeys(files', keys)
  {
    if keys != [] {
      assert keys[0] in keys;
      assert forall k :: k in keys[1..] ==> k in keys;
      ReadKeysSame(files, files', keys[1..]);
    }
  }

  /** A file that holds no KRM documents is not read. */
  lemma OtherFilesUnread(files: Files, path: string, t: Text)
    requires !IncludeFile(path)
    ensures Read(files[path := t]) == Read(files)
  {
    assert Contents(files[path := t]) == Contents(files);
    SortedKeysMembers(Contents(files));
    ReadKeysSame(files[path := t], files, SortedKeys(Contents(files)));
  }

  /** Nor is it changed, unless a document is written to it. */
  lemma OtherFilesKept(files: Files, path: string, t: Text, nodes: seq<Node>)
    requires !IncludeFile(path)
    ensures Overlay(files[path := t], nodes)
            == if path in PathsOf(nodes) then Overlay(files, nodes) else Overlay(files, nodes)[path := t]
  {
  }

  /** A KRM file must parse to be read, and its old text is never kept. */
  lemma ContentsMatter(files: Files, path: string, raw: string, t: Text, nodes: seq<Node>)
    requires IncludeFile(path)
    ensures Read(files[path := Malformed(raw)]) == None
    ensures Overlay(files[path := t], nodes) == Overlay(files, nodes)
    ensures path in Overlay(files, nodes) <==> path in PathsOf(nodes)
  {
    var broken := files[path := Malformed(raw)];
    ReadSucceedsIff(broken);
    assert path in broken && Parse(broken[path]) == None;
    assert Kept(files[path := t]) == Kept(files);
  }

  /** What stands behind the last dot of a file's name decides what becomes of it. With `yaml`, `yml` or
      `json` it must parse, and a write replaces it. With anything else a broken text is no harm: it is
      not parsed, and kept as it is unless a document is written to that very file. */
  lemma ExtensionDecides(files: Files, stem: string, ext: string, raw: string, nodes: seq<Node>)
    requires '.' !in ext && '/' !in ext
    ensures var path := stem + "." + ext;
            var broken := files[path := Malformed(raw)];
            if ext == "yaml" || ext == "yml" || ext == "json" then
              Read(broken) == None && Overlay(broken, nodes) == Overlay(files, nodes)
            else
              && Read(broken) == Read(files)
              && (path !in PathsOf(nodes) ==> Overlay(broken, nodes) == Overlay(files, nodes)[path := Malformed(raw)])
  {
    var path := stem + "." + ext;
    IncludedByExtension(stem, ext);
    if IncludeFile(path) {
      ContentsMatter(files, path, raw, Malformed(raw), nodes);
    } else {
      OtherFilesUnread(files, path, Malformed(raw));
      OtherFilesKept(files, path, Malformed(raw), nodes);
    }
  }

  /** Where one document goes: to the file its path annotation names, or to one named after it. */
  lemma WrittenAlone(orig: Files, n: Node)
    ensures var path := if PATH in n.annotations then n.annotations[PATH]
                        else if n.name != "" then n.name + ".yaml" else "unnamed.yaml";
            Overlay(orig, [n]) == Kept(orig)[path := Printed([Stripped(n)])]
  {
    GroupOfOnePath([n], GetPath(n), GetPath(n));
    assert PathsOf([n]) == {GetPath(n)};
    assert Map(Stripped, [n]) == [Stripped(n)];
  }

  // ---------- groups ----------

  lemma {:induction false} GroupAppend(a: seq<Node>, b: seq<Node>, path: string)
    ensures GroupAt(a + b, path) == GroupAt(a, path) + GroupAt(b, path)
  {
    if a == [] {
      assert a + b == b;
    } else {
      assert (a + b)[1..] == a[1..] + b;
      GroupAppend(a[1..], b, path);
      var head := if GetPath(a[0]) == path then [a[0]] else [];
      assert head + (GroupAt(a[1..], path) + GroupAt(b, path)) == head + GroupAt(a[1..], path) + GroupAt(b, path);
    }
  }

  lemma {:induction false} GroupMembers(nodes: seq<Node>, path: string)
    ensures GroupAt(nodes, path) != [] <==> path in PathsOf(nodes)
    ensures forall n :: n in GroupAt(nodes, path) <==> n in nodes && GetPath(n) == path
  {
    if nodes != [] {
      GroupMembers(nodes[1..], path);
      assert forall n :: n in nodes <==> n == nodes[0] || n in nodes[1..];
      assert PathsOf(nodes) == {GetPath(nodes[0])} + PathsOf(nodes[1..]);
    }
  }

  lemma GroupsGrow(nodes: seq<Node>, n: Node)
    ensures PathsOf(nodes + [n]) == PathsOf(nodes) + {GetPath(n)}
    ensures forall p :: GroupAt(nodes + [n], p) == GroupAt(nodes, p) + (if p == GetPath(n) then [n] else [])
    ensures GetPath(n) !in PathsOf(nodes) ==> GroupAt(nodes, GetPath(n)) == []
  {
    forall p ensures GroupAt(nodes + [n], p) == GroupAt(nodes, p) + (if p == GetPath(n) then [n] else []) {
      GroupAppend(nodes, [n], p);
    }
    GroupMembers(nodes, GetPath(n));
  }

  /** Documents all of one path are one group. */
  lemma {:induction false} GroupOfOnePath(nodes: seq<Node>, path: string, at: string)
    requires forall i :: 0 <= i < |nodes| ==> GetPath(nodes[i]) == path
    ensures GroupAt(nodes, at) == if at == path then nodes else []
  {
    if nodes != [] { GroupOfOnePath(nodes[1..], path, at); }
  }

  lemma {:induction false} AnnotatedPath(path: string, docs: seq<Node>, from: nat)
    ensures var r := Annotate(path, docs, from);
            && (forall i :: 0 <= i < |r| ==> PATH in r[i].annotations && GetPath(r[i]) == path)
            && Map(Stripped, r) == Map(Stripped, docs)
            && Map(Cleared, r) == Map(Cleared, docs)
  {
    if docs != [] {
      AnnotatedPath(path, docs[1..], from + 1);
      var first := Annotate(path, docs, from)[0];
      assert PATH != INDEX by { assert |PATH| != |INDEX|; }
      assert Stripped(first) == Stripped(docs[0]);
    }
  }

  /** Reading puts each file's documents, and nothing else, under that file's path. */
  lemma {:induction false} GroupOfRead(files: Files, keys: seq<string>, path: string)
    requires NoDuplicates(keys) && ReadKeys(files, keys).Some?
    ensures path in keys ==> Parse(At(files, path)).Some?
    ensures GroupAt(ReadKeys(files, keys).value, path)
            == if path in keys then Annotate(path, Parse(At(files, path)).value, 0) else []
  {
    if keys != [] {
      GroupOfRead(files, keys[1..], path);
      var docs := Parse(At(files, keys[0])).value;
      AnnotatedPath(keys[0], docs, 0);
      GroupOfOnePath(Annotate(keys[0], docs, 0), keys[0], path);
      GroupAppend(Annotate(keys[0], docs, 0), ReadKeys(files, keys[1..]).value, path);
      assert path in keys <==> path == keys[0] || path in keys[1..];
    }
  }

  lemma {:induction false} ReadFails(files: Files, keys: seq<string>)
    ensures ReadKeys(files, keys).Some? <==> ParsesAll(files, keys)
  {
    if keys != [] {
      ReadFails(files, keys[1..]);
      assert forall k :: k in keys <==> k == keys[0] || k in keys[1..];
    }
  }

  /** A buffer can be read exactly when every KRM file parses. */
  lemma ReadSucceedsIff(files: Files)
    ensures Read(files).Some? <==> forall k :: k in files && IncludeFile(k) ==> Parse(files[k]).Some?
  {
    SortedKeysMembers(Contents(files));
    ReadFails(files, SortedKeys(Contents(files)));
    assert forall k :: k in Contents(files) <==> k in files && IncludeFile(k);
    assert forall k :: k in Contents(files) ==> At(files, k) == files[k];
  }

  lemma GroupOfReadAll(files: Files, path: string)
    requires Read(files).Some?
    ensures path in Contents(files) ==> Parse(files[path]).Some?
    ensures GroupAt(Read(files).value, path)
            == if path in Contents(files) then Annotate(path, Parse(files[path]).value, 0) else []
  {
    SortedKeysMembers(Contents(files));
    GroupOfRead(files, SortedKeys(Contents(files)), path);
  }

  // ---------- read then write ----------

  /** A KRM file that survives being read and written back. */
  predicate Canonical(t: Text) {
    && t.Printed? && t.docs != []
    && forall i :: 0 <= i < |t.docs| ==> PATH !in t.docs[i].annotations && INDEX !in t.docs[i].annotations
  }

  /** Reading a package and writing the documents back gives the same files exactly when every KRM
      file is in the printer's layout, holds a document and carries no reader annotation. */
  lemma ReadThenWrite(files: Files)
    requires Read(files).Some?
    ensures Overlay(files, Read(files).value) == files
            <==> forall k :: k in Contents(files) ==> Canonical(files[k])
  {
    var back := Overlay(files, Read(files).value);
    if back == files {
      forall k | k in Contents(files) ensures Canonical(files[k]) { ReadThenWriteAt(files, k); }
    }
    if forall k :: k in Contents(files) ==> Canonical(files[k]) {
      forall k ensures (k in back <==> k in files) && (k in files ==> back[k] == files[k]) {
        ReadThenWriteAt(files, k);
      }
      SameFiles(back, files);
    }
  }

  lemma SameFiles(a: Files, b: Files)
    requires forall k :: (k in a <==> k in b) && (k in b ==> a[k] == b[k])
    ensures a == b
  {
    assert a.Keys == b.Keys;
  }

  lemma ReadThenWriteAt(files: Files, k: string)
    requires Read(files).Some?
    ensures var back := Overlay(files, Read(files).value);
            && (k in Contents(files) ==> (k in back && back[k] == files[k] <==> Canonical(files[k])))
            && (k !in Contents(files) ==> (k in back <==> k in files) && (k in files ==> back[k] == files[k]))
  {
    var nodes := Read(files).value;
    GroupOfReadAll(files, k);
    GroupMembers(nodes, k);
    if k in Contents(files) {
      AnnotatedPath(k, Parse(files[k]).value, 0);
      RenderedIsCanonical(files[k], GroupAt(nodes, k));
    }
  }

  lemma RenderedIsCanonical(t: Text, group: seq<Node>)
    requires Parse(t).Some? && Map(Stripped, group) == Map(Stripped, Parse(t).value)
    ensures (group != [] && Rendered(group) == t) <==> Canonical(t)
  {
    var docs := Parse(t).value;
    if Map(Stripped, docs) == docs {
      forall i | 0 <= i < |docs| ensures Stripped(docs[i]) == docs[i] { assert Map(Stripped, docs)[i] == docs[i]; }
    }
    if forall i :: 0 <= i < |docs| ==> PATH !in docs[i].annotations && INDEX !in docs[i].annotations {
      forall i | 0 <= i < |docs| ensures Stripped(docs[i]) == docs[i] { StrippedAlready(docs[i]); }
    }
  }

  lemma StrippedAlready(n: Node)
    ensures Stripped(n) == n <==> PATH !in n.annotations && INDEX !in n.annotations
  {
    if PATH !in n.annotations && INDEX !in n.annotations {
      assert n.annotations - {PATH, INDEX} == n.annotations;
    }
  }

  // ---------- write then read ----------

  /** A document with nothing from a reader but its path. */
  function Located(n: Node): Node {
    n.(annotations := (n.annotations - {PATH, INDEX})[PATH := GetPath(n)])
  }

  lemma LocatedKeeps(n: Node)
    ensures GetPath(Located(n)) == GetPath(n)
    ensures Stripped(Located(n)) == Stripped(n)
    ensures Cleared(Located(n)) == Cleared(n)
  {
    assert PATH != INDEX by { assert |PATH| != |INDEX|; }
  }

  ghost predicate SortedByPath(nodes: seq<Node>) {
    forall i, j :: 0 <= i < j < |nodes| ==> Leq(GetPath(nodes[i]), GetPath(nodes[j]))
  }

  /** `r` is `nodes` sorted by path, documents of one path keeping their order. */
  ghost predicate StableSortOf(r: seq<Node>, nodes: seq<Node>) {
    SortedByPath(r) && forall p :: GroupAt(r, p) == GroupAt(nodes, p)
  }

  lemma {:induction false} GroupOfLocated(nodes: seq<Node>, path: string)
    ensures GroupAt(Map(Located, nodes), path) == Map(Located, GroupAt(nodes, path))
  {
    if nodes != [] {
      GroupOfLocated(nodes[1..], path);
      LocatedKeeps(nodes[0]);
      assert Map(Located, nodes)[1..] == Map(Located, nodes[1..]);
      MapAppend(Located, if GetPath(nodes[0]) == path then [nodes[0]] else [], GroupAt(nodes[1..], path));
      assert Map(Located, [nodes[0]]) == [Located(nodes[0])];
    }
  }

  lemma {:induction false} ReadIsSorted(files: Files, keys: seq<string>)
    requires Sorted(keys) && ReadKeys(files, keys).Some?
    ensures SortedByPath(ReadKeys(files, keys).value)
    ensures forall n :: n in ReadKeys(files, keys).value ==> GetPath(n) in keys
  {
    if keys != [] {
      ReadIsSorted(files, keys[1..]);
      var docs := Parse(At(files, keys[0])).value;
      AnnotatedPath(keys[0], docs, 0);
      var first, rest := Annotate(keys[0], docs, 0), ReadKeys(files, keys[1..]).value;
      forall i, j | 0 <= i < j < |first + rest|
        ensures Leq(GetPath((first + rest)[i]), GetPath((first + rest)[j]))
      {
        LeqTotal(keys[0], keys[0]);
        if j >= |first| {
          var at := GetPath(rest[j - |first|]);
          assert rest[j - |first|] in rest;
          var m :| 0 <= m < |keys[1..]| && keys[1..][m] == at;
          assert keys[m + 1] == at;
        }
      }
    }
  }

  lemma LocatedOfAnnotated(path: string, group: seq<Node>)
    requires forall i :: 0 <= i < |group| ==> GetPath(group[i]) == path
    ensures Map(Located, Annotate(path, Map(Stripped, group), 0)) == Map(Located, group)
  {
    var r := Annotate(path, Map(Stripped, group), 0);
    AnnotatedPath(path, Map(Stripped, group), 0);
    forall i | 0 <= i < |group| ensures Located(r[i]) == Located(group[i]) {
      assert Map(Stripped, r)[i] == Map(Stripped, Map(Stripped, group))[i];
      assert Stripped(Stripped(group[i])) == Stripped(group[i]);
    }
  }

  /** A map written by `CreateUpdatedResource` always parses. */
  lemma OverlayReads(orig: Files, nodes: seq<Node>)
    ensures Read(Overlay(orig, nodes)).Some?
  {
    ReadSucceedsIff(Overlay(orig, nodes));
  }

  /** Writing documents over any files and reading them back sorts the documents by path, keeping
      list order within a path and losing exactly those whose file is not a KRM file. */
  lemma WriteThenRead(orig: Files, nodes: seq<Node>, path: string)
    ensures Read(Overlay(orig, nodes)).Some?
    ensures SortedByPath(Read(Overlay(orig, nodes)).value)
    ensures GroupAt(Map(Located, Read(Overlay(orig, nodes)).value), path)
            == if IncludeFile(path) then GroupAt(Map(Located, nodes), path) else []
  {
    var files := Overlay(orig, nodes);
    OverlayReads(orig, nodes);
    SortedKeysMembers(Contents(files));
    ReadIsSorted(files, SortedKeys(Contents(files)));
    WrittenGroup(orig, nodes, path);
    GroupOfLocated(Read(files).value, path);
    GroupOfLocated(nodes, path);
  }

  /** One file, written and read back. */
  lemma WrittenGroup(orig: Files, nodes: seq<Node>, path: string)
    requires Read(Overlay(orig, nodes)).Some?
    ensures Map(Located, GroupAt(Read(Overlay(orig, nodes)).value, path))
            == if IncludeFile(path) then Map(Located, GroupAt(nodes, path)) else []
  {
    GroupOfReadAll(Overlay(orig, nodes), path);
    GroupMembers(nodes, path);
    if path in Contents(Overlay(orig, nodes)) { LocatedOfAnnotated(path, GroupAt(nodes, path)); }
  }

  /** When every path is a KRM file, the result is the stable sort, so no document is lost or added. */
  lemma WriteThenReadIsStableSort(orig: Files, nodes: seq<Node>)
    requires AllIncluded(nodes)
    ensures Read(Overlay(orig, nodes)).Some?
    ensures StableSortOf(Map(Located, Read(Overlay(orig, nodes)).value), Map(Located, nodes))
  {
    OverlayReads(orig, nodes);
    var r := Read(Overlay(orig, nodes)).value;
    forall p ensures GroupAt(Map(Located, r), p) == GroupAt(Map(Located, nodes), p) {
      WriteThenRead(orig, nodes, p);
      GroupOfLocated(nodes, p);
      GroupMembers(nodes, p);
    }
    WriteThenRead(orig, nodes, "");
    forall i, j | 0 <= i < j < |r|
      ensures Leq(GetPath(Map(Located, r)[i]), GetPath(Map(Located, r)[j]))
    {
      LocatedKeeps(r[i]);
      LocatedKeeps(r[j]);
    }
  }

  lemma {:induction false} CountInGroup(nodes: seq<Node>, n: Node)
    ensures multiset(nodes)[n] == multiset(GroupAt(nodes, GetPath(n)))[n]
  {
    if nodes != [] {
      var p, rest := GetPath(n), nodes[1..];
      CountInGroup(rest, n);
      assert nodes == [nodes[0]] + rest;
      CountFirst(nodes[0], rest, if GetPath(nodes[0]) == p then [nodes[0]] else [], GroupAt(rest, p), n);
    }
  }

  lemma CountFirst(first: Node, rest: seq<Node>, head: seq<Node>, group: seq<Node>, n: Node)
    requires multiset(rest)[n] == multiset(group)[n]
    requires head == (if GetPath(first) == GetPath(n) then [first] else [])
    ensures multiset([first] + rest)[n] == multiset(head + group)[n]
  {
    CountParts([first], rest, n);
    CountParts(head, group, n);
  }

  lemma CountParts(a: seq<Node>, b: seq<Node>, n: Node)
    ensures multiset(a + b)[n] == multiset(a)[n] + multiset(b)[n]
  {
  }

  /** Two lists with the same groups hold the same documents. */
  lemma SameGroupsSameDocuments(a: seq<Node>, b: seq<Node>)
    requires forall p :: GroupAt(a, p) == GroupAt(b, p)
    ensures multiset(a) == multiset(b)
  {
    forall n ensures multiset(a)[n] == multiset(b)[n] {
      CountInGroup(a, n);
      CountInGroup(b, n);
      assert GroupAt(a, GetPath(n)) == GroupAt(b, GetPath(n));
    }
  }

  /** A stable sort is determined by the list: sorting twice gives one result. */
  lemma {:induction false} StableSortUnique(a: seq<Node>, b: seq<Node>)
    requires SortedByPath(a) && SortedByPath(b) && forall p :: GroupAt(a, p) == GroupAt(b, p)
    ensures a == b
  {
    SameGroupsSameDocuments(a, b);
    if a == [] {
      assert |multiset(b)| == 0;
    } else {
      assert |multiset(b)| == |a|;
      SamePathFirst(a, b);
      forall r ensures GroupAt(a[1..], r) == GroupAt(b[1..], r) {
        assert GroupAt(a, r) == GroupAt(b, r);
        GroupTail(a, r);
        GroupTail(b, r);
      }
      StableSortUnique(a[1..], b[1..]);
      assert a == [a[0]] + a[1..] && b == [b[0]] + b[1..];
    }
  }

  lemma SamePathFirst(a: seq<Node>, b: seq<Node>)
    requires a != [] && b != [] && multiset(a) == multiset(b)
    requires SortedByPath(a) && SortedByPath(b) && forall p :: GroupAt(a, p) == GroupAt(b, p)
    ensures a[0] == b[0]
  {
    var p, q := GetPath(a[0]), GetPath(b[0]);
    assert a[0] in multiset(b) && b[0] in multiset(a);
    var i :| 0 <= i < |b| && b[i] == a[0];
    var j :| 0 <= j < |a| && a[j] == b[0];
    LeqTotal(p, p);
    LeqTotal(q, q);
    LeqAntisymmetric(p, q);
    assert GroupAt(a, p) == GroupAt(b, p);
    assert GroupAt(a, p)[0] == a[0] && GroupAt(b, p)[0] == b[0];
  }

  lemma GroupTail(a: seq<Node>, p: string)
    requires a != []
    ensures GroupAt(a[1..], p) == if GetPath(a[0]) == p then GroupAt(a, p)[1..] else GroupAt(a, p)
  {
  }

  lemma ClearedOfLocated(nodes: seq<Node>)
    ensures Map(Cleared, Map(Located, nodes)) == Map(Cleared, nodes)
  {
    forall i | 0 <= i < |nodes| ensures Cleared(Located(nodes[i])) == Cleared(nodes[i]) {
      LocatedKeeps(nodes[i]);
    }
  }

  /** What is read back, seen through anything that neither path nor position shows in. */
  lemma ReadBackThrough(f: Node -> Node, orig: Files, nodes: seq<Node>)
    requires forall n :: f(Located(n)) == f(n)
    ensures Read(Overlay(orig, nodes)).Some?
    ensures AllIncluded(nodes) <==> multiset(Map(f, Read(Overlay(orig, nodes)).value)) == multiset(Map(f, nodes))
  {
    OverlayReads(orig, nodes);
    var r := Read(Overlay(orig, nodes)).value;
    var kept := IncludedNodes(nodes);
    forall p ensures GroupAt(Map(Located, r), p) == GroupAt(Map(Located, kept), p) {
      WriteThenRead(orig, nodes, p);
      GroupOfLocated(nodes, p);
      GroupOfLocated(kept, p);
      GroupOfIncluded(nodes, p);
    }
    SameGroupsSameDocuments(Map(Located, r), Map(Located, kept));
    MapMultiset(f, Map(Located, r), Map(Located, kept));
    assert Map(f, Map(Located, r)) == Map(f, r) && Map(f, Map(Located, kept)) == Map(f, kept);
    IncludedIsAll(nodes);
    IncludedLength(nodes);
    assert |multiset(Map(f, kept))| == |kept| && |multiset(Map(f, nodes))| == |nodes|;
  }

  /** Annotations aside, what is read back is exactly what was written when and only when every
      document was written to a KRM file. */
  lemma WrittenDocumentsReadBack(orig: Files, nodes: seq<Node>)
    ensures Read(Overlay(orig, nodes)).Some?
    ensures AllIncluded(nodes)
            <==> multiset(Map(Cleared, Read(Overlay(orig, nodes)).value)) == multiset(Map(Cleared, nodes))
  {
    forall n ensures Cleared(Located(n)) == Cleared(n) { LocatedKeeps(n); }
    ReadBackThrough(Cleared, orig, nodes);
  }

  /** And so it is with every annotation but the two that a reader adds. */
  lemma WrittenAnnotationsReadBack(orig: Files, nodes: seq<Node>)
    ensures Read(Overlay(orig, nodes)).Some?
    ensures AllIncluded(nodes)
            <==> multiset(Map(Stripped, Read(Overlay(orig, nodes)).value)) == multiset(Map(Stripped, nodes))
  {
    forall n ensures Stripped(Located(n)) == Stripped(n) { LocatedKeeps(n); }
    ReadBackThrough(Stripped, orig, nodes);
  }

  /** The documents whose file is a KRM file. */
  function IncludedNodes(nodes: seq<Node>): seq<Node> {
    if nodes == [] then []
    else (if IncludeFile(GetPath(nodes[0])) then [nodes[0]] else []) + IncludedNodes(nodes[1..])
  }

  lemma {:induction false} GroupOfIncluded(nodes: seq<Node>, p: string)
    ensures GroupAt(IncludedNodes(nodes), p) == if IncludeFile(p) then GroupAt(nodes, p) else []
  {
    if nodes != [] {
      GroupOfIncluded(nodes[1..], p);
      var head := if IncludeFile(GetPath(nodes[0])) then [nodes[0]] else [];
      GroupAppend(head, IncludedNodes(nodes[1..]), p);
      GroupOfOnePath(head, GetPath(nodes[0]), p);
    }
  }

  lemma AllIncludedCons(first: Node, rest: seq<Node>)
    ensures AllIncluded([first] + rest) <==> IncludeFile(GetPath(first)) && AllIncluded(rest)
  {
    assert first in [first] + rest;
    assert forall n :: n in rest ==> n in [first] + rest;
  }

  lemma IncludedCons(first: Node, rest: seq<Node>)
    ensures |IncludedNodes([first] + rest)| == |IncludedNodes(rest)| + if IncludeFile(GetPath(first)) then 1 else 0
  {
    assert ([first] + rest)[1..] == rest;
  }

  lemma {:induction false} IncludedLength(nodes: seq<Node>)
    ensures |IncludedNodes(nodes)| <= |nodes|
    ensures |IncludedNodes(nodes)| == |nodes| ==> IncludedNodes(nodes) == nodes
  {
    if nodes != [] {
      var first, rest := nodes[0], nodes[1..];
      IncludedLength(rest);
      assert nodes == [first] + rest;
      IncludedStep(first, rest);
      LongerByOne(if IncludeFile(GetPath(first)) then [first] else [], first, IncludedNodes(rest), rest);
    }
  }

  lemma IncludedStep(first: Node, rest: seq<Node>)
    ensures IncludedNodes([first] + rest) == (if IncludeFile(GetPath(first)) then [first] else []) + IncludedNodes(rest)
  {
    assert ([first] + rest)[1..] == rest;
  }

  lemma LongerByOne(head: seq<Node>, first: Node, kept: seq<Node>, rest: seq<Node>)
    requires head == [] || head == [first]
    requires |kept| <= |rest| && (|kept| == |rest| ==> kept == rest)
    ensures |head + kept| <= |[first] + rest|
    ensures |head + kept| == |[first] + rest| ==> head + kept == [first] + rest
  {
  }

  lemma {:induction false} IncludedIsAll(nodes: seq<Node>)
    ensures |IncludedNodes(nodes)| == |nodes| <==> AllIncluded(nodes)
  {
    if nodes != [] {
      var first, rest := nodes[0], nodes[1..];
      IncludedIsAll(rest);
      IncludedLength(rest);
      IncludedCons(first, rest);
      AllIncludedCons(first, rest);
      assert nodes == [first] + rest;
    }
  }
}
