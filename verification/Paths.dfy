/** Slash-separated file paths: the parts of Go's `path/filepath` behind `includeFile` and
    `MergePackages` (pkg/pkgutil/pkgutil.go). */
module Paths {
  import opened Strings

  // ---------- path/filepath ----------

  function Components(path: string): (parts: seq<string>)
    ensures |parts| > 0
  {
    Split(path, "/")
  }

  /** One component of `filepath.Clean`'s walk: the components kept so far, after `c`. */
  function CleanStep(kept: seq<string>, c: string, rooted: bool): seq<string> {
    if c == "" || c == "." then kept
    else if c == ".." then
      if kept != [] && kept[|kept| - 1] != ".." then kept[..|kept| - 1]
      else if rooted then kept
      else kept + [".."]
    else kept + [c]
  }

  function CleanFrom(kept: seq<string>, parts: seq<string>, rooted: bool): seq<string>
    decreases |parts|
  {
    if parts == [] then kept
    else CleanFrom(CleanStep(kept, parts[0], rooted), parts[1..], rooted)
  }

  /** `filepath.Clean`. */
  function Clean(path: string): string {
    if path == "" then "."
    else
      var rooted := path[0] == '/';
      var kept := CleanFrom([], Components(path), rooted);
      if rooted then "/" + Join(kept, "/")
      else if kept == [] then "."
      else Join(kept, "/")
  }

  /** `filepath.Join` of two elements, empty ones ignored. */
  function JoinPath(dir: string, path: string): string {
    if dir != "" then Clean(dir + "/" + path)
    else if path != "" then Clean(path)
    else ""
  }

  /** The last non-empty component, or the empty string. */
  function LastNonEmpty(parts: seq<string>): string {
    if parts == [] then ""
    else if parts[|parts| - 1] != "" then parts[|parts| - 1]
    else LastNonEmpty(parts[..|parts| - 1])
  }

  /** `filepath.Base`. */
  function Base(path: string): string {
    if path == "" then "."
    else
      var last := LastNonEmpty(Components(path));
      if last == "" then "/" else last
  }

  // ---------- includeFile ----------

  /** The base names of the files that hold KRM documents: the glob patterns of `kio.MatchAll`, a
      constant of the kyaml library, each of them `*` and a suffix, and `Kptfile`. */
  predicate MatchesContents(file: string) {
    HasSuffix(file, ".yaml") || HasSuffix(file, ".yml") || HasSuffix(file, ".json") || file == "Kptfile"
  }

  predicate IncludeFile(path: string) {
    MatchesContents(Base(path))
  }

  // ---------- joining keeps the kind of file ----------

  lemma NoSlash(s: string)
    ensures '/' !in s <==> !Contains(s, "/")
  {
    if '/' in s {
      var i :| 0 <= i < |s| && s[i] == '/';
      assert s[i..][..1] == "/";
      assert HasPrefix(s[i..], "/");
    }
    if Contains(s, "/") {
      var i :| 0 <= i <= |s| && HasPrefix(s[i..], "/");
      assert s[i..][..1][0] == s[i];
    }
  }

  /** A name without a slash is its own only component, and its own base name. */
  lemma PlainName(name: string)
    requires name != "" && '/' !in name
    ensures !Contains(name, "/") && Components(name) == [name] && Base(name) == name
  {
    NoSlash(name);
    SplitWhole(name, "/");
  }

  /** A name that holds KRM documents by itself is in clean form. */
  lemma PlainContents(name: string)
    requires '/' !in name && MatchesContents(name)
    ensures IncludeFile(name) && CleanRelative(name)
  {
    PlainName(name);
  }

  /** A component that `Clean` keeps as it is. */
  predicate Normal(c: string) {
    c != "" && c != "." && c != ".." && !Contains(c, "/")
  }

  predicate AllNormal(parts: seq<string>) {
    forall i :: 0 <= i < |parts| ==> Normal(parts[i])
  }

  lemma {:induction false} CleanFromSplit(kept: seq<string>, a: seq<string>, b: seq<string>, rooted: bool)
    ensures CleanFrom(kept, a + b, rooted) == CleanFrom(CleanFrom(kept, a, rooted), b, rooted)
    decreases |a|
  {
    if a == [] {
      assert a + b == b;
    } else {
      assert (a + b)[1..] == a[1..] + b;
      CleanFromSplit(CleanStep(kept, a[0], rooted), a[1..], b, rooted);
    }
  }

  /** Empty components at the end change nothing, and the last other one is kept last. */
  lemma {:induction false} CleanKeepsLast(kept: seq<string>, parts: seq<string>, rooted: bool)
    requires LastNonEmpty(parts) !in {"", ".", ".."}
    ensures var r := CleanFrom(kept, parts, rooted);
            r != [] && r[|r| - 1] == LastNonEmpty(parts)
  {
    var front, last := parts[..|parts| - 1], parts[|parts| - 1];
    assert parts == front + [last];
    CleanFromSplit(kept, front, [last], rooted);
    if last == "" {
      CleanKeepsLast(kept, front, rooted);
    }
  }

  /** Every component kept was one of those given, or `..`. */
  lemma {:induction false} CleanKeepsComponents(kept: seq<string>, parts: seq<string>, rooted: bool)
    requires forall c :: c in kept + parts ==> !Contains(c, "/")
    ensures forall c :: c in CleanFrom(kept, parts, rooted) ==> !Contains(c, "/")
    decreases |parts|
  {
    if parts != [] {
      var next := CleanStep(kept, parts[0], rooted);
      NoSlash("..");
      assert parts[0] in kept + parts;
      assert forall c :: c in kept ==> c in kept + parts;
      assert forall c :: c in parts[1..] ==> c in kept + parts;
      assert forall c :: c in next ==> c in kept || c == parts[0] || c == "..";
      CleanKeepsComponents(next, parts[1..], rooted);
    }
  }

  lemma {:induction false} ComponentsOfJoin(parts: seq<string>)
    requires parts != [] && forall c :: c in parts ==> !Contains(c, "/")
    ensures Components(Join(parts, "/")) == parts
  {
    SplitJoin(parts, "/");
    SplitAllWhole(parts, "/");
  }

  lemma LastNonEmptyAppend(a: seq<string>, b: seq<string>)
    requires LastNonEmpty(b) != ""
    ensures LastNonEmpty(a + b) == LastNonEmpty(b)
  {
    if b[|b| - 1] == "" {
      assert (a + b)[..|a + b| - 1] == a + b[..|b| - 1];
      LastNonEmptyAppend(a, b[..|b| - 1]);
    }
  }

  /** Cleaning keeps the base name, unless that is a dot. */
  lemma CleanKeepsBase(path: string)
    requires path != "" && LastNonEmpty(Components(path)) !in {"", ".", ".."}
    ensures Base(Clean(path)) == Base(path)
  {
    var parts, kept := Components(path), CleanFrom([], Components(path), IsRooted(path));
    CleanComponents(path);
    CleanKeepsLast([], parts, IsRooted(path));
    LastNonEmptyAppend([""], kept);
    PlainComponents();
  }

  lemma ContentNamesAreNotDots(file: string)
    requires MatchesContents(file)
    ensures file !in {"", ".", "..", "/"}
  {
  }

  /** A file that holds KRM documents still does after its path is joined below any directory,
      `..` and doubled slashes included. */
  lemma IncludeFileJoin(dir: string, path: string)
    requires IncludeFile(path)
    ensures IncludeFile(JoinPath(dir, path))
  {
    ContentNamesAreNotDots(Base(path));
    if dir == "" {
      CleanKeepsBase(path);
    } else {
      SplitAcross(dir, "/", path);
      LastNonEmptyAppend(Components(dir), Components(path));
      CleanKeepsBase(dir + "/" + path);
    }
  }

  /** The converse fails: joining the empty path exposes a directory that is named like a KRM file. */
  lemma IncludeFileJoinConverseFails(dir: string)
    requires '/' !in dir && MatchesContents(dir)
    ensures IncludeFile(JoinPath(dir, "")) && !IncludeFile("")
  {
    ContentNamesAreNotDots(dir);
    LastOfDirectory(dir, "");
    CleanKeepsBase(dir + "/" + "");
  }

  lemma LastOfDirectory(dir: string, nothing: string)
    requires dir != "" && '/' !in dir && nothing == ""
    ensures LastNonEmpty(Components(dir + "/" + nothing)) == dir
  {
    SplitAcross(dir, "/", nothing);
    PlainName(dir);
    assert Components(dir + "/" + nothing) == [dir] + [nothing];
    LastOfTwo(dir);
  }

  lemma LastOfTwo(c: string)
    requires c != ""
    ensures LastNonEmpty([c] + [""]) == c
  {
    assert ([c] + [""])[..1] == [c];
  }

  // ---------- what cleaning keeps ----------

  /** The directory reached from another one by one component, both given from the root. */
  function Enter(from: seq<string>, c: string): seq<string> {
    if c == "" || c == "." then from
    else if c != ".." then from + [c]
    else if from == [] then from
    else from[..|from| - 1]
  }

  function Follow(from: seq<string>, parts: seq<string>): seq<string>
    decreases |parts|
  {
    if parts == [] then from else Follow(Enter(from, parts[0]), parts[1..])
  }

  /** Nothing to clean away: steps up, none of them from the root, and then names. */
  predicate IsClean(parts: seq<string>, rooted: bool) {
    && (forall i :: 0 <= i < |parts| ==> parts[i] !in {"", "."})
    && (forall i :: 0 <= i < |parts| && parts[i] == ".." ==> !rooted && (i == 0 || parts[i - 1] == ".."))
  }

  lemma {:induction false} FollowAppend(from: seq<string>, a: seq<string>, b: seq<string>)
    ensures Follow(from, a + b) == Follow(Follow(from, a), b)
    decreases |a|
  {
    if a == [] {
      assert a + b == b;
    } else {
      assert (a + b)[0] == a[0] && (a + b)[1..] == a[1..] + b;
      FollowAppend(Enter(from, a[0]), a[1..], b);
    }
  }

  lemma FollowLast(from: seq<string>, front: seq<string>, last: string)
    ensures Follow(from, front + [last]) == Enter(Follow(from, front), last)
  {
    FollowAppend(from, front, [last]);
    assert [last][1..] == [];
  }

  /** One step of the walk leads where the component leads. */
  lemma CleanStepFollows(kept: seq<string>, c: string, rooted: bool, from: seq<string>)
    requires IsClean(kept, rooted) && (rooted ==> from == [])
    ensures IsClean(CleanStep(kept, c, rooted), rooted)
    ensures Follow(from, CleanStep(kept, c, rooted)) == Enter(Follow(from, kept), c)
  {
    if c == ".." && kept != [] && kept[|kept| - 1] != ".." {
      var front, last := kept[..|kept| - 1], kept[|kept| - 1];
      assert kept == front + [last];
      FollowLast(from, front, last);
    } else if c !in {"", "."} {
      FollowLast(from, kept, c);
    }
  }

  lemma {:induction false} CleanFromFollows(kept: seq<string>, parts: seq<string>, rooted: bool, from: seq<string>)
    requires IsClean(kept, rooted) && (rooted ==> from == [])
    ensures IsClean(CleanFrom(kept, parts, rooted), rooted)
    ensures Follow(from, CleanFrom(kept, parts, rooted)) == Follow(Follow(from, kept), parts)
    decreases |parts|
  {
    if parts != [] {
      var next := CleanStep(kept, parts[0], rooted);
      CleanStepFollows(kept, parts[0], rooted, from);
      CleanFromFollows(next, parts[1..], rooted, from);
    }
  }

  predicate IsRooted(path: string) {
    path != "" && path[0] == '/'
  }

  /** The components of a cleaned path: the kept ones, behind an empty one when it starts at the root. */
  lemma CleanComponents(path: string)
    requires path != ""
    ensures var kept := CleanFrom([], Components(path), IsRooted(path));
            Components(Clean(path)) == if IsRooted(path) then [""] + (if kept == [] then [""] else kept)
                                       else if kept == [] then ["."] else kept
    ensures IsRooted(Clean(path)) <==> IsRooted(path)
  {
    var rooted := IsRooted(path);
    var kept := CleanFrom([], Components(path), rooted);
    SplitPartsClean(path, "/");
    assert [] + Components(path) == Components(path);
    CleanKeepsComponents([], Components(path), rooted);
    var joined := Join(kept, "/");
    if kept != [] { ComponentsOfJoin(kept); }
    if rooted {
      SplitAcross("", "/", joined);
      assert "" + "/" + joined == "/" + joined;
    } else if kept == [] {
      PlainName(".");
    } else {
      CleanFromFollows([], Components(path), false, []);
      FirstIsNoSlash(kept);
    }
  }

  lemma FirstIsNoSlash(parts: seq<string>)
    requires parts != [] && parts[0] != "" && forall c :: c in parts ==> !Contains(c, "/")
    ensures Join(parts, "/") != "" && Join(parts, "/")[0] != '/'
  {
    NoSlash(parts[0]);
    assert parts[0][0] in parts[0];
    assert Join(parts, "/")[0] == parts[0][0];
  }

  /** Cleaning a path keeps where it leads, from every directory when it is relative. */
  lemma CleanFollows(path: string, from: seq<string>)
    requires path != "" && (IsRooted(path) ==> from == [])
    ensures Follow(from, Components(Clean(path))) == Follow(from, Components(path))
  {
    var kept := CleanFrom([], Components(path), IsRooted(path));
    CleanComponents(path);
    CleanFromFollows([], Components(path), IsRooted(path), from);
    FollowNothing(from, kept);
  }

  lemma FollowNothing(from: seq<string>, kept: seq<string>)
    ensures Follow(from, [""] + kept) == Follow(from, kept)
    ensures Follow(from, [""] + [""]) == Follow(from, []) == Follow(from, ["."]) == from
  {
    assert ([""] + kept)[1..] == kept;
    assert ([""] + [""])[1..] == [""] && [""][1..] == [] && ["."][1..] == [];
  }

  /** And nothing is left to clean away, so that cleaning again changes nothing. */
  lemma CleanIsClean(path: string)
    requires path != ""
    ensures var parts := Components(Clean(path));
            if IsRooted(path) then |parts| >= 2 && parts[0] == "" && (parts[1..] == [""] || IsClean(parts[1..], true))
            else parts == ["."] || IsClean(parts, false)
  {
    CleanComponents(path);
    CleanFromFollows([], Components(path), IsRooted(path), []);
    var kept := CleanFrom([], Components(path), IsRooted(path));
    assert ([""] + kept)[1..] == kept && ([""] + [""])[1..] == [""];
  }

  /** A document moved below a directory is where its path leads from there: for every directory, path
      and place to start from. */
  lemma JoinFollows(dir: string, path: string, from: seq<string>)
    requires !IsRooted(dir) && (dir == "" ==> !IsRooted(path))
    ensures Follow(from, Components(JoinPath(dir, path))) == Follow(Follow(from, Components(dir)), Components(path))
  {
    assert Components("") == [""];
    FollowNothing(from, []);
    if dir != "" {
      var full := dir + "/" + path;
      assert full[0] == dir[0];
      SplitAcross(dir, "/", path);
      FollowAppend(from, Components(dir), Components(path));
      CleanFollows(full, from);
    } else if path != "" {
      CleanFollows(path, from);
    }
  }

  // ---------- which files hold KRM documents ----------

  /** A suffix that starts with the last dot is the extension. */
  lemma SuffixIsExtension(stem: string, ext: string, other: string)
    requires '.' !in ext && '.' !in other
    ensures HasSuffix(stem + "." + ext, "." + other) <==> ext == other
  {
    var file, suffix := stem + "." + ext, "." + other;
    assert file[|stem| + 1..] == ext && suffix[1..] == other;
    if ext == other {
      assert file[|stem|..] == suffix;
    }
    if HasSuffix(file, suffix) {
      var at := |file| - |suffix|;
      assert forall i :: at <= i < |file| ==> file[i] == file[at..][i - at];
      assert file[at + 1..] == file[at..][1..] == other;
      assert forall k :: |stem| < k < |file| ==> file[k] == ext[k - |stem| - 1];
      assert forall k :: at < k < |file| ==> file[k] == other[k - at - 1];
      LastDot(file, |stem|, at);
    }
  }

  lemma LastDot(file: string, i: nat, j: nat)
    requires i < |file| && file[i] == '.' && forall k :: i < k < |file| ==> file[k] != '.'
    requires j < |file| && file[j] == '.' && forall k :: j < k < |file| ==> file[k] != '.'
    ensures i == j
  {
  }

  /** The extensions of KRM files. */
  predicate IsExtension(ext: string) {
    ext == "yaml" || ext == "yml" || ext == "json"
  }

  lemma ContentsByExtension(stem: string, ext: string)
    requires '.' !in ext
    ensures MatchesContents(stem + "." + ext) <==> IsExtension(ext)
  {
    assert "." + "yaml" == ".yaml" && "." + "yml" == ".yml" && "." + "json" == ".json";
    SuffixIsExtension(stem, ext, "yaml");
    SuffixIsExtension(stem, ext, "yml");
    SuffixIsExtension(stem, ext, "json");
    assert (stem + "." + ext)[|stem|] == '.';
    assert '.' !in "Kptfile";
  }

  lemma ContentsWithoutDot(name: string)
    requires '.' !in name
    ensures MatchesContents(name) <==> name == "Kptfile"
  {
    assert ".yaml"[0] == '.' && ".yml"[0] == '.' && ".json"[0] == '.';
    assert forall i :: 0 <= i < |name| ==> name[i] in name;
  }

  /** Where the last slash is. */
  lemma {:induction false} LastSlash(path: string) returns (dir: string, name: string)
    requires '/' in path
    ensures path == dir + "/" + name && '/' !in name
  {
    var front, last := path[..|path| - 1], path[|path| - 1];
    assert path == front + [last];
    if last == '/' {
      dir, name := front, "";
    } else {
      dir, name := LastSlash(front);
      name := name + [last];
    }
  }

  /** The base name is what stands behind a slash and has none itself. */
  lemma BaseBehind(dir: string, name: string)
    requires name != "" && '/' !in name
    ensures Base(name) == name && Base(dir + "/" + name) == name
  {
    PlainName(name);
    SplitAcross(dir, "/", name);
    LastNonEmptyAppend(Components(dir), [name]);
  }

  /** The whole decision, for every file name with a dot in its last component: what stands behind
      the last dot must be `yaml`, `yml` or `json`. */
  lemma IncludedByExtension(stem: string, ext: string)
    requires '.' !in ext && '/' !in ext
    ensures IncludeFile(stem + "." + ext) <==> ext == "yaml" || ext == "yml" || ext == "json"
  {
    if '/' in stem {
      var dir, name := LastSlash(stem);
      BaseBehind(dir, name + "." + ext);
      assert stem + "." + ext == dir + "/" + (name + "." + ext);
      ContentsByExtension(name, ext);
    } else {
      BaseBehind("", stem + "." + ext);
      ContentsByExtension(stem, ext);
    }
  }

  /** And without one: only a `Kptfile` holds KRM documents, in any directory. */
  lemma IncludedWithoutDot(dir: string, name: string)
    requires '.' !in name && '/' !in name
    ensures IncludeFile(name) <==> name == "Kptfile"
    ensures name != "" ==> (IncludeFile(dir + "/" + name) <==> name == "Kptfile")
  {
    if name != "" { BaseBehind(dir, name); }
    ContentsWithoutDot(name);
  }

  /** Slashes at the end do not matter. */
  lemma TrailingSlash(path: string)
    ensures IncludeFile(path + "/") <==> IncludeFile(path)
  {
    SplitAcross(path, "/", "");
    assert path + "/" + "" == path + "/";
    PlainComponents();
    var parts := Components(path);
    assert (parts + [""])[..|parts|] == parts;
  }

  lemma PlainComponents()
    ensures Components("") == [""]
  {
  }

  // ---------- joining below different directories ----------

  /** A relative path that `Clean` leaves alone and that does not climb. */
  predicate CleanRelative(path: string) {
    AllNormal(Components(path))
  }

  lemma {:induction false} CleanFromNormal(kept: seq<string>, parts: seq<string>, rooted: bool)
    requires AllNormal(parts)
    ensures CleanFrom(kept, parts, rooted) == kept + parts
    decreases |parts|
  {
    if parts != [] {
      CleanFromNormal(kept + [parts[0]], parts[1..], rooted);
      assert kept + [parts[0]] + parts[1..] == kept + parts;
    }
  }

  /** Joining a clean relative path below one component only puts a slash between them. */
  lemma JoinBelow(dir: string, path: string)
    requires Normal(dir) && CleanRelative(path)
    ensures JoinPath(dir, path) == dir + "/" + path
    ensures Components(JoinPath(dir, path)) == [dir] + Components(path)
  {
    var full := dir + "/" + path;
    SplitAcross(dir, "/", path);
    SplitWhole(dir, "/");
    assert full[0] == dir[0];
    NoSlash(dir);
    CleanFromNormal([], Components(full), false);
    assert [] + Components(full) == Components(full);
    JoinSplit(full, "/");
  }

  /** So two directories never share a file, and none holds a file of the directory above. */
  lemma DirectoriesAreDisjoint(dir: string, path: string, dir': string, path': string)
    requires Normal(dir) && Normal(dir') && CleanRelative(path) && CleanRelative(path')
    ensures JoinPath(dir, path) == JoinPath(dir', path') <==> dir == dir' && path == path'
  {
    JoinBelow(dir, path);
    JoinBelow(dir', path');
    JoinSplit(path, "/");
    JoinSplit(path', "/");
    if JoinPath(dir, path) == JoinPath(dir', path') {
      assert ([dir] + Components(path))[0] == dir;
      assert ([dir] + Components(path))[1..] == Components(path);
      assert ([dir'] + Components(path'))[1..] == Components(path');
    }
  }
}
