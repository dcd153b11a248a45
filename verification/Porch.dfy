/** The package store as the operator's clients see it: every call may fail, or take effect while
    its answer is lost. Revision strings are kept here; the protocol knows them by their numbers. */
module Porch {
  import opened Strings
  import opened Numerals
  import opened Documents
  import opened PkgUtil
  import opened Protocol

  /** The metadata of a package revision. */
  datatype Object = Object(name: string, pkg: string, revision: string, lifecycle: Lifecycle)

  datatype Stored = Stored(pkg: string, revision: string, lifecycle: Lifecycle, files: Files)

  type Objects = map<string, Stored>

  const NO_OBJECT: Object := Object("", "", "", Draft)

  function ObjectAt(objects: Objects, name: string): Object
    requires name in objects
  {
    Object(name, objects[name].pkg, objects[name].revision, objects[name].lifecycle)
  }

  // ---------- what the protocol sees ----------

  function Seen(r: Stored): Revision {
    Revision(r.pkg, GetRevisionNumber(r.revision), r.lifecycle, r.files)
  }

  function SeenStore(objects: Objects): Store {
    map n | n in objects :: Seen(objects[n])
  }

  function SeenObject(o: Object): Handle {
    Handle(o.name, o.pkg, GetRevisionNumber(o.revision), o.lifecycle)
  }

  lemma SeenPut(objects: Objects, name: string, r: Stored)
    ensures SeenStore(objects[name := r]) == SeenStore(objects)[name := Seen(r)]
  {
  }

  lemma SeenRemove(objects: Objects, name: string)
    ensures SeenStore(objects - {name}) == SeenStore(objects) - {name}
  {
  }

  lemma SeenObjectAt(objects: Objects, name: string)
    requires name in objects
    ensures name in SeenStore(objects) && SeenObject(ObjectAt(objects, name)) == HandleOf(SeenStore(objects), name)
  {
  }

  // ---------- fresh names ----------

  function Letters(k: nat): (s: string)
    ensures |s| == k
  {
    if k == 0 then "" else "x" + Letters(k - 1)
  }

  lemma {:induction false} LongerThanAll(names: set<string>) returns (k: nat)
    ensures k > 0 && forall n :: n in names ==> |n| < k
  {
    if names == {} {
      k := 1;
    } else {
      var n :| n in names;
      var rest := LongerThanAll(names - {n});
      k := if |n| < rest then rest else |n| + 1;
    }
  }

  lemma FreshName(names: set<string>) returns (name: string)
    ensures name != "" && name !in names
  {
    var k := LongerThanAll(names);
    name := Letters(k);
    assert |name| == k;
  }

  /** The objects listed, in server order. */
  function ObjectsIn(objects: Objects, order: seq<string>): (items: seq<Object>)
    requires forall n :: n in order ==> n in objects
    ensures |items| == |order| && forall i :: 0 <= i < |order| ==> items[i] == ObjectAt(objects, order[i])
  {
    if order == [] then []
    else
      assert forall n :: n in order[1..] ==> n in order;
      [ObjectAt(objects, order[0])] + ObjectsIn(objects, order[1..])
  }

  datatype ListError = NoError | NotFoundError | OtherError

  /** The server, with a count of its faults: calls that fail, one for a name that is not there included,
      calls whose answer is lost, and lists answered with NotFound although there are revisions. */
  class Server {
    var objects: Objects
    ghost var faults: nat

    constructor ()
      ensures objects == map[] && faults == 0
    {
      objects, faults := map[], 0;
    }

    /** List: all revisions in some order, NotFound, or another error. */
    method List() returns (err: ListError, items: seq<Object>, ghost a: ListAnswer)
      modifies this`faults
      ensures faults == old(faults) + if err == OtherError || (err == NotFoundError && objects != map[]) then 1 else 0
      ensures err != NoError ==> items == []
      ensures err == NotFoundError ==> a == NotFound
      ensures err == NoError ==> a.Items? && IsListing(a.order, SeenStore(objects))
                                 && (forall n :: n in a.order ==> n in objects) && items == ObjectsIn(objects, a.order)
    {
      err, items, a := *, [], NotFound;
      if err == NoError {
        var todo, names := objects.Keys, [];
        while todo != {}
          invariant todo <= objects.Keys && ListingOf(names, objects.Keys - todo)
          decreases todo
        {
          var n :| n in todo;
          assert n !in Elements(names) && Elements(names + [n]) == Elements(names) + {n};
          assert forall i :: 0 <= i < |names| ==> names[i] in Elements(names);
          assert objects.Keys - (todo - {n}) == objects.Keys - todo + {n};
          todo, names := todo - {n}, names + [n];
        }
        assert SeenStore(objects).Keys == objects.Keys;
        assert forall n :: n in names ==> n in Elements(names);
        a := Items(names);
        items := ObjectsIn(objects, names);
      }
      faults := faults + if err == OtherError || (err == NotFoundError && objects != map[]) then 1 else 0;
    }

    /** Create: the server picks a fresh name, makes a Draft and fills it with some initial files. */
    method Create(pkg: string, revision: string) returns (err: bool, o: Object, ghost content: Files, ghost answer: Answer)
      modifies this
      ensures faults == old(faults) + if err then 1 else 0
      ensures answer == Failed ==> err && objects == old(objects)
      ensures answer != Failed ==>
                && o == Object(o.name, pkg, revision, Draft) && o.name != "" && o.name !in old(objects)
                && objects == old(objects)[o.name := Stored(pkg, revision, Draft, content)]
                && (err <==> answer == Lost)
    {
      ghost var unused := FreshName(objects.Keys);
      assert unused != "" && unused !in objects;
      var name: string :| name != "" && name !in objects;
      var files: Files := *;
      o, content := Object(name, pkg, revision, Draft), files;
      var outcome: Answer := *;
      answer := outcome;
      if outcome != Failed {
        objects := objects[name := Stored(pkg, revision, Draft, files)];
      }
      err := outcome != Done;
      faults := faults + if err then 1 else 0;
    }

    method Get(name: string) returns (err: bool, o: Object)
      modifies this`faults
      ensures faults == old(faults) + if err then 1 else 0
      ensures !err ==> name in objects && o == ObjectAt(objects, name)
    {
      err := *;
      o := NO_OBJECT;
      if name !in objects { err := true; }
      if !err { o := ObjectAt(objects, name); }
      faults := faults + if err then 1 else 0;
    }

    method GetResources(name: string) returns (err: bool, files: Files)
      modifies this`faults
      ensures faults == old(faults) + if err then 1 else 0
      ensures !err ==> name in objects && files == objects[name].files
    {
      err := *;
      files := map[];
      if name !in objects { err := true; }
      if !err { files := objects[name].files; }
      faults := faults + if err then 1 else 0;
    }

    method UpdateResources(name: string, files: Files) returns (err: bool, ghost answer: Answer)
      modifies this
      ensures faults == old(faults) + if err then 1 else 0
      ensures answer == Failed ==> err && objects == old(objects)
      ensures answer != Failed ==>
                && name in old(objects) && objects == old(objects)[name := old(objects)[name].(files := files)]
                && (err <==> answer == Lost)
    {
      var outcome: Answer := *;
      if name !in objects { outcome := Failed; }
      answer := outcome;
      if outcome != Failed {
        objects := objects[name := objects[name].(files := files)];
      }
      err := outcome != Done;
      faults := faults + if err then 1 else 0;
    }

    /** Update of the metadata, also used for the approval subresource: everything but the files. */
    method Update(o: Object) returns (err: bool, ghost answer: Answer)
      modifies this
      ensures faults == old(faults) + if err then 1 else 0
      ensures answer == Failed ==> err && objects == old(objects)
      ensures answer != Failed ==>
                && o.name in old(objects)
                && objects == old(objects)[o.name := Stored(o.pkg, o.revision, o.lifecycle, old(objects)[o.name].files)]
                && (err <==> answer == Lost)
    {
      var outcome: Answer := *;
      if o.name !in objects { outcome := Failed; }
      answer := outcome;
      if outcome != Failed {
        objects := objects[o.name := Stored(o.pkg, o.revision, o.lifecycle, objects[o.name].files)];
      }
      err := outcome != Done;
      faults := faults + if err then 1 else 0;
    }

    method Delete(name: string) returns (err: bool, ghost answer: Answer)
      modifies this
      ensures faults == old(faults) + if err then 1 else 0
      ensures answer == Failed ==> err && objects == old(objects)
      ensures answer != Failed ==> name in old(objects) && objects == old(objects) - {name} && (err <==> answer == Lost)
    {
      var outcome: Answer := *;
      if name !in objects { outcome := Failed; }
      answer := outcome;
      if outcome != Failed {
        objects := objects - {name};
      }
      err := outcome != Done;
      faults := faults + if err then 1 else 0;
    }
  }
}
