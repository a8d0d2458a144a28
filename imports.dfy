/** Import usage tracker of imports/imports.go: walks a type descriptor and records, for every
    package the type refers to, its path and the name generated code uses for it. */
module Imports {
  import opened Wrappers
  import opened GoTypes

  /** The type descriptors the tracker distinguishes. A Named type carries the package of its
      type name, None for predeclared types such as `error`; a Tuple is a parameter or result
      list; Other collects every kind of Go type the walk does not look into (maps, channels,
      signatures, structs, interfaces, ...). */
  datatype Type =
    | Basic
    | Slice(elem: Type)
    | Pointer(elem: Type)
    | Named(obj: string, pkg: Option<Package>)
    | Tuple(vars: seq<Type>)
    | Other

  /** True when no recorded import carries the name of the package being generated into. */
  ghost predicate NoSelfImport(m: map<string, string>, currentpkg: string)
  {
    forall path :: path in m ==> m[path] != currentpkg
  }

  /** The import map after AddImportsFrom(t) on map m: the walk of imports.go:17-39, case by case. */
  function AddedImports(currentpkg: string, m: map<string, string>, t: Type): map<string, string>
    decreases t, 1
  {
    match t
    case Basic => m
    case Slice(e) => AddedImports(currentpkg, m, e)
    case Pointer(e) => AddedImports(currentpkg, m, e)
    case Named(_, pkg) =>
      if pkg.None? then m
      else if pkg.value.name == currentpkg then m
      else m[pkg.value.path := pkg.value.name]
    case Tuple(ts) => AddedImportsSeq(currentpkg, m, ts)
    case Other => m
  }

  /** The tuple loop of imports.go:34-36: the elements are visited left to right. */
  function AddedImportsSeq(currentpkg: string, m: map<string, string>, ts: seq<Type>): map<string, string>
    decreases ts, 0
  {
    if ts == [] then m
    else AddedImports(currentpkg, AddedImportsSeq(currentpkg, m, ts[..|ts| - 1]), ts[|ts| - 1])
  }

  /** Reference definition: the packages other than the current one that type t mentions
      through its named types, in no particular order. */
  function Referenced(currentpkg: string, t: Type): (ps: set<Package>)
    ensures forall p :: p in ps ==> p.name != currentpkg
    decreases t
  {
    match t
    case Basic => {}
    case Slice(e) => Referenced(currentpkg, e)
    case Pointer(e) => Referenced(currentpkg, e)
    case Named(_, pkg) =>
      if pkg.None? || pkg.value.name == currentpkg then {} else {pkg.value}
    case Tuple(ts) => set u, p | u in ts && p in Referenced(currentpkg, u) :: p
    case Other => {}
  }

  /** Every walk is an override: AddImportsFrom(t) writes the same entries whatever the map
      held before, so the result is the old map overridden by the walk from an empty map. */
  lemma {:induction false} AddedIsOverride(currentpkg: string, m: map<string, string>, t: Type)
    ensures AddedImports(currentpkg, m, t) == m + AddedImports(currentpkg, map[], t)
    decreases t, 1
  {
    match t
    case Basic =>
    case Slice(e) => AddedIsOverride(currentpkg, m, e);
    case Pointer(e) => AddedIsOverride(currentpkg, m, e);
    case Named(_, _) =>
    case Tuple(ts) => AddedSeqIsOverride(currentpkg, m, ts);
    case Other =>
  }

  lemma {:induction false} AddedSeqIsOverride(currentpkg: string, m: map<string, string>, ts: seq<Type>)
    ensures AddedImportsSeq(currentpkg, m, ts) == m + AddedImportsSeq(currentpkg, map[], ts)
    decreases ts, 0
  {
    if ts != [] {
      var pre, last := ts[..|ts| - 1], ts[|ts| - 1];
      var d := AddedImports(currentpkg, map[], last);
      AddedSeqIsOverride(currentpkg, m, pre);
      AddedIsOverride(currentpkg, AddedImportsSeq(currentpkg, m, pre), last);
      AddedIsOverride(currentpkg, AddedImportsSeq(currentpkg, map[], pre), last);
      assert (m + AddedImportsSeq(currentpkg, map[], pre)) + d == m + (AddedImportsSeq(currentpkg, map[], pre) + d);
    }
  }

  /** The walk from an empty map records exactly the referenced packages: its keys are their
      paths, and each entry pairs a path with the name of a referenced package. */
  lemma {:induction false} FromEmptyMatchesReferenced(currentpkg: string, t: Type)
    ensures forall path :: path in AddedImports(currentpkg, map[], t) <==>
      exists p :: p in Referenced(currentpkg, t) && p.path == path
    ensures forall path :: path in AddedImports(currentpkg, map[], t) ==>
      Package(path, AddedImports(currentpkg, map[], t)[path]) in Referenced(currentpkg, t)
    decreases t, 1
  {
    match t
    case Basic =>
    case Slice(e) => FromEmptyMatchesReferenced(currentpkg, e);
    case Pointer(e) => FromEmptyMatchesReferenced(currentpkg, e);
    case Named(_, _) =>
    case Tuple(ts) => FromEmptySeqMatchesReferenced(currentpkg, ts);
    case Other =>
  }

  lemma {:induction false} FromEmptySeqMatchesReferenced(currentpkg: string, ts: seq<Type>)
    ensures forall path :: path in AddedImportsSeq(currentpkg, map[], ts) <==>
      exists p :: p in Referenced(currentpkg, Tuple(ts)) && p.path == path
    ensures forall path :: path in AddedImportsSeq(currentpkg, map[], ts) ==>
      Package(path, AddedImportsSeq(currentpkg, map[], ts)[path]) in Referenced(currentpkg, Tuple(ts))
    decreases ts, 0
  {
    if ts != [] {
      var pre, last := ts[..|ts| - 1], ts[|ts| - 1];
      assert ts == pre + [last];
      FromEmptySeqMatchesReferenced(currentpkg, pre);
      FromEmptyMatchesReferenced(currentpkg, last);
      AddedIsOverride(currentpkg, AddedImportsSeq(currentpkg, map[], pre), last);
      assert Referenced(currentpkg, Tuple(ts)) == Referenced(currentpkg, Tuple(pre)) + Referenced(currentpkg, last);
    }
  }

  /** imports.go:17-39 only ever adds: every path present before is present after, and a
      changed or new entry is the path and name of a referenced package. */
  lemma OnlyAdds(currentpkg: string, m: map<string, string>, t: Type)
    ensures m.Keys <= AddedImports(currentpkg, m, t).Keys
    ensures forall path :: path in AddedImports(currentpkg, m, t) ==>
      (path in m && AddedImports(currentpkg, m, t)[path] == m[path]) ||
      Package(path, AddedImports(currentpkg, m, t)[path]) in Referenced(currentpkg, t)
  {
    AddedIsOverride(currentpkg, m, t);
    FromEmptyMatchesReferenced(currentpkg, t);
  }

  /** The key set after the walk is the old key set plus the paths of the referenced packages. */
  lemma AddedKeys(currentpkg: string, m: map<string, string>, t: Type)
    ensures forall path :: path in AddedImports(currentpkg, m, t) <==>
      path in m || exists p :: p in Referenced(currentpkg, t) && p.path == path
  {
    AddedIsOverride(currentpkg, m, t);
    FromEmptyMatchesReferenced(currentpkg, t);
  }

  /** Applying AddImportsFrom twice with the same type gives the map of applying it once. */
  lemma Idempotent(currentpkg: string, m: map<string, string>, t: Type)
    ensures AddedImports(currentpkg, AddedImports(currentpkg, m, t), t) == AddedImports(currentpkg, m, t)
  {
    var d := AddedImports(currentpkg, map[], t);
    AddedIsOverride(currentpkg, m, t);
    AddedIsOverride(currentpkg, m + d, t);
    assert (m + d) + d == m + d;
  }

  /** The key set recorded for a tuple does not depend on the order of its elements (nor on
      repetitions): it is the union of what the elements record. */
  lemma TupleKeysIgnoreOrder(currentpkg: string, m: map<string, string>, ts: seq<Type>, us: seq<Type>)
    requires forall u :: u in ts <==> u in us
    ensures AddedImports(currentpkg, m, Tuple(ts)).Keys == AddedImports(currentpkg, m, Tuple(us)).Keys
  {
    AddedKeys(currentpkg, m, Tuple(ts));
    AddedKeys(currentpkg, m, Tuple(us));
    assert Referenced(currentpkg, Tuple(ts)) == Referenced(currentpkg, Tuple(us));
  }

  /** A path is recorded for a tuple exactly when it was present or one of the elements,
      walked on its own, records it. */
  lemma TupleKeysUnion(currentpkg: string, m: map<string, string>, ts: seq<Type>)
    ensures forall path :: path in AddedImports(currentpkg, m, Tuple(ts)) <==>
      path in m || exists i :: 0 <= i < |ts| && path in AddedImports(currentpkg, map[], ts[i])
  {
    AddedKeys(currentpkg, m, Tuple(ts));
    forall i | 0 <= i < |ts| {
      FromEmptyMatchesReferenced(currentpkg, ts[i]);
    }
  }

  /** No walk records the current package: the invariant of imports.go:29-32. */
  lemma KeepsNoSelfImport(currentpkg: string, m: map<string, string>, t: Type)
    requires NoSelfImport(m, currentpkg)
    ensures NoSelfImport(AddedImports(currentpkg, m, t), currentpkg)
  {
    OnlyAdds(currentpkg, m, t);
  }

  /** The single steps of the walk: Basic and the default branch change nothing, Slice and
      Pointer record what their element records, a Named type without a package or from the
      current package (compared by name, not by path) changes nothing, and any other Named
      type sets exactly its package's path to its package's name. */
  lemma WalkCases(currentpkg: string, m: map<string, string>, t: Type)
    ensures t.Basic? || t.Other? ==> AddedImports(currentpkg, m, t) == m
    ensures t.Slice? || t.Pointer? ==> AddedImports(currentpkg, m, t) == AddedImports(currentpkg, m, t.elem)
    ensures t.Named? && (t.pkg.None? || t.pkg.value.name == currentpkg) ==> AddedImports(currentpkg, m, t) == m
    ensures t.Named? && t.pkg.Some? && t.pkg.value.name != currentpkg ==>
      var r := AddedImports(currentpkg, m, t);
      t.pkg.value.path in r && r[t.pkg.value.path] == t.pkg.value.name &&
      forall path :: path != t.pkg.value.path ==> (path in r <==> path in m) && (path in m ==> r[path] == m[path])
  {
  }

  /** The tracker of imports.go:11-14. Every tracker made by New keeps NoSelfImport. */
  class ImportTracker {
    const currentpkg: string
    var imp: map<string, string>

    ghost predicate Valid()
      reads this
    {
      NoSelfImport(imp, currentpkg)
    }

    /** New of imports.go:47-52: an empty map bound to the current package. */
    constructor New(currentpkg: string)
      ensures this.currentpkg == currentpkg && imp == map[]
      ensures Valid()
    {
      this.currentpkg := currentpkg;
      imp := map[];
    }

    /** AddImportsFrom of imports.go:17-39, updating the map in place. */
    method AddImportsFrom(t: Type)
      requires Valid()
      modifies this
      ensures Valid()
      ensures imp == AddedImports(currentpkg, old(imp), t)
      decreases t
    {
      match t
      case Basic =>
      case Slice(e) => AddImportsFrom(e);
      case Pointer(e) => AddImportsFrom(e);
      case Named(_, pkg) =>
        if pkg.None? {
          return;
        }
        if pkg.value.name == currentpkg {
          return;
        }
        imp := imp[pkg.value.path := pkg.value.name];
      case Tuple(ts) =>
        var i := 0;
        while i < |ts|
          invariant 0 <= i <= |ts|
          invariant Valid()
          invariant imp == AddedImportsSeq(currentpkg, old(imp), ts[..i])
        {
          AddImportsFrom(ts[i]);
          assert ts[..i + 1][..i] == ts[..i];
          i := i + 1;
        }
        assert ts[..|ts|] == ts;
      case Other =>
    }

    /** Imports of imports.go:42-44: the recorded map as it stands. */
    method Imports() returns (r: map<string, string>)
      ensures r == imp
    {
      r := imp;
    }
  }

  /** A tracker bound to "foo" over (Slice(bar.T), Pointer(baz.U)) records exactly bar and baz. */
  method TupleExample() returns (tr: ImportTracker)
    ensures fresh(tr) && tr.Valid() && tr.currentpkg == "foo"
    ensures tr.imp == map["example.com/bar" := "bar", "example.com/baz" := "baz"]
  {
    var bar := Named("T", Some(Package("example.com/bar", "bar")));
    var baz := Named("U", Some(Package("example.com/baz", "baz")));
    tr := new ImportTracker.New("foo");
    var params := [Slice(bar), Pointer(baz)];
    tr.AddImportsFrom(Tuple(params));
    assert params[..1][..0] == [] && params[..1] == [Slice(bar)] && params[..|params| - 1] == params[..1];
    var m1 := map["example.com/bar" := "bar"];
    assert AddedImportsSeq("foo", map[], params[..1]) == m1;
    assert AddedImportsSeq("foo", map[], params) == AddedImports("foo", m1, Pointer(baz));
    assert AddedImports("foo", m1, Pointer(baz)) == m1["example.com/baz" := "baz"];
  }

  /** Adding bar.T again, directly or through a slice, a type of package foo itself, or a basic
      type, records nothing new. */
  method RepeatExample(tr: ImportTracker)
    requires tr.Valid() && tr.currentpkg == "foo"
    requires tr.imp == map["example.com/bar" := "bar", "example.com/baz" := "baz"]
    modifies tr
    ensures tr.imp == old(tr.imp)
  {
    var bar := Named("T", Some(Package("example.com/bar", "bar")));
    var self := Named("V", Some(Package("example.com/foo", "foo")));
    ghost var m := tr.imp;
    tr.AddImportsFrom(bar);
    assert m["example.com/bar" := "bar"] == m;
    tr.AddImportsFrom(Slice(bar));
    tr.AddImportsFrom(self);
    tr.AddImportsFrom(Basic);
  }
}
