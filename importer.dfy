/** Caching package resolver of importer/importer.go. The process environment, the file
    system, the Go parser, the type checker and the fallback importer are not visible to the
    model: they are fields of a Host value (or the importer's base), so what is verified is
    the cache discipline and the order in which the resolver consults them. */
module Importer {
  import opened Wrappers
  import opened GoStrings
  import opened GoTypes

  /** An error value, as the callees produce it. */
  datatype Error = Error(msg: string)

  /** A Go (*types.Package, error) pair: both halves are independent, so a callee may return
      a nil package with a nil error. */
  datatype Ret = Ret(pkg: Option<Package>, err: Option<Error>)

  /** An entry of ioutil.ReadDir: its base name and whether it is a directory. */
  datatype FileInfo = FileInfo(name: string, isDir: bool)

  /** A parsed source file (*ast.File), known only by identity. */
  datatype AstFile = AstFile(id: nat)

  /** What the resolver asks of the outside world:
      gopath   — os.Getenv("GOPATH");
      clean    — path.Clean, the last step of path.Join;
      abs      — filepath.Abs;
      isDir    — os.Stat succeeds and reports a directory;
      readDir  — ioutil.ReadDir;
      readFile — ioutil.ReadFile;
      parse    — parser.ParseFile on a file name and its contents;
      check    — types.Config.Check on a package path and the parsed files. */
  datatype Host = Host(
    gopath: string,
    clean: string -> string,
    abs: string -> Result<string, Error>,
    isDir: string -> bool,
    readDir: string -> Result<seq<FileInfo>, Error>,
    readFile: string -> Result<seq<bv8>, Error>,
    parse: (string, seq<bv8>) -> Result<AstFile, Error>,
    check: (string, seq<AstFile>) -> Ret)

  /** The GOPATH roots, in the order strings.Split gives them. */
  function Roots(h: Host): seq<string>
  {
    Split(h.gopath, ':')
  }

  /** The error of importer.go:44. */
  function NotInGopath(pkg: string): Error
  {
    Error(pkg + " not in $GOPATH")
  }

  /** What one iteration of gopathDir learns about one root. */
  datatype Probe = Found(dir: string) | AbsFailed(err: Error) | Missing

  /** importer.go:36-42 for one root: root/src/pkg made absolute, then checked for being a
      directory. A failed os.Stat and a plain file both count as missing. */
  function ProbeRoot(h: Host, root: string, pkg: string): Probe
  {
    match h.abs(PathJoin(h.clean, [root, "src", pkg]))
    case Err(e) => AbsFailed(e)
    case Ok(a) => if h.isDir(a) then Found(a) else Missing
  }

  /** The search of gopathDir over the remaining roots. */
  function SearchRoots(h: Host, roots: seq<string>, pkg: string): Result<string, Error>
  {
    if roots == [] then Err(NotInGopath(pkg))
    else match ProbeRoot(h, roots[0], pkg)
      case Found(d) => Ok(d)
      case AbsFailed(e) => Err(e)
      case Missing => SearchRoots(h, roots[1..], pkg)
  }

  /** Root i is the first one not missing. */
  ghost predicate FirstNotMissing(h: Host, roots: seq<string>, pkg: string, i: nat)
  {
    i < |roots| && !ProbeRoot(h, roots[i], pkg).Missing? &&
    forall j :: 0 <= j < i ==> ProbeRoot(h, roots[j], pkg).Missing?
  }

  /** Missing roots are passed over. */
  lemma {:induction false} SearchRootsSkipsMissing(h: Host, roots: seq<string>, pkg: string, i: nat)
    requires i <= |roots|
    requires forall j :: 0 <= j < i ==> ProbeRoot(h, roots[j], pkg).Missing?
    ensures SearchRoots(h, roots, pkg) == SearchRoots(h, roots[i..], pkg)
  {
    if i > 0 {
      var rest := roots[1..];
      assert ProbeRoot(h, roots[0], pkg).Missing?;
      assert SearchRoots(h, roots, pkg) == SearchRoots(h, rest, pkg);
      forall j | 0 <= j < i - 1 ensures ProbeRoot(h, rest[j], pkg).Missing? {
        assert rest[j] == roots[j + 1];
      }
      SearchRootsSkipsMissing(h, rest, pkg, i - 1);
      assert rest[i - 1..] == roots[i..];
    }
  }

  /** The search is decided by the first root that is not missing: an existing directory is
      the answer and an Abs failure is the error. */
  lemma SearchRootsFirstMatch(h: Host, roots: seq<string>, pkg: string, i: nat)
    requires FirstNotMissing(h, roots, pkg, i)
    ensures ProbeRoot(h, roots[i], pkg).Found? ==> SearchRoots(h, roots, pkg) == Ok(ProbeRoot(h, roots[i], pkg).dir)
    ensures ProbeRoot(h, roots[i], pkg).AbsFailed? ==> SearchRoots(h, roots, pkg) == Err(ProbeRoot(h, roots[i], pkg).err)
  {
    SearchRootsSkipsMissing(h, roots, pkg, i);
    assert roots[i..][0] == roots[i];
  }

  /** With every root missing the search fails with NotInGopath. */
  lemma {:induction false} SearchRootsNoneFound(h: Host, roots: seq<string>, pkg: string)
    requires forall i :: 0 <= i < |roots| ==> ProbeRoot(h, roots[i], pkg).Missing?
    ensures SearchRoots(h, roots, pkg) == Err(NotInGopath(pkg))
  {
    if roots != [] {
      assert ProbeRoot(h, roots[0], pkg).Missing?;
      forall i | 0 <= i < |roots| - 1 ensures ProbeRoot(h, roots[1..][i], pkg).Missing? {
        assert roots[1..][i] == roots[i + 1];
      }
      SearchRootsNoneFound(h, roots[1..], pkg);
    }
  }

  /** gopathDir of importer.go:34-45. */
  method GopathDir(h: Host, pkg: string) returns (r: Result<string, Error>)
    ensures r == SearchRoots(h, Roots(h), pkg)
  {
    var roots := Split(h.gopath, ':');
    var i := 0;
    while i < |roots|
      invariant 0 <= i <= |roots|
      invariant SearchRoots(h, roots, pkg) == SearchRoots(h, roots[i..], pkg)
    {
      var absPath := h.abs(PathJoin(h.clean, [roots[i], "src", pkg]));
      if absPath.Err? {
        return Err(absPath.error);
      }
      if h.isDir(absPath.value) {
        return Ok(absPath.value);
      }
      assert roots[i..][1..] == roots[i + 1..];
      i := i + 1;
    }
    return Err(NotInGopath(pkg));
  }

  /** The text removeGopath deletes for one root: root/src followed by a slash. */
  function SrcPrefix(h: Host, root: string): string
  {
    PathJoin(h.clean, [root, "src"]) + "/"
  }

  /** The rewrite of removeGopath over the remaining roots, applied in order; it never
      lengthens its argument. */
  function StripRoots(h: Host, p: string, roots: seq<string>): (r: string)
    ensures |r| <= |p|
  {
    if roots == [] then p
    else StripRoots(h, RemoveFirst(p, SrcPrefix(h, roots[0])), roots[1..])
  }

  /** removeGopath leaves its argument as it is when no root's prefix occurs in it. */
  lemma {:induction false} StripRootsNoMatch(h: Host, p: string, roots: seq<string>)
    requires forall k, j :: 0 <= k < |roots| && 0 <= j <= |p| ==> !OccursAt(p, SrcPrefix(h, roots[k]), j)
    ensures StripRoots(h, p, roots) == p
  {
    if roots != [] {
      assert RemoveFirst(p, SrcPrefix(h, roots[0])) == p;
      forall k, j | 0 <= k < |roots[1..]| && 0 <= j <= |p|
        ensures !OccursAt(p, SrcPrefix(h, roots[1..][k]), j)
      {
        assert roots[1..][k] == roots[k + 1];
      }
      StripRootsNoMatch(h, p, roots[1..]);
    }
  }

  /** With one root, a path below root/src/ loses exactly that prefix. */
  lemma StripSingleRoot(h: Host, root: string, rest: string)
    ensures StripRoots(h, SrcPrefix(h, root) + rest, [root]) == rest
  {
    var sub := SrcPrefix(h, root);
    RemoveFirstPrefix(sub, rest);
    assert [root][1..] == [];
  }

  /** removeGopath of importer.go:47-52. */
  method RemoveGopath(h: Host, p: string) returns (r: string)
    ensures r == StripRoots(h, p, Roots(h))
  {
    var roots := Split(h.gopath, ':');
    r := p;
    for i := 0 to |roots|
      invariant StripRoots(h, p, roots) == StripRoots(h, r, roots[i..])
    {
      assert roots[i..][1..] == roots[i + 1..];
      r := RemoveFirst(r, SrcPrefix(h, roots[i]));
    }
    assert roots[|roots|..] == [];
  }

  /** The directory entries fsPkg reads (importer.go:67-74): no directories, only names
      with extension ".go", in directory order. */
  function Selected(es: seq<FileInfo>): (sel: seq<FileInfo>)
    ensures |sel| <= |es|
    ensures forall f :: f in sel <==> f in es && !f.isDir && HasSuffix(f.name, ".go")
  {
    if es == [] then []
    else
      ExtGoIffSuffix(es[0].name);
      (if !es[0].isDir && Ext(es[0].name) == ".go" then [es[0]] else []) + Selected(es[1..])
  }

  /** Selection keeps directory order: the entries kept from a + b are those kept from a,
      followed by those kept from b. With the membership clause of Selected, this fixes the
      result for every listing. */
  lemma {:induction false} SelectedAppend(a: seq<FileInfo>, b: seq<FileInfo>)
    ensures Selected(a + b) == Selected(a) + Selected(b)
  {
    if a != [] {
      assert (a + b)[1..] == a[1..] + b;
      SelectedAppend(a[1..], b);
    } else {
      assert a + b == b;
    }
  }

  /** importer.go:75-83 for one entry: read dir/name, then parse it. */
  function Load(h: Host, dir: string, fi: FileInfo): Result<AstFile, Error>
  {
    var file := PathJoin(h.clean, [dir, fi.name]);
    match h.readFile(file)
    case Err(e) => Err(e)
    case Ok(src) => h.parse(file, src)
  }

  /** Load with the directory fixed. */
  function Loader(h: Host, dir: string): FileInfo -> Result<AstFile, Error>
  {
    fi => Load(h, dir, fi)
  }

  /** Loading a list of entries, stopping at the first failure. */
  function LoadAll(load: FileInfo -> Result<AstFile, Error>, sel: seq<FileInfo>): Result<seq<AstFile>, Error>
  {
    if sel == [] then Ok([])
    else match load(sel[0])
      case Err(e) => Err(e)
      case Ok(f) =>
        match LoadAll(load, sel[1..])
        case Err(e) => Err(e)
        case Ok(fs) => Ok([f] + fs)
  }

  /** Loading succeeds exactly when every entry loads, and then yields their files in
      order. */
  lemma {:induction false} LoadAllSucceeds(load: FileInfo -> Result<AstFile, Error>, sel: seq<FileInfo>)
    ensures LoadAll(load, sel).Ok? <==> forall i :: 0 <= i < |sel| ==> load(sel[i]).Ok?
    ensures LoadAll(load, sel).Ok? ==>
      |LoadAll(load, sel).value| == |sel| &&
      forall i :: 0 <= i < |sel| ==> load(sel[i]) == Ok(LoadAll(load, sel).value[i])
  {
    if sel != [] {
      LoadAllSucceeds(load, sel[1..]);
      assert forall i :: 1 <= i < |sel| ==> sel[i] == sel[1..][i - 1];
    }
  }

  /** A failed load answers the error of the first entry that does not load. */
  lemma {:induction false} LoadAllFails(load: FileInfo -> Result<AstFile, Error>, sel: seq<FileInfo>, i: nat)
    requires FirstFailing(load, sel, i)
    ensures LoadAll(load, sel) == Err(load(sel[i]).error)
  {
    if i > 0 {
      assert load(sel[0]).Ok?;
      forall j | 0 <= j < i - 1 ensures load(sel[1..][j]).Ok? {
        assert sel[1..][j] == sel[j + 1];
      }
      assert sel[1..][i - 1] == sel[i];
      LoadAllFails(load, sel[1..], i - 1);
    }
  }

  /** Some entry fails whenever loading fails. */
  lemma {:induction false} LoadAllFailureHasFirst(load: FileInfo -> Result<AstFile, Error>, sel: seq<FileInfo>)
    requires LoadAll(load, sel).Err?
    ensures exists i: nat :: FirstFailing(load, sel, i)
  {
    if load(sel[0]).Err? {
      assert FirstFailing(load, sel, 0);
    } else {
      LoadAllFailureHasFirst(load, sel[1..]);
      var k: nat :| FirstFailing(load, sel[1..], k);
      forall j | 0 <= j < k + 1 ensures load(sel[j]).Ok? {
        if j > 0 {
          assert sel[j] == sel[1..][j - 1];
        }
      }
      assert sel[k + 1] == sel[1..][k];
      assert FirstFailing(load, sel, k + 1);
    }
  }

  /** Entry i is the first one that does not load. */
  ghost predicate FirstFailing(load: FileInfo -> Result<AstFile, Error>, sel: seq<FileInfo>, i: nat)
  {
    i < |sel| && load(sel[i]).Err? && forall j :: 0 <= j < i ==> load(sel[j]).Ok?
  }

  /** The loop of importer.go:67-85 over the remaining entries, as it runs: each entry is
      filtered, then read and parsed, and the first failure ends the loop. */
  function Gather(load: FileInfo -> Result<AstFile, Error>, es: seq<FileInfo>): Result<seq<AstFile>, Error>
  {
    if es == [] then Ok([])
    else if es[0].isDir || Ext(es[0].name) != ".go" then Gather(load, es[1..])
    else match load(es[0])
      case Err(e) => Err(e)
      case Ok(f) =>
        match Gather(load, es[1..])
        case Err(e) => Err(e)
        case Ok(fs) => Ok([f] + fs)
  }

  /** The loop touches only the selected entries: it reads exactly what loading the
      selected entries in order reads, and answers the same. */
  lemma {:induction false} GatherLoadsSelected(load: FileInfo -> Result<AstFile, Error>, es: seq<FileInfo>)
    ensures Gather(load, es) == LoadAll(load, Selected(es))
  {
    if es != [] {
      GatherLoadsSelected(load, es[1..]);
      if !es[0].isDir && Ext(es[0].name) == ".go" {
        assert Selected(es) == [es[0]] + Selected(es[1..]);
        assert Selected(es)[1..] == Selected(es[1..]);
      } else {
        assert Selected(es) == Selected(es[1..]);
      }
    }
  }

  /** The result of fsPkg of importer.go:54-93. */
  function FsPkgSpec(h: Host, base: string -> Ret, pkg: string): Ret
  {
    match SearchRoots(h, Roots(h), pkg)
    case Err(_) => base(pkg)
    case Ok(dir) =>
      match h.readDir(dir)
      case Err(_) => base(pkg)
      case Ok(es) =>
        match Gather(Loader(h, dir), es)
        case Err(e) => Ret(None, Some(e))
        case Ok(files) =>
          var c := h.check(pkg, files);
          Ret(if c.err.Some? then base(pkg).pkg else c.pkg, None)
  }

  /** Without a source directory, or when it cannot be listed, fsPkg is exactly the
      fallback importer (importer.go:55-63). */
  lemma FsPkgFallsBack(h: Host, base: string -> Ret, pkg: string)
    ensures SearchRoots(h, Roots(h), pkg).Err? ==> FsPkgSpec(h, base, pkg) == base(pkg)
    ensures SearchRoots(h, Roots(h), pkg).Ok? && h.readDir(SearchRoots(h, Roots(h), pkg).value).Err? ==>
      FsPkgSpec(h, base, pkg) == base(pkg)
  {
  }

  /** When a selected file cannot be read or parsed, fsPkg answers that error with a nil
      package and does not fall back (importer.go:76-83); the first failing file decides. */
  lemma FsPkgLoadErrorIsFinal(h: Host, base: string -> Ret, pkg: string, i: nat)
    ensures var d := SearchRoots(h, Roots(h), pkg);
      d.Ok? && h.readDir(d.value).Ok? && FirstFailing(Loader(h, d.value), Selected(h.readDir(d.value).value), i) ==>
        FsPkgSpec(h, base, pkg) == Ret(None, Some(Load(h, d.value, Selected(h.readDir(d.value).value)[i]).error))
  {
    var d := SearchRoots(h, Roots(h), pkg);
    if d.Ok? && h.readDir(d.value).Ok? {
      var es := h.readDir(d.value).value;
      GatherLoadsSelected(Loader(h, d.value), es);
      if FirstFailing(Loader(h, d.value), Selected(es), i) {
        LoadAllFails(Loader(h, d.value), Selected(es), i);
      }
    }
  }

  /** When every selected file loads, the files are type-checked in directory order; a
      failed check is replaced by the fallback importer's package, and fsPkg reports no
      error on this path even if the fallback failed too (importer.go:86-92). */
  lemma FsPkgTypeCheckFallback(h: Host, base: string -> Ret, pkg: string, dir: string, es: seq<FileInfo>)
    requires SearchRoots(h, Roots(h), pkg) == Ok(dir) && h.readDir(dir) == Ok(es)
    requires forall i :: 0 <= i < |Selected(es)| ==> Load(h, dir, Selected(es)[i]).Ok?
    ensures LoadAll(Loader(h, dir), Selected(es)).Ok?
    ensures var files := LoadAll(Loader(h, dir), Selected(es)).value;
      |files| == |Selected(es)| &&
      (forall i :: 0 <= i < |files| ==> Load(h, dir, Selected(es)[i]) == Ok(files[i])) &&
      FsPkgSpec(h, base, pkg) ==
        Ret(if h.check(pkg, files).err.Some? then base(pkg).pkg else h.check(pkg, files).pkg, None)
  {
    GatherLoadsSelected(Loader(h, dir), es);
    LoadAllSucceeds(Loader(h, dir), Selected(es));
  }

  /** Once the source directory is listed, the only error fsPkg reports is that of the
      first selected file that cannot be read or parsed, with a nil package: a type-check
      failure is never reported. */
  lemma FsPkgNoCheckError(h: Host, base: string -> Ret, pkg: string)
    ensures var d := SearchRoots(h, Roots(h), pkg);
      d.Ok? && h.readDir(d.value).Ok? && FsPkgSpec(h, base, pkg).err.Some? ==>
        FsPkgSpec(h, base, pkg).pkg.None? &&
        exists i: nat :: (FirstFailing(Loader(h, d.value), Selected(h.readDir(d.value).value), i) &&
          FsPkgSpec(h, base, pkg).err == Some(Load(h, d.value, Selected(h.readDir(d.value).value)[i]).error))
  {
    var d := SearchRoots(h, Roots(h), pkg);
    if d.Ok? && h.readDir(d.value).Ok? && FsPkgSpec(h, base, pkg).err.Some? {
      var es := h.readDir(d.value).value;
      GatherLoadsSelected(Loader(h, d.value), es);
      LoadAllFailureHasFirst(Loader(h, d.value), Selected(es));
      var i: nat :| FirstFailing(Loader(h, d.value), Selected(es), i);
      LoadAllFails(Loader(h, d.value), Selected(es), i);
    }
  }

  /** Prepends the files already gathered to the outcome of the rest of the loop. */
  function Prepend(files: seq<AstFile>, r: Result<seq<AstFile>, Error>): Result<seq<AstFile>, Error>
  {
    match r
    case Err(e) => Err(e)
    case Ok(fs) => Ok(files + fs)
  }

  /** One iteration of the loop of importer.go:67-85, seen from the files gathered so far. */
  lemma GatherStep(load: FileInfo -> Result<AstFile, Error>, es: seq<FileInfo>, i: nat, files: seq<AstFile>)
    requires i < |es|
    ensures es[i].isDir || Ext(es[i].name) != ".go" ==>
      Prepend(files, Gather(load, es[i..])) == Prepend(files, Gather(load, es[i + 1..]))
    ensures !es[i].isDir && Ext(es[i].name) == ".go" && load(es[i]).Err? ==>
      Prepend(files, Gather(load, es[i..])) == Err(load(es[i]).error)
    ensures !es[i].isDir && Ext(es[i].name) == ".go" && load(es[i]).Ok? ==>
      Prepend(files, Gather(load, es[i..])) == Prepend(files + [load(es[i]).value], Gather(load, es[i + 1..]))
  {
    assert es[i..][0] == es[i] && es[i..][1..] == es[i + 1..];
    var rest := Gather(load, es[i + 1..]);
    if rest.Ok? && load(es[i]).Ok? {
      assert files + ([load(es[i]).value] + rest.value) == (files + [load(es[i]).value]) + rest.value;
    }
  }

  /** The loop of importer.go:65-85: every entry that is not a directory and has the
      extension ".go" is read and parsed, in directory order; the first read or parse
      error is the answer. */
  method ParseFiles(h: Host, dir: string, es: seq<FileInfo>) returns (r: Result<seq<AstFile>, Error>)
    ensures r == Gather(Loader(h, dir), es)
  {
    ghost var load := Loader(h, dir);
    var files: seq<AstFile> := [];
    assert es[0..] == es;
    assert Gather(load, es).Ok? ==> files + Gather(load, es).value == Gather(load, es).value;
    for i := 0 to |es|
      invariant Gather(load, es) == Prepend(files, Gather(load, es[i..]))
    {
      GatherStep(load, es, i, files);
      var fileInfo := es[i];
      if fileInfo.isDir {
        continue;
      }
      var n := fileInfo.name;
      if Ext(n) != ".go" {
        continue;
      }
      var file := PathJoin(h.clean, [dir, n]);
      var src := h.readFile(file);
      if src.Err? {
        assert load(fileInfo) == Err(src.error);
        return Err(src.error);
      }
      var f := h.parse(file, src.value);
      assert load(fileInfo) == f;
      if f.Err? {
        return Err(f.error);
      }
      files := files + [f.value];
    }
    assert es[|es|..] == [] && files + [] == files;
    return Ok(files);
  }

  /** Entry k of a load log is the last time p was handed to fsPkg. */
  ghost predicate LastLoadAt(log: seq<string>, p: string, k: int)
  {
    0 <= k < |log| && log[k] == p && forall j :: k < j < |log| ==> log[j] != p
  }

  /** The importer of importer.go:17-20. The ghost field loads records every package path
      handed to fsPkg, in call order; the ghost field filledAt maps each cached path to the
      entry of loads whose fsPkg call filled its cache entry. */
  class CustomImporter {
    var imported: map<string, Option<Package>>
    const base: string -> Ret
    ghost var loads: seq<string>
    ghost var filledAt: map<string, int>

    /** The cache invariant: the load that filled a cached path's entry is the last load of
        that path, so once cached, a path is never handed to fsPkg again. */
    ghost predicate Valid()
      reads this
    {
      forall p :: p in imported ==> p in filledAt && LastLoadAt(loads, p, filledAt[p])
    }

    /** Default of importer.go:96-101, with the fallback importer as a parameter: a fresh,
        empty cache. */
    constructor Default(base: string -> Ret)
      ensures Valid()
      ensures imported == map[] && this.base == base && loads == [] && filledAt == map[]
    {
      imported := map[];
      this.base := base;
      loads := [];
      filledAt := map[];
    }

    /** fsPkg of importer.go:54-93. */
    method FsPkg(h: Host, pkg: string) returns (r: Ret)
      ensures r == FsPkgSpec(h, base, pkg)
    {
      var dir := GopathDir(h, pkg);
      if dir.Err? {
        return base(pkg);
      }
      var dirFiles := h.readDir(dir.value);
      if dirFiles.Err? {
        return base(pkg);
      }
      var files := ParseFiles(h, dir.value, dirFiles.value);
      if files.Err? {
        return Ret(None, Some(files.error));
      }
      var p := h.check(pkg, files.value);
      if p.err.Some? {
        p := base(pkg);
      }
      return Ret(p.pkg, None);
    }

    /** Import of importer.go:22-32: a cache hit answers the cached package (possibly nil)
        without calling fsPkg; a miss calls fsPkg once, caches its package when it reports no
        error and otherwise answers its error, leaving the cache as it was. */
    method Import(h: Host, path: string) returns (r: Ret)
      requires Valid()
      modifies this
      ensures Valid()
      ensures path in old(imported) ==>
        r == Ret(old(imported)[path], None) && imported == old(imported) && loads == old(loads) &&
        filledAt == old(filledAt)
      ensures path !in old(imported) ==>
        loads == old(loads) + [path] &&
        var f := FsPkgSpec(h, base, path);
        if f.err.Some? then r == Ret(None, f.err) && imported == old(imported) && filledAt == old(filledAt)
        else (r == Ret(f.pkg, None) && imported == old(imported)[path := f.pkg] &&
              filledAt == old(filledAt)[path := |old(loads)|])
    {
      if path in imported {
        return Ret(imported[path], None);
      }
      ghost var log := loads;
      loads := loads + [path];
      forall p | p in imported ensures LastLoadAt(loads, p, filledAt[p]) {
        assert LastLoadAt(log, p, filledAt[p]);
      }
      var f := FsPkg(h, path);
      if f.err.Some? {
        return Ret(None, f.err);
      }
      imported := imported[path := f.pkg];
      filledAt := filledAt[path := |loads| - 1];
      return Ret(f.pkg, None);
    }
  }

  /** Two resolutions of one path by one importer: once the first succeeds, the second
      answers the same package without calling fsPkg, whatever the environment is by then. */
  method ResolveTwice(imp: CustomImporter, h1: Host, h2: Host, path: string) returns (r1: Ret, r2: Ret)
    requires imp.Valid()
    modifies imp
    ensures imp.Valid()
    ensures r1.err.None? ==> r2 == r1 && path in imp.imported
    ensures r1.err.None? ==> imp.loads == old(imp.loads) || imp.loads == old(imp.loads) + [path]
    ensures r1.err.None? ==>
      path in imp.filledAt && LastLoadAt(imp.loads, path, imp.filledAt[path]) && r2 == Ret(imp.imported[path], None)
  {
    r1 := imp.Import(h1, path);
    r2 := imp.Import(h2, path);
  }

  /** A path with no usable source directory resolves exactly as the fallback importer
      resolves it, and a failed fallback leaves no cache entry. */
  method ResolveWithoutSource(imp: CustomImporter, h: Host, path: string) returns (r: Ret)
    requires imp.Valid() && path !in imp.imported
    requires SearchRoots(h, Roots(h), path).Err?
    modifies imp
    ensures r.err == imp.base(path).err
    ensures r.err.None? ==> r.pkg == imp.base(path).pkg && imp.imported == old(imp.imported)[path := r.pkg]
    ensures r.err.Some? ==> imp.imported == old(imp.imported)
  {
    r := imp.Import(h, path);
    FsPkgFallsBack(h, imp.base, path);
  }

  /** Run isolation: an importer made by Default for a second run shares nothing with the
      first, so the path is loaded again. */
  method TwoRuns(base: string -> Ret, h: Host, path: string) returns (first: CustomImporter, second: CustomImporter)
    ensures first != second
    ensures first.loads == [path] && second.loads == [path]
  {
    first := new CustomImporter.Default(base);
    var _ := first.Import(h, path);
    second := new CustomImporter.Default(base);
    var _ := second.Import(h, path);
  }
}
