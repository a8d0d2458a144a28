# gogen resolver and import tracker, modelled in Dafny

This project models the two algorithmic parts of the gogen mock generator:

- **The import usage tracker** (`imports/imports.go`). A tracker is bound to the name of
  the package being generated into. `AddImportsFrom` walks a Go type descriptor (basic,
  slice, pointer, named, tuple, anything else). For every named type whose package is not
  nil and whose package name differs from the current one, it records `path -> name` in
  its map. `Imports` hands the map back.
- **The caching package resolver** (`importer/importer.go`). `Import` looks the path up in
  its `imported` cache. On a miss it calls `fsPkg` and caches the package whenever `fsPkg`
  reports no error. `fsPkg` does the following:
  - it searches the GOPATH roots for `root/src/pkg`;
  - if no root has that directory, or the directory cannot be listed, it falls back to the
    base importer;
  - it reads and parses every non-directory `.go` entry, and returns a read or parse error
    as it is;
  - it type-checks the parsed files; if that fails, it takes the base importer's package
    and always reports no error.
  `removeGopath` deletes the first `root/src/` from a path, for each root in turn.

Module `Imports` (imports.dfy) holds the type descriptor `Type` as a closed datatype. It
defines the walk as the function `AddedImports`, with a reference definition `Referenced`
(the set of packages a type mentions), and the class `ImportTracker`. The class keeps the
map in place, and its recursive `AddImportsFrom`, with its loop over a tuple's elements,
is proved equal to the function. Module `Importer` (importer.dfy) holds the class
`CustomImporter`, whose methods `Import` and `FsPkg` are proved against the specification
function `FsPkgSpec`, and the module-level methods `GopathDir`, `RemoveGopath` and
`ParseFiles`, loops proved against the specification functions `SearchRoots`,
`StripRoots` and `Gather`. Lemmas then state what the source promises about those
functions. Module `GoStrings` (gostrings.dfy) writes out the parts of Go's `strings` and
`path` packages that the resolver's behaviour depends on. Module `GoTypes` (gotypes.dfy)
holds the `Package` value both parts share. Module `Wrappers` (wrappers.dfy) holds
`Option` and `Result`.

The outside world is a `Host` value whose fields stand for `os.Getenv("GOPATH")`,
`path.Clean`, `filepath.Abs`, `os.Stat(..).IsDir()`, `ioutil.ReadDir`, `ioutil.ReadFile`,
`parser.ParseFile` and `types.Config.Check`. The base importer (`importer.Default()`) is the
importer's `base` field, a function from path to a Go `(package, error)` pair `Ret`. A
ghost log `loads` in `CustomImporter` records each path handed to `fsPkg`, and a ghost map
`filledAt` records, for each cached path, which load filled its entry. This is how the
model states that a cache hit does no work.

Behaviour of the code worth knowing, which the model keeps:

- Packages obtained from the base importer are cached too, like any other `fsPkg` result
  (importer/importer.go:30).
- A read error or a parse error is returned with no fallback (importer/importer.go:76-83).
- After a failed type check, `fsPkg` reports no error even when the base importer fails
  too (importer/importer.go:89-92). `Import` then caches whatever package the base
  importer returned for that path, a nil one included.
- The type-check error is discarded (importer/importer.go:89-90).
- A `filepath.Abs` failure on some root ends the search with that error. `fsPkg` then
  falls back to the base importer, the same as when no root has the directory.

## Model

| member | source | states |
|---|---|---|
| Imports.AddedImports | imports/imports.go:17-39 | definition of the walk, case by case; properties in AddedIsOverride, FromEmptyMatchesReferenced, OnlyAdds, AddedKeys, Idempotent, KeepsNoSelfImport and WalkCases |
| Imports.AddedImportsSeq | imports/imports.go:33-36 | definition of the tuple loop, elements visited left to right; properties in AddedSeqIsOverride, FromEmptySeqMatchesReferenced, TupleKeysIgnoreOrder and TupleKeysUnion |
| Imports.AddedIsOverride | imports/imports.go:17-39 | the walk from any map m is m overridden by the walk from the empty map |
| Imports.AddedSeqIsOverride | imports/imports.go:33-36 | the same for the tuple loop over a list of element types |
| Imports.Referenced | imports/imports.go:24-32 | reference definition: the set of packages a type mentions; none of them is named like the current package |
| Imports.FromEmptyMatchesReferenced | imports/imports.go:17-39 | from an empty map, the recorded paths are exactly the paths of the referenced packages, and each entry is the path and name of a referenced package |
| Imports.FromEmptySeqMatchesReferenced | imports/imports.go:33-36 | the same for the loop over a tuple's elements |
| Imports.OnlyAdds | imports/imports.go:17-39 | every key present before is present after; a changed or new entry is the path and name of a referenced package |
| Imports.AddedKeys | imports/imports.go:17-39 | the key set after the walk is the old key set plus the paths of the referenced packages |
| Imports.Idempotent | imports/imports.go:17-39 | applying AddImportsFrom twice with one type gives the map of applying it once |
| Imports.TupleKeysIgnoreOrder | imports/imports.go:33-36 | two tuples with the same element types, in any order and with any repetitions, record the same key set |
| Imports.TupleKeysUnion | imports/imports.go:33-36 | a tuple records a path exactly when the map had it or one of its elements records it on its own |
| Imports.KeepsNoSelfImport | imports/imports.go:29-32 | if no entry's name is the current package, this stays true after the walk |
| Imports.WalkCases | imports/imports.go:18-38 | Basic and default change nothing; Slice and Pointer walk the element; a nil or same-name package changes nothing (the comparison is on the name, not the path); otherwise exactly pkg.Path() is set to pkg.Name() and all other entries are unchanged |
| Imports.ImportTracker.New | imports/imports.go:47-52 | a fresh tracker has an empty map, is bound to the given package, and satisfies the no-self-import invariant |
| Imports.ImportTracker.AddImportsFrom | imports/imports.go:17-39 | the in-place recursive walk, with its indexed tuple loop, leaves the map equal to AddedImports of the old map, and keeps the no-self-import invariant |
| Imports.ImportTracker.Imports | imports/imports.go:42-44 | returns the current map unchanged |
| Imports.TupleExample | imports/imports.go:17-39 | a tracker for foo over (Slice(bar.T), Pointer(baz.U)) records exactly bar and baz |
| Imports.RepeatExample | imports/imports.go:17-39 | adding bar.T again, directly or through a slice, adding a type of foo, or adding a basic type, changes nothing |
| GoStrings.Split | importer/importer.go:35 | strings.Split by ':' gives at least one part; no part holds ':'; joining the parts with ':' gives the input back |
| GoStrings.IndexFrom | importer/importer.go:49 | the first index at or after from where sub occurs, or None when it occurs nowhere there |
| GoStrings.RemoveFirst | importer/importer.go:49 | strings.Replace(s, sub, "", 1) deletes the first occurrence of sub, leaves s alone when sub is empty or absent, and never lengthens s |
| GoStrings.RemoveFirstPrefix | importer/importer.go:49 | a string that starts with sub loses exactly that leading copy (an empty sub removes nothing) |
| GoStrings.Ext | importer/importer.go:72 | path.Ext is "" exactly when no dot follows the last slash; otherwise it is the suffix from the last dot, holding no '/' and no other '.' |
| GoStrings.ExtScan | importer/importer.go:72 | the right-to-left scan inside path.Ext, with the same two properties over a prefix |
| GoStrings.ExtGoIffSuffix | importer/importer.go:72 | path.Ext(name) == ".go" holds exactly when name ends in ".go" |
| GoStrings.DropLeadingEmpty | importer/importer.go:36 | the elements from the first non-empty one on; everything dropped is empty |
| GoStrings.PathJoin | importer/importer.go:36 | path.Join of all-empty elements is "" |
| Importer.Roots | importer/importer.go:35 | definition: the GOPATH roots as strings.Split by ':' gives them; properties in GoStrings.Split |
| Importer.NotInGopath | importer/importer.go:44 | definition: the error "pkg not in $GOPATH"; used by SearchRootsNoneFound |
| Importer.ProbeRoot | importer/importer.go:36-42 | definition of one iteration: root/src/pkg made absolute, then found only if it is a directory; properties in SearchRootsFirstMatch |
| Importer.SearchRoots | importer/importer.go:34-44 | definition of the search over the roots in order; properties in SearchRootsSkipsMissing, SearchRootsFirstMatch and SearchRootsNoneFound |
| Importer.SearchRootsSkipsMissing | importer/importer.go:35-43 | roots whose directory is missing are passed over |
| Importer.SearchRootsFirstMatch | importer/importer.go:35-43 | the first root that is not missing decides: an existing directory is the answer, an Abs failure is the error |
| Importer.SearchRootsNoneFound | importer/importer.go:44 | with every root missing, the search fails with "pkg not in $GOPATH" |
| Importer.GopathDir | importer/importer.go:34-45 | the loop over the ':'-split roots returns what SearchRoots over those roots decides |
| Importer.SrcPrefix | importer/importer.go:49 | definition: path.Join(root, "src") + "/"; used by StripRoots and StripSingleRoot |
| Importer.StripRoots | importer/importer.go:47-52 | the rewrite of removeGopath, one RemoveFirst per root in order; it never lengthens its argument |
| Importer.StripRootsNoMatch | importer/importer.go:47-52 | when no root's "root/src/" occurs in p, removeGopath returns p |
| Importer.StripSingleRoot | importer/importer.go:47-52 | with one root, "root/src/" + rest becomes rest |
| Importer.RemoveGopath | importer/importer.go:47-52 | the loop that reassigns p for each root in order returns StripRoots of p over the roots |
| Importer.Selected | importer/importer.go:67-74 | the entries kept are exactly the non-directory entries whose name ends in ".go" |
| Importer.SelectedAppend | importer/importer.go:67-74 | selection keeps directory order: Selected(a + b) is Selected(a) followed by Selected(b) |
| Importer.Load | importer/importer.go:75-83 | definition of one entry: read path.Join(dir, name), then parse it; properties in FsPkgLoadErrorIsFinal |
| Importer.LoadAll | importer/importer.go:75-85 | definition: load the selected entries in order, stopping at the first failure; properties in LoadAllSucceeds, LoadAllFails and LoadAllFailureHasFirst |
| Importer.Gather | importer/importer.go:67-85 | definition of the loop as it runs, filtering and loading entry by entry; properties in GatherLoadsSelected and GatherStep |
| Importer.FsPkgSpec | importer/importer.go:54-93 | definition of fsPkg's result; properties in FsPkgFallsBack, FsPkgLoadErrorIsFinal, FsPkgTypeCheckFallback and FsPkgNoCheckError |
| Importer.LoadAllSucceeds | importer/importer.go:75-85 | loading succeeds exactly when every selected file can be read and parsed, and then yields their syntax trees in order |
| Importer.LoadAllFails | importer/importer.go:76-83 | a failed load returns the error of the first selected file that cannot be read or parsed |
| Importer.LoadAllFailureHasFirst | importer/importer.go:76-83 | whenever loading fails, some selected file is the first to fail |
| Importer.GatherLoadsSelected | importer/importer.go:67-85 | the filtering loop reads and parses exactly the selected entries, in order, and returns the same result as loading them |
| Importer.GatherStep | importer/importer.go:67-85 | one iteration: a skipped entry changes nothing, a failing entry ends the loop with its error, and a loaded entry appends its tree |
| Importer.ParseFiles | importer/importer.go:65-85 | the loop with its continue statements and early returns computes Gather over the directory listing |
| Importer.FsPkgFallsBack | importer/importer.go:55-63 | if gopathDir or ReadDir fails, fsPkg is exactly base.Import(pkg) |
| Importer.FsPkgLoadErrorIsFinal | importer/importer.go:76-83 | a read or parse error returns (nil, err) for the first failing file, with no fallback |
| Importer.FsPkgTypeCheckFallback | importer/importer.go:86-92 | when every file loads, the result is Check's package, or base.Import's package if Check failed, and the error is always nil |
| Importer.FsPkgNoCheckError | importer/importer.go:86-92 | once the directory is listed, the only error fsPkg can report is the first read or parse error; a type-check error never is |
| Importer.CustomImporter.Default | importer/importer.go:96-101 | a new importer has an empty cache, an empty load log and no filled entries |
| Importer.CustomImporter.FsPkg | importer/importer.go:54-93 | the method's result equals FsPkgSpec |
| Importer.CustomImporter.Import | importer/importer.go:22-32 | a hit returns the cached (possibly nil) package with nil error and does not call fsPkg; a miss calls fsPkg once, and on success caches its package under path, changing no other entry, and records that load as the one that filled the entry; on failure it returns (nil, err) and leaves the cache unchanged; it keeps the invariant that the load which filled a cached entry is the last load of that path |
| Importer.ResolveTwice | importer/importer.go:22-32 | after a successful first Import, a second Import of the same path returns the same result without calling fsPkg, even if the environment has changed: the two calls load the path at most once between them, and the load that filled its entry is its last load |
| Importer.ResolveWithoutSource | importer/importer.go:26-31 | with no usable GOPATH directory, Import succeeds exactly when base.Import does; a failed fallback leaves no cache entry |
| Importer.TwoRuns | importer/importer.go:96-101 | two importers made by Default are distinct, and each loads the path itself |

## Left out

- Re-entrant resolution: `types.Config.Check` is handed the importer itself and may call
  `Import` for dependencies. This can add other cache entries before line 30 runs, and it
  governs import cycles. Here `Host.check` is a function with no access to the cache, so
  the model says nothing about those nested entries or about cycles.
- Environment, file system and foreign libraries: `os.Getenv`, `filepath.Abs`, `os.Stat`,
  `ioutil.ReadDir`, `ioutil.ReadFile`, `parser.ParseFile`, `types.Config.Check` and
  `importer.Default()` are fields of `Host` or the importer's `base` parameter. The
  `token.FileSet` positions are not modelled.
- `path.Clean` is a parameter (`Host.clean`). Its lexical rules (dropping `.` and `..`,
  collapsing repeated slashes) are not written out.
- GoStrings.PathJoin: its contract states only the all-empty case; for other arguments it
  is defined by its body: leading empty elements dropped, the rest joined by '/', then
  cleaned.
- A package symbol table is its path and name only. A parsed file is an opaque `AstFile`.
  Go's byte strings are Dafny `string`s: paths and file names are taken to be valid UTF-8.
  On those, byte-level and character-level substring search agree, and ':', '/' and '.'
  are single bytes. Names that are not valid UTF-8 cannot be expressed.
- Types the tracker does not look into (maps, channels, signatures, structs, interfaces,
  arrays) are the single `Other` variant. A tuple holds the types of its variables, not the
  variables.
- Imports.ImportTracker.Imports: Go returns the map by reference, so a caller's later
  writes would show up in the tracker. The model returns the map as a value.
- `automock/method.go` is not part of this model. It stringifies a method's parameter and
  result types through the generator's qualifier and has no logic of its own.
