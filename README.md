# modinfo: module resolution for a Go analysis pass

This project models the module-resolution core of the Go package `modinfo`
(`module.go`) in Dafny and proves properties of it. It covers two operations.

- **Inventory building** is the part of the analyzer's `run` that follows the
  `go list -m -json` call. The command's output is taken as the stream of
  steps the JSON decoder yields: either a decoded `ModInfo` record or a
  malformed value. The build stops with "unmarshaling error" at a malformed
  value and with "working directory is not part of a module" at a record
  whose `GoMod` is empty, whichever comes first. Otherwise it keeps the
  records with `Main` set and a non-empty `Dir`. It fails with "go.mod file
  not found" when it keeps none. The rest are sorted in place, longest module
  *path* first, with `sort.Slice`.
- **Resolution** is `FindModule`. It picks the first file of the pass whose
  `filepath.Ext` is `.go`, and fails with "OOPS" when there is none. It then
  returns the first inventory entry whose `Dir` is a `strings.HasPrefix`
  prefix of that file name. If no entry matches, it fails with "module
  information not found".

Files:
- `wrappers.dfy` holds `Option` and `Result`, which stand for Go's `(value, error)` returns.
- `gostrings.dfy` holds `strings.HasPrefix`, `strings.HasSuffix` and `filepath.Ext`
  for a platform whose path separator is `/`. It also proves that `Ext(f) == ".go"`
  is the same test as "`f` ends in `.go`".
- `modinfo.dfy` holds the `ModInfo` record, the error kinds and their messages,
  and both operations. Each operation is a method with loops, mirroring the Go code.
  The insertion sort works in place on an array, standing for `sort.Slice`.
  `FindModule` is proved equal to the pure function `Resolve`, and the lemmas
  about resolution are stated on `Resolve`.

Three points of the code's behaviour are easy to misread, and the model follows the code:
- The inventory is sorted by the length of the module path (`Path`), not of
  the directory (`Dir`). The "deepest directory wins" property therefore holds
  only for an inventory that happens to be ordered by directory length
  (`ResolveFindsDeepest`). `PathOrderCanShadowNestedModule` shows an inventory,
  ordered as `run` orders it, in which a file in a nested module resolves to
  the enclosing workspace module.
- `sort.Slice` is not stable. The sort is specified as a permutation ordered
  by non-increasing path length, with nothing said about ties.
- The prefix test is a raw character prefix, not a path-element prefix
  (`PrefixIsNotPathElementwise`).

## Model

| member | source | states |
|---|---|---|
| `GoStrings.Ext` | module.go:87 | the extension is a suffix of the name; it is empty exactly when the final path element has no dot; otherwise it starts with the last dot and holds no other dot and no separator |
| `GoStrings.ExtIsGoIffHasSuffix` | module.go:87 | `filepath.Ext(f) == ".go"` holds exactly when `f` ends in `.go` |
| `Modinfo.Kept` | module.go:65-69 | the records kept by the filter are all main modules with a non-empty directory, and there are no more of them than steps in the stream |
| `Modinfo.KeptMembers` | module.go:65-69 | a record is kept if and only if it is usable (main, with a directory) and occurs in the stream, so the filter neither loses nor invents records |
| `Modinfo.FirstAbort` | module.go:55-63 | no position is found exactly when no step of the stream is malformed or lacks go.mod; otherwise the position found is such a step and no earlier step is |
| `Modinfo.EmptyGoModAborts` | module.go:61-63 | a record with an empty go.mod, main or not, that no malformed value precedes makes the build stop with "working directory is not part of a module", whatever follows it |
| `Modinfo.InsertAt` | module.go:76-78 | one insertion step extends the ordered prefix of the array by one entry, permutes the array and leaves the entries after that prefix unchanged |
| `Modinfo.SortByPathLength` | module.go:76-78 | the array ends ordered by non-increasing module path length and is a permutation of what it held |
| `Modinfo.DecodeAndFilter` | module.go:53-70 | the decode loop fails with "unmarshaling error" or "not part of a module" according to the first step that stops the build, and otherwise yields exactly the usable records, in stream order |
| `Modinfo.BuildInventory` | module.go:53-80 | fails with the error of the first step that stops the build; when nothing stops it and the filter keeps nothing, fails with "go.mod file not found"; otherwise succeeds with a permutation of the kept records, ordered by non-increasing path length; a successful inventory is never empty and holds only main records with a directory |
| `Modinfo.FirstGoFile` | module.go:84-97 | none is found exactly when no file of the pass is a Go file; otherwise the position found holds a Go file and no earlier position does |
| `Modinfo.FirstEnclosing` | module.go:99-106 | none is found exactly when no entry's directory prefixes the name; otherwise the entry found has a prefixing directory and no earlier entry does |
| `Modinfo.Resolve` | module.go:83-107 | resolution fails only with "OOPS" or "module information not found" |
| `Modinfo.FindModule` | module.go:83-107 | the two loops, with their early exit and early return, compute exactly `Resolve` |
| `Modinfo.ResolveNoGoFile` | module.go:84-97 | resolution fails with "OOPS" if and only if no file of the pass is a Go file |
| `Modinfo.ResolveModuleNotFound` | module.go:99-106 | resolution fails with "module information not found" if and only if there is a first Go file and no entry's directory prefixes it |
| `Modinfo.ResolveFound` | module.go:99-104 | on success the result is the first inventory entry whose directory prefixes the first Go file |
| `Modinfo.ResolveFindsDeepest` | module.go:99-104 | if the inventory is ordered by non-increasing directory length, the entry returned has the longest directory among all entries that prefix the file: the deepest enclosing module |
| `Modinfo.OnlyEnclosingModuleIsFound` | module.go:99-104 | a file under exactly one inventory directory resolves to that module, whatever the inventory order |
| `Modinfo.NestedModuleExample` | module.go:99-104 | with nested modules `/a/b` and `/a`, ordered `/a/b` first, the file `/a/b/c/x.go` resolves to `/a/b` |
| `Modinfo.PrefixIsNotPathElementwise` | module.go:100 | a module at `/a/b` encloses `/a/bc/x.go`, because the test is a character prefix |
| `Modinfo.PathOrderCanShadowNestedModule` | module.go:76-78 | an inventory ordered by path length need not be ordered by directory length, and then a file in a nested module resolves to the enclosing module |

## Left out

- Running `go list -m -json` and handling its failure (module.go:36-50) is process I/O. The model starts from the decoded output, so the "command go list" error does not occur in it.
- Choosing the command's working directory from the first Go file (module.go:38-46) only affects the external process, and `filepath.Dir` is not modelled.
- JSON decoding (module.go:55-59) is a foreign library. Each decoder step is given as an input, either a record or a malformed value.
- BuildInventory: the "unmarshaling error" carries neither the decoder's error nor the raw command output, because neither is modelled.
- FindModule: the zero `ModInfo{}` that Go returns beside an error is not modelled; a failure carries only the error.
- `ReadModuleFile` (module.go:109-116) reads a file and calls the `modfile` parser, a foreign library.
- The `Analyzer` registration, its reflected result type, and the lookup of file names through `pass.Fset` (module.go:27-32, 39, 86) are framework glue. A pass is modelled as the sequence of its file names.
- SortByPathLength: Go strings are byte strings and `len(Path)` counts bytes, while the model's strings are sequences of characters and `|path|` counts characters. The order can differ for non-ASCII paths (Go puts "éé", 4 bytes, before "abc"; the model puts "abc" first), and names that are not valid UTF-8 cannot be represented. Module paths are ASCII under Go's module-path rules, and `HasPrefix` and `Ext` give the same answers on valid UTF-8.
- `filepath.Ext` is modelled for `/` as the only path separator. A Windows `\` is not treated as a separator.
- module_test.go is an integration test over on-disk fixtures. It checks only result counts, so it has no unit behaviour to model.
