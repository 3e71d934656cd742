/**
 * Module resolution for an analysis pass: building the inventory of main
 * modules from the records `go list -m -json` prints, and finding the module
 * that encloses the pass's first Go file.
 */
module Modinfo {
  import opened Wrappers
  import opened GoStrings

  /** One record of `go list -m -json` (the JSON keys Path, Dir, GoMod, GoVersion, Main). */
  datatype ModInfo = ModInfo(path: string, dir: string, goMod: string, goVersion: string, main: bool)

  /**
   * One step of the JSON decoder over the command's output: a record, or a
   * value that does not decode (the decoder's error detail is not modelled).
   */
  datatype Decoded = Record(info: ModInfo) | Malformed

  /** The errors module resolution reports. */
  datatype Error =
    | Unmarshaling        // a record did not decode
    | NotPartOfModule     // a record has no go.mod file
    | GoModNotFound       // no main module with a directory
    | NoGoFile            // the pass has no Go file
    | ModuleInfoNotFound  // no module directory prefixes the Go file

  /** The text of each error (the unmarshaling error additionally wraps the decoder's error and output). */
  function Message(e: Error): string {
    match e
    case Unmarshaling => "unmarshaling error"
    case NotPartOfModule => "working directory is not part of a module"
    case GoModNotFound => "go.mod file not found"
    case NoGoFile => "OOPS"
    case ModuleInfoNotFound => "module information not found"
  }

  // ---------------------------------------------------------------------------
  // Inventory building (run)
  // ---------------------------------------------------------------------------

  /** A decoder step that ends the build: a malformed value, or a record without go.mod. */
  predicate Aborts(d: Decoded) {
    d.Malformed? || d.info.goMod == ""
  }

  /** No step before position i ends the build. */
  predicate NoAbortBefore(stream: seq<Decoded>, i: int)
    requires 0 <= i <= |stream|
  {
    forall j :: 0 <= j < i ==> !Aborts(stream[j])
  }

  /** The build stops at position i: the first step that ends it is there. */
  predicate FirstAbortAt(stream: seq<Decoded>, i: int) {
    0 <= i < |stream| && Aborts(stream[i]) && NoAbortBefore(stream, i)
  }

  /** A record the inventory keeps: a main module with a directory. */
  predicate Usable(m: ModInfo) {
    m.main && m.dir != ""
  }

  /** The records of the stream that the inventory keeps, in stream order. */
  function Kept(stream: seq<Decoded>): (r: seq<ModInfo>)
    ensures |r| <= |stream|
    ensures forall m :: m in r ==> Usable(m)
  {
    if stream == [] then []
    else
      var last := stream[|stream| - 1];
      Kept(stream[..|stream| - 1]) + (if last.Record? && Usable(last.info) then [last.info] else [])
  }

  /** m is kept exactly when some record of the stream is m and m is usable. */
  lemma {:induction false} KeptMembers(stream: seq<Decoded>, m: ModInfo)
    ensures m in Kept(stream) <==> Usable(m) && exists i :: 0 <= i < |stream| && stream[i] == Record(m)
  {
    if stream != [] {
      var n := |stream|;
      var init, last := stream[..n - 1], stream[n - 1];
      var tail := if last.Record? && Usable(last.info) then [last.info] else [];
      assert Kept(stream) == Kept(init) + tail;
      KeptMembers(init, m);
      if exists i :: 0 <= i < n && stream[i] == Record(m) {
        var i :| 0 <= i < n && stream[i] == Record(m);
        if i < n - 1 {
          assert init[i] == Record(m);
        }
      }
      if exists i :: 0 <= i < n - 1 && init[i] == Record(m) {
        var i :| 0 <= i < n - 1 && init[i] == Record(m);
        assert stream[i] == Record(m);
      }
    }
  }

  /** The position where the build stops, if any step of the stream ends it. */
  function FirstAbort(stream: seq<Decoded>): (r: Option<nat>)
    ensures r.None? <==> NoAbortBefore(stream, |stream|)
    ensures r.Some? ==> FirstAbortAt(stream, r.value)
  {
    if stream == [] then None
    else if Aborts(stream[0]) then Some(0)
    else
      match FirstAbort(stream[1..])
      case None => None
      case Some(k) => Some(k + 1)
  }

  /** The build stops at one position only. */
  lemma FirstAbortUnique(stream: seq<Decoded>, i: int, j: int)
    requires FirstAbortAt(stream, i) && FirstAbortAt(stream, j)
    ensures i == j
  {
  }

  /** The error a build reports when it stops at step d. */
  function AbortError(d: Decoded): Error {
    if d.Malformed? then Unmarshaling else NotPartOfModule
  }

  /**
   * A record with an empty go.mod makes the build fail with
   * "working directory is not part of a module" when no malformed value comes
   * before it, whatever follows it and whatever its other fields are.
   */
  lemma EmptyGoModAborts(stream: seq<Decoded>, i: int)
    requires 0 <= i < |stream| && stream[i].Record? && stream[i].info.goMod == ""
    requires forall j :: 0 <= j < i ==> stream[j].Record?
    ensures FirstAbort(stream).Some? && AbortError(stream[FirstAbort(stream).value]) == NotPartOfModule
  {
  }

  /** An inventory ordered by non-increasing module path length (the comparator of sort.Slice). */
  predicate SortedByPathDesc(s: seq<ModInfo>) {
    forall i, j :: 0 <= i < j < |s| ==> |s[j].path| <= |s[i].path|
  }

  /** An inventory ordered by non-increasing module directory length. */
  predicate SortedByDirDesc(s: seq<ModInfo>) {
    forall i, j :: 0 <= i < j < |s| ==> |s[j].dir| <= |s[i].dir|
  }

  /** The first n entries of a are ordered by non-increasing module path length. */
  predicate PathDescUpTo(a: array<ModInfo>, n: int)
    reads a
    requires 0 <= n <= a.Length
  {
    forall p, q :: 0 <= p < q < n ==> |a[q].path| <= |a[p].path|
  }

  /** Exchanges two entries of a. */
  method Swap(a: array<ModInfo>, i: int, j: int)
    requires 0 <= i < a.Length && 0 <= j < a.Length
    modifies a
    ensures a[i] == old(a[j]) && a[j] == old(a[i])
    ensures forall k :: 0 <= k < a.Length && k != i && k != j ==> a[k] == old(a[k])
    ensures multiset(a[..]) == old(multiset(a[..]))
  {
    a[i], a[j] := a[j], a[i];
  }

  /**
   * One insertion step: moves a[i] left past every entry with a shorter
   * module path, so that the first i + 1 entries become ordered.
   */
  method InsertAt(a: array<ModInfo>, i: int)
    requires 0 <= i < a.Length && PathDescUpTo(a, i)
    modifies a
    ensures PathDescUpTo(a, i + 1)
    ensures multiset(a[..]) == old(multiset(a[..]))
    ensures a[i + 1..] == old(a[i + 1..])
  {
    var j := i;
    while 0 < j && |a[j - 1].path| < |a[j].path|
      invariant 0 <= j <= i
      invariant forall p, q :: 0 <= p < q <= i && p != j && q != j ==> |a[q].path| <= |a[p].path|
      invariant forall q :: j < q <= i ==> |a[q].path| <= |a[j].path|
      invariant multiset(a[..]) == old(multiset(a[..]))
      invariant a[i + 1..] == old(a[i + 1..])
    {
      Swap(a, j - 1, j);
      j := j - 1;
    }
  }

  /**
   * sort.Slice ordering the longer module path first, as an insertion sort
   * in place. sort.Slice is not stable, so only the
   * order and the permutation are promised.
   */
  method SortByPathLength(a: array<ModInfo>)
    modifies a
    ensures SortedByPathDesc(a[..])
    ensures multiset(a[..]) == old(multiset(a[..]))
  {
    var i := 0;
    while i < a.Length
      invariant 0 <= i <= a.Length
      invariant PathDescUpTo(a, i)
      invariant multiset(a[..]) == old(multiset(a[..]))
    {
      InsertAt(a, i);
      i := i + 1;
    }
  }

  /**
   * The decode loop of run: read the records one by one, stop at the first
   * malformed one or the first one without go.mod, and keep the usable ones.
   */
  method DecodeAndFilter(stream: seq<Decoded>) returns (res: Result<seq<ModInfo>, Error>)
    ensures FirstAbort(stream).Some? ==> res == Failure(AbortError(stream[FirstAbort(stream).value]))
    ensures FirstAbort(stream).None? ==> res == Success(Kept(stream))
  {
    var infos: seq<ModInfo> := [];
    var i := 0;
    while i < |stream|
      invariant 0 <= i <= |stream|
      invariant NoAbortBefore(stream, i)
      invariant infos == Kept(stream[..i])
    {
      assert stream[..i + 1][..i] == stream[..i];
      match stream[i]
      case Malformed =>
        assert FirstAbortAt(stream, i);
        FirstAbortUnique(stream, i, FirstAbort(stream).value);
        return Failure(Unmarshaling);
      case Record(v) =>
        if v.goMod == "" {
          assert FirstAbortAt(stream, i);
          FirstAbortUnique(stream, i, FirstAbort(stream).value);
          return Failure(NotPartOfModule);
        }
        if v.main && v.dir != "" {
          infos := infos + [v];
        }
      i := i + 1;
    }
    assert stream[..i] == stream;
    return Success(infos);
  }

  /**
   * run, after `go list -m -json` has succeeded: decode and filter the
   * records, fail when none is kept, and sort the rest by descending module
   * path length.
   */
  method BuildInventory(stream: seq<Decoded>) returns (res: Result<seq<ModInfo>, Error>)
    ensures FirstAbort(stream).Some? ==> res == Failure(AbortError(stream[FirstAbort(stream).value]))
    ensures FirstAbort(stream).None? && Kept(stream) == [] ==> res == Failure(GoModNotFound)
    ensures FirstAbort(stream).None? && Kept(stream) != [] ==>
      res.Success? && multiset(res.value) == multiset(Kept(stream)) && SortedByPathDesc(res.value)
    ensures res.Success? ==> res.value != [] && forall m :: m in res.value ==> Usable(m)
  {
    var decoded := DecodeAndFilter(stream);
    if decoded.Failure? {
      return decoded;
    }
    var infos := decoded.value;
    if |infos| == 0 {
      return Failure(GoModNotFound);
    }
    var a := new ModInfo[|infos|](k requires 0 <= k < |infos| => infos[k]);
    assert a[..] == infos;
    SortByPathLength(a);
    res := Success(a[..]);
    forall m | m in res.value
      ensures Usable(m)
    {
      assert m in multiset(res.value);
    }
  }

  // ---------------------------------------------------------------------------
  // Resolution (FindModule)
  // ---------------------------------------------------------------------------

  /** f is a Go file: filepath.Ext(f) == ".go", which is this suffix test (ExtIsGoIffHasSuffix). */
  predicate IsGoFile(f: string) {
    HasSuffix(f, ".go")
  }

  /** Position i holds the first Go file of the pass. */
  predicate IsFirstGoFile(files: seq<string>, i: int) {
    0 <= i < |files| && IsGoFile(files[i]) && forall j :: 0 <= j < i ==> !IsGoFile(files[j])
  }

  /** Entry k is the first inventory entry whose directory is a string prefix of name. */
  predicate IsFirstEnclosing(infos: seq<ModInfo>, name: string, k: int) {
    0 <= k < |infos| && HasPrefix(name, infos[k].dir)
    && forall j :: 0 <= j < k ==> !HasPrefix(name, infos[j].dir)
  }

  /** The position of the first Go file of the pass, if any. */
  function FirstGoFile(files: seq<string>): (r: Option<nat>)
    ensures r.None? <==> forall i :: 0 <= i < |files| ==> !IsGoFile(files[i])
    ensures r.Some? ==> IsFirstGoFile(files, r.value)
  {
    if files == [] then None
    else if IsGoFile(files[0]) then Some(0)
    else
      match FirstGoFile(files[1..])
      case None => None
      case Some(k) => Some(k + 1)
  }

  /** The position of the first inventory entry whose directory prefixes name, if any. */
  function FirstEnclosing(infos: seq<ModInfo>, name: string): (r: Option<nat>)
    ensures r.None? <==> forall k :: 0 <= k < |infos| ==> !HasPrefix(name, infos[k].dir)
    ensures r.Some? ==> IsFirstEnclosing(infos, name, r.value)
  {
    if infos == [] then None
    else if HasPrefix(name, infos[0].dir) then Some(0)
    else
      match FirstEnclosing(infos[1..], name)
      case None => None
      case Some(k) => Some(k + 1)
  }

  /** What FindModule returns, as a function of the inventory and the pass's file names. */
  function Resolve(infos: seq<ModInfo>, files: seq<string>): (r: Result<ModInfo, Error>)
    ensures r.Failure? ==> r.error == NoGoFile || r.error == ModuleInfoNotFound
  {
    match FirstGoFile(files)
    case None => Failure(NoGoFile)
    case Some(i) =>
      match FirstEnclosing(infos, files[i])
      case None => Failure(ModuleInfoNotFound)
      case Some(k) => Success(infos[k])
  }

  /**
   * FindModule: take the first Go file of the pass, then return the first
   * inventory entry whose directory is a prefix of its name.
   */
  method FindModule(infos: seq<ModInfo>, files: seq<string>) returns (res: Result<ModInfo, Error>)
    ensures res == Resolve(infos, files)
  {
    var name := "";
    var i := 0;
    while i < |files|
      invariant 0 <= i <= |files|
      invariant name == ""
      invariant forall j :: 0 <= j < i ==> !IsGoFile(files[j])
    {
      ExtIsGoIffHasSuffix(files[i]);
      if Ext(files[i]) == ".go" {
        name := files[i];
        break;
      }
      i := i + 1;
    }
    if name == "" {
      return Failure(NoGoFile);
    }
    assert IsFirstGoFile(files, i);
    FirstGoFileUnique(files, i, FirstGoFile(files).value);
    var k := 0;
    while k < |infos|
      invariant 0 <= k <= |infos|
      invariant forall j :: 0 <= j < k ==> !HasPrefix(name, infos[j].dir)
    {
      if HasPrefix(name, infos[k].dir) {
        assert IsFirstEnclosing(infos, name, k);
        assert FirstEnclosing(infos, name) == Some(k);
        return Success(infos[k]);
      }
      k := k + 1;
    }
    return Failure(ModuleInfoNotFound);
  }

  /** Two positions that both hold the first Go file are the same. */
  lemma FirstGoFileUnique(files: seq<string>, i: int, j: int)
    requires IsFirstGoFile(files, i) && IsFirstGoFile(files, j)
    ensures i == j
  {
  }

  /** Resolution fails with "OOPS" exactly when no file of the pass is a Go file. */
  lemma ResolveNoGoFile(infos: seq<ModInfo>, files: seq<string>)
    ensures Resolve(infos, files) == Failure(NoGoFile) <==> forall i :: 0 <= i < |files| ==> !IsGoFile(files[i])
  {
  }

  /**
   * Resolution fails with "module information not found" exactly when there
   * is a Go file and no inventory entry's directory prefixes the first one.
   */
  lemma ResolveModuleNotFound(infos: seq<ModInfo>, files: seq<string>)
    ensures Resolve(infos, files) == Failure(ModuleInfoNotFound) <==>
      exists i :: IsFirstGoFile(files, i) && forall k :: 0 <= k < |infos| ==> !HasPrefix(files[i], infos[k].dir)
  {
  }

  /**
   * On success the result is an inventory entry whose directory prefixes the
   * first Go file, and no earlier entry's directory does.
   */
  lemma ResolveFound(infos: seq<ModInfo>, files: seq<string>)
    requires Resolve(infos, files).Success?
    ensures exists i, k ::
      IsFirstGoFile(files, i) && IsFirstEnclosing(infos, files[i], k) && Resolve(infos, files).value == infos[k]
  {
    var i := FirstGoFile(files).value;
    var k := FirstEnclosing(infos, files[i]).value;
    assert IsFirstGoFile(files, i) && IsFirstEnclosing(infos, files[i], k);
  }

  /**
   * When the inventory happens to be ordered by directory length, the entry
   * found is the deepest module enclosing the Go file.
   */
  lemma ResolveFindsDeepest(infos: seq<ModInfo>, files: seq<string>)
    requires SortedByDirDesc(infos)
    requires Resolve(infos, files).Success?
    ensures var m := Resolve(infos, files).value;
      exists i :: IsFirstGoFile(files, i) && HasPrefix(files[i], m.dir)
        && forall k :: 0 <= k < |infos| && HasPrefix(files[i], infos[k].dir) ==> |infos[k].dir| <= |m.dir|
  {
    ResolveFound(infos, files);
  }

  /**
   * A file that lies in exactly one module directory of the inventory
   * resolves to that module, whatever the inventory order.
   */
  lemma OnlyEnclosingModuleIsFound(infos: seq<ModInfo>, files: seq<string>, i: int, k: int)
    requires IsFirstGoFile(files, i)
    requires 0 <= k < |infos| && HasPrefix(files[i], infos[k].dir)
    requires forall j :: 0 <= j < |infos| && j != k ==> !HasPrefix(files[i], infos[j].dir)
    ensures Resolve(infos, files) == Success(infos[k])
  {
    FirstGoFileUnique(files, i, FirstGoFile(files).value);
  }

  /** Nested modules /a/b inside /a: with /a/b first, /a/b/c/x.go resolves to /a/b. */
  lemma NestedModuleExample()
    ensures
      var inner := ModInfo("example.com/a/b", "/a/b", "/a/b/go.mod", "1.21", true);
      var outer := ModInfo("example.com/a", "/a", "/a/go.mod", "1.21", true);
      SortedByPathDesc([inner, outer]) && Resolve([inner, outer], ["/a/b/c/x.go"]) == Success(inner)
  {
  }

  /**
   * The prefix test is on characters, not path elements: a module at /a/b
   * encloses /a/bc/x.go.
   */
  lemma PrefixIsNotPathElementwise()
    ensures
      var m := ModInfo("example.com/b", "/a/b", "/a/b/go.mod", "1.21", true);
      Resolve([m], ["/a/bc/x.go"]) == Success(m)
  {
  }

  /** A workspace module whose module path is longer than that of the module nested in it. */
  function Workspace(): ModInfo {
    ModInfo("example.com/workspace", "/ws", "/ws/go.mod", "1.21", true)
  }

  function Nested(): ModInfo {
    ModInfo("x.io/in", "/ws/in", "/ws/in/go.mod", "1.21", true)
  }

  /**
   * Ordering by path length is not ordering by directory length: an outer
   * module with a longer module path is tried first and shadows the nested
   * module that holds the file.
   */
  lemma PathOrderCanShadowNestedModule()
    ensures SortedByPathDesc([Workspace(), Nested()])
    ensures !SortedByDirDesc([Workspace(), Nested()])
    ensures Resolve([Workspace(), Nested()], ["/ws/in/main.go"]) == Success(Workspace())
  {
    var outer, inner := Workspace(), Nested();
    assert HasPrefix("/ws/in/main.go", outer.dir);
    var s := [outer, inner];
    assert |s[1].dir| > |s[0].dir|;
  }
}
