/**
 * The two Go standard-library string tests the module resolver relies on:
 * strings.HasPrefix / strings.HasSuffix and filepath.Ext, the latter on a
 * platform whose only path separator is '/'.
 */
module GoStrings {

  /** strings.HasPrefix(s, prefix): a raw character prefix, not a path-component prefix. */
  predicate HasPrefix(s: string, prefix: string) {
    |prefix| <= |s| && s[..|prefix|] == prefix
  }

  /** strings.HasSuffix(s, suffix). */
  predicate HasSuffix(s: string, suffix: string) {
    |suffix| <= |s| && s[|s| - |suffix|..] == suffix
  }

  /** A '.' at position k of path that no '/' follows: a dot in the final path element. */
  predicate DotInLastElement(path: string, k: int)
    requires 0 <= k < |path|
  {
    path[k] == '.' && forall j :: k < j < |path| ==> path[j] != '/'
  }

  /**
   * filepath.Ext(path): the suffix of path that starts at the last '.' of its
   * final element, or "" when that element has no '.'. Go scans from the end
   * of the string and stops at the first separator; the recursion drops the
   * last character in the same way.
   */
  function Ext(path: string): (r: string)
    ensures HasSuffix(path, r)
    ensures r != "" ==> r[0] == '.' && forall k :: 1 <= k < |r| ==> r[k] != '.' && r[k] != '/'
    ensures r == "" <==> forall k :: 0 <= k < |path| ==> !DotInLastElement(path, k)
  {
    if path == [] then ""
    else
      var last := path[|path| - 1];
      if last == '/' then ""
      else if last == '.' then assert DotInLastElement(path, |path| - 1); "."
      else
        var init := path[..|path| - 1];
        var e := Ext(init);
        assert forall k :: 0 <= k < |init| ==> (DotInLastElement(init, k) <==> DotInLastElement(path, k));
        if e == "" then "" else e + [last]
  }

  /** filepath.Ext(f) == ".go" is the suffix test: ".go" holds no further dot and no separator. */
  lemma {:induction false} ExtIsGoIffHasSuffix(f: string)
    ensures Ext(f) == ".go" <==> HasSuffix(f, ".go")
  {
    var r := Ext(f);
    if HasSuffix(f, ".go") {
      var n := |f|;
      assert f[n - 3..] == ".go";
      assert f[n - 3] == '.' && f[n - 2] == 'g' && f[n - 1] == 'o';
      assert DotInLastElement(f, n - 3);
      assert r != "";
      assert f[n - |r|..] == r;
      assert r == f[n - 3..];
    }
  }
}
