/**
 * The parts of Go's `path/filepath` the models use, for '/'-separated paths.  `Join` does
 * not apply `Clean` (no collapsing of "//", "." or "..").
 */
module GoPath {
  import opened GoStrings

  /** filepath.Join of two elements: empty elements are dropped, the rest joined with '/'. */
  function Join(dir: string, name: string): (p: string)
    ensures dir != "" && name != "" ==> p == dir + "/" + name
    ensures dir == "" ==> p == name
    ensures name == "" ==> p == dir
  {
    if dir == "" then name else if name == "" then dir else dir + "/" + name
  }

  /** The part after the last '/', or all of `s`. */
  function AfterLastSlash(s: string): (r: string) {
    if s == [] then []
    else if s[|s| - 1] == '/' then []
    else AfterLastSlash(s[..|s| - 1]) + [s[|s| - 1]]
  }

  function TrimTrailingSlashes(s: string): (r: string)
    ensures r == [] || r[|r| - 1] != '/'
  {
    if s != [] && s[|s| - 1] == '/' then TrimTrailingSlashes(s[..|s| - 1]) else s
  }

  /** filepath.Base: the last element, "." for the empty path and "/" for a path of slashes. */
  function Base(path: string): (b: string)
    ensures b != ""
  {
    if path == "" then "."
    else
      var t := TrimTrailingSlashes(path);
      if t == "" then "/"
      else
        var b := AfterLastSlash(t);
        if b == "" then "/" else b
  }

  /** An element joined under a directory is its own base name. */
  lemma BaseOfJoin(dir: string, name: string)
    requires name != "" && '/' !in name
    ensures Base(Join(dir, name)) == name
  {
    var p := Join(dir, name);
    assert p[|p| - 1] == name[|name| - 1];
    assert TrimTrailingSlashes(p) == p;
    if dir != "" {
      AfterLastSlashSuffix(dir, name);
    } else {
      AfterLastSlashFree(name);
    }
  }

  lemma {:induction false} AfterLastSlashFree(s: string)
    requires '/' !in s
    ensures AfterLastSlash(s) == s
  {
    if s != [] {
      AfterLastSlashFree(s[..|s| - 1]);
      assert s == s[..|s| - 1] + [s[|s| - 1]];
    }
  }

  lemma {:induction false} AfterLastSlashSuffix(dir: string, name: string)
    requires '/' !in name
    ensures AfterLastSlash(dir + "/" + name) == name
  {
    var p := dir + "/" + name;
    if name == [] {
      assert p[|p| - 1] == '/';
    } else {
      var init := name[..|name| - 1];
      assert p[..|p| - 1] == dir + "/" + init;
      AfterLastSlashSuffix(dir, init);
      assert init + [name[|name| - 1]] == name;
    }
  }

  /** filepath.Ext: the suffix from the last '.' of the last element, or "". */
  function Ext(path: string): (e: string)
    ensures e == "" || (e[0] == '.' && HasSuffix(path, e) && '/' !in e && '.' !in e[1..])
  {
    if path == [] || path[|path| - 1] == '/' then ""
    else if path[|path| - 1] == '.' then
      assert HasSuffix(path, ".");
      "."
    else
      var e := Ext(path[..|path| - 1]);
      if e == "" then ""
      else
        assert path == path[..|path| - 1] + [path[|path| - 1]];
        assert (e + [path[|path| - 1]])[1..] == e[1..] + [path[|path| - 1]];
        e + [path[|path| - 1]]
  }

  /** A name ending in an extension without further dots or slashes has that extension. */
  lemma {:induction false} ExtOfSuffix(p: string, e: string)
    requires e != [] && e[0] == '.' && '/' !in e && '.' !in e[1..]
    ensures Ext(p + e) == e
  {
    var s := p + e;
    if |e| == 1 {
      assert s[|s| - 1] == '.';
    } else {
      var init := e[..|e| - 1];
      assert s[..|s| - 1] == p + init;
      assert init[1..] == e[1..|e| - 1];
      ExtOfSuffix(p, init);
      assert init + [e[|e| - 1]] == e;
      assert e[|e| - 1] in e[1..];
    }
  }
}
