/** The parts of Node's Windows `path` functions the extension uses:
    `basename`, `dirname`, `extname` and the `name` field of `parse`. Both
    `/` and `\` separate directories. */
module Paths {
  import opened Wrappers
  import opened Strings

  predicate IsSep(c: char) {
    c == '/' || c == '\\'
  }

  /** `p` without trailing separators. */
  function TrimSeps(p: String): String {
    if p != [] && IsSep(p[|p| - 1]) then TrimSeps(p[..|p| - 1]) else p
  }

  /** The position just after the last separator of `p`, 0 when there is
      none. */
  function AfterLastSep(p: String): (k: nat)
    ensures k <= |p|
  {
    if p == [] then 0 else if IsSep(p[|p| - 1]) then |p| else AfterLastSep(p[..|p| - 1])
  }

  lemma {:induction false} AfterLastSepShape(p: String)
    ensures var k := AfterLastSep(p);
      (k == 0 || IsSep(p[k - 1])) && forall i :: k <= i < |p| ==> !IsSep(p[i])
    decreases |p|
  {
    if p != [] && !IsSep(p[|p| - 1]) {
      AfterLastSepShape(p[..|p| - 1]);
    }
  }

  /** `path.basename(p)`: the last component. */
  function BaseName(p: String): String {
    var q := TrimSeps(p);
    q[AfterLastSep(q)..]
  }

  /** The directory part as `path.dirname(p)` gives it for a path whose
      components are separated by single separators: everything before the
      last component, without trailing separators. Node keeps a separator
      that is the whole root or one of a doubled pair; this does not. */
  function DirName(p: String): String {
    var q := TrimSeps(p);
    TrimSeps(q[..AfterLastSep(q)])
  }

  /** The index of the last `.` in `s`. */
  function LastDot(s: String): (r: Option<nat>)
    ensures r.Some? ==> r.value < |s|
  {
    if s == [] then None
    else if s[|s| - 1] == '.' then Some(|s| - 1)
    else LastDot(s[..|s| - 1])
  }

  lemma {:induction false} LastDotShape(s: String)
    ensures match LastDot(s)
      case None => '.' !in s
      case Some(d) => d < |s| && s[d] == '.' && '.' !in s[d + 1..]
    decreases |s|
  {
    if s != [] && s[|s| - 1] != '.' {
      var p := s[..|s| - 1];
      LastDotShape(p);
      match LastDot(p) {
        case None => assert s == p + [s[|s| - 1]];
        case Some(d) => assert s[d + 1..] == p[d + 1..] + [s[|s| - 1]];
      }
    }
  }

  /** The extension of a last component `b`: from its last `.` to its end;
      empty when it has no dot, starts with its only dot, or is `..`. */
  function ExtOf(b: String): (e: String)
    ensures |e| <= |b|
  {
    match LastDot(b)
    case None => []
    case Some(d) => if d == 0 || b == ".." then [] else b[d..]
  }

  /** `path.extname(p)`. */
  function ExtName(p: String): String {
    ExtOf(BaseName(p))
  }

  /** `path.parse(p).name`: the last component without its extension. */
  function FileStem(p: String): String {
    var b := BaseName(p);
    b[..|b| - |ExtOf(b)|]
  }

  /** The extension without its dot, as `path.extname(p).slice(1)`. */
  function ExtNoDot(p: String): String {
    var e := ExtName(p);
    if e == [] then [] else e[1..]
  }

  /** The last component of a path is what follows its last separator, and
      the directory is what precedes it. */
  lemma JoinedParts(dir: String, b: String)
    requires dir != [] && !IsSep(dir[|dir| - 1])
    requires b != [] && forall i :: 0 <= i < |b| ==> !IsSep(b[i])
    ensures BaseName(dir + "\\" + b) == b && DirName(dir + "\\" + b) == dir
  {
    var p := dir + "\\" + b;
    assert forall i :: |dir| < i < |p| ==> p[i] == b[i - |dir| - 1];
    assert TrimSeps(p) == p;
    AfterLastSepShape(p);
    assert IsSep(p[|dir|]);
    assert AfterLastSep(p) == |dir| + 1;
    assert p[|dir| + 1..] == b;
    assert p[..|dir| + 1] == dir + "\\";
    assert (dir + "\\")[..|dir|] == dir;
    assert TrimSeps(dir) == dir;
    assert TrimSeps(dir + "\\") == TrimSeps(dir);
  }

  /** A `.` with no `.` after it is the last one. */
  lemma {:induction false} LastDotAt(s: String, d: nat)
    requires d < |s| && s[d] == '.' && '.' !in s[d + 1..]
    ensures LastDot(s) == Some(d)
    decreases |s|
  {
    if d < |s| - 1 {
      assert s[|s| - 1] == s[d + 1..][|s| - d - 2];
      var p := s[..|s| - 1];
      assert p[d + 1..] <= s[d + 1..];
      LastDotAt(p, d);
    }
  }

  /** A dotted name `stem.ext` has extension `.ext` and stem `stem`. */
  lemma DottedParts(stem: String, ext: String)
    requires stem != [] && stem != "."
    requires '.' !in ext
    ensures ExtOf(stem + "." + ext) == "." + ext
  {
    var b := stem + "." + ext;
    assert b[|stem|] == '.';
    assert b[|stem| + 1..] == ext;
    LastDotAt(b, |stem|);
    if |stem| == 1 && ext == [] {
      assert stem == [stem[0]] && b[0] == stem[0];
    }
    assert b[|stem|..] == "." + ext;
  }

  /** A file directly under `dir` named `stem.ext` splits back into its
      parts. */
  lemma PathParts(dir: String, stem: String, ext: String)
    requires dir != [] && !IsSep(dir[|dir| - 1])
    requires stem != [] && stem != "." && forall i :: 0 <= i < |stem| ==> !IsSep(stem[i])
    requires forall i :: 0 <= i < |ext| ==> !IsSep(ext[i]) && ext[i] != '.'
    ensures var p := dir + "\\" + stem + "." + ext;
      BaseName(p) == stem + "." + ext && DirName(p) == dir &&
      ExtName(p) == "." + ext && ExtNoDot(p) == ext && FileStem(p) == stem
  {
    var b := stem + "." + ext;
    assert dir + "\\" + stem + "." + ext == dir + "\\" + b;
    assert forall i :: 0 <= i < |b| ==> !IsSep(b[i]) by {
      forall i | 0 <= i < |b| ensures !IsSep(b[i]) {
        if i < |stem| { assert b[i] == stem[i]; }
        else if i > |stem| { assert b[i] == ext[i - |stem| - 1]; }
      }
    }
    JoinedParts(dir, b);
    DottedParts(stem, ext);
    assert ("." + ext)[1..] == ext;
    assert b[..|b| - |"." + ext|] == stem;
  }
}
