/** The JavaScript string operations the extension relies on (`trim`,
    `toLowerCase`, `indexOf`, `includes`, `split`, `join`, `replace` with a
    string pattern, `parseInt` and number-to-string conversion), restricted to
    ASCII, each with the contract the rest of the model leans on. */
module Strings {
  import opened Wrappers

  type String = seq<char>

  /** The ASCII characters that `trim` removes and that the regular-expression
      class `\s` matches. */
  predicate IsSpace(c: char) {
    c == ' ' || c == '\t' || c == '\n' || c == '\r' || c == '\U{B}' || c == '\U{C}'
  }

  predicate AllSpace(s: String) {
    forall i :: 0 <= i < |s| ==> IsSpace(s[i])
  }

  /** True when `s` has no white space at either end, as `trim` leaves it. */
  predicate IsTrimmed(s: String) {
    s == [] || (!IsSpace(s[0]) && !IsSpace(s[|s| - 1]))
  }

  function TrimStart(s: String): String
    decreases |s|
  {
    if s != [] && IsSpace(s[0]) then TrimStart(s[1..]) else s
  }

  lemma {:induction false} TrimStartShape(s: String)
    ensures var r := TrimStart(s);
      |r| <= |s| && r == s[|s| - |r|..] && AllSpace(s[..|s| - |r|]) && (r == [] || !IsSpace(r[0]))
    decreases |s|
  {
    if s != [] && IsSpace(s[0]) {
      TrimStartShape(s[1..]);
    }
  }

  function TrimEnd(s: String): String
    decreases |s|
  {
    if s != [] && IsSpace(s[|s| - 1]) then TrimEnd(s[..|s| - 1]) else s
  }

  lemma {:induction false} TrimEndShape(s: String)
    ensures var r := TrimEnd(s);
      |r| <= |s| && r == s[..|r|] && AllSpace(s[|r|..]) && (r == [] || !IsSpace(r[|r| - 1]))
    decreases |s|
  {
    if s != [] && IsSpace(s[|s| - 1]) {
      var p := s[..|s| - 1];
      TrimEndShape(p);
      assert s[|TrimEnd(p)|..] == p[|TrimEnd(p)|..] + [s[|s| - 1]];
    }
  }

  /** `s.trim()`: `s` without its leading and trailing white space. */
  function Trim(s: String): (r: String)
    ensures IsTrimmed(r)
    ensures |r| <= |s|
  {
    TrimStartShape(s);
    TrimEndShape(TrimStart(s));
    TrimEnd(TrimStart(s))
  }

  lemma SliceThree(s: String, k: nat, n: nat)
    requires k + n <= |s|
    ensures s == s[..k] + s[k..k + n] + s[k + n..]
  {
  }

  /** `Trim` cuts `s` into white space, the result, and white space. */
  lemma TrimSplits(s: String) returns (k: nat)
    ensures k + |Trim(s)| <= |s|
    ensures s == s[..k] + Trim(s) + s[k + |Trim(s)|..]
    ensures AllSpace(s[..k]) && AllSpace(s[k + |Trim(s)|..])
  {
    var u := TrimStart(s);
    TrimStartShape(s);
    k := |s| - |u|;
    var r := TrimEnd(u);
    TrimEndShape(u);
    assert r == Trim(s);
    assert u == s[k..];
    assert r == s[k..k + |r|];
    assert u[|r|..] == s[k + |r|..];
    SliceThree(s, k, |r|);
  }

  /** `Trim` only removes characters. */
  lemma TrimKeepsOut(s: String, c: char)
    requires c !in s
    ensures c !in Trim(s)
  {
    var k := TrimSplits(s);
    assert Trim(s) == s[k..k + |Trim(s)|];
  }

  lemma TrimmedIsFixed(s: String)
    requires IsTrimmed(s)
    ensures Trim(s) == s
  {
  }

  lemma TrimIdempotent(s: String)
    ensures Trim(Trim(s)) == Trim(s)
  {
    TrimmedIsFixed(Trim(s));
  }

  /** A string is blank after trimming exactly when it is all white space. */
  lemma TrimEmptyIffAllSpace(s: String)
    ensures Trim(s) == [] <==> AllSpace(s)
  {
    var k := TrimSplits(s);
    if Trim(s) != [] {
      assert Trim(s)[0] == s[k];
    } else {
      assert s == s[..k] + s[k..];
    }
  }

  lemma {:induction false} TrimStartPadded(a: String, y: String)
    requires AllSpace(a) && (y == [] || !IsSpace(y[0]))
    ensures TrimStart(a + y) == y
    decreases |a|
  {
    if a == [] {
      assert a + y == y;
    } else {
      assert (a + y)[1..] == a[1..] + y;
      TrimStartPadded(a[1..], y);
    }
  }

  lemma {:induction false} TrimEndPadded(y: String, b: String)
    requires AllSpace(b) && (y == [] || !IsSpace(y[|y| - 1]))
    ensures TrimEnd(y + b) == y
    decreases |b|
  {
    if b == [] {
      assert y + b == y;
    } else {
      assert (y + b)[..|y + b| - 1] == y + b[..|b| - 1];
      TrimEndPadded(y, b[..|b| - 1]);
    }
  }

  /** `trim` is determined by what it keeps: a trimmed text padded with white
      space on both sides trims back to itself. */
  lemma TrimPadded(a: String, x: String, b: String)
    requires AllSpace(a) && AllSpace(b) && IsTrimmed(x)
    ensures Trim(a + x + b) == x
  {
    if x == [] {
      assert a + x + b == a + b;
      TrimStartPadded(a + b, []);
      assert a + b + [] == a + b;
    } else {
      assert a + x + b == a + (x + b);
      TrimStartPadded(a, x + b);
      TrimEndPadded(x, b);
    }
  }

  function LowerChar(c: char): char {
    if 'A' <= c <= 'Z' then (c as int + 32) as char else c
  }

  /** `s.toLowerCase()` over ASCII letters. */
  function ToLower(s: String): (r: String)
    ensures |r| == |s|
    ensures forall i :: 0 <= i < |s| ==> r[i] == LowerChar(s[i])
  {
    seq(|s|, i requires 0 <= i < |s| => LowerChar(s[i]))
  }

  /** The number of occurrences of `c` in `s`. */
  function Count(s: String, c: char): (n: nat)
    ensures n <= |s|
  {
    if s == [] then 0 else Count(s[..|s| - 1], c) + (if s[|s| - 1] == c then 1 else 0)
  }

  lemma {:induction false} CountConcat(a: String, b: String, c: char)
    ensures Count(a + b, c) == Count(a, c) + Count(b, c)
    decreases |b|
  {
    if b != [] {
      var b' := b[..|b| - 1];
      assert (a + b)[..|a + b| - 1] == a + b';
      CountConcat(a, b', c);
    } else {
      assert a + b == a;
    }
  }

  lemma {:induction false} CountZero(s: String, c: char)
    ensures Count(s, c) == 0 <==> c !in s
  {
    if s != [] {
      var p := s[..|s| - 1];
      CountZero(p, c);
      assert s == p + [s[|s| - 1]];
    }
  }

  /** The index of the first `c` in `s`, as `s.indexOf(c)` finds it. */
  function FindChar(s: String, c: char): Option<nat> {
    if s == [] then None
    else if s[0] == c then Some(0)
    else match FindChar(s[1..], c)
      case None => None
      case Some(i) => Some(i + 1)
  }

  lemma {:induction false} FindCharFirst(s: String, c: char)
    ensures var r := FindChar(s, c);
      (r.None? <==> c !in s) &&
      (r.Some? ==> r.value < |s| && s[r.value] == c && c !in s[..r.value])
  {
    if s != [] && s[0] != c {
      FindCharFirst(s[1..], c);
      match FindChar(s[1..], c)
      case None =>
      case Some(i) => assert s[..i + 1] == [s[0]] + s[1..][..i];
    }
  }

  predicate OccursAt(s: String, p: String, i: nat) {
    i + |p| <= |s| && s[i..i + |p|] == p
  }

  function IndexOfFrom(s: String, p: String, from: nat): (r: Option<nat>)
    ensures r.Some? ==> from <= r.value && OccursAt(s, p, r.value)
    ensures r.Some? ==> forall j: nat :: from <= j < r.value ==> !OccursAt(s, p, j)
    ensures r.None? ==> forall j: nat :: from <= j ==> !OccursAt(s, p, j)
    decreases |s| - from
  {
    if from + |p| > |s| then None
    else if s[from..from + |p|] == p then Some(from)
    else IndexOfFrom(s, p, from + 1)
  }

  /** `s.indexOf(p)`: the first position where `p` occurs in `s`. */
  function IndexOf(s: String, p: String): (r: Option<nat>)
    ensures r.Some? ==> OccursAt(s, p, r.value)
    ensures r.Some? ==> forall j: nat :: j < r.value ==> !OccursAt(s, p, j)
    ensures r.None? ==> forall j: nat :: !OccursAt(s, p, j)
  {
    IndexOfFrom(s, p, 0)
  }

  /** `s.includes(p)`. */
  predicate Contains(s: String, p: String) {
    IndexOf(s, p).Some?
  }

  /** A text that lacks a character of `p` does not contain `p`. */
  lemma MissingCharNotContained(s: String, p: String, c: char)
    requires c in p && c !in s
    ensures !Contains(s, p)
  {
    var k :| 0 <= k < |p| && p[k] == c;
    forall i: nat ensures !OccursAt(s, p, i) {
      if i + |p| <= |s| {
        assert s[i..i + |p|][k] == s[i + k];
      }
    }
  }

  /** A text that starts with `p` contains it at position 0. */
  lemma PrefixFound(p: String, v: String)
    ensures IndexOf(p + v, p) == Some(0)
  {
    assert (p + v)[0..|p|] == p;
  }

  /** Lower-cased text lacking a letter of `p` in either case does not
      contain `p`. */
  lemma LowerLacks(s: String, p: String, c: char)
    requires 'a' <= c <= 'z' && c in p && c !in s && (c as int - 32) as char !in s
    ensures !Contains(ToLower(s), p)
  {
    LowerAbsent(s, c);
    MissingCharNotContained(ToLower(s), p, c);
  }

  lemma ToLowerConcat(a: String, b: String)
    ensures ToLower(a + b) == ToLower(a) + ToLower(b)
  {
  }

  /** Lower-casing introduces a lower-case letter only where the text has
      it in either case. */
  lemma LowerAbsent(s: String, c: char)
    requires 'a' <= c <= 'z' && c !in s && (c as int - 32) as char !in s
    ensures c !in ToLower(s)
  {
    forall i | 0 <= i < |s| ensures ToLower(s)[i] != c {
      assert s[i] in s;
    }
  }

  predicate StartsWith(s: String, p: String) {
    |p| <= |s| && s[..|p|] == p
  }

  predicate EndsWith(s: String, p: String) {
    |p| <= |s| && s[|s| - |p|..] == p
  }

  /** `s.split(sep)` with a one-character separator: the pieces between the
      separators, so an empty string gives one empty piece. */
  function Split(s: String, sep: char): (r: seq<String>)
    ensures |r| == Count(s, sep) + 1
    ensures forall k :: 0 <= k < |r| ==> sep !in r[k]
  {
    if s == [] then [[]]
    else
      var rest := Split(s[1..], sep);
      assert s == [s[0]] + s[1..];
      CountConcat([s[0]], s[1..], sep);
      assert Count([s[0]], sep) == if s[0] == sep then 1 else 0 by {
        assert [s[0]][..0] == [];
      }
      if s[0] == sep then [[]] + rest else [[s[0]] + rest[0]] + rest[1..]
  }

  /** Text without the separator is a single piece. */
  lemma {:induction false} SplitNone(s: String, sep: char)
    requires sep !in s
    ensures Split(s, sep) == [s]
    decreases |s|
  {
    if s != [] {
      SplitNone(s[1..], sep);
      assert [s[0]] + s[1..] == s;
    }
  }

  /** The first piece is the text before the first separator; the rest is
      the split of what follows it. */
  lemma {:induction false} SplitFirst(a: String, b: String, sep: char)
    requires sep !in a
    ensures Split(a + [sep] + b, sep) == [a] + Split(b, sep)
    decreases |a|
  {
    var s := a + [sep] + b;
    if a == [] {
      assert s == [sep] + b;
      assert s[1..] == b;
    } else {
      assert s[1..] == a[1..] + [sep] + b;
      SplitFirst(a[1..], b, sep);
      assert [a[0]] + a[1..] == a;
    }
  }

  /** Joining pieces free of the separator and splitting again gives the
      pieces back. */
  lemma {:induction false} SplitJoin(parts: seq<String>, sep: char)
    requires |parts| >= 1
    requires forall i :: 0 <= i < |parts| ==> sep !in parts[i]
    ensures Split(Join(parts, [sep]), sep) == parts
    decreases |parts|
  {
    if |parts| == 1 {
      SplitNone(parts[0], sep);
    } else {
      var rest := parts[1..];
      SplitJoin(rest, sep);
      SplitFirst(parts[0], Join(rest, [sep]), sep);
      assert [parts[0]] + rest == parts;
    }
  }

  /** `parts.join(sep)`. */
  function Join(parts: seq<String>, sep: String): String {
    if |parts| == 0 then []
    else if |parts| == 1 then parts[0]
    else parts[0] + sep + Join(parts[1..], sep)
  }

  lemma {:induction false} JoinSnoc(parts: seq<String>, x: String, sep: String)
    requires |parts| >= 1
    ensures Join(parts + [x], sep) == Join(parts, sep) + sep + x
    decreases |parts|
  {
    if |parts| > 1 {
      assert (parts + [x])[1..] == parts[1..] + [x];
      JoinSnoc(parts[1..], x, sep);
    }
  }

  /** Splitting and joining with the same separator gives back the text. */
  lemma {:induction false} JoinSplit(s: String, sep: char)
    ensures Join(Split(s, sep), [sep]) == s
    decreases |s|
  {
    if s != [] {
      var rest := Split(s[1..], sep);
      JoinSplit(s[1..], sep);
      if s[0] == sep {
        assert Split(s, sep) == [[]] + rest;
        assert ([[]] + rest)[1..] == rest;
      } else {
        var parts := [[s[0]] + rest[0]] + rest[1..];
        assert Split(s, sep) == parts;
        if |rest| > 1 {
          assert parts[1..] == rest[1..];
          assert Join(rest, [sep]) == rest[0] + [sep] + Join(rest[1..], [sep]);
        }
      }
    }
  }

  /** `s.replace(p, r)` with a string pattern: only the first occurrence of
      `p` is replaced. */
  function ReplaceFirst(s: String, p: String, r: String): (t: String)
    ensures !Contains(s, p) ==> t == s
  {
    match IndexOf(s, p)
    case None => s
    case Some(i) => s[..i] + r + s[i + |p|..]
  }

  /** When `p` first occurs right after `a`, `replace` puts `r` there and keeps
      everything after it, further occurrences of `p` included. */
  lemma ReplaceFirstAt(a: String, p: String, b: String, r: String)
    requires forall j: nat :: j < |a| ==> !OccursAt(a + p + b, p, j)
    ensures ReplaceFirst(a + p + b, p, r) == a + r + b
  {
    var s := a + p + b;
    assert OccursAt(s, p, |a|) by { assert s[|a|..|a| + |p|] == p; }
    var i := IndexOf(s, p);
    assert i == Some(|a|);
    assert s[..|a|] == a && s[|a| + |p|..] == b;
  }

  predicate IsDigit(c: char) {
    '0' <= c <= '9'
  }

  predicate AllDigits(s: String) {
    forall i :: 0 <= i < |s| ==> IsDigit(s[i])
  }

  /** The decimal value of a run of digits, as `parseInt(d, 10)` reads it. */
  function DigitsValue(d: String): nat
    requires AllDigits(d)
  {
    if d == [] then 0 else DigitsValue(d[..|d| - 1]) * 10 + (d[|d| - 1] as int - '0' as int)
  }

  function DigitChar(n: nat): (c: char)
    requires n < 10
    ensures IsDigit(c) && c as int - '0' as int == n
  {
    ('0' as int + n) as char
  }

  /** The decimal text of `n`, as a template literal `${n}` prints a whole
      number: reading it back gives `n`, and it has no leading zero. */
  function NatToString(n: nat): (s: String)
    ensures |s| >= 1 && AllDigits(s)
    ensures DigitsValue(s) == n
    ensures |s| > 1 ==> s[0] != '0'
  {
    if n < 10 then [DigitChar(n)]
    else
      var s := NatToString(n / 10) + [DigitChar(n % 10)];
      assert s[..|s| - 1] == NatToString(n / 10);
      s
  }
}
