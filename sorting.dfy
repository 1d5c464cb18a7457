/** `Array.prototype.sort` with no comparator, on strings: ascending order
    of character codes, so `"input_10.txt"` sorts before `"input_2.txt"`. */
module Sorting {
  import opened Strings

  /** `a` is at most `b` in character-code order, a proper prefix first. */
  predicate Le(a: String, b: String)
    decreases |a|
  {
    a == [] || (b != [] && (a[0] < b[0] || (a[0] == b[0] && Le(a[1..], b[1..]))))
  }

  lemma {:induction false} LeTotal(a: String, b: String)
    ensures Le(a, b) || Le(b, a)
    decreases |a|
  {
    if a != [] && b != [] && a[0] == b[0] {
      LeTotal(a[1..], b[1..]);
    }
  }

  /** Two names with a common prefix compare as what follows it. */
  lemma {:induction false} LeCommonPrefix(p: String, a: String, b: String)
    ensures Le(p + a, p + b) == Le(a, b)
    decreases |p|
  {
    if p != [] {
      assert (p + a)[1..] == p[1..] + a;
      assert (p + b)[1..] == p[1..] + b;
      LeCommonPrefix(p[1..], a, b);
    } else {
      assert p + a == a && p + b == b;
    }
  }

  predicate Sorted(s: seq<String>) {
    forall i :: 0 < i < |s| ==> Le(s[i - 1], s[i])
  }

  function Insert(x: String, s: seq<String>): seq<String> {
    if s == [] then [x]
    else if Le(x, s[0]) then [x] + s
    else [s[0]] + Insert(x, s[1..])
  }

  /** The sorted order of `s`. */
  function Sort(s: seq<String>): seq<String> {
    if s == [] then [] else Insert(s[0], Sort(s[1..]))
  }

  lemma {:induction false} InsertKeeps(x: String, s: seq<String>)
    ensures multiset(Insert(x, s)) == multiset(s) + multiset{x}
    decreases |s|
  {
    if s != [] && !Le(x, s[0]) {
      InsertKeeps(x, s[1..]);
      assert s == [s[0]] + s[1..];
    }
  }

  lemma {:induction false} InsertSorted(x: String, s: seq<String>)
    requires Sorted(s)
    ensures Sorted(Insert(x, s))
    ensures Insert(x, s)[0] == x || (s != [] && Insert(x, s)[0] == s[0])
    decreases |s|
  {
    if s != [] && !Le(x, s[0]) {
      LeTotal(x, s[0]);
      var t := s[1..];
      assert Sorted(t) by {
        forall i | 0 < i < |t| ensures Le(t[i - 1], t[i]) {
          assert t[i - 1] == s[i] && t[i] == s[i + 1];
        }
      }
      InsertSorted(x, t);
      var r := Insert(x, t);
      assert t != [] ==> Le(s[0], t[0]) by {
        if t != [] { assert s[1] == t[0]; }
      }
      assert Le(s[0], r[0]);
      var u := [s[0]] + r;
      forall i | 0 < i < |u| ensures Le(u[i - 1], u[i]) {
        if i > 1 {
          assert u[i - 1] == r[i - 2] && u[i] == r[i - 1];
        }
      }
    }
  }

  /** `Sort` orders its input and keeps every element, duplicates
      included. */
  lemma {:induction false} SortSpec(s: seq<String>)
    ensures Sorted(Sort(s))
    ensures multiset(Sort(s)) == multiset(s)
    decreases |s|
  {
    if s != [] {
      SortSpec(s[1..]);
      InsertSorted(s[0], Sort(s[1..]));
      InsertKeeps(s[0], Sort(s[1..]));
      assert s == [s[0]] + s[1..];
    }
  }

  /** Character order, not numeric order: test 10 is listed before test 2. */
  lemma TenBeforeTwo()
    ensures Le("input_10.txt", "input_2.txt") && !Le("input_2.txt", "input_10.txt")
  {
    LeCommonPrefix("input_", "10.txt", "2.txt");
    LeCommonPrefix("input_", "2.txt", "10.txt");
    assert "input_" + "10.txt" == "input_10.txt";
    assert "input_" + "2.txt" == "input_2.txt";
  }
}
