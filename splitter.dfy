/** The value splitter of the fixture extractor: `extractValue` and
    `processInput` of src/fetchTestCases.ts. A text such as
    `nums = [[1,2],[3,4]], target = 7` is cut at the commas that sit outside
    every bracket and outside every double-quoted string, each non-blank piece
    loses its `name =` prefix, and what is left is trimmed. */
module Splitter {
  import opened Wrappers
  import opened Strings

  /** `extractValue`: the trimmed text after the first `=`, or the whole
      trimmed line when it has none; later `=` signs stay in the value. */
  function ExtractValue(line: String): (r: String)
    ensures IsTrimmed(r)
    ensures '=' !in line ==> r == Trim(line)
  {
    FindCharFirst(line, '=');
    match FindChar(line, '=')
    case None => Trim(line)
    case Some(k) => Trim(line[k + 1..])
  }

  /** Named-parameter notation: `name = value` gives the trimmed value, even
      when the value itself holds `=`. Every line holding `=` has this form,
      with `name` the text before its first `=`. */
  lemma ExtractValueNamed(name: String, value: String)
    requires '=' !in name
    ensures ExtractValue(name + "=" + value) == Trim(value)
  {
    var line := name + "=" + value;
    FindCharFirst(line, '=');
    assert line[..|name|] == name;
    assert line[|name|] == '=';
    assert line[|name| + 1..] == value;
  }

  /** The variables of the `processInput` loop: the raw pieces completed so
      far, the piece being collected, the bracket counter (up on `[`, down on
      `]`, negative after an unbalanced `]`) and the quote toggle (flipped by
      every `"`). The loop keeps cleaned values where this keeps raw pieces;
      `Clean` relates the two. */
  datatype Scan = Scan(pieces: seq<String>, current: String, brackets: int, quoted: bool)

  const Start := Scan([], "", 0, false)

  /** One character of the loop: the counters move first, then a comma with
      no bracket and no string open completes the current piece, and any
      other character extends it. */
  function Step(st: Scan, c: char): Scan {
    var brackets := st.brackets + (if c == '[' then 1 else 0) - (if c == ']' then 1 else 0);
    var quoted := if c == '"' then !st.quoted else st.quoted;
    if c == ',' && brackets == 0 && !quoted then Scan(st.pieces + [st.current], "", brackets, quoted)
    else Scan(st.pieces, st.current + [c], brackets, quoted)
  }

  /** The loop's state after reading `s` from `st`. */
  function Run(st: Scan, s: String): Scan {
    if s == [] then st else Step(Run(st, s[..|s| - 1]), s[|s| - 1])
  }

  /** The raw pieces between separating commas, blanks included. */
  function Segments(s: String): (r: seq<String>)
    ensures |r| >= 1
  {
    var st := Run(Start, s);
    st.pieces + [st.current]
  }

  /** No bracket and no string is open after reading `s`. */
  predicate Balanced(s: String) {
    Run(Start, s).brackets == 0 && !Run(Start, s).quoted
  }

  /** Whether the character at position `i` of `s` is a separating comma. */
  predicate IsSeparator(s: String, i: nat)
    requires i < |s|
  {
    var st := Run(Start, s[..i]);
    s[i] == ',' && st.brackets == 0 && !st.quoted
  }

  /** The number of separating commas in `s`. */
  function SeparatorCount(s: String): nat {
    if s == [] then 0
    else SeparatorCount(s[..|s| - 1]) + (if IsSeparator(s, |s| - 1) then 1 else 0)
  }

  /** The pieces that are not blank after trimming, each passed through
      `ExtractValue`, in order. */
  function Clean(pieces: seq<String>): (r: seq<String>)
    ensures |r| <= |pieces|
    ensures forall k :: 0 <= k < |r| ==> IsTrimmed(r[k])
  {
    if pieces == [] then []
    else
      var last := pieces[|pieces| - 1];
      Clean(pieces[..|pieces| - 1]) + (if Trim(last) != "" then [ExtractValue(last)] else [])
  }

  lemma CleanSnoc(pieces: seq<String>, last: String)
    ensures Clean(pieces + [last]) == Clean(pieces) + (if Trim(last) != "" then [ExtractValue(last)] else [])
  {
    assert (pieces + [last])[..|pieces|] == pieces;
  }

  /** Cleaning works piece by piece: the values of `a + b` are those of `a`
      followed by those of `b`, and one piece gives its `extractValue` when
      it is not blank and nothing when it is. */
  lemma {:induction false} CleanConcat(a: seq<String>, b: seq<String>)
    ensures Clean(a + b) == Clean(a) + Clean(b)
    ensures forall p :: Clean([p]) == (if Trim(p) != "" then [ExtractValue(p)] else [])
    decreases |b|
  {
    forall p ensures Clean([p]) == (if Trim(p) != "" then [ExtractValue(p)] else []) {
      CleanSnoc([], p);
    }
    if b == [] {
      assert a + b == a;
    } else {
      var b', last := b[..|b| - 1], b[|b| - 1];
      assert a + b == (a + b') + [last];
      assert b == b' + [last];
      CleanConcat(a, b');
      CleanSnoc(a + b', last);
      CleanSnoc(b', last);
    }
  }

  /** What `processInput` returns for `input`. */
  function SplitValues(input: String): seq<String> {
    Clean(Segments(input))
  }

  lemma RunSnoc(st: Scan, x: String, c: char)
    ensures Run(st, x + [c]) == Step(Run(st, x), c)
  {
    assert (x + [c])[..|x|] == x;
  }

  /** Reading `x` then `y` is reading `x + y`. */
  lemma {:induction false} RunConcat(st: Scan, x: String, y: String)
    ensures Run(st, x + y) == Run(Run(st, x), y)
    decreases |y|
  {
    if y == [] {
      assert x + y == x;
    } else {
      var y', c := y[..|y| - 1], y[|y| - 1];
      assert x + y == (x + y') + [c];
      RunConcat(st, x, y');
      RunSnoc(st, x + y', c);
    }
  }

  /** `processInput`: scan `input` once, keeping a bracket counter, a quote
      toggle and the piece collected so far. */
  method ProcessInput(input: String) returns (values: seq<String>)
    ensures values == SplitValues(input)
  {
    values := [];
    var currentValue: String := "";
    var bracketCount := 0;
    var quoteCount := 0;
    var i := 0;
    while i < |input|
      invariant 0 <= i <= |input|
      invariant bracketCount == Run(Start, input[..i]).brackets
      invariant quoteCount == if Run(Start, input[..i]).quoted then 1 else 0
      invariant values == Clean(Run(Start, input[..i]).pieces)
      invariant currentValue == Run(Start, input[..i]).current
    {
      var c := input[i];
      assert input[..i + 1][..i] == input[..i];
      ghost var before := Run(Start, input[..i]);
      if c == '[' { bracketCount := bracketCount + 1; }
      if c == ']' { bracketCount := bracketCount - 1; }
      if c == '"' { quoteCount := 1 - quoteCount; }

      if c == ',' && bracketCount == 0 && quoteCount == 0 {
        CleanSnoc(before.pieces, before.current);
        if Trim(currentValue) != "" {
          values := values + [ExtractValue(currentValue)];
        }
        currentValue := "";
      } else {
        currentValue := currentValue + [c];
      }
      i := i + 1;
    }
    assert input[..i] == input;
    CleanSnoc(Run(Start, input).pieces, Run(Start, input).current);
    if Trim(currentValue) != "" {
      values := values + [ExtractValue(currentValue)];
    }
  }

  /** Reading `w` after a state whose pieces join to `j` gives pieces that
      join to `j + w`: the splitter loses nothing but the separating commas. */
  lemma {:induction false} RunJoin(st: Scan, w: String)
    ensures Join(Run(st, w).pieces + [Run(st, w).current], ",") == Join(st.pieces + [st.current], ",") + w
    decreases |w|
  {
    if w == [] {
      assert Join(st.pieces + [st.current], ",") + w == Join(st.pieces + [st.current], ",");
    } else {
      var v, c := w[..|w| - 1], w[|w| - 1];
      assert w == v + [c];
      RunJoin(st, v);
      var r := Run(st, v);
      var j := Join(st.pieces + [st.current], ",");
      assert Join(r.pieces + [r.current], ",") == j + v;
      var next := Step(r, c);
      if next.current == "" && c == ',' && next.pieces == r.pieces + [r.current] {
        JoinSnoc(r.pieces + [r.current], "", ",");
        assert next.pieces + [next.current] == (r.pieces + [r.current]) + [""];
      } else {
        assert next.pieces == r.pieces && next.current == r.current + [c];
        if r.pieces == [] {
          assert next.pieces + [next.current] == [r.current + [c]];
          assert r.pieces + [r.current] == [r.current];
        } else {
          JoinSnoc(r.pieces, r.current, ",");
          JoinSnoc(r.pieces, r.current + [c], ",");
        }
      }
    }
  }

  /** Joining the pieces with commas gives back the scanned text. */
  lemma SegmentsJoin(s: String)
    ensures Join(Segments(s), ",") == s
  {
    RunJoin(Start, s);
    assert Start.pieces + [Start.current] == [""];
  }

  /** One piece is completed per separating comma. */
  lemma {:induction false} PiecesCount(s: String)
    ensures |Run(Start, s).pieces| == SeparatorCount(s)
    decreases |s|
  {
    if s != [] {
      PiecesCount(s[..|s| - 1]);
    }
  }

  /** `processInput` returns at most one value more than there are
      separating commas, each of them trimmed. */
  lemma SplitValuesBound(s: String)
    ensures |Segments(s)| == SeparatorCount(s) + 1
    ensures |SplitValues(s)| <= SeparatorCount(s) + 1
    ensures forall k :: 0 <= k < |SplitValues(s)| ==> IsTrimmed(SplitValues(s)[k])
  {
    PiecesCount(s);
  }

  /** A text with no separating comma is a single piece. */
  lemma {:induction false} NoSeparatorOnePiece(s: String)
    requires forall i :: 0 <= i < |s| ==> !IsSeparator(s, i)
    ensures Segments(s) == [s]
    decreases |s|
  {
    if s != [] {
      var p, c := s[..|s| - 1], s[|s| - 1];
      assert s == p + [c];
      forall i | 0 <= i < |p| ensures !IsSeparator(p, i) {
        assert !IsSeparator(s, i);
        assert s[..i] == p[..i];
      }
      NoSeparatorOnePiece(p);
      var r := Run(Start, p);
      assert r.pieces + [r.current] == [p];
      assert |r.pieces| == 0 && (r.pieces + [r.current])[0] == r.current;
      assert s[..|p|] == p;
      assert !IsSeparator(s, |p|);
      assert Run(Start, s) == Step(r, c);
      assert Run(Start, s).pieces == [] && Run(Start, s).current == s;
    }
  }

  /** After a boundary where no bracket or string is open and no piece is
      pending, the rest of the text is split as if on its own. */
  lemma {:induction false} RunFromBoundary(done: seq<String>, b: String)
    ensures var r := Run(Start, b);
      Run(Scan(done, "", 0, false), b) == Scan(done + r.pieces, r.current, r.brackets, r.quoted)
    decreases |b|
  {
    if b == [] {
      assert done + [] == done;
    } else {
      var b', c := b[..|b| - 1], b[|b| - 1];
      RunFromBoundary(done, b');
      var r := Run(Start, b');
      assert (done + r.pieces) + [r.current] == done + (r.pieces + [r.current]);
    }
  }

  /** A comma read with no bracket and no string open ends the pending
      piece; the rest of the text is split as if on its own. */
  lemma SplitAtTopLevelComma(a: String, b: String)
    requires Balanced(a)
    ensures Segments(a + "," + b) == Segments(a) + Segments(b)
  {
    var ra := Run(Start, a);
    RunSnoc(Start, a, ',');
    assert a + "," == a + [','];
    RunConcat(Start, a + ",", b);
    RunFromBoundary(ra.pieces + [ra.current], b);
    var rb := Run(Start, b);
    assert (ra.pieces + [ra.current] + rb.pieces) + [rb.current] == (ra.pieces + [ra.current]) + (rb.pieces + [rb.current]);
  }

  /** Text with no comma, bracket or quote. */
  predicate Plain(w: String) {
    ',' !in w && '[' !in w && ']' !in w && '"' !in w
  }

  /** Plain text only extends the piece being collected. */
  lemma {:induction false} RunPlain(st: Scan, w: String)
    requires Plain(w)
    ensures Run(st, w) == st.(current := st.current + w)
    decreases |w|
  {
    if w == [] {
      assert st.current + w == st.current;
    } else {
      var v, c := w[..|w| - 1], w[|w| - 1];
      assert w == v + [c];
      assert c in w;
      RunPlain(st, v);
      assert st.current + v + [c] == st.current + w;
    }
  }

  lemma Regroup5(x: String, p: String, a: String, q: String, b: String, r: String)
    ensures x + p + a + q + b + r == x + (p + a + q + b + r)
  {
  }

  /** Reading `w` from any state where no bracket has been closed too many
      only extends the piece being collected: every comma of `w` sits
      inside a bracket `w` opens, and `w` closes what it opens. */
  ghost predicate Nested(w: String) {
    forall st: Scan {:trigger Run(st, w)} :: st.brackets >= 0 ==> Run(st, w) == st.(current := st.current + w)
  }

  lemma PlainNested(w: String)
    requires Plain(w)
    ensures Nested(w)
  {
    forall st: Scan | st.brackets >= 0 ensures Run(st, w) == st.(current := st.current + w) {
      RunPlain(st, w);
    }
  }

  /** Reading `[p,q]` with `p` and `q` nested: the bracket protects the
      comma between them. */
  lemma ReadGroup(st: Scan, p: String, q: String)
    requires st.brackets >= 0 && Nested(p) && Nested(q)
    ensures Run(st, "[" + p + "," + q + "]") == st.(current := st.current + ("[" + p + "," + q + "]"))
  {
    RunSnoc(st, [], '[');
    assert [] + ['['] == "[";
    var s1 := Step(st, '[');
    RunConcat(st, "[", p);
    var s2 := Run(s1, p);
    assert s2 == s1.(current := s1.current + p);
    RunSnoc(st, "[" + p, ',');
    assert "[" + p + "," == "[" + p + [','];
    assert s2.brackets == st.brackets + 1 && s2.quoted == st.quoted && s2.pieces == st.pieces;
    var s3 := Step(s2, ',');
    assert s3 == Scan(st.pieces, s2.current + [','], st.brackets + 1, st.quoted);
    RunConcat(st, "[" + p + ",", q);
    var s4 := Run(s3, q);
    assert s4 == s3.(current := s3.current + q);
    assert s4.brackets == st.brackets + 1 && s4.quoted == st.quoted && s4.pieces == st.pieces;
    RunSnoc(st, "[" + p + "," + q, ']');
    assert "[" + p + "," + q + "]" == "[" + p + "," + q + [']'];
    Regroup5(st.current, "[", p, ",", q, "]");
  }

  lemma GroupNested(p: String, q: String)
    requires Nested(p) && Nested(q)
    ensures Nested("[" + p + "," + q + "]")
  {
    forall st: Scan | st.brackets >= 0
      ensures Run(st, "[" + p + "," + q + "]") == st.(current := st.current + ("[" + p + "," + q + "]"))
    {
      ReadGroup(st, p, q);
    }
  }

  /** Inside an open bracket, text with no bracket or quote only extends
      the piece being collected: its commas do not separate. */
  lemma {:induction false} RunInside(st: Scan, w: String)
    requires st.brackets >= 1 && '[' !in w && ']' !in w && '"' !in w
    ensures Run(st, w) == st.(current := st.current + w)
    decreases |w|
  {
    if w == [] {
      assert st.current + w == st.current;
    } else {
      var v, c := w[..|w| - 1], w[|w| - 1];
      assert w == v + [c];
      assert c in w;
      RunInside(st, v);
      assert st.current + v + [c] == st.current + w;
    }
  }

  /** A flat list `[w]`, its elements free of brackets and quotes, is
      nested: the commas between its elements do not separate. */
  lemma FlatListNested(w: String)
    requires '[' !in w && ']' !in w && '"' !in w
    ensures Nested("[" + w + "]")
  {
    forall st: Scan | st.brackets >= 0
      ensures Run(st, "[" + w + "]") == st.(current := st.current + ("[" + w + "]"))
    {
      RunSnoc(st, [], '[');
      assert [] + ['['] == "[";
      var s1 := Step(st, '[');
      RunConcat(st, "[", w);
      RunInside(s1, w);
      var s2 := Run(s1, w);
      RunSnoc(st, "[" + w, ']');
      assert "[" + w + "]" == "[" + w + [']'];
      assert st.current + "[" + w + "]" == st.current + ("[" + w + "]");
    }
  }

  /** A named flat list, `name[w]` with a plain name, is one piece: the
      commas of the list do not cut it. */
  lemma FlatListOnePiece(name: String, w: String)
    requires Plain(name) && '[' !in w && ']' !in w && '"' !in w
    ensures Segments(name + ("[" + w + "]")) == [name + ("[" + w + "]")]
  {
    var list := "[" + w + "]";
    FlatListNested(w);
    RunConcat(Start, name, list);
    RunPlain(Start, name);
    var s0 := Start.(current := name);
    assert Run(s0, list) == s0.(current := s0.current + list);
    assert [] + name == name;
  }

  /** A text that is one non-blank piece is one value. */
  lemma OnePieceValue(s: String)
    requires Segments(s) == [s] && Trim(s) != ""
    ensures SplitValues(s) == [ExtractValue(s)]
  {
    CleanSnoc([], s);
    assert [] + [s] == [s];
  }

  /** A flat list after plain text is one value. */
  lemma FlatListValue(prefix: String, w: String)
    requires Plain(prefix) && '[' !in w && ']' !in w && '"' !in w
    ensures SplitValues(prefix + ("[" + w + "]")) == [ExtractValue(prefix + ("[" + w + "]"))]
  {
    FlatListOnePiece(prefix, w);
    NonBlankList(prefix, "[" + w + "]");
    OnePieceValue(prefix + ("[" + w + "]"));
  }

  /** `name = [w]` and `[w]` both give the single value `[w]`. */
  lemma NamedFlatList(name: String, w: String)
    requires Plain(name) && '=' !in name
    requires '[' !in w && ']' !in w && '"' !in w && '=' !in w
    ensures SplitValues(name + " = " + ("[" + w + "]")) == ["[" + w + "]"]
    ensures SplitValues("[" + w + "]") == ["[" + w + "]"]
  {
    var list := "[" + w + "]";
    assert Plain(name + " = ");
    FlatListValue(name + " = ", w);
    FlatListValue([], w);
    assert [] + list == list;
    NamedListValue(name, list);
  }

  lemma NamedListValue(name: String, list: String)
    requires '=' !in name && list != [] && list[0] == '[' && list[|list| - 1] == ']' && '=' !in list
    ensures ExtractValue(name + " = " + list) == list
    ensures ExtractValue(list) == list
  {
    assert '=' !in name + " ";
    ExtractValueNamed(name + " ", " " + list);
    assert name + " " + "=" + (" " + list) == name + " = " + list;
    TrimPadded(" ", list, "");
    assert " " + list + "" == " " + list;
    TrimmedIsFixed(list);
  }

  lemma NonBlankList(name: String, list: String)
    requires list != [] && list[0] == '['
    ensures Trim(name + list) != ""
  {
    TrimEmptyIffAllSpace(name + list);
    assert (name + list)[|name|] == '[';
  }

  /** A named list of two pairs, `name[[a,b],[c,d]]`, is one piece and
      leaves no bracket or string open: its commas sit inside brackets. */
  lemma PairsOnePiece(name: String, a: String, b: String, c: String, d: String)
    requires Plain(name) && Plain(a) && Plain(b) && Plain(c) && Plain(d)
    ensures var s := name + ("[" + ("[" + a + "," + b + "]") + "," + ("[" + c + "," + d + "]") + "]");
      Segments(s) == [s] && Balanced(s)
  {
    PlainNested(a);
    PlainNested(b);
    PlainNested(c);
    PlainNested(d);
    GroupNested(a, b);
    GroupNested(c, d);
    var p, q := "[" + a + "," + b + "]", "[" + c + "," + d + "]";
    GroupNested(p, q);
    var w := "[" + p + "," + q + "]";
    RunConcat(Start, name, w);
    RunPlain(Start, name);
    var s0 := Start.(current := name);
    assert Run(s0, w) == s0.(current := s0.current + w);
    assert [] + name == name;
  }

  /** The first argument of the example is one piece, read with balanced
      brackets and no string open. */
  lemma NestedListOnePiece()
    ensures Segments("nums = [[1,2],[3,4]]") == ["nums = [[1,2],[3,4]]"]
    ensures Balanced("nums = [[1,2],[3,4]]")
  {
    PairsOnePiece("nums = ", "1", "2", "3", "4");
    NestedListText();
  }

  lemma NestedListText()
    ensures "nums = " + ("[" + ("[" + "1" + "," + "2" + "]") + "," + ("[" + "3" + "," + "4" + "]") + "]") == "nums = [[1,2],[3,4]]"
  {
  }

  lemma NestedListPieces()
    ensures Segments("nums = [[1,2],[3,4]], target = 7") == ["nums = [[1,2],[3,4]]", " target = 7"]
  {
    NestedListOnePiece();
    TargetOnePiece();
    SplitAtTopLevelComma("nums = [[1,2],[3,4]]", " target = 7");
    ExampleText();
  }

  lemma TargetOnePiece()
    ensures Segments(" target = 7") == [" target = 7"]
  {
    RunPlain(Start, " target = 7");
    assert [] + " target = 7" == " target = 7";
  }

  /** The nested-list example: `nums = [[1,2],[3,4]], target = 7` splits into
      exactly `[[1,2],[3,4]]` and `7`; the commas inside the brackets do not
      separate. */
  lemma NestedListExample()
    ensures SplitValues("nums = [[1,2],[3,4]], target = 7") == ["[[1,2],[3,4]]", "7"]
  {
    NestedListPieces();
    CleanPair("nums = [[1,2],[3,4]]", " target = 7");
    ListValue();
    TargetValue();
  }

  lemma CleanPair(a: String, b: String)
    requires Trim(a) != "" && Trim(b) != ""
    ensures Clean([a, b]) == [ExtractValue(a), ExtractValue(b)]
  {
    CleanSnoc([], a);
    CleanSnoc([a], b);
    assert [a] + [b] == [a, b];
  }

  lemma ExampleText()
    ensures "nums = [[1,2],[3,4]]" + "," + " target = 7" == "nums = [[1,2],[3,4]], target = 7"
  {
  }

  lemma ListValue()
    ensures Trim("nums = [[1,2],[3,4]]") != "" && ExtractValue("nums = [[1,2],[3,4]]") == "[[1,2],[3,4]]"
  {
    TrimmedIsFixed("nums = [[1,2],[3,4]]");
    ListNamed();
    ListTrim();
  }

  lemma ListNamed()
    ensures ExtractValue("nums = [[1,2],[3,4]]") == Trim(" [[1,2],[3,4]]")
  {
    ExtractValueNamed("nums ", " [[1,2],[3,4]]");
    ListText();
  }

  lemma ListText()
    ensures "nums " + "=" + " [[1,2],[3,4]]" == "nums = [[1,2],[3,4]]"
  {
  }

  lemma ListTrim()
    ensures Trim(" [[1,2],[3,4]]") == "[[1,2],[3,4]]"
  {
    TrimPadded(" ", "[[1,2],[3,4]]", "");
    assert " " + "[[1,2],[3,4]]" + "" == " [[1,2],[3,4]]";
  }

  lemma TargetValue()
    ensures Trim(" target = 7") != "" && ExtractValue(" target = 7") == "7"
  {
    TargetTrim();
    TargetNamed();
    SevenTrim();
  }

  lemma TargetTrim()
    ensures Trim(" target = 7") == "target = 7"
  {
    TrimPadded(" ", "target = 7", "");
    assert " " + "target = 7" + "" == " target = 7";
  }

  lemma TargetNamed()
    ensures ExtractValue(" target = 7") == Trim(" 7")
  {
    ExtractValueNamed(" target ", " 7");
    assert " target " + "=" + " 7" == " target = 7";
  }

  lemma SevenTrim()
    ensures Trim(" 7") == "7"
  {
    TrimPadded(" ", "7", "");
    assert " " + "7" + "" == " 7";
  }
}
