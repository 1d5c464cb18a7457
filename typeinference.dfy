/** The input-type classifier `detectInputTypes` of src/fetchTestCases.ts,
    which names a C++ parameter type for every input value of a fixture. */
module TypeInference {
  import opened Wrappers
  import opened Strings
  import opened Extraction

  const NestedVector: String := "vector<vector<int>>"
  const StringVector: String := "vector<string>"
  const IntVector: String := "vector<int>"
  const StringType: String := "string"
  const IntType: String := "int"

  predicate AllIn(s: String, alphabet: String) {
    forall i :: 0 <= i < |s| ==> s[i] in alphabet
  }

  /** Digits with at most one `.` among them and at least one digit. */
  predicate IsMantissa(m: String) {
    match FindChar(m, '.')
    case None => |m| >= 1 && AllDigits(m)
    case Some(k) => k < |m| && |m| >= 2 && AllDigits(m[..k]) && AllDigits(m[k + 1..])
  }

  /** One or more digits, optionally after a sign. */
  predicate IsSignedDigits(d: String) {
    |d| >= 1 &&
    if d[0] == '+' || d[0] == '-' then |d| >= 2 && AllDigits(d[1..]) else AllDigits(d)
  }

  /** A decimal literal without sign: a mantissa and an optional exponent
      introduced by `e` or `E`. */
  predicate IsUnsignedDecimal(u: String) {
    match FindChar(ToLower(u), 'e')
    case None => IsMantissa(u)
    case Some(k) => k < |u| && IsMantissa(u[..k]) && IsSignedDigits(u[k + 1..])
  }

  /** A hexadecimal, octal or binary literal (`0x1F`, `0o17`, `0b101`); these
      take no sign. */
  predicate IsPrefixedInteger(t: String) {
    |t| > 2 && t[0] == '0' &&
    ((t[1] in "xX" && AllIn(t[2..], "0123456789abcdefABCDEF")) ||
     (t[1] in "oO" && AllIn(t[2..], "01234567")) ||
     (t[1] in "bB" && AllIn(t[2..], "01")))
  }

  predicate IsUnsignedNumber(u: String) {
    u == "Infinity" || IsUnsignedDecimal(u)
  }

  /** Whether `Number(s)` is a number rather than `NaN`: after trimming, the
      text is empty (which `Number` reads as 0), a prefixed integer, or a
      decimal literal or `Infinity` with an optional sign. */
  predicate IsNumeric(s: String) {
    var t := Trim(s);
    t == [] || IsPrefixedInteger(t) ||
    (if t[0] == '+' || t[0] == '-' then IsUnsignedNumber(t[1..]) else IsUnsignedNumber(t))
  }

  predicate IsBracketed(input: String) {
    StartsWith(input, "[") && EndsWith(input, "]")
  }

  predicate IsQuoted(input: String) {
    StartsWith(input, "\"") && EndsWith(input, "\"")
  }

  /** The type of one input, by the first rule that matches. */
  function InputType(input: String): String {
    if IsBracketed(input) then
      if '[' in input[1..] then NestedVector
      else if '"' in input then StringVector
      else IntVector
    else if IsQuoted(input) then StringType
    else if IsNumeric(input) then IntType
    else StringType
  }

  /** The loop of `detectInputTypes`: one type per input, pushed in order. */
  method DetectInputTypes(testCase: TestCase) returns (types: seq<String>)
    ensures |types| == |testCase.inputs|
    ensures forall i :: 0 <= i < |types| ==> types[i] == InputType(testCase.inputs[i])
  {
    types := [];
    var k := 0;
    while k < |testCase.inputs|
      invariant 0 <= k <= |testCase.inputs|
      invariant |types| == k
      invariant forall i :: 0 <= i < k ==> types[i] == InputType(testCase.inputs[i])
    {
      var input := testCase.inputs[k];
      if StartsWith(input, "[") && EndsWith(input, "]") {
        if '[' in input[1..] {
          types := types + [NestedVector];
        } else {
          if '"' in input {
            types := types + [StringVector];
          } else {
            types := types + [IntVector];
          }
        }
      } else if StartsWith(input, "\"") && EndsWith(input, "\"") {
        types := types + [StringType];
      } else if IsNumeric(input) {
        types := types + [IntType];
      } else {
        types := types + [StringType];
      }
      k := k + 1;
    }
  }

  /** Every input gets one of five types, and each type is given exactly
      when its rule is the first to match. */
  lemma InputTypeRules(input: String)
    ensures InputType(input) in {NestedVector, StringVector, IntVector, StringType, IntType}
    ensures InputType(input) == NestedVector <==> IsBracketed(input) && '[' in input[1..]
    ensures InputType(input) == StringVector <==>
      IsBracketed(input) && '[' !in input[1..] && '"' in input
    ensures InputType(input) == IntVector <==>
      IsBracketed(input) && '[' !in input[1..] && '"' !in input
    ensures InputType(input) == IntType <==>
      !IsBracketed(input) && !IsQuoted(input) && IsNumeric(input)
    ensures InputType(input) == StringType <==>
      !IsBracketed(input) && (IsQuoted(input) || !IsNumeric(input))
  {
    assert NestedVector[7] != StringVector[7] && NestedVector[7] != IntVector[7];
    assert StringVector[7] != IntVector[7];
    assert |StringType| != |NestedVector| && |StringType| != |StringVector| && |StringType| != |IntVector|;
    assert |IntType| != |NestedVector| && |IntType| != |StringVector| && |IntType| != |IntVector|;
    assert |IntType| != |StringType|;
  }

  /** Lists: nested by an inner `[`, of strings by a quote. */
  lemma NestedListTyped()
    ensures InputType("[[1,2],[3,4]]") == NestedVector
  {
    assert "[[1,2],[3,4]]"[1..][0] == '[';
  }

  lemma IntListTyped()
    ensures InputType("[1,2,3]") == IntVector
  {
  }

  lemma OtherListsTyped()
    ensures InputType("[\"a\",\"b\"]") == StringVector
    ensures InputType("[]") == IntVector
  {
  }

  /** A run of digits is a number. */
  lemma DigitsAreNumeric(t: String)
    requires |t| >= 1 && AllDigits(t)
    ensures IsNumeric(t)
  {
    TrimmedIsFixed(t);
    FindCharFirst(t, '.');
    FindCharFirst(ToLower(t), 'e');
    assert ToLower(t) == t;
  }

  lemma FractionIsMantissa(a: String, b: String)
    requires |a| >= 1 && AllDigits(a) && AllDigits(b)
    ensures IsMantissa(a + "." + b)
  {
    var u := a + "." + b;
    FindCharFirst(u, '.');
    assert u[..|a|] == a;
    assert u[|a|] == '.';
    assert FindChar(u, '.') == Some(|a|);
    assert u[|a| + 1..] == b;
  }

  /** Text of digits and dots has no exponent marker. */
  lemma NoExponent(u: String)
    requires AllIn(u, "0123456789.")
    ensures FindChar(ToLower(u), 'e') == None
  {
    FindCharFirst(ToLower(u), 'e');
    assert forall i :: 0 <= i < |u| ==> ToLower(u)[i] == u[i];
  }

  /** A signed fraction is a number. */
  lemma SignedFractionIsNumeric(sign: char, a: String, b: String)
    requires sign == '+' || sign == '-'
    requires |a| >= 1 && AllDigits(a) && AllDigits(b)
    ensures IsNumeric([sign] + a + "." + b)
  {
    var u := a + "." + b;
    FractionIsMantissa(a, b);
    assert AllIn(u, "0123456789.") by {
      forall i | 0 <= i < |u| ensures u[i] in "0123456789." {
        if i < |a| { assert u[i] == a[i]; } else if i > |a| { assert u[i] == b[i - |a| - 1]; }
      }
    }
    NoExponent(u);
    assert IsUnsignedNumber(u);
    var t := [sign] + u;
    assert t == [sign] + a + "." + b;
    assert IsTrimmed(t);
    TrimmedIsFixed(t);
    assert t[1..] == u;
  }

  /** The first `e` of digits, `e` and digits is the one between them. */
  lemma ExponentMarker(a: String, e: String)
    requires AllDigits(a) && AllDigits(e)
    ensures FindChar(ToLower(a + "e" + e), 'e') == Some(|a|)
  {
    var t := a + "e" + e;
    FindCharFirst(ToLower(t), 'e');
    assert ToLower(t)[..|a|] == a;
    assert ToLower(t)[|a|] == 'e';
  }

  lemma DigitsAreMantissa(a: String)
    requires |a| >= 1 && AllDigits(a)
    ensures IsMantissa(a)
  {
    FindCharFirst(a, '.');
  }

  lemma DigitsAreSigned(e: String)
    requires |e| >= 1 && AllDigits(e)
    ensures IsSignedDigits(e)
  {
    assert IsDigit(e[0]);
  }

  /** A mantissa, the first `e` and signed digits make a decimal. */
  lemma ExponentDecimal(u: String, k: nat)
    requires FindChar(ToLower(u), 'e') == Some(k) && k < |u|
    requires IsMantissa(u[..k]) && IsSignedDigits(u[k + 1..])
    ensures IsUnsignedDecimal(u)
  {
  }

  /** Digits with an exponent are a number. */
  lemma ExponentIsNumeric(a: String, e: String)
    requires |a| >= 1 && AllDigits(a) && |e| >= 1 && AllDigits(e)
    ensures IsNumeric(a + "e" + e)
  {
    var t := a + "e" + e;
    var k := |a|;
    assert t[0] == a[0] && t[|t| - 1] == e[|e| - 1];
    assert IsDigit(t[0]) && IsDigit(t[|t| - 1]);
    TrimmedIsFixed(t);
    ExponentMarker(a, e);
    DigitsAreMantissa(a);
    DigitsAreSigned(e);
    assert t[..k] == a && t[k + 1..] == e;
    ExponentDecimal(t, k);
  }

  /** Scalars, with `Number`'s readings: a sign, a fraction and an exponent
      are numbers, and so is the empty text; a quoted text is a string even
      when a number is quoted. */
  lemma ScalarExamples()
    ensures InputType("\"abc\"") == StringType
    ensures InputType("\"42\"") == StringType
  {
  }

  lemma NumberExamples()
    ensures InputType("42") == IntType
    ensures InputType("") == IntType
  {
    DigitsAreNumeric("42");
    TrimEmptyIffAllSpace("");
  }

  lemma FractionExample()
    ensures InputType("-3.5") == IntType
  {
    SignedFractionIsNumeric('-', "3", "5");
    assert ['-'] + "3" + "." + "5" == "-3.5";
  }

  lemma ExponentExample()
    ensures InputType("1e5") == IntType
  {
    ExponentIsNumeric("1", "5");
    assert "1" + "e" + "5" == "1e5";
  }

  /** A word is not a number. */
  lemma WordExample()
    ensures InputType("abc") == StringType
  {
    TrimmedIsFixed("abc");
    FindCharFirst("abc", '.');
    FindCharFirst(ToLower("abc"), 'e');
  }
}
