/** The part of encoding/json's Unmarshal that the coordinate decoders reach:
    the text of a JSON array of numbers (decoded into []json.Number) or of an
    array of such arrays (decoded into [][]json.Number). A json.Number keeps
    the literal's text verbatim. `null` in place of an array decodes to an
    empty slice. Every other JSON value is reported as an error (see README
    for the few values Go would also accept). */
module JsonNumbers {
  import opened Wrappers

  /** json.Number: the text of a number literal, kept verbatim. */
  type Number = string

  /** A syntax or type error from json.Unmarshal. */
  datatype UnmarshalError = UnmarshalError

  predicate IsWhitespace(c: char) {
    c == ' ' || c == '\t' || c == '\n' || c == '\r'
  }

  predicate IsDigit(c: char) {
    '0' <= c <= '9'
  }

  /** A character that can occur inside a number literal. */
  predicate IsNumberChar(c: char) {
    IsDigit(c) || c == '-' || c == '+' || c == '.' || c == 'e' || c == 'E'
  }

  predicate AllDigits(s: string) {
    forall i :: 0 <= i < |s| ==> IsDigit(s[i])
  }

  /** The length of the longest all-digit prefix. */
  function DigitCount(s: string): (k: nat)
    ensures k <= |s|
  {
    if s != [] && IsDigit(s[0]) then 1 + DigitCount(s[1..]) else 0
  }

  lemma {:induction false} DigitCountDigits(s: string)
    ensures AllDigits(s[..DigitCount(s)])
  {
    if s != [] && IsDigit(s[0]) {
      DigitCountDigits(s[1..]);
      assert s[..DigitCount(s)] == [s[0]] + s[1..][..DigitCount(s[1..])];
    }
  }

  /** An exponent part, possibly empty: ( [eE] [+-]? digits )? */
  predicate IsExponent(s: string) {
    s == [] ||
    ((s[0] == 'e' || s[0] == 'E') &&
     var t := if |s| > 1 && (s[1] == '+' || s[1] == '-') then s[2..] else s[1..];
     t != [] && AllDigits(t))
  }

  /** A fraction part, possibly empty, followed by an exponent part: ( . digits )? exponent */
  predicate IsFractionExponent(s: string) {
    if s != [] && s[0] == '.' then
      var k := DigitCount(s[1..]);
      k > 0 && IsExponent(s[1 + k..])
    else IsExponent(s)
  }

  /** An unsigned number: ( 0 | [1-9] digits* ) fraction? exponent? */
  predicate IsUnsigned(s: string) {
    s != [] && IsDigit(s[0]) &&
    var k := if s[0] == '0' then 1 else DigitCount(s);
    IsFractionExponent(s[k..])
  }

  /** The JSON number literal grammar: -? unsigned. */
  predicate IsNumber(s: string) {
    if s != [] && s[0] == '-' then IsUnsigned(s[1..]) else IsUnsigned(s)
  }

  predicate AllNumbers(ns: seq<Number>) {
    forall i :: 0 <= i < |ns| ==> IsNumber(ns[i])
  }

  predicate AllNumberArrays(arrays: seq<seq<Number>>) {
    forall i :: 0 <= i < |arrays| ==> AllNumbers(arrays[i])
  }

  predicate AllNumberChars(s: string) {
    forall i :: 0 <= i < |s| ==> IsNumberChar(s[i])
  }

  lemma ExponentChars(s: string)
    requires IsExponent(s)
    ensures AllNumberChars(s)
  {
    if s != [] {
      var t := if |s| > 1 && (s[1] == '+' || s[1] == '-') then s[2..] else s[1..];
      forall i | 0 <= i < |s| ensures IsNumberChar(s[i]) {
        if i >= |s| - |t| {
          assert s[i] == t[i - (|s| - |t|)];
        }
      }
    }
  }

  lemma NumberCharsConcat(a: string, b: string)
    requires AllNumberChars(a) && AllNumberChars(b)
    ensures AllNumberChars(a + b)
  {
    forall i | 0 <= i < |a + b| ensures IsNumberChar((a + b)[i]) {
      if i >= |a| {
        assert (a + b)[i] == b[i - |a|];
      }
    }
  }

  lemma FractionExponentChars(s: string)
    requires IsFractionExponent(s)
    ensures AllNumberChars(s)
  {
    if s != [] && s[0] == '.' {
      var k := DigitCount(s[1..]);
      DigitCountDigits(s[1..]);
      ExponentChars(s[1 + k..]);
      assert s[1..][..k] == s[1..1 + k];
      NumberCharsConcat(s[..1], s[1..1 + k]);
      NumberCharsConcat(s[..1 + k], s[1 + k..]);
      assert s[..1] + s[1..1 + k] == s[..1 + k];
      assert s[..1 + k] + s[1 + k..] == s;
    } else {
      ExponentChars(s);
    }
  }

  lemma UnsignedChars(s: string)
    requires IsUnsigned(s)
    ensures AllNumberChars(s)
  {
    var k := if s[0] == '0' then 1 else DigitCount(s);
    IntegerPartChars(s);
    FractionExponentChars(s[k..]);
    NumberCharsConcat(s[..k], s[k..]);
    assert s[..k] + s[k..] == s;
  }

  /** The integer part of an unsigned number is made of digits. */
  lemma IntegerPartChars(s: string)
    requires s != [] && IsDigit(s[0])
    ensures var k := if s[0] == '0' then 1 else DigitCount(s);
      k <= |s| && AllNumberChars(s[..k])
  {
    if s[0] != '0' {
      DigitCountDigits(s);
    }
  }

  /** A number literal is a non-empty run of number characters. */
  lemma NumberChars(s: string)
    requires IsNumber(s)
    ensures s != [] && AllNumberChars(s)
  {
    if s != [] && s[0] == '-' {
      UnsignedChars(s[1..]);
      forall i | 1 <= i < |s| ensures IsNumberChar(s[i]) {
        assert s[i] == s[1..][i - 1];
      }
    } else {
      UnsignedChars(s);
    }
  }

  function SkipWhitespace(s: string): (r: string)
    ensures |r| <= |s|
    ensures r != [] ==> !IsWhitespace(r[0])
  {
    if s != [] && IsWhitespace(s[0]) then SkipWhitespace(s[1..]) else s
  }

  /** SkipWhitespace drops exactly the leading run of whitespace: what it
      returns is a suffix of s, and everything before it is whitespace. */
  lemma {:induction false} SkipWhitespaceSuffix(s: string)
    ensures var r := SkipWhitespace(s);
      r == s[|s| - |r|..] && forall i :: 0 <= i < |s| - |r| ==> IsWhitespace(s[i])
    decreases |s|
  {
    if s != [] && IsWhitespace(s[0]) {
      SkipWhitespaceSuffix(s[1..]);
      var r := SkipWhitespace(s);
      forall i | 1 <= i < |s| - |r| ensures IsWhitespace(s[i]) {
        assert s[i] == s[1..][i - 1];
      }
    }
  }

  /** The length of the longest prefix made of number characters. */
  function NumberRun(s: string): (k: nat)
    ensures k <= |s|
  {
    if s != [] && IsNumberChar(s[0]) then 1 + NumberRun(s[1..]) else 0
  }

  /** The number literal at the head of s and the text after it. As in Go's
      scanner, a literal ends at the first character that cannot continue it,
      and a number character that cannot continue it is an error. */
  function ScanNumber(s: string): (r: Result<(Number, string), UnmarshalError>)
    ensures r.Ok? ==> r.value.0 != [] && s == r.value.0 + r.value.1
  {
    var k := NumberRun(s);
    if IsNumber(s[..k]) then Ok((s[..k], s[k..])) else Err(UnmarshalError)
  }

  /** r with n put in front of its numbers. */
  function ConsNumber(n: Number, r: Result<(seq<Number>, string), UnmarshalError>): Result<(seq<Number>, string), UnmarshalError> {
    if r.Ok? then Ok(([n] + r.value.0, r.value.1)) else r
  }

  /** The elements of a number array, from its first element up to and
      including its closing bracket; the result is the numbers and the rest. */
  function NumberElements(s: string): (r: Result<(seq<Number>, string), UnmarshalError>)
    ensures r.Ok? ==> |r.value.1| < |s|
    decreases |s|
  {
    var scanned := ScanNumber(s);
    if scanned.Err? then Err(UnmarshalError)
    else
      var t := SkipWhitespace(scanned.value.1);
      if t == [] then Err(UnmarshalError)
      else if t[0] == ']' then Ok(([scanned.value.0], t[1..]))
      else if t[0] == ',' then ConsNumber(scanned.value.0, NumberElements(SkipWhitespace(t[1..])))
      else Err(UnmarshalError)
  }

  /** A number array, or `null`, at the head of s; the result is its numbers
      (none for `null`, which Go decodes as a nil slice) and the rest of s. */
  function NumberArray(s: string): (r: Result<(seq<Number>, string), UnmarshalError>)
    ensures r.Ok? ==> |r.value.1| < |s|
  {
    if |s| >= 4 && s[..4] == "null" then Ok(([], s[4..]))
    else if s != [] && s[0] == '[' then
      var t := SkipWhitespace(s[1..]);
      if t != [] && t[0] == ']' then Ok(([], t[1..])) else NumberElements(t)
    else Err(UnmarshalError)
  }

  /** json.Unmarshal of a whole text into []json.Number: one number array or
      `null`, with nothing but whitespace around it. */
  function ParseNumberArray(s: string): (r: Result<seq<Number>, UnmarshalError>)
    ensures r.Ok? ==> AllNumbers(r.value)
  {
    var head := NumberArray(SkipWhitespace(s));
    NumberArraySound(SkipWhitespace(s));
    if head.Ok? && SkipWhitespace(head.value.1) == [] then Ok(head.value.0) else Err(UnmarshalError)
  }

  /** r with ns put in front of its arrays. */
  function ConsArray(ns: seq<Number>, r: Result<(seq<seq<Number>>, string), UnmarshalError>): Result<(seq<seq<Number>>, string), UnmarshalError> {
    if r.Ok? then Ok(([ns] + r.value.0, r.value.1)) else r
  }

  /** The elements of an array of number arrays, from its first element up to
      and including its closing bracket. */
  function ArrayElements(s: string): (r: Result<(seq<seq<Number>>, string), UnmarshalError>)
    ensures r.Ok? ==> |r.value.1| < |s|
    decreases |s|
  {
    var inner := NumberArray(s);
    if inner.Err? then Err(UnmarshalError)
    else
      var t := SkipWhitespace(inner.value.1);
      if t == [] then Err(UnmarshalError)
      else if t[0] == ']' then Ok(([inner.value.0], t[1..]))
      else if t[0] == ',' then ConsArray(inner.value.0, ArrayElements(SkipWhitespace(t[1..])))
      else Err(UnmarshalError)
  }

  /** An array of number arrays, or `null`, at the head of s. */
  function ArrayOfArrays(s: string): (r: Result<(seq<seq<Number>>, string), UnmarshalError>)
    ensures r.Ok? ==> |r.value.1| < |s|
  {
    if |s| >= 4 && s[..4] == "null" then Ok(([], s[4..]))
    else if s != [] && s[0] == '[' then
      var t := SkipWhitespace(s[1..]);
      if t != [] && t[0] == ']' then Ok(([], t[1..])) else ArrayElements(t)
    else Err(UnmarshalError)
  }

  /** json.Unmarshal of a whole text into [][]json.Number. */
  function ParseArrayOfArrays(s: string): (r: Result<seq<seq<Number>>, UnmarshalError>)
    ensures r.Ok? ==> AllNumberArrays(r.value)
  {
    var head := ArrayOfArrays(SkipWhitespace(s));
    ArrayOfArraysSound(SkipWhitespace(s));
    if head.Ok? && SkipWhitespace(head.value.1) == [] then Ok(head.value.0) else Err(UnmarshalError)
  }

  /** Texts joined by a separator. */
  function Join(parts: seq<string>, sep: string): string {
    if parts == [] then ""
    else if |parts| == 1 then parts[0]
    else parts[0] + sep + Join(parts[1..], sep)
  }

  /** The canonical text of a number array, `[a, b, c]`. */
  function ArrayText(ns: seq<Number>): string {
    "[" + Join(ns, ", ") + "]"
  }

  /** The canonical texts of number arrays joined by commas, `[a, b],[c, d]`. */
  function ArraysBody(arrays: seq<seq<Number>>): string {
    if arrays == [] then ""
    else if |arrays| == 1 then ArrayText(arrays[0])
    else ArrayText(arrays[0]) + "," + ArraysBody(arrays[1..])
  }

  /** The canonical text of an array of arrays, `[[a, b],[c, d]]`. */
  function ArraysText(arrays: seq<seq<Number>>): string {
    "[" + ArraysBody(arrays) + "]"
  }

  /** Every literal the scanner accepts is a number, and it is never followed by a
      character that could have continued it. */
  lemma ScanNumberSound(s: string)
    ensures ScanNumber(s).Ok? ==> IsNumber(ScanNumber(s).value.0)
    ensures ScanNumber(s).Ok? ==> var rest := ScanNumber(s).value.1; rest == [] || !IsNumberChar(rest[0])
  {
    NumberRunStops(s);
  }

  lemma {:induction false} NumberRunStops(s: string)
    ensures NumberRun(s) < |s| ==> !IsNumberChar(s[NumberRun(s)])
  {
    if s != [] && IsNumberChar(s[0]) {
      NumberRunStops(s[1..]);
    }
  }

  /** Only number literals come out of the number-array parser. */
  lemma {:induction false} NumberElementsSound(s: string)
    ensures NumberElements(s).Ok? ==> AllNumbers(NumberElements(s).value.0)
    decreases |s|
  {
    var scanned := ScanNumber(s);
    if scanned.Ok? {
      ScanNumberSound(s);
      var t := SkipWhitespace(scanned.value.1);
      if t != [] && t[0] == ',' {
        NumberElementsSound(SkipWhitespace(t[1..]));
      }
    }
  }

  lemma NumberArraySound(s: string)
    ensures NumberArray(s).Ok? ==> AllNumbers(NumberArray(s).value.0)
  {
    if s != [] && s[0] == '[' {
      NumberElementsSound(SkipWhitespace(s[1..]));
    }
  }

  lemma {:induction false} ArrayElementsSound(s: string)
    ensures ArrayElements(s).Ok? ==> AllNumberArrays(ArrayElements(s).value.0)
    decreases |s|
  {
    var inner := NumberArray(s);
    if inner.Ok? {
      NumberArraySound(s);
      var t := SkipWhitespace(inner.value.1);
      if t != [] && t[0] == ',' {
        ArrayElementsSound(SkipWhitespace(t[1..]));
      }
    }
  }

  lemma ArrayOfArraysSound(s: string)
    ensures ArrayOfArrays(s).Ok? ==> AllNumberArrays(ArrayOfArrays(s).value.0)
  {
    if s != [] && s[0] == '[' {
      ArrayElementsSound(SkipWhitespace(s[1..]));
    }
  }

  lemma {:induction false} NumberRunOf(n: string, rest: string)
    requires AllNumberChars(n)
    requires rest == [] || !IsNumberChar(rest[0])
    ensures NumberRun(n + rest) == |n|
  {
    if n != [] {
      assert (n + rest)[0] == n[0];
      assert (n + rest)[1..] == n[1..] + rest;
      NumberRunOf(n[1..], rest);
    } else {
      assert n + rest == rest;
    }
  }

  lemma ScanNumberOf(n: Number, rest: string)
    requires IsNumber(n)
    requires rest == [] || !IsNumberChar(rest[0])
    ensures ScanNumber(n + rest) == Ok((n, rest))
  {
    NumberChars(n);
    NumberRunOf(n, rest);
    var s := n + rest;
    assert s[..|n|] == n && s[|n|..] == rest;
  }

  lemma SkipNoWhitespace(s: string)
    requires s != [] && !IsWhitespace(s[0])
    ensures SkipWhitespace(s) == s
  {
  }

  lemma NumberElementsLast(n: Number, rest: string)
    requires IsNumber(n)
    ensures NumberElements(n + "]" + rest) == Ok(([n], rest))
  {
    var after := "]" + rest;
    var s := n + after;
    assert n + "]" + rest == s;
    assert ScanNumber(s) == Ok((n, after)) by { ScanNumberOf(n, after); }
    assert SkipWhitespace(after) == after by { SkipNoWhitespace(after); }
    assert after[0] == ']' && after[1..] == rest;
  }

  /** Elements whose first number is followed by a comma and a space continue after them. */
  lemma NumberElementsComma(s: string, n: Number, tail: string)
    requires ScanNumber(s) == Ok((n, ", " + tail))
    requires tail != [] && !IsWhitespace(tail[0])
    ensures NumberElements(s) == ConsNumber(n, NumberElements(tail))
  {
    var after := ", " + tail;
    assert SkipWhitespace(after) == after by { SkipNoWhitespace(after); }
    assert after[1..] == " " + tail;
    assert SkipWhitespace(" " + tail) == tail by {
      assert (" " + tail)[1..] == tail;
      SkipNoWhitespace(tail);
    }
  }

  lemma NumberElementsNext(n: Number, tail: string, ns: seq<Number>, rest: string)
    requires IsNumber(n)
    requires tail != [] && !IsWhitespace(tail[0])
    requires NumberElements(tail) == Ok((ns, rest))
    ensures NumberElements(n + ", " + tail) == Ok(([n] + ns, rest))
  {
    var s := n + (", " + tail);
    assert n + ", " + tail == s;
    ScanNumberOf(n, ", " + tail);
    NumberElementsComma(s, n, tail);
  }

  /** The text of a number list starts with the first character of its first number. */
  lemma JoinStart(ns: seq<Number>, rest: string)
    requires ns != [] && IsNumber(ns[0])
    ensures var s := Join(ns, ", ") + rest; s != [] && s[0] == ns[0][0] && !IsWhitespace(s[0])
  {
    NumberChars(ns[0]);
  }

  lemma {:induction false} NumberElementsOf(ns: seq<Number>, rest: string)
    requires ns != [] && AllNumbers(ns)
    ensures NumberElements(Join(ns, ", ") + "]" + rest) == Ok((ns, rest))
  {
    if |ns| == 1 {
      NumberElementsLast(ns[0], rest);
      assert [ns[0]] == ns;
    } else {
      var tail := Join(ns[1..], ", ") + "]" + rest;
      assert Join(ns, ", ") + "]" + rest == ns[0] + ", " + tail;
      JoinStart(ns[1..], "]" + rest);
      NumberElementsOf(ns[1..], rest);
      NumberElementsNext(ns[0], tail, ns[1..], rest);
      assert [ns[0]] + ns[1..] == ns;
    }
  }

  /** The number-array parser reads back the canonical text of any list of number literals. */
  lemma NumberArrayOf(ns: seq<Number>, rest: string)
    requires AllNumbers(ns)
    ensures NumberArray(ArrayText(ns) + rest) == Ok((ns, rest))
  {
    var s := ArrayText(ns) + rest;
    assert s[0] == '[' && s[1..] == Join(ns, ", ") + "]" + rest;
    assert !(|s| >= 4 && s[..4] == "null") by {
      if |s| >= 4 { assert s[..4][0] == '['; }
    }
    if ns == [] {
      assert s[1..] == "]" + rest;
      assert SkipWhitespace(s[1..]) == s[1..];
    } else {
      assert SkipWhitespace(s[1..]) == s[1..] by {
        NumberChars(ns[0]);
        assert Join(ns, ", ")[0] == ns[0][0];
        SkipNoWhitespace(s[1..]);
      }
      assert NumberElements(s[1..]) == Ok((ns, rest)) by { NumberElementsOf(ns, rest); }
    }
  }

  /** Round trip of json.Unmarshal into []json.Number over the canonical text. */
  lemma ParseNumberArrayOf(ns: seq<Number>)
    requires AllNumbers(ns)
    ensures ParseNumberArray(ArrayText(ns)) == Ok(ns)
  {
    var s := ArrayText(ns);
    SkipNoWhitespace(s);
    NumberArrayOf(ns, []);
    assert s + [] == s;
  }

  lemma ArrayElementsLast(a: seq<Number>, rest: string)
    requires AllNumbers(a)
    ensures ArrayElements(ArrayText(a) + "]" + rest) == Ok(([a], rest))
  {
    var after := "]" + rest;
    assert ArrayText(a) + "]" + rest == ArrayText(a) + after;
    assert NumberArray(ArrayText(a) + after) == Ok((a, after)) by { NumberArrayOf(a, after); }
    assert SkipWhitespace(after) == after by { SkipNoWhitespace(after); }
    assert after[0] == ']' && after[1..] == rest;
  }

  lemma ArrayElementsNext(a: seq<Number>, tail: string, arrays: seq<seq<Number>>, rest: string)
    requires AllNumbers(a)
    requires tail != [] && !IsWhitespace(tail[0])
    requires ArrayElements(tail) == Ok((arrays, rest))
    ensures ArrayElements(ArrayText(a) + "," + tail) == Ok(([a] + arrays, rest))
  {
    var after := "," + tail;
    assert ArrayText(a) + "," + tail == ArrayText(a) + after;
    assert NumberArray(ArrayText(a) + after) == Ok((a, after)) by { NumberArrayOf(a, after); }
    assert SkipWhitespace(after) == after by { SkipNoWhitespace(after); }
    assert after[0] == ',' && after[1..] == tail;
    assert SkipWhitespace(tail) == tail by { SkipNoWhitespace(tail); }
  }

  /** The text of a non-empty list of arrays starts with a bracket. */
  lemma ArraysBodyStart(arrays: seq<seq<Number>>)
    requires arrays != []
    ensures ArraysBody(arrays) != [] && ArraysBody(arrays)[0] == '['
  {
    assert ArrayText(arrays[0])[0] == '[';
  }

  lemma RegroupTail(head: string, body: string, rest: string)
    ensures head + "," + body + "]" + rest == head + "," + (body + "]" + rest)
  {
  }

  /** The text of a list of at least two arrays is its first array, a comma,
      and the text of the others, which starts with a bracket. */
  lemma ArraysBodyCons(arrays: seq<seq<Number>>, rest: string)
    requires |arrays| > 1
    ensures var tail := ArraysBody(arrays[1..]) + "]" + rest;
      && ArraysBody(arrays) + "]" + rest == ArrayText(arrays[0]) + "," + tail
      && tail != [] && tail[0] == '['
  {
    var body := ArraysBody(arrays[1..]);
    assert ArraysBody(arrays) == ArrayText(arrays[0]) + "," + body;
    RegroupTail(ArrayText(arrays[0]), body, rest);
    ArraysBodyStart(arrays[1..]);
  }

  lemma {:induction false} ArrayElementsOf(arrays: seq<seq<Number>>, rest: string)
    requires arrays != [] && AllNumberArrays(arrays)
    ensures ArrayElements(ArraysBody(arrays) + "]" + rest) == Ok((arrays, rest))
  {
    if |arrays| == 1 {
      ArrayElementsLast(arrays[0], rest);
      assert [arrays[0]] == arrays;
    } else {
      ArrayElementsOf(arrays[1..], rest);
      ArrayElementsCons(arrays[0], arrays[1..], rest);
      assert [arrays[0]] + arrays[1..] == arrays;
    }
  }

  lemma ArrayElementsCons(a: seq<Number>, more: seq<seq<Number>>, rest: string)
    requires AllNumbers(a) && more != []
    requires ArrayElements(ArraysBody(more) + "]" + rest) == Ok((more, rest))
    ensures ArrayElements(ArraysBody([a] + more) + "]" + rest) == Ok(([a] + more, rest))
  {
    var arrays := [a] + more;
    assert arrays[0] == a && arrays[1..] == more;
    var tail := ArraysBody(more) + "]" + rest;
    ArraysBodyCons(arrays, rest);
    ArrayElementsNext(a, tail, more, rest);
  }

  /** The array-of-arrays parser reads back the canonical text of any list of number lists. */
  lemma ArrayOfArraysOf(arrays: seq<seq<Number>>, rest: string)
    requires AllNumberArrays(arrays)
    ensures ArrayOfArrays(ArraysText(arrays) + rest) == Ok((arrays, rest))
  {
    var s := ArraysText(arrays) + rest;
    assert s[0] == '[' && s[1..] == ArraysBody(arrays) + "]" + rest;
    assert !(|s| >= 4 && s[..4] == "null") by {
      if |s| >= 4 { assert s[..4][0] == '['; }
    }
    if arrays == [] {
      assert s[1..] == "]" + rest;
      assert SkipWhitespace(s[1..]) == s[1..];
    } else {
      assert SkipWhitespace(s[1..]) == s[1..] by {
        assert s[1..][0] == '[';
        SkipNoWhitespace(s[1..]);
      }
      ArrayElementsOf(arrays, rest);
    }
  }

  /** Round trip of json.Unmarshal into [][]json.Number over the canonical text. */
  lemma ParseArrayOfArraysOf(arrays: seq<seq<Number>>)
    requires AllNumberArrays(arrays)
    ensures ParseArrayOfArrays(ArraysText(arrays)) == Ok(arrays)
  {
    var s := ArraysText(arrays);
    SkipNoWhitespace(s);
    ArrayOfArraysOf(arrays, []);
    assert s + [] == s;
  }

  /** A value that does not start with `[` (after whitespace) and is not `null`
      is rejected by both decoders. */
  lemma NotAnArray(s: string)
    requires var t := SkipWhitespace(s); !(|t| >= 4 && t[..4] == "null") && (t == [] || t[0] != '[')
    ensures ParseNumberArray(s).Err? && ParseArrayOfArrays(s).Err?
  {
  }

  predicate AllWhitespace(ws: string) {
    forall i :: 0 <= i < |ws| ==> IsWhitespace(ws[i])
  }

  /** A run of whitespace in front of a text is skipped as a whole. */
  lemma {:induction false} SkipWhitespaceRun(ws: string, tail: string)
    requires AllWhitespace(ws)
    ensures SkipWhitespace(ws + tail) == SkipWhitespace(tail)
    decreases |ws|
  {
    if ws != [] {
      assert (ws + tail)[0] == ws[0] && IsWhitespace(ws[0]);
      assert (ws + tail)[1..] == ws[1..] + tail;
      SkipWhitespaceRun(ws[1..], tail);
    } else {
      assert ws + tail == tail;
    }
  }

  /** Whitespace before and after a comma: the parser sees the comma, and
      after it the text it would see without the whitespace. */
  lemma CommaGap(before: string, after: string, tail: string)
    requires AllWhitespace(before) && AllWhitespace(after)
    ensures var spaced := before + ("," + (after + tail));
      && spaced != [] && !IsNumberChar(spaced[0])
      && SkipWhitespace(spaced) == "," + (after + tail)
      && SkipWhitespace(("," + (after + tail))[1..]) == SkipWhitespace(tail)
  {
    var spaced := before + ("," + (after + tail));
    assert spaced[0] == (if before == [] then ',' else before[0]);
    SkipWhitespaceRun(before, "," + (after + tail));
    SkipNoWhitespace("," + (after + tail));
    assert ("," + (after + tail))[1..] == after + tail;
    SkipWhitespaceRun(after, tail);
  }

  /** What the parser sees at a comma with no whitespace around it. */
  lemma CommaTight(tail: string)
    ensures var tight := "," + tail;
      && !IsNumberChar(tight[0]) && SkipWhitespace(tight) == tight && tight[1..] == tail
  {
    SkipNoWhitespace("," + tail);
  }

  /** Whitespace around the comma after a number does not change what the
      element list yields: `n , m]` reads like `n,m]`. */
  lemma NumberElementsSpacing(n: Number, before: string, after: string, tail: string)
    requires IsNumber(n) && AllWhitespace(before) && AllWhitespace(after)
    ensures NumberElements(n + (before + ("," + (after + tail)))) == NumberElements(n + ("," + tail))
  {
    CommaGap(before, after, tail);
    CommaTight(tail);
    ScanNumberOf(n, before + ("," + (after + tail)));
    ScanNumberOf(n, "," + tail);
  }

  /** Whitespace around the comma after an inner array does not change what
      the list of arrays yields: `[..] , [..]]` reads like `[..],[..]]`. */
  lemma ArrayElementsSpacing(a: seq<Number>, before: string, after: string, tail: string)
    requires AllNumbers(a) && AllWhitespace(before) && AllWhitespace(after)
    ensures ArrayElements(ArrayText(a) + (before + ("," + (after + tail)))) == ArrayElements(ArrayText(a) + ("," + tail))
  {
    CommaGap(before, after, tail);
    CommaTight(tail);
    NumberArrayOf(a, before + ("," + (after + tail)));
    NumberArrayOf(a, "," + tail);
  }
}
