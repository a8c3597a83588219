/** The coordinate codecs of types.go. A PositionCoordinates is a point stored
    in the document as the JSON string "{x, y}"; a NestedPositionCoordinates is
    a list of points stored as "{{x, y},{x, y}}". The number texts are kept
    verbatim, as json.Number does. */
module Coordinates {
  import opened Wrappers
  import Strconv
  import opened JsonNumbers

  /** Why UnmarshalJSON returned an error: strconv.Unquote or json.Unmarshal failed. */
  datatype DecodeError = UnquoteFailed | UnmarshalFailed

  /** How an UnmarshalJSON call ended: it returned nil, it returned an error,
      or it panicked with an index out of range because an array held fewer
      than two numbers. */
  datatype Status = Done | Failed(error: DecodeError) | IndexOutOfRange

  /** One point of a list, as the list decoder builds it. */
  datatype Point = Point(X: Number, Y: Number)

  /** bytes.Replace(s, [from], [to], -1): every `from` becomes `to`. */
  function ReplaceAll(s: string, from: char, to: char): (r: string)
    ensures |r| == |s|
    ensures forall i {:trigger r[i]} :: 0 <= i < |s| ==> r[i] == (if s[i] == from then to else s[i])
  {
    if s == [] then [] else [if s[0] == from then to else s[0]] + ReplaceAll(s[1..], from, to)
  }

  function Bracket(c: char): char {
    if c == '{' then '[' else if c == '}' then ']' else c
  }

  /** The first step of both decoders: every `{` becomes `[`, then every `}` becomes `]`. */
  function BracesToBrackets(b: string): (r: string)
    ensures |r| == |b| && forall i {:trigger r[i]} :: 0 <= i < |b| ==> r[i] == Bracket(b[i])
  {
    ReplaceAll(ReplaceAll(b, '{', '['), '}', ']')
  }

  /** The brace rewrite followed by strconv.Unquote: the text given to json.Unmarshal. */
  function ArrayTextOf(b: string): (r: Result<string, DecodeError>)
    ensures r.Ok? ==> |r.value| + 2 <= |b|
  {
    match Strconv.Unquote(BracesToBrackets(b))
    case Ok(s) => Ok(s)
    case Err(_) => Err(UnquoteFailed)
  }

  /** The numbers PositionCoordinates.UnmarshalJSON decodes from b before it indexes them. */
  function TupleNumbers(b: string): (r: Result<seq<Number>, DecodeError>)
    ensures r.Ok? ==> AllNumbers(r.value)
  {
    var s :- ArrayTextOf(b);
    match ParseNumberArray(s)
    case Ok(ns) => Ok(ns)
    case Err(_) => Err(UnmarshalFailed)
  }

  /** The number arrays NestedPositionCoordinates.UnmarshalJSON decodes from b before it indexes them. */
  function NestedNumbers(b: string): (r: Result<seq<seq<Number>>, DecodeError>)
    ensures r.Ok? ==> AllNumberArrays(r.value)
  {
    var s :- ArrayTextOf(b);
    match ParseArrayOfArrays(s)
    case Ok(arrays) => Ok(arrays)
    case Err(_) => Err(UnmarshalFailed)
  }

  /** fmt.Sprintf("{%v, %v}", x, y) */
  function TupleText(x: Number, y: Number): (r: string)
    ensures |r| == |x| + |y| + 4
    ensures r[1..|x| + 1] == x && r[|x| + 3..|r| - 1] == y
  {
    "{" + x + ", " + y + "}"
  }

  /** The tuples of a list written one after another, separated by commas. */
  function TuplesBody(points: seq<Point>): string {
    if points == [] then ""
    else if |points| == 1 then TupleText(points[0].X, points[0].Y)
    else TupleText(points[0].X, points[0].Y) + "," + TuplesBody(points[1..])
  }

  /** What NestedPositionCoordinates.MarshalJSON returns for a list of points. */
  function ListText(points: seq<Point>): (r: string)
    ensures |r| >= 4 && r[..2] == "\"{" && r[|r| - 2..] == "}\""
  {
    "\"" + ("{" + TuplesBody(points) + "}") + "\""
  }

  /** The index of the first array that has fewer than two numbers, or the
      number of arrays when there is none. */
  function FirstShort(arrays: seq<seq<Number>>): (k: nat)
    ensures k <= |arrays|
    ensures forall i :: 0 <= i < k ==> |arrays[i]| >= 2
    ensures k < |arrays| ==> |arrays[k]| < 2
  {
    if arrays == [] || |arrays[0]| < 2 then 0 else 1 + FirstShort(arrays[1..])
  }

  /** FirstShort is the only index with its two properties. */
  lemma FirstShortAt(arrays: seq<seq<Number>>, k: nat)
    requires k <= |arrays|
    requires forall i :: 0 <= i < k ==> |arrays[i]| >= 2
    requires k < |arrays| ==> |arrays[k]| < 2
    ensures FirstShort(arrays) == k
  {
  }

  /** The points made from arrays of at least two numbers: the first two of each. */
  function ToPoints(arrays: seq<seq<Number>>): (points: seq<Point>)
    requires forall i :: 0 <= i < |arrays| ==> |arrays[i]| >= 2
    ensures |points| == |arrays|
    ensures forall i :: 0 <= i < |arrays| ==> points[i] == Point(arrays[i][0], arrays[i][1])
  {
    if arrays == [] then [] else [Point(arrays[0][0], arrays[0][1])] + ToPoints(arrays[1..])
  }

  /** The number arrays a list of points is written as. */
  function Coords(points: seq<Point>): seq<seq<Number>> {
    seq(|points|, i requires 0 <= i < |points| => [points[i].X, points[i].Y])
  }

  class PositionCoordinates {
    var X: Number
    var Y: Number
    /** The bytes last given to UnmarshalJSON. */
    var data: string

    constructor ()
      ensures X == [] && Y == [] && data == []
    {
      X, Y, data := [], [], [];
    }

    /** A Go string literal whose contents are `{`, X, `, `, Y, `}`; when X and Y
        need no escaping (number texts never do) that is just the text in quotes. */
    function MarshalJSON(): (r: string)
      reads this
      ensures Strconv.Unquote(r) == Ok(TupleText(X, Y))
      ensures Strconv.IsPlainText(X) && Strconv.IsPlainText(Y) ==> r == "\"" + TupleText(X, Y) + "\""
    {
      var text := TupleText(X, Y);
      Strconv.UnquoteQuote(text);
      QuotedPlainTuple(X, Y);
      Strconv.Quote(text)
    }

    /** Saves b in data before anything is checked, then sets X and Y to the
        first two numbers of the array that b spells. On an error X and Y keep
        their values; on a panic X is set only when there was one number. */
    method UnmarshalJSON(b: string) returns (status: Status)
      modifies this
      ensures data == b
      ensures TupleNumbers(b).Err? ==> status == Failed(TupleNumbers(b).error) && X == old(X) && Y == old(Y)
      ensures TupleNumbers(b).Ok? ==>
        var ns := TupleNumbers(b).value;
        && status == (if |ns| >= 2 then Done else IndexOutOfRange)
        && X == (if |ns| >= 1 then ns[0] else old(X))
        && Y == (if |ns| >= 2 then ns[1] else old(Y))
    {
      data := b;
      var text := ArrayTextOf(b);
      if text.Err? {
        return Failed(text.error);
      }
      var parsed := ParseNumberArray(text.value);
      if parsed.Err? {
        return Failed(UnmarshalFailed);
      }
      var ns := parsed.value;
      if |ns| < 1 {
        return IndexOutOfRange;
      }
      X := ns[0];
      if |ns| < 2 {
        return IndexOutOfRange;
      }
      Y := ns[1];
      return Done;
    }
  }

  class NestedPositionCoordinates {
    var Data: seq<Point>

    constructor ()
      ensures Data == []
    {
      Data := [];
    }

    /** Writes each point as {X, Y}, separated by commas, inside "{...}". */
    method MarshalJSON() returns (out: string)
      ensures out == ListText(Data)
    {
      out := "";
      var i := 0;
      while i < |Data|
        invariant 0 <= i <= |Data|
        invariant out == TuplesBody(Data[..i]) + (if 0 < i < |Data| then "," else "")
      {
        var p := Data[i];
        TuplesBodySnoc(Data[..i], p);
        assert Data[..i + 1] == Data[..i] + [p];
        out := out + TupleText(p.X, p.Y);
        if i != |Data| - 1 {
          out := out + ",";
        }
        i := i + 1;
      }
      assert Data[..i] == Data;
      out := "\"" + ("{" + out + "}") + "\"";
    }

    /** Appends one point per decoded array to Data, in order. An error leaves
        Data as it was; an array with fewer than two numbers panics after the
        points before it have been appended. */
    method UnmarshalJSON(b: string) returns (status: Status)
      modifies this
      ensures NestedNumbers(b).Err? ==> status == Failed(NestedNumbers(b).error) && Data == old(Data)
      ensures NestedNumbers(b).Ok? ==>
        var arrays := NestedNumbers(b).value;
        var k := FirstShort(arrays);
        && status == (if k == |arrays| then Done else IndexOutOfRange)
        && Data == old(Data) + ToPoints(arrays[..k])
    {
      var text := ArrayTextOf(b);
      if text.Err? {
        return Failed(text.error);
      }
      var parsed := ParseArrayOfArrays(text.value);
      if parsed.Err? {
        return Failed(UnmarshalFailed);
      }
      assert NestedNumbers(b) == Ok(parsed.value);
      status := AppendPoints(parsed.value);
    }

    /** The loop of UnmarshalJSON: one point per array, in order, until an
        array with fewer than two numbers panics. */
    method AppendPoints(arrays: seq<seq<Number>>) returns (status: Status)
      modifies this
      ensures status == (if FirstShort(arrays) == |arrays| then Done else IndexOutOfRange)
      ensures Data == old(Data) + ToPoints(arrays[..FirstShort(arrays)])
    {
      var i := 0;
      while i < |arrays|
        invariant 0 <= i <= |arrays|
        invariant forall j :: 0 <= j < i ==> |arrays[j]| >= 2
        invariant Data == old(Data) + ToPoints(arrays[..i])
      {
        var pos := arrays[i];
        if |pos| < 2 {
          FirstShortAt(arrays, i);
          return IndexOutOfRange;
        }
        assert arrays[..i + 1] == arrays[..i] + [pos];
        ToPointsSnoc(arrays[..i], pos);
        Data := Data + [Point(pos[0], pos[1])];
        i := i + 1;
      }
      assert arrays[..i] == arrays;
      FirstShortAt(arrays, i);
      return Done;
    }
  }

  lemma {:induction false} TuplesBodySnoc(points: seq<Point>, p: Point)
    ensures TuplesBody(points + [p]) ==
      (if points == [] then "" else TuplesBody(points) + ",") + TupleText(p.X, p.Y)
  {
    if points != [] {
      assert (points + [p])[1..] == points[1..] + [p];
      TuplesBodySnoc(points[1..], p);
    } else {
      assert points + [p] == [p];
    }
  }

  lemma {:induction false} ToPointsSnoc(arrays: seq<seq<Number>>, a: seq<Number>)
    requires forall i :: 0 <= i < |arrays| ==> |arrays[i]| >= 2
    requires |a| >= 2
    ensures ToPoints(arrays + [a]) == ToPoints(arrays) + [Point(a[0], a[1])]
  {
    if arrays != [] {
      assert (arrays + [a])[1..] == arrays[1..] + [a];
      ToPointsSnoc(arrays[1..], a);
    }
  }

  /** Characters of the canonical encodings: number characters, braces,
      brackets, the comma and the space. */
  predicate IsSyntaxChar(c: char) {
    IsNumberChar(c) || c == '{' || c == '}' || c == '[' || c == ']' || c == ',' || c == ' '
  }

  predicate OnlySyntaxChars(s: string) {
    forall i :: 0 <= i < |s| ==> IsSyntaxChar(s[i])
  }

  predicate IsBraceFree(s: string) {
    forall i :: 0 <= i < |s| ==> s[i] != '{' && s[i] != '}'
  }

  lemma SyntaxCharsConcat(a: string, b: string)
    requires OnlySyntaxChars(a) && OnlySyntaxChars(b)
    ensures OnlySyntaxChars(a + b)
  {
    forall i | 0 <= i < |a + b| ensures IsSyntaxChar((a + b)[i]) {
      if i >= |a| {
        assert (a + b)[i] == b[i - |a|];
      }
    }
  }

  lemma {:induction false} ReplaceAllConcat(a: string, b: string, from: char, to: char)
    ensures ReplaceAll(a + b, from, to) == ReplaceAll(a, from, to) + ReplaceAll(b, from, to)
  {
    if a == [] {
      assert a + b == b;
    } else {
      assert (a + b)[1..] == a[1..] + b;
      ReplaceAllConcat(a[1..], b, from, to);
    }
  }

  lemma BracketsConcat(a: string, b: string)
    ensures BracesToBrackets(a + b) == BracesToBrackets(a) + BracesToBrackets(b)
  {
    ReplaceAllConcat(a, b, '{', '[');
    ReplaceAllConcat(ReplaceAll(a, '{', '['), ReplaceAll(b, '{', '['), '}', ']');
  }

  lemma BracketsOfBraceFree(s: string)
    requires IsBraceFree(s)
    ensures BracesToBrackets(s) == s
  {
  }

  lemma NumberIsBraceFree(n: Number)
    requires IsNumber(n)
    ensures IsBraceFree(n) && OnlySyntaxChars(n)
  {
    NumberChars(n);
  }

  /** Quote leaves the tuple text of two plain texts unescaped. */
  lemma QuotedPlainTuple(x: Number, y: Number)
    ensures Strconv.IsPlainText(x) && Strconv.IsPlainText(y) ==>
      Strconv.Quote(TupleText(x, y)) == "\"" + TupleText(x, y) + "\""
  {
    if Strconv.IsPlainText(x) && Strconv.IsPlainText(y) {
      PlainTupleText(x, y);
      Strconv.QuotePlain(TupleText(x, y));
    }
  }

  lemma PlainTupleText(x: Number, y: Number)
    requires Strconv.IsPlainText(x) && Strconv.IsPlainText(y)
    ensures Strconv.IsPlainText(TupleText(x, y))
  {
    var t := TupleText(x, y);
    assert t == "{" + x + ", " + y + "}";
    forall i | 0 <= i < |t| ensures Strconv.IsPlain(t[i]) {
      if 1 <= i < 1 + |x| {
        assert t[i] == x[i - 1];
      } else if 3 + |x| <= i < 3 + |x| + |y| {
        assert t[i] == y[i - 3 - |x|];
      }
    }
  }

  /** The texts of number lists consist of number characters, commas and spaces. */
  lemma {:induction false} JoinNumbersChars(ns: seq<Number>)
    requires AllNumbers(ns)
    ensures OnlySyntaxChars(Join(ns, ", ")) && IsBraceFree(Join(ns, ", "))
  {
    if |ns| == 1 {
      NumberIsBraceFree(ns[0]);
    } else if |ns| > 1 {
      NumberIsBraceFree(ns[0]);
      JoinNumbersChars(ns[1..]);
      SyntaxCharsConcat(ns[0], ", ");
      SyntaxCharsConcat(ns[0] + ", ", Join(ns[1..], ", "));
    }
  }

  lemma SyntaxTextIsPlain(s: string)
    requires OnlySyntaxChars(s)
    ensures Strconv.IsPlainText(s)
  {
  }

  /** The brace rewrite of a quoted "{body}". */
  lemma BracketsOfWrapped(body: string)
    ensures BracesToBrackets("\"" + ("{" + body + "}") + "\"") == "\"" + ("[" + BracesToBrackets(body) + "]") + "\""
  {
    var braced := "{" + body + "}";
    BracketsConcat("\"" + braced, "\"");
    BracketsConcat("\"", braced);
    BracketsOfBraced(body);
    assert BracesToBrackets("\"") == "\"";
  }

  /** The brace rewrite of "{body}". */
  lemma BracketsOfBraced(body: string)
    ensures BracesToBrackets("{" + body + "}") == "[" + BracesToBrackets(body) + "]"
  {
    BracketsConcat("{" + body, "}");
    BracketsConcat("{", body);
    assert BracesToBrackets("{") == "[" && BracesToBrackets("}") == "]";
  }

  /** The text handed to json.Unmarshal for a quoted "{body}" made of syntax characters. */
  lemma ArrayTextOfWrapped(body: string)
    requires OnlySyntaxChars(body)
    ensures ArrayTextOf("\"" + ("{" + body + "}") + "\"") == Ok("[" + BracesToBrackets(body) + "]")
  {
    BracketsOfWrapped(body);
    var inner := BracesToBrackets(body);
    assert OnlySyntaxChars(inner);
    SyntaxCharsConcat("[", inner);
    SyntaxCharsConcat("[" + inner, "]");
    Strconv.UnquotePlain("[" + inner + "]");
  }

  /** Decoding "{n1, n2, ...}" yields exactly the number texts n1, n2, ... for
      any count of numbers: nothing checks that there are two. */
  lemma TupleListDecodes(ns: seq<Number>)
    requires AllNumbers(ns)
    ensures TupleNumbers(Strconv.Quote("{" + Join(ns, ", ") + "}")) == Ok(ns)
  {
    var body := Join(ns, ", ");
    JoinNumbersChars(ns);
    var text := "{" + body + "}";
    SyntaxCharsConcat("{", body);
    SyntaxCharsConcat("{" + body, "}");
    Strconv.QuotePlain(text);
    ArrayTextOfWrapped(body);
    BracketsOfBraceFree(body);
    ParseNumberArrayOf(ns);
  }

  /** Round trip of the tuple codec: decoding what MarshalJSON writes for two
      number texts gives back exactly those texts. */
  lemma TupleRoundTrip(x: Number, y: Number)
    requires IsNumber(x) && IsNumber(y)
    ensures TupleNumbers(Strconv.Quote(TupleText(x, y))) == Ok([x, y])
  {
    assert [x, y][1..] == [y];
    assert Join([x, y], ", ") == x + ", " + y;
    TupleTextBraced(x, y);
    TupleListDecodes([x, y]);
  }

  /** The braces of one tuple become the brackets of the matching array. */
  lemma BracketsOfTuple(x: Number, y: Number)
    requires IsNumber(x) && IsNumber(y)
    ensures BracesToBrackets(TupleText(x, y)) == ArrayText([x, y])
    ensures OnlySyntaxChars(TupleText(x, y))
  {
    var inner := x + ", " + y;
    assert Join([x, y], ", ") == inner;
    TupleTextBraced(x, y);
    JoinNumbersChars([x, y]);
    BracketsOfBraced(inner);
    BracketsOfBraceFree(inner);
    BracedSyntaxChars(inner);
  }

  lemma TupleTextBraced(x: Number, y: Number)
    ensures TupleText(x, y) == "{" + (x + ", " + y) + "}"
  {
  }

  lemma BracedSyntaxChars(inner: string)
    requires OnlySyntaxChars(inner)
    ensures OnlySyntaxChars("{" + inner + "}")
  {
    SyntaxCharsConcat("{", inner);
    SyntaxCharsConcat("{" + inner, "}");
  }

  /** The braces of a tuple list become the brackets of the matching array list. */
  lemma {:induction false} BracketsOfTuples(points: seq<Point>)
    requires forall i :: 0 <= i < |points| ==> IsNumber(points[i].X) && IsNumber(points[i].Y)
    ensures BracesToBrackets(TuplesBody(points)) == ArraysBody(Coords(points))
    ensures OnlySyntaxChars(TuplesBody(points))
  {
    if points != [] {
      var p := points[0];
      BracketsOfTuple(p.X, p.Y);
      CoordsCons(points);
      if |points| > 1 {
        BracketsOfTuples(points[1..]);
        JoinedBrackets(TupleText(p.X, p.Y), TuplesBody(points[1..]));
      }
    }
  }

  /** Two syntax texts joined by a comma: the rewrite goes piece by piece and
      the result is still syntax characters only. */
  lemma JoinedBrackets(t: string, rest: string)
    requires OnlySyntaxChars(t) && OnlySyntaxChars(rest)
    ensures BracesToBrackets(t + "," + rest) == BracesToBrackets(t) + "," + BracesToBrackets(rest)
    ensures OnlySyntaxChars(t + "," + rest)
  {
    assert t + "," + rest == t + ("," + rest);
    BracketsOfJoined(t, rest);
    SyntaxCharsConcat(",", rest);
    SyntaxCharsConcat(t, "," + rest);
  }

  /** The arrays of a non-empty list of points: that of the first, then those of the rest. */
  lemma CoordsCons(points: seq<Point>)
    requires points != []
    ensures |Coords(points)| == |points| && Coords(points)[0] == [points[0].X, points[0].Y]
    ensures Coords(points)[1..] == Coords(points[1..])
  {
  }

  /** Two texts joined by a comma are rewritten piece by piece. */
  lemma BracketsOfJoined(t: string, rest: string)
    ensures BracesToBrackets(t + ("," + rest)) == BracesToBrackets(t) + "," + BracesToBrackets(rest)
  {
    BracketsConcat(t, "," + rest);
    BracketsConcat(",", rest);
    assert BracesToBrackets(",") == ",";
  }

  lemma {:induction false} ToPointsOfCoords(points: seq<Point>)
    ensures FirstShort(Coords(points)) == |points|
    ensures ToPoints(Coords(points)) == points
  {
    if points != [] {
      assert Coords(points)[1..] == Coords(points[1..]);
      ToPointsOfCoords(points[1..]);
    }
  }

  /** Round trip of the list codec: decoding what MarshalJSON writes for points
      with number coordinates yields those points, in order, with nothing short. */
  lemma ListRoundTrip(points: seq<Point>)
    requires forall i :: 0 <= i < |points| ==> IsNumber(points[i].X) && IsNumber(points[i].Y)
    ensures NestedNumbers(ListText(points)) == Ok(Coords(points))
    ensures FirstShort(Coords(points)) == |points| && ToPoints(Coords(points)) == points
  {
    BracketsOfTuples(points);
    ArrayTextOfWrapped(TuplesBody(points));
    ParseArrayOfArraysOf(Coords(points));
    ToPointsOfCoords(points);
  }

  /** A point written by one PositionCoordinates and read by a fresh one comes
      back unchanged, without a panic. */
  method TupleObjectRoundTrip(x: Number, y: Number) returns (status: Status, x': Number, y': Number)
    requires IsNumber(x) && IsNumber(y)
    ensures status == Done && x' == x && y' == y
  {
    var source := new PositionCoordinates();
    source.X, source.Y := x, y;
    var text := source.MarshalJSON();
    NumberIsBraceFree(x);
    NumberIsBraceFree(y);
    SyntaxTextIsPlain(x);
    SyntaxTextIsPlain(y);
    PlainTupleText(x, y);
    Strconv.QuotePlain(TupleText(x, y));
    assert text == Strconv.Quote(TupleText(x, y));
    TupleRoundTrip(x, y);
    var target := new PositionCoordinates();
    status := target.UnmarshalJSON(text);
    x', y' := target.X, target.Y;
  }

  /** A list written by one NestedPositionCoordinates and read by a fresh one
      comes back unchanged, without a panic. */
  method ListObjectRoundTrip(points: seq<Point>) returns (status: Status, decoded: seq<Point>)
    requires forall i :: 0 <= i < |points| ==> IsNumber(points[i].X) && IsNumber(points[i].Y)
    ensures status == Done && decoded == points
  {
    var source := new NestedPositionCoordinates();
    source.Data := points;
    var text := source.MarshalJSON();
    ListRoundTrip(points);
    assert Coords(points)[..|points|] == Coords(points);
    var target := new NestedPositionCoordinates();
    status := target.UnmarshalJSON(text);
    decoded := target.Data;
  }

  /** The text of a two-number array with its first character split off. */
  lemma PairText(x: Number, y: Number)
    requires x != []
    ensures ['['] + ([x[0]] + (x[1..] + ", " + y + "]")) == ArrayText([x, y])
  {
    assert [x, y][1..] == [y];
    assert Join([x, y], ", ") == x + ", " + y;
    calc {
      ['['] + ([x[0]] + (x[1..] + ", " + y + "]"));
      "[" + (([x[0]] + x[1..]) + ", " + y) + "]";
      { assert [x[0]] + x[1..] == x; }
      "[" + (x + ", " + y) + "]";
    }
  }

  lemma BraceFreeConcat(a: string, b: string)
    requires IsBraceFree(a) && IsBraceFree(b)
    ensures IsBraceFree(a + b)
  {
    forall i | |a| <= i < |a + b| ensures (a + b)[i] != '{' && (a + b)[i] != '}' {
      assert (a + b)[i] == b[i - |a|];
    }
  }

  /** The body of a point whose X begins with a \u escape has no braces. */
  lemma EscapedBodyBraceFree(digits: string, x: string, y: string)
    requires Strconv.AllHexDigits(digits)
    requires x != [] && IsBraceFree(x) && IsBraceFree(y)
    ensures IsBraceFree(['\\', 'u'] + digits + (x[1..] + ", " + y))
  {
    var escape := ['\\', 'u'] + digits;
    assert IsBraceFree(escape) by {
      forall i | 2 <= i < |escape| ensures escape[i] != '{' && escape[i] != '}' {
        assert escape[i] == digits[i - 2];
      }
    }
    assert IsBraceFree(x[1..]) by {
      forall i | 0 <= i < |x| - 1 ensures x[1..][i] != '{' && x[1..][i] != '}' {
        assert x[1..][i] == x[i + 1];
      }
    }
    BraceFreeConcat(x[1..], ", ");
    BraceFreeConcat(x[1..] + ", ", y);
    BraceFreeConcat(escape, x[1..] + ", " + y);
  }

  /** The brace rewrite leaves the body of a quoted "{body}" alone when it has no braces. */
  lemma BracketsOfBraceFreeWrapped(body: string)
    requires IsBraceFree(body)
    ensures BracesToBrackets("\"" + ("{" + body + "}") + "\"") == "\"" + ("[" + body + "]") + "\""
  {
    BracketsOfWrapped(body);
    BracketsOfBraceFree(body);
  }

  /** strconv.Unquote of a quoted "[" + escape + tail + "]" whose tail is plain. */
  lemma UnquoteEscapedArray(digits: string, tail: string)
    requires |digits| == 4 && Strconv.AllHexDigits(digits) && Strconv.IsRune(Strconv.HexDigitsValue(digits))
    requires Strconv.IsPlainText(tail + "]")
    ensures Strconv.Unquote("\"" + ("[" + (['\\', 'u'] + digits + tail) + "]") + "\"")
         == Ok(['['] + ([Strconv.HexDigitsValue(digits) as char] + (tail + "]")))
  {
    var escape := ['\\', 'u'] + digits;
    var rest := tail + "]";
    var q := "\"" + ("[" + (escape + tail) + "]") + "\"";
    assert q[0] == '"' && q[1..] == ['['] + (escape + (rest + "\""));
    Strconv.UnescapeUnicodePlain(digits, rest);
    Strconv.UnescapeVerbatim('[', escape + (rest + "\""));
  }

  /** Go's strconv.Unquote also reads \u escapes, which MarshalJSON never
      writes: a point whose X begins with an escaped character, such as
      "{\u0030.5, 1}", still decodes to its two numbers. */
  lemma TupleEscapedDigit(digits: string, x: Number, y: Number)
    requires |digits| == 4 && Strconv.AllHexDigits(digits) && Strconv.IsRune(Strconv.HexDigitsValue(digits))
    requires IsNumber(x) && IsNumber(y) && x[0] == Strconv.HexDigitsValue(digits) as char
    ensures TupleNumbers("\"" + ("{" + (['\\', 'u'] + digits + (x[1..] + ", " + y)) + "}") + "\"") == Ok([x, y])
  {
    var tail := x[1..] + ", " + y;
    NumberIsBraceFree(x);
    NumberIsBraceFree(y);
    EscapedBodyBraceFree(digits, x, y);
    BracketsOfBraceFreeWrapped(['\\', 'u'] + digits + tail);
    assert OnlySyntaxChars(tail + "]") by {
      assert OnlySyntaxChars(x[1..]);
      SyntaxCharsConcat(x[1..], ", ");
      SyntaxCharsConcat(x[1..] + ", ", y);
      SyntaxCharsConcat(tail, "]");
    }
    SyntaxTextIsPlain(tail + "]");
    UnquoteEscapedArray(digits, tail);
    PairText(x, y);
    ParseNumberArrayOf([x, y]);
  }
}
