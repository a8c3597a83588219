/** The two functions of Go's strconv package that the coordinate codecs call:
    Quote, used when a tuple is encoded, and Unquote, used by both decoders.
    Strings are sequences of characters; see README for the byte-level
    behaviour that is not modelled. */
module Strconv {
  import opened Wrappers

  /** strconv.ErrSyntax, the only error Unquote returns. */
  datatype SyntaxError = ErrSyntax

  const LowerHex: string := "0123456789abcdef"

  predicate IsPrintableAscii(c: char) {
    ' ' <= c <= '~'
  }

  /** A character that Quote copies verbatim and Unquote reads back as itself. */
  predicate IsPlain(c: char) {
    IsPrintableAscii(c) && c != '"' && c != '\\'
  }

  predicate IsPlainText(s: string) {
    forall i :: 0 <= i < |s| ==> IsPlain(s[i])
  }

  predicate IsHexDigit(c: char) {
    '0' <= c <= '9' || 'a' <= c <= 'f' || 'A' <= c <= 'F'
  }

  function HexValue(c: char): (v: nat)
    requires IsHexDigit(c)
    ensures v < 16
  {
    if '0' <= c <= '9' then c as int - '0' as int
    else if 'a' <= c <= 'f' then c as int - 'a' as int + 10
    else c as int - 'A' as int + 10
  }

  /** The letter of the one-letter escape Go writes for a control character, if there is one. */
  function ControlEscape(c: char): Option<char> {
    if c == 7 as char then Some('a')
    else if c == 8 as char then Some('b')
    else if c == 12 as char then Some('f')
    else if c == '\n' then Some('n')
    else if c == '\r' then Some('r')
    else if c == '\t' then Some('t')
    else if c == 11 as char then Some('v')
    else None
  }

  /** The character that a one-letter escape stands for inside a double-quoted literal. */
  function EscapedChar(letter: char): Option<char> {
    if letter == 'a' then Some(7 as char)
    else if letter == 'b' then Some(8 as char)
    else if letter == 'f' then Some(12 as char)
    else if letter == 'n' then Some('\n')
    else if letter == 'r' then Some('\r')
    else if letter == 't' then Some('\t')
    else if letter == 'v' then Some(11 as char)
    else if letter == '\\' || letter == '"' then Some(letter)
    else None
  }

  /** How Quote writes one character: quote and backslash are escaped, printable
      ASCII is copied, control characters get a one-letter escape when Go has one
      and a \x escape otherwise. Characters beyond ASCII are copied. */
  function QuoteChar(c: char): string {
    if c == '"' || c == '\\' then ['\\', c]
    else if IsPrintableAscii(c) || c as int >= 0x80 then [c]
    else match ControlEscape(c)
      case Some(letter) => ['\\', letter]
      case None => ['\\', 'x', LowerHex[c as int / 16], LowerHex[c as int % 16]]
  }

  function QuoteBody(s: string): (r: string)
    ensures |r| >= |s|
  {
    if s == [] then [] else QuoteChar(s[0]) + QuoteBody(s[1..])
  }

  /** strconv.Quote: a double-quoted Go string literal holding s. */
  function Quote(s: string): (r: string)
    ensures |r| >= |s| + 2 && r[0] == '"' && r[|r| - 1] == '"'
  {
    "\"" + QuoteBody(s) + "\""
  }

  function Prepend(p: string, r: Result<string, SyntaxError>): Result<string, SyntaxError> {
    match r
    case Ok(v) => Ok(p + v)
    case Err(e) => Err(e)
  }

  predicate AllHexDigits(s: string) {
    forall i :: 0 <= i < |s| ==> IsHexDigit(s[i])
  }

  /** The value of a run of hex digits, most significant first. */
  function HexDigitsValue(s: string): nat
    requires AllHexDigits(s)
  {
    if s == [] then 0 else HexDigitsValue(s[..|s| - 1]) * 16 + HexValue(s[|s| - 1])
  }

  predicate IsOctalDigit(c: char) {
    '0' <= c <= '7'
  }

  function OctalValue(a: char, b: char, c: char): nat
    requires IsOctalDigit(a) && IsOctalDigit(b) && IsOctalDigit(c)
  {
    (a as int - '0' as int) * 64 + (b as int - '0' as int) * 8 + (c as int - '0' as int)
  }

  /** A code that utf8.ValidRune accepts: at most 0x10FFFF and not a surrogate. */
  predicate IsRune(v: nat) {
    v < 0xD800 || 0xE000 <= v <= 0x10FFFF
  }

  /** The contents of a double-quoted literal, given the text after its opening
      quote. The closing quote must be the last character. Escapes are the
      one-letter ones, \x and three-digit octal escapes below 0x80, and \u
      and \U escapes of a valid code point. A raw newline, any other escape or
      a missing closing quote is a syntax error. */
  function Unescape(t: string): Result<string, SyntaxError>
    decreases |t|
  {
    if t == [] then Err(ErrSyntax)
    else if t[0] == '"' then (if |t| == 1 then Ok([]) else Err(ErrSyntax))
    else if t[0] == '\n' then Err(ErrSyntax)
    else if t[0] != '\\' then Prepend([t[0]], Unescape(t[1..]))
    else if |t| >= 2 && EscapedChar(t[1]).Some? then
      Prepend([EscapedChar(t[1]).value], Unescape(t[2..]))
    else if |t| >= 4 && t[1] == 'x' && IsHexDigit(t[2]) && IsHexDigit(t[3])
            && HexValue(t[2]) * 16 + HexValue(t[3]) < 0x80 then
      Prepend([(HexValue(t[2]) * 16 + HexValue(t[3])) as char], Unescape(t[4..]))
    else if |t| >= 6 && t[1] == 'u' && AllHexDigits(t[2..6]) && IsRune(HexDigitsValue(t[2..6])) then
      Prepend([HexDigitsValue(t[2..6]) as char], Unescape(t[6..]))
    else if |t| >= 10 && t[1] == 'U' && AllHexDigits(t[2..10]) && IsRune(HexDigitsValue(t[2..10])) then
      Prepend([HexDigitsValue(t[2..10]) as char], Unescape(t[10..]))
    else if |t| >= 4 && IsOctalDigit(t[1]) && IsOctalDigit(t[2]) && IsOctalDigit(t[3])
            && OctalValue(t[1], t[2], t[3]) < 0x80 then
      Prepend([OctalValue(t[1], t[2], t[3]) as char], Unescape(t[4..]))
    else Err(ErrSyntax)
  }

  /** The contents of a back-quoted literal, given the text after its opening
      quote: everything up to the closing quote, which must be the last
      character, with carriage returns dropped. */
  function RawContents(t: string): Result<string, SyntaxError>
    decreases |t|
  {
    if t == [] then Err(ErrSyntax)
    else if t[0] == '`' then (if |t| == 1 then Ok([]) else Err(ErrSyntax))
    else if t[0] == '\r' then RawContents(t[1..])
    else Prepend([t[0]], RawContents(t[1..]))
  }

  /** strconv.Unquote: a double-quoted literal, a back-quoted literal, or a
      single-quoted literal of one unescaped character. Escaped character
      literals are not modelled (see README). */
  function Unquote(s: string): (r: Result<string, SyntaxError>)
    ensures r.Ok? ==> |r.value| + 2 <= |s|
  {
    if |s| < 2 then Err(ErrSyntax)
    else if s[0] == '"' then UnescapeShrinks(s[1..]); Unescape(s[1..])
    else if s[0] == '`' then RawContentsShrinks(s[1..]); RawContents(s[1..])
    else if |s| == 3 && s[0] == '\'' && s[2] == '\'' && s[1] != '\'' && s[1] != '\\' && s[1] != '\n' then Ok([s[1]])
    else Err(ErrSyntax)
  }

  /** Every escape stands for one character and the closing quote for none,
      so the contents are shorter than the text they were read from. */
  lemma {:induction false} UnescapeShrinks(t: string)
    ensures Unescape(t).Ok? ==> |Unescape(t).value| < |t|
    decreases |t|
  {
    if t != [] && t[0] != '"' && t[0] != '\n' {
      if t[0] != '\\' {
        UnescapeShrinks(t[1..]);
      } else if |t| >= 2 && EscapedChar(t[1]).Some? {
        UnescapeShrinks(t[2..]);
      } else if |t| >= 4 && t[1] == 'x' && IsHexDigit(t[2]) && IsHexDigit(t[3])
                && HexValue(t[2]) * 16 + HexValue(t[3]) < 0x80 {
        UnescapeShrinks(t[4..]);
      } else if |t| >= 6 && t[1] == 'u' && AllHexDigits(t[2..6]) && IsRune(HexDigitsValue(t[2..6])) {
        UnescapeShrinks(t[6..]);
      } else if |t| >= 10 && t[1] == 'U' && AllHexDigits(t[2..10]) && IsRune(HexDigitsValue(t[2..10])) {
        UnescapeShrinks(t[10..]);
      } else if |t| >= 4 {
        UnescapeShrinks(t[4..]);
      }
    }
  }

  /** The contents of a back-quoted literal are shorter than the text they were read from. */
  lemma {:induction false} RawContentsShrinks(t: string)
    ensures RawContents(t).Ok? ==> |RawContents(t).value| < |t|
    decreases |t|
  {
    if t != [] && t[0] != '`' {
      RawContentsShrinks(t[1..]);
    }
  }

  lemma HexDigitsRoundTrip(v: nat)
    requires v < 0x80
    ensures IsHexDigit(LowerHex[v / 16]) && IsHexDigit(LowerHex[v % 16])
    ensures HexValue(LowerHex[v / 16]) * 16 + HexValue(LowerHex[v % 16]) == v
  {
    var hi, lo := v / 16, v % 16;
    assert LowerHex[lo] == if lo < 10 then (lo + '0' as int) as char else (lo - 10 + 'a' as int) as char;
    assert LowerHex[hi] == (hi + '0' as int) as char;
  }

  /** A character other than a quote, a backslash or a newline reads back as itself. */
  lemma UnescapeVerbatim(c: char, rest: string)
    requires c != '"' && c != '\\' && c != '\n'
    ensures Unescape([c] + rest) == Prepend([c], Unescape(rest))
  {
    assert ([c] + rest)[1..] == rest;
  }

  /** A one-letter escape reads back as the character it stands for. */
  lemma UnescapeLetter(letter: char, rest: string)
    requires EscapedChar(letter).Some?
    ensures Unescape(['\\', letter] + rest) == Prepend([EscapedChar(letter).value], Unescape(rest))
  {
    assert (['\\', letter] + rest)[2..] == rest;
  }

  /** A \x escape of two hex digits below 0x80 reads back as the character with that code. */
  lemma UnescapeHex(hi: char, lo: char, rest: string)
    requires IsHexDigit(hi) && IsHexDigit(lo) && HexValue(hi) * 16 + HexValue(lo) < 0x80
    ensures Unescape(['\\', 'x', hi, lo] + rest) == Prepend([(HexValue(hi) * 16 + HexValue(lo)) as char], Unescape(rest))
  {
    var t := ['\\', 'x', hi, lo] + rest;
    assert t[1] == 'x' && t[2] == hi && t[3] == lo && t[4..] == rest;
  }

  /** A \u escape of four hex digits naming a valid code point reads back as that character. */
  lemma UnescapeUnicode(digits: string, rest: string)
    requires |digits| == 4 && AllHexDigits(digits) && IsRune(HexDigitsValue(digits))
    ensures Unescape(['\\', 'u'] + digits + rest) == Prepend([HexDigitsValue(digits) as char], Unescape(rest))
  {
    var t := ['\\', 'u'] + digits + rest;
    assert t[1] == 'u' && t[2..6] == digits && t[6..] == rest;
    assert EscapedChar('u').None?;
  }

  /** A three-digit octal escape below 0x80 reads back as the character with that code. */
  lemma UnescapeOctal(a: char, b: char, c: char, rest: string)
    requires IsOctalDigit(a) && IsOctalDigit(b) && IsOctalDigit(c) && OctalValue(a, b, c) < 0x80
    ensures Unescape(['\\', a, b, c] + rest) == Prepend([OctalValue(a, b, c) as char], Unescape(rest))
  {
    var t := ['\\', a, b, c] + rest;
    assert t[1] == a && t[2] == b && t[3] == c && t[4..] == rest;
  }

  lemma HexDigitsOfZero()
    ensures AllHexDigits("0030") && HexDigitsValue("0030") == 0x30
  {
    assert "0030"[..3] == "003" && "003"[..2] == "00" && "00"[..1] == "0" && "0"[..0] == "";
  }

  /** An example of a literal Quote never writes: "\u0030.5" unquotes to 0.5. */
  lemma UnquoteUnicodeExample()
    ensures Unquote("\"\\u0030.5\"") == Ok("0.5")
  {
    var s := "\"\\u0030.5\"";
    assert s[0] == '"' && s[1..] == ['\\', 'u'] + "0030" + (".5" + "\"");
    HexDigitsOfZero();
    assert IsPlainText(".5");
    UnescapeUnicodePlain("0030", ".5");
    assert 0x30 as char == '0' && ['0'] + ".5" == "0.5";
  }

  /** A \u escape followed by plain text up to the closing quote. */
  lemma UnescapeUnicodePlain(digits: string, tail: string)
    requires |digits| == 4 && AllHexDigits(digits) && IsRune(HexDigitsValue(digits)) && IsPlainText(tail)
    ensures Unescape(['\\', 'u'] + digits + (tail + "\"")) == Ok([HexDigitsValue(digits) as char] + tail)
  {
    UnescapeUnicode(digits, tail + "\"");
    UnquotePlain(tail);
    assert ("\"" + tail + "\"")[1..] == tail + "\"";
  }

  /** Reading back one quoted character yields that character. */
  lemma UnescapeQuoteChar(c: char, rest: string)
    ensures Unescape(QuoteChar(c) + rest) == Prepend([c], Unescape(rest))
  {
    if c == '"' || c == '\\' {
      UnescapeLetter(c, rest);
    } else if IsPrintableAscii(c) || c as int >= 0x80 {
      UnescapeVerbatim(c, rest);
    } else if ControlEscape(c).Some? {
      UnescapeLetter(ControlEscape(c).value, rest);
    } else {
      HexDigitsRoundTrip(c as int);
      UnescapeHex(LowerHex[c as int / 16], LowerHex[c as int % 16], rest);
    }
  }

  lemma {:induction false} UnescapeQuoteBody(s: string)
    ensures Unescape(QuoteBody(s) + "\"") == Ok(s)
  {
    if s == [] {
      assert QuoteBody(s) + "\"" == "\"";
    } else {
      calc {
        Unescape(QuoteBody(s) + "\"");
        { assert QuoteBody(s) + "\"" == QuoteChar(s[0]) + (QuoteBody(s[1..]) + "\""); }
        Unescape(QuoteChar(s[0]) + (QuoteBody(s[1..]) + "\""));
        { UnescapeQuoteChar(s[0], QuoteBody(s[1..]) + "\""); }
        Prepend([s[0]], Unescape(QuoteBody(s[1..]) + "\""));
        { UnescapeQuoteBody(s[1..]); }
        Ok([s[0]] + s[1..]);
        { assert [s[0]] + s[1..] == s; }
        Ok(s);
      }
    }
  }

  /** Unquote inverts Quote on every string. */
  lemma UnquoteQuote(s: string)
    ensures Unquote(Quote(s)) == Ok(s)
  {
    var q := Quote(s);
    assert q[0] == '"' && q[1..] == QuoteBody(s) + "\"";
    UnescapeQuoteBody(s);
  }

  /** Quote only adds the two quotes around plain text. */
  lemma {:induction false} QuotePlain(s: string)
    requires IsPlainText(s)
    ensures Quote(s) == "\"" + s + "\""
    ensures QuoteBody(s) == s
  {
    if s != [] {
      assert IsPlainText(s[1..]) by {
        forall i | 0 <= i < |s[1..]| ensures IsPlain(s[1..][i]) {
          assert s[1..][i] == s[i + 1];
        }
      }
      QuotePlain(s[1..]);
      assert IsPlain(s[0]);
      assert [s[0]] + s[1..] == s;
    }
  }

  /** A double-quoted plain text unquotes to itself. */
  lemma UnquotePlain(s: string)
    requires IsPlainText(s)
    ensures Unquote("\"" + s + "\"") == Ok(s)
  {
    QuotePlain(s);
    UnquoteQuote(s);
  }
}
