/**
 * How Python's `json.dumps` writes a string (default `ensure_ascii`): between
 * double quotes, with quote, backslash and control characters escaped and
 * everything outside printable ASCII written as `\uXXXX` (UTF-16 code units).
 */
module Json {

  import opened Text

  function Quote(s: string): string
  {
    "\"" + s + "\""
  }

  /** Four lower-case hex digits. */
  function Hex4(n: int): string
    requires 0 <= n < 0x10000
  {
    [HexDigit(n / 4096), HexDigit(n / 256 % 16), HexDigit(n / 16 % 16), HexDigit(n % 16)]
  }

  /** One character as `json.dumps` writes it inside a string. */
  function JsonChar(c: char): string
  {
    var n := c as int;
    if c == '"' then "\\\""
    else if c == '\\' then "\\\\"
    else if c == '\n' then "\\n"
    else if c == '\r' then "\\r"
    else if c == '\t' then "\\t"
    else if n == 8 then "\\b"
    else if n == 12 then "\\f"
    else if 0x20 <= n <= 0x7E then [c]
    else UnicodeEscape(n)
  }

  /** `\uXXXX`, or a surrogate pair of them above the Basic Multilingual Plane. */
  function UnicodeEscape(n: int): string
    requires 0 <= n < 0x110000
  {
    if n < 0x10000 then "\\u" + Hex4(n)
    else
      SurrogatePair(HighSurrogate(n), LowSurrogate(n))
  }

  function HighSurrogate(n: int): (r: int)
    requires 0x10000 <= n < 0x110000
    ensures 0xD800 <= r < 0xDC00
  {
    0xD800 + (n - 0x10000) / 0x400
  }

  function LowSurrogate(n: int): (r: int)
    requires 0x10000 <= n < 0x110000
    ensures 0xDC00 <= r < 0xE000
  {
    0xDC00 + (n - 0x10000) % 0x400
  }

  function SurrogatePair(hi: int, lo: int): string
    requires 0 <= hi < 0x10000 && 0 <= lo < 0x10000
  {
    "\\u" + Hex4(hi) + "\\u" + Hex4(lo)
  }

  function JsonEscape(s: string): string
  {
    if s == [] then [] else JsonChar(s[0]) + JsonEscape(s[1..])
  }

  /** `json.dumps(s)` for a string `s`. */
  function JsonString(s: string): string
  {
    Quote(JsonEscape(s))
  }

  /** A character the encoder leaves alone: printable ASCII other than quote and backslash. */
  predicate JsonPlain(c: char)
  {
    0x20 <= c as int <= 0x7E && c != '"' && c != '\\'
  }

  predicate PlainString(s: string)
  {
    forall i :: 0 <= i < |s| ==> JsonPlain(s[i])
  }

  /** A plain string is encoded as itself between quotes. */
  lemma {:induction false} JsonStringPlain(s: string)
    requires PlainString(s)
    ensures JsonEscape(s) == s
    ensures JsonString(s) == Quote(s)
  {
    if s != [] {
      JsonStringPlain(s[1..]);
      assert s == [s[0]] + s[1..];
    }
  }

  /** Every character is printable ASCII. */
  predicate PrintableAscii(s: string)
  {
    forall i :: 0 <= i < |s| ==> 0x20 <= s[i] as int <= 0x7E
  }

  /** The encoded text is printable ASCII: no raw control or non-ASCII character survives. */
  lemma {:induction false} JsonEscapeSafe(s: string)
    ensures PrintableAscii(JsonEscape(s))
  {
    if s != [] {
      JsonEscapeSafe(s[1..]);
      JsonCharSafe(s[0]);
      PrintableConcat(JsonChar(s[0]), JsonEscape(s[1..]));
    }
  }

  lemma JsonCharSafe(c: char)
    ensures PrintableAscii(JsonChar(c))
  {
    var n := c as int;
    var r := JsonChar(c);
    if c == '"' || c == '\\' || c == '\n' || c == '\r' || c == '\t' || n == 8 || n == 12 {
      assert |r| == 2 && r[0] == '\\' && r[1] in "\"\\nrtbf";
    } else if 0x20 <= n <= 0x7E {
      assert r == [c];
    } else {
      UnicodeEscapeSafe(n);
    }
  }

  lemma UnicodeEscapeSafe(n: int)
    requires 0 <= n < 0x110000
    ensures PrintableAscii(UnicodeEscape(n))
  {
    if n < 0x10000 {
      Hex4Safe(n);
      PrintableConcat("\\u", Hex4(n));
    } else {
      var hi, lo := HighSurrogate(n), LowSurrogate(n);
      SurrogatePairSafe(hi, lo);
    }
  }

  lemma SurrogatePairSafe(hi: int, lo: int)
    requires 0 <= hi < 0x10000 && 0 <= lo < 0x10000
    ensures PrintableAscii(SurrogatePair(hi, lo))
  {
    Hex4Safe(hi);
    Hex4Safe(lo);
    PrintableConcat("\\u", Hex4(hi));
    PrintableConcat("\\u" + Hex4(hi), "\\u");
    PrintableConcat("\\u" + Hex4(hi) + "\\u", Hex4(lo));
  }

  lemma Hex4Safe(n: int)
    requires 0 <= n < 0x10000
    ensures PrintableAscii(Hex4(n))
  {
  }

  lemma PrintableConcat(a: string, b: string)
    requires PrintableAscii(a) && PrintableAscii(b)
    ensures PrintableAscii(a + b)
  {
    forall i | 0 <= i < |a + b| ensures 0x20 <= (a + b)[i] as int <= 0x7E {
      if i >= |a| {
        assert (a + b)[i] == b[i - |a|];
      }
    }
  }
}
