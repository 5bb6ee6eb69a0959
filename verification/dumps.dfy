/** `json.dumps(value, ensure_ascii=True)` for the scalar values the
    formatter prints (null, booleans and strings), together with a decoder
    for JSON string bodies (section 7 of RFC 8259) that undoes it. */
module Dumps {
  import opened Json

  /** Every character is printable ASCII (space through tilde); in
      particular the text holds no line break. */
  predicate PrintableAscii(t: string) {
    forall k | 0 <= k < |t| :: ' ' <= t[k] <= '~'
  }

  /** Lower-case hexadecimal digit, as `'%04x'` writes it. */
  function HexDigit(d: nat): (c: char)
    requires d < 16
    ensures '0' <= c <= '9' || 'a' <= c <= 'f'
  {
    if d < 10 then ('0' as int + d) as char else ('a' as int + d - 10) as char
  }

  /** Value of a hexadecimal digit in either case. */
  function HexValue(c: char): (r: Option<nat>)
    ensures r.Some? ==> r.value < 16
  {
    if '0' <= c <= '9' then Some(c as int - '0' as int)
    else if 'a' <= c <= 'f' then Some(c as int - 'a' as int + 10)
    else if 'A' <= c <= 'F' then Some(c as int - 'A' as int + 10)
    else None
  }

  /** Four lower-case hex digits, most significant first. */
  function Hex4(n: nat): (r: string)
    requires n < 0x10000
    ensures |r| == 4 && PrintableAscii(r)
  {
    [HexDigit(n / 16 / 16 / 16), HexDigit(n / 16 / 16 % 16), HexDigit(n / 16 % 16), HexDigit(n % 16)]
  }

  function ParseHex4(t: string): (r: Option<nat>)
    requires |t| == 4
    ensures r.Some? ==> r.value < 0x10000
  {
    match (HexValue(t[0]), HexValue(t[1]), HexValue(t[2]), HexValue(t[3]))
    case (Some(a), Some(b), Some(c), Some(d)) => Some(((a * 16 + b) * 16 + c) * 16 + d)
    case _ => None
  }

  /** `\uXXXX` for a UTF-16 code unit. */
  function UnicodeEscape(n: nat): (r: string)
    requires n < 0x10000
    ensures |r| == 6 && PrintableAscii(r)
  {
    "\\u" + Hex4(n)
  }

  /** The escape of one character under `ensure_ascii=True`: a two-character
      escape for the quote, the backslash and five control characters,
      the character itself when it is printable ASCII, and otherwise
      `\uXXXX` of its UTF-16 code units (a surrogate pair above U+FFFF). */
  function EscapeChar(c: char): (r: string)
    ensures |r| > 0 && PrintableAscii(r)
    ensures |r| == 1 <==> ' ' <= c <= '~' && c != '"' && c != '\\'
    ensures |r| == 1 ==> r[0] == c
  {
    if c as int >= 0x10000 then
      var m := c as int - 0x10000;
      UnicodeEscape(0xD800 + m / 0x400) + UnicodeEscape(0xDC00 + m % 0x400)
    else if c == '"' then "\\\""
    else if c == '\\' then "\\\\"
    else if c == '\n' then "\\n"
    else if c == '\r' then "\\r"
    else if c == '\t' then "\\t"
    else if c == '\U{8}' then "\\b"
    else if c == '\U{C}' then "\\f"
    else if ' ' <= c <= '~' then [c]
    else UnicodeEscape(c as int)
  }

  /** The body (between the quotes) of `json.dumps(s, ensure_ascii=True)`. */
  function Escape(s: string): (r: string)
    ensures PrintableAscii(r)
    ensures |r| >= |s|
  {
    if |s| == 0 then "" else EscapeChar(s[0]) + Escape(s[1..])
  }

  /** `json.dumps(v, ensure_ascii=True)` for null, a boolean or a string. */
  function DumpScalar(v: Value): (r: string)
    requires v.Null? || v.Bool? || v.Str?
    ensures |r| >= 2 && PrintableAscii(r)
    ensures v.Str? <==> r[0] == '"'
  {
    match v
    case Null => "null"
    case Bool(b) => if b then "true" else "false"
    case Str(s) => "\"" + Escape(s) + "\""
  }

  /** The character a two-character escape `\x` stands for. */
  function ShortEscape(x: char): Option<char> {
    match x
    case '"' => Some('"')
    case '\\' => Some('\\')
    case '/' => Some('/')
    case 'b' => Some('\U{8}')
    case 'f' => Some('\U{C}')
    case 'n' => Some('\n')
    case 'r' => Some('\r')
    case 't' => Some('\t')
    case _ => None
  }

  function Prepend(c: char, r: Option<string>): Option<string> {
    match r
    case None => None
    case Some(s) => Some([c] + s)
  }

  /** Decodes the body of a JSON string: None for a raw quote or control
      character, an unknown escape, a truncated or non-hex `\u` escape, or
      a surrogate escape that is not part of a high-low pair (such a code
      unit is not a character). */
  function Unescape(t: string): (r: Option<string>)
    decreases |t|
  {
    if |t| == 0 then Some("")
    else if t[0] == '"' || t[0] < ' ' then None
    else if t[0] != '\\' then Prepend(t[0], Unescape(t[1..]))
    else if |t| < 2 then None
    else if t[1] != 'u' then
      match ShortEscape(t[1])
      case None => None
      case Some(c) => Prepend(c, Unescape(t[2..]))
    else if |t| < 6 then None
    else
      match ParseHex4(t[2..6])
      case None => None
      case Some(n) =>
        if 0xDC00 <= n < 0xE000 then None
        else if n < 0xD800 || 0xE000 <= n then Prepend(n as char, Unescape(t[6..]))
        else if |t| < 12 || t[6] != '\\' || t[7] != 'u' then None
        else
          match ParseHex4(t[8..12])
          case None => None
          case Some(lo) =>
            if 0xDC00 <= lo < 0xE000
            then Prepend((0x10000 + (n - 0xD800) * 0x400 + (lo - 0xDC00)) as char, Unescape(t[12..]))
            else None
  }

  lemma HexDigitValue(d: nat)
    requires d < 16
    ensures HexValue(HexDigit(d)) == Some(d)
  {
  }

  lemma Hex4RoundTrip(n: nat)
    requires n < 0x10000
    ensures ParseHex4(Hex4(n)) == Some(n)
  {
    var n1 := n / 16;
    var n2 := n1 / 16;
    HexDigitValue(n2 / 16);
    HexDigitValue(n2 % 16);
    HexDigitValue(n1 % 16);
    HexDigitValue(n % 16);
    assert n2 == n2 / 16 * 16 + n2 % 16;
    assert n1 == n2 * 16 + n1 % 16;
    assert n == n1 * 16 + n % 16;
  }

  /** A printable ASCII character other than the quote and the backslash
      stands for itself. */
  lemma PlainRoundTrip(c: char, u: string)
    requires ' ' <= c <= '~' && c != '"' && c != '\\'
    ensures Unescape(EscapeChar(c) + u) == Prepend(c, Unescape(u))
  {
    assert (EscapeChar(c) + u)[1..] == u;
  }

  /** The seven two-character escapes. */
  lemma ShortRoundTrip(c: char, u: string)
    requires c == '"' || c == '\\' || c == '\n' || c == '\r' || c == '\t' || c == '\U{8}' || c == '\U{C}'
    ensures Unescape(EscapeChar(c) + u) == Prepend(c, Unescape(u))
  {
    var t := EscapeChar(c) + u;
    assert t[0] == '\\' && t[1] != 'u' && ShortEscape(t[1]) == Some(c);
    assert t[2..] == u;
  }

  /** A `\uXXXX` escape of a character in the basic multilingual plane. */
  lemma BmpRoundTrip(c: char, u: string)
    requires !(' ' <= c <= '~') && c != '\n' && c != '\r' && c != '\t' && c != '\U{8}' && c != '\U{C}'
    requires (c as int) < 0x10000
    ensures Unescape(EscapeChar(c) + u) == Prepend(c, Unescape(u))
  {
    var t := EscapeChar(c) + u;
    assert EscapeChar(c) == UnicodeEscape(c as int);
    Hex4RoundTrip(c as int);
    assert t[2..6] == Hex4(c as int);
    assert t[6..] == u;
  }

  /** Decoding a high-low surrogate pair of `\u` escapes. */
  lemma PairDecode(hi: nat, lo: nat, u: string)
    requires 0xD800 <= hi < 0xDC00 && 0xDC00 <= lo < 0xE000
    ensures Unescape(UnicodeEscape(hi) + UnicodeEscape(lo) + u)
         == Prepend((0x10000 + (hi - 0xD800) * 0x400 + (lo - 0xDC00)) as char, Unescape(u))
  {
    var t := UnicodeEscape(hi) + UnicodeEscape(lo) + u;
    Hex4RoundTrip(hi);
    Hex4RoundTrip(lo);
    assert t[2..6] == Hex4(hi);
    assert t[6] == '\\' && t[7] == 'u';
    assert t[8..12] == Hex4(lo);
    assert t[12..] == u;
  }

  /** A surrogate pair `\uD8XX\uDCXX` for a character above U+FFFF. */
  lemma PairRoundTrip(c: char, u: string)
    requires (c as int) >= 0x10000
    ensures Unescape(EscapeChar(c) + u) == Prepend(c, Unescape(u))
  {
    var m := c as int - 0x10000;
    var hi := 0xD800 + m / 0x400;
    var lo := 0xDC00 + m % 0x400;
    assert EscapeChar(c) == UnicodeEscape(hi) + UnicodeEscape(lo);
    PairDecode(hi, lo, u);
    assert 0x10000 + (hi - 0xD800) * 0x400 + (lo - 0xDC00) == c as int;
  }

  /** Decoding one escaped character followed by anything. */
  lemma EscapeCharRoundTrip(c: char, u: string)
    ensures Unescape(EscapeChar(c) + u) == Prepend(c, Unescape(u))
  {
    if ' ' <= c <= '~' && c != '"' && c != '\\' {
      PlainRoundTrip(c, u);
    } else if c == '"' || c == '\\' || c == '\n' || c == '\r' || c == '\t' || c == '\U{8}' || c == '\U{C}' {
      ShortRoundTrip(c, u);
    } else if (c as int) < 0x10000 {
      BmpRoundTrip(c, u);
    } else {
      PairRoundTrip(c, u);
    }
  }

  /** Decoding the escaped body gives back the original string: the
      formatter loses no information about names, URLs and categories. */
  lemma {:induction false} EscapeRoundTrip(s: string)
    ensures Unescape(Escape(s)) == Some(s)
  {
    if |s| > 0 {
      EscapeCharRoundTrip(s[0], Escape(s[1..]));
      EscapeRoundTrip(s[1..]);
      assert [s[0]] + s[1..] == s;
    }
  }

  /** Different strings are printed differently. */
  lemma EscapeInjective(s: string, s': string)
    requires Escape(s) == Escape(s')
    ensures s == s'
  {
    EscapeRoundTrip(s);
    EscapeRoundTrip(s');
  }
}
