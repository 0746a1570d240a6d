/** JSON strings as `JSON.stringify` writes them, and UTF-8, both ways. */
module JsonText {
  import opened Wrappers
  import opened Base64Url

  /* ---- UTF-8 ---- */

  function Utf8Char(c: char): (bytes: seq<Byte>)
    ensures 1 <= |bytes| <= 4
  {
    var n := c as int;
    if n < 0x80 then [n]
    else if n < 0x800 then [0xC0 + n / 64, 0x80 + n % 64]
    else if n < 0x10000 then [0xE0 + n / 4096, 0x80 + n / 64 % 64, 0x80 + n % 64]
    else [0xF0 + n / 262144, 0x80 + n / 4096 % 64, 0x80 + n / 64 % 64, 0x80 + n % 64]
  }

  function Utf8(s: string): seq<Byte> {
    if s == [] then [] else Utf8Char(s[0]) + Utf8(s[1..])
  }

  function ByteLength(s: string): nat {
    if s == [] then 0 else |Utf8Char(s[0])| + ByteLength(s[1..])
  }

  predicate IsScalar(n: int) { 0 <= n < 0xD800 || 0xE000 <= n < 0x110000 }

  predicate Continues(b: Byte) { 0x80 <= b < 0xC0 }

  /** The six bits of a continuation byte. */
  function Low(b: Byte): int { b as int - 0x80 }

  /** The code point that well-formed text starts with, and how many bytes it takes. */
  function ReadCode(bytes: seq<Byte>): Option<(int, nat)>
    requires bytes != []
  {
    var a: int := bytes[0];
    if a < 0x80 then Some((a, 1))
    else if 0xC2 <= a < 0xE0 && |bytes| >= 2 && Continues(bytes[1]) then
      Some(((a - 0xC0) * 64 + Low(bytes[1]), 2))
    else if 0xE0 <= a < 0xF0 && |bytes| >= 3 && Continues(bytes[1]) && Continues(bytes[2]) then
      var n: int := (a - 0xE0) * 4096 + Low(bytes[1]) * 64 + Low(bytes[2]);
      if n < 0x800 then None else Some((n, 3))
    else if 0xF0 <= a < 0xF5 && |bytes| >= 4 && Continues(bytes[1]) && Continues(bytes[2]) && Continues(bytes[3]) then
      var n: int := (a - 0xF0) * 262144 + Low(bytes[1]) * 4096 + Low(bytes[2]) * 64 + Low(bytes[3]);
      if n < 0x10000 then None else Some((n, 4))
    else None
  }

  function FromUtf8(bytes: seq<Byte>): Option<string> {
    if bytes == [] then Some([])
    else
      match ReadCode(bytes)
      case None => None
      case Some((n, length)) =>
        if !IsScalar(n) || length == 0 || length > |bytes| then None
        else
          match FromUtf8(bytes[length..])
          case None => None
          case Some(rest) => Some([n as char] + rest)
  }

  lemma BytesAssociate(x: seq<Byte>, y: seq<Byte>, z: seq<Byte>)
    ensures (x + y) + z == x + (y + z)
  {
  }

  lemma {:induction false} Utf8Append(a: string, b: string)
    ensures Utf8(a + b) == Utf8(a) + Utf8(b)
  {
    if a == [] {
      assert a + b == b;
    } else {
      Utf8Append(a[1..], b);
      assert (a + b)[1..] == a[1..] + b;
      BytesAssociate(Utf8Char(a[0]), Utf8(a[1..]), Utf8(b));
    }
  }

  lemma {:induction false} LengthAppend(a: string, b: string)
    ensures ByteLength(a + b) == ByteLength(a) + ByteLength(b)
  {
    if a == [] {
      assert a + b == b;
    } else {
      LengthAppend(a[1..], b);
      assert (a + b)[1..] == a[1..] + b;
    }
  }

  lemma {:induction false} Utf8Size(s: string)
    ensures |Utf8(s)| == ByteLength(s)
  {
    if s != [] { Utf8Size(s[1..]); }
  }

  predicate IsAscii(s: string) { forall k | 0 <= k < |s| :: s[k] < '\U{0080}' }

  lemma {:induction false} AsciiSize(s: string)
    requires IsAscii(s)
    ensures ByteLength(s) == |s|
  {
    if s != [] { AsciiSize(s[1..]); }
  }

  lemma Split2(n: int)
    requires 0x80 <= n < 0x800
    ensures 0xC2 <= 0xC0 + n / 64 < 0xE0 && n == n / 64 * 64 + n % 64
  {
  }

  lemma Split3(n: int)
    requires 0x800 <= n < 0x10000
    ensures 0xE0 <= 0xE0 + n / 4096 < 0xF0 && n == n / 4096 * 4096 + n / 64 % 64 * 64 + n % 64
  {
  }

  lemma Split4(n: int)
    requires 0x10000 <= n < 0x110000
    ensures 0xF0 <= 0xF0 + n / 262144 < 0xF5
    ensures n == n / 262144 * 262144 + n / 4096 % 64 * 4096 + n / 64 % 64 * 64 + n % 64
  {
  }

  lemma ReadChar(c: char, rest: seq<Byte>)
    ensures ReadCode(Utf8Char(c) + rest) == Some((c as int, |Utf8Char(c)|))
  {
    var n := c as int;
    if n >= 0x10000 { Split4(n); }
    else if n >= 0x800 { Split3(n); }
    else if n >= 0x80 { Split2(n); }
  }

  lemma {:induction false} FromUtf8Undoes(s: string)
    ensures FromUtf8(Utf8(s)) == Some(s)
  {
    if s != [] {
      var (head, rest) := (Utf8Char(s[0]), Utf8(s[1..]));
      FromUtf8Undoes(s[1..]);
      ReadChar(s[0], rest);
      assert (head + rest)[|head|..] == rest;
      assert s == [s[0]] + s[1..];
    }
  }

  /* ---- JSON strings ---- */

  function HexDigit(n: int): char
    requires 0 <= n < 16
  {
    if n < 10 then ('0' as int + n) as char else ('a' as int + n - 10) as char
  }

  function HexValue(c: char): int {
    if '0' <= c <= '9' then c as int - '0' as int
    else if 'a' <= c <= 'f' then c as int - 'a' as int + 10
    else if 'A' <= c <= 'F' then c as int - 'A' as int + 10
    else -1
  }

  function EscapeChar(c: char): string {
    if c == '"' then "\\\""
    else if c == '\\' then "\\\\"
    else if c as int == 8 then "\\b"
    else if c as int == 9 then "\\t"
    else if c as int == 10 then "\\n"
    else if c as int == 12 then "\\f"
    else if c as int == 13 then "\\r"
    else if c as int < 32 then "\\u00" + [HexDigit(c as int / 16), HexDigit(c as int % 16)]
    else [c]
  }

  function Escape(s: string): string {
    if s == [] then [] else EscapeChar(s[0]) + Escape(s[1..])
  }

  function Quote(s: string): string { "\"" + Escape(s) + "\"" }

  /** The character of a `\uXXXX`, unless it is half of a surrogate pair. */
  function ReadUnicode(s: string): Option<char>
    requires |s| >= 4
  {
    var (a, b, c, d) := (HexValue(s[0]), HexValue(s[1]), HexValue(s[2]), HexValue(s[3]));
    if a < 0 || b < 0 || c < 0 || d < 0 then None
    else
      var n := a * 4096 + b * 256 + c * 16 + d;
      if IsScalar(n) then Some(n as char) else None
  }

  function ShortEscape(c: char): Option<char> {
    match c
    case '"' => Some('"')
    case '\\' => Some('\\')
    case '/' => Some('/')
    case 'b' => Some(8 as char)
    case 't' => Some(9 as char)
    case 'n' => Some(10 as char)
    case 'f' => Some(12 as char)
    case 'r' => Some(13 as char)
    case _ => None
  }

  /** The first character of a string literal's inside, and how many characters spell it. */
  function ReadLiteralChar(s: string): Option<(char, nat)>
    requires s != []
  {
    if s[0] == '\\' then
      if |s| >= 6 && s[1] == 'u' then
        (match ReadUnicode(s[2..]) case None => None case Some(c) => Some((c, 6)))
      else if |s| >= 2 then
        (match ShortEscape(s[1]) case None => None case Some(c) => Some((c, 2)))
      else None
    else if s[0] as int < 32 then None
    else Some((s[0], 1))
  }

  /** Reads a string literal from behind its opening quote; yields its value and what follows it. */
  function ReadString(s: string): Option<(string, string)>
    decreases |s|
  {
    if s == [] then None
    else if s[0] == '"' then Some(([], s[1..]))
    else
      match ReadLiteralChar(s)
      case None => None
      case Some((c, length)) =>
        if length == 0 || length > |s| then None
        else
          match ReadString(s[length..])
          case None => None
          case Some((value, rest)) => Some(([c] + value, rest))
  }

  lemma HexReads(n: int)
    requires 0 <= n < 16
    ensures HexValue(HexDigit(n)) == n
  {
  }

  lemma ReadEscapedChar(c: char, rest: string)
    ensures var e := EscapeChar(c);
            e != [] && e[0] != '"' && ReadLiteralChar(e + rest) == Some((c, |e|))
  {
    var n := c as int;
    if n < 32 && !(8 <= n <= 10) && n != 12 && n != 13 {
      HexReads(n / 16);
      HexReads(n % 16);
      var e := EscapeChar(c);
      assert (e + rest)[2..] == "00" + [HexDigit(n / 16), HexDigit(n % 16)] + rest;
      assert ReadUnicode((e + rest)[2..]) == Some(c);
    }
  }

  lemma AfterHead(head: string, tail: string)
    ensures (head + tail)[|head|..] == tail
  {
  }

  lemma StringsAssociate(x: string, y: string, z: string)
    ensures (x + y) + z == x + (y + z)
  {
  }

  /** A character that is read from the front of a literal comes first in its value. */
  lemma ReadMore(c: char, head: string, tail: string, value: string, rest: string)
    requires head != [] && head[0] != '"' && ReadLiteralChar(head + tail) == Some((c, |head|))
    requires ReadString(tail) == Some((value, rest))
    ensures ReadString(head + tail) == Some(([c] + value, rest))
  {
    AfterHead(head, tail);
  }

  lemma {:induction false} ReadEscaped(value: string, end: string, rest: string)
    requires ReadString(end) == Some(([], rest))
    ensures ReadString(Escape(value) + end) == Some((value, rest))
  {
    if value == [] {
      assert [] + end == end;
    } else {
      var (head, inner) := (EscapeChar(value[0]), Escape(value[1..]));
      ReadEscaped(value[1..], end, rest);
      ReadEscapedChar(value[0], inner + end);
      ReadMore(value[0], head, inner + end, value[1..], rest);
      StringsAssociate(head, inner, end);
      assert value == [value[0]] + value[1..];
    }
  }

  /** Reading back what was quoted gives the value and exactly what followed. */
  lemma ReadQuoted(value: string, rest: string)
    ensures ReadString(Escape(value) + "\"" + rest) == Some((value, rest))
  {
    AfterHead("\"", rest);
    ReadEscaped(value, "\"" + rest, rest);
    StringsAssociate(Escape(value), "\"", rest);
  }

  /* ---- What each character costs ---- */

  /** The bytes that a character takes in a JSON string. */
  lemma BytesOfChar(c: char)
    ensures var n := c as int;
            ByteLength(EscapeChar(c))
            == if n == 34 || n == 92 || n == 8 || n == 9 || n == 10 || n == 12 || n == 13 then 2
               else if n < 32 then 6 else if n < 128 then 1 else if n < 2048 then 2 else if n < 65_536 then 3 else 4
  {
    var e := EscapeChar(c);
    if c as int < 128 {
      EscapesAreAscii(c);
      AsciiSize(e);
    } else {
      assert e == [c] && [c][1..] == [];
    }
  }

  lemma EscapesAreAscii(c: char)
    requires c as int < 128
    ensures IsAscii(EscapeChar(c))
  {
  }

  /** A control character without a short form is spelled by its four hexadecimal digits. */
  lemma ControlsAreSpelled(c: char)
    requires c as int < 32 && c as int !in {8, 9, 10, 12, 13}
    ensures |EscapeChar(c)| == 6 && EscapeChar(c)[..4] == "\\u00"
    ensures HexValue(EscapeChar(c)[4]) * 16 + HexValue(EscapeChar(c)[5]) == c as int
  {
    HexReads(c as int / 16);
    HexReads(c as int % 16);
  }
}
