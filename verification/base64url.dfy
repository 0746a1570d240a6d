/** Base64 with the URL-safe alphabet and no padding (section 5 of RFC 4648). */
module Base64Url {

  type Byte = b: int | 0 <= b < 256
  type Sextet = n: int | 0 <= n < 64

  /* ---- Three bytes are four sextets ---- */

  datatype Three = Three(a: Byte, b: Byte, c: Byte)
  datatype Four = Four(p: Sextet, q: Sextet, r: Sextet, s: Sextet)

  function Up(t: Three): Four {
    Four(t.a / 4, t.a % 4 * 16 + t.b / 16, t.b % 16 * 4 + t.c / 64, t.c % 64)
  }

  function Down(f: Four): Three {
    var p: int := f.p;
    var q: int := f.q;
    var r: int := f.r;
    Three(p * 4 + q / 16, q % 16 * 16 + r / 4, r % 4 * 64 + f.s)
  }

  lemma UpDown(f: Four)
    ensures Up(Down(f)) == f
  {
    var q: int := f.q;
    var r: int := f.r;
    var s: int := f.s;
    assert (q % 16 * 16 + r / 4) / 16 == q % 16 && (q % 16 * 16 + r / 4) % 16 == r / 4;
    assert (r % 4 * 64 + s) / 64 == r % 4;
  }

  lemma DownUp(t: Three)
    ensures Down(Up(t)) == t
  {
    assert (t.a % 4 * 16 + t.b / 16) / 16 == t.a % 4 && (t.a % 4 * 16 + t.b / 16) % 16 == t.b / 16;
    assert (t.b % 16 * 4 + t.c / 64) / 4 == t.b % 16 && (t.b % 16 * 4 + t.c / 64) % 4 == t.c / 64;
  }

  lemma ShortUps(a: Byte, b: Byte)
    ensures Up(Three(a, b, 0)).s == 0 && Up(Three(a, b, 0)).r % 4 == 0
    ensures Up(Three(a, 0, 0)).r == 0 && Up(Three(a, 0, 0)).s == 0 && Up(Three(a, 0, 0)).q % 16 == 0
  {
  }

  lemma ShortDowns(p: Sextet, q: Sextet, r: Sextet)
    ensures r % 4 == 0 ==> Down(Four(p, q, r, 0)).c == 0
    ensures q % 16 == 0 ==> Down(Four(p, q, 0, 0)).b == 0 && Down(Four(p, q, 0, 0)).c == 0
  {
  }

  function ToSextets(bytes: seq<Byte>): seq<Sextet> {
    if bytes == [] then []
    else if |bytes| == 1 then var f := Up(Three(bytes[0], 0, 0)); [f.p, f.q]
    else if |bytes| == 2 then var f := Up(Three(bytes[0], bytes[1], 0)); [f.p, f.q, f.r]
    else var f := Up(Three(bytes[0], bytes[1], bytes[2])); [f.p, f.q, f.r, f.s] + ToSextets(bytes[3..])
  }

  /** Reads whole bytes and drops what is left over, as a lenient decoder does. */
  function FromSextets(n: seq<Sextet>): seq<Byte> {
    if |n| < 2 then []
    else if |n| == 2 then var t := Down(Four(n[0], n[1], 0, 0)); [t.a]
    else if |n| == 3 then var t := Down(Four(n[0], n[1], n[2], 0)); [t.a, t.b]
    else var t := Down(Four(n[0], n[1], n[2], n[3])); [t.a, t.b, t.c] + FromSextets(n[4..])
  }

  lemma {:induction false} SextetCount(bytes: seq<Byte>)
    ensures |ToSextets(bytes)| == (4 * |bytes| + 2) / 3
  {
    if |bytes| >= 3 { SextetCount(bytes[3..]); }
  }

  lemma {:induction false} BytesReturn(bytes: seq<Byte>)
    ensures FromSextets(ToSextets(bytes)) == bytes
  {
    if |bytes| == 1 {
      DownUp(Three(bytes[0], 0, 0));
      ShortUps(bytes[0], 0);
      assert bytes == [bytes[0]];
    } else if |bytes| == 2 {
      DownUp(Three(bytes[0], bytes[1], 0));
      ShortUps(bytes[0], bytes[1]);
      assert bytes == [bytes[0], bytes[1]];
    } else if |bytes| >= 3 {
      DownUp(Three(bytes[0], bytes[1], bytes[2]));
      BytesReturn(bytes[3..]);
      assert ToSextets(bytes)[4..] == ToSextets(bytes[3..]);
      assert bytes == [bytes[0], bytes[1], bytes[2]] + bytes[3..];
    }
  }

  /** No single sextet left over, and no bits beyond the last byte. */
  predicate WholeBytes(n: seq<Sextet>) {
    if |n| >= 4 then WholeBytes(n[4..])
    else if |n| == 3 then n[2] % 4 == 0
    else if |n| == 2 then n[1] % 16 == 0
    else n == []
  }

  lemma {:induction false} SextetsReturn(n: seq<Sextet>)
    ensures ToSextets(FromSextets(n)) == n <==> WholeBytes(n)
  {
    if |n| >= 4 {
      UpDown(Four(n[0], n[1], n[2], n[3]));
      SextetsReturn(n[4..]);
      var bytes := FromSextets(n);
      assert bytes[3..] == FromSextets(n[4..]);
      assert n == [n[0], n[1], n[2], n[3]] + n[4..];
      assert ToSextets(bytes) == [n[0], n[1], n[2], n[3]] + ToSextets(FromSextets(n[4..]));
      SameTail([n[0], n[1], n[2], n[3]], ToSextets(FromSextets(n[4..])), n[4..]);
    } else if |n| == 3 {
      ThreeReturn(n);
    } else if |n| == 2 {
      TwoReturn(n);
    }
  }

  lemma SameTail<T>(head: seq<T>, a: seq<T>, b: seq<T>)
    ensures head + a == head + b <==> a == b
  {
    if head + a == head + b {
      assert a == (head + a)[|head|..] && b == (head + b)[|head|..];
    }
  }

  lemma ThreeReturn(n: seq<Sextet>)
    requires |n| == 3
    ensures ToSextets(FromSextets(n)) == n <==> n[2] % 4 == 0
  {
    var f := Four(n[0], n[1], n[2], 0);
    var t := Down(f);
    UpDown(f);
    ShortDowns(n[0], n[1], n[2]);
    ShortUps(t.a, t.b);
    assert n == [n[0], n[1], n[2]];
    assert ToSextets(FromSextets(n))[2] == Up(Three(t.a, t.b, 0)).r;
  }

  lemma TwoReturn(n: seq<Sextet>)
    requires |n| == 2
    ensures ToSextets(FromSextets(n)) == n <==> n[1] % 16 == 0
  {
    var f := Four(n[0], n[1], 0, 0);
    var t := Down(f);
    UpDown(f);
    ShortDowns(n[0], n[1], 0);
    ShortUps(t.a, 0);
    assert n == [n[0], n[1]];
    assert ToSextets(FromSextets(n))[1] == Up(Three(t.a, 0, 0)).q;
  }

  /* ---- Sextets are spelled with the alphabet ---- */

  function Symbol(n: Sextet): char {
    if n < 26 then ('A' as int + n) as char
    else if n < 52 then ('a' as int + n - 26) as char
    else if n < 62 then ('0' as int + n - 52) as char
    else if n == 62 then '-' else '_'
  }

  predicate IsSymbol(c: char) {
    'A' <= c <= 'Z' || 'a' <= c <= 'z' || '0' <= c <= '9' || c == '-' || c == '_'
  }

  function Value(c: char): Sextet
    requires IsSymbol(c)
  {
    if 'A' <= c <= 'Z' then c as int - 'A' as int
    else if 'a' <= c <= 'z' then c as int - 'a' as int + 26
    else if '0' <= c <= '9' then c as int - '0' as int + 52
    else if c == '-' then 62 else 63
  }

  lemma SymbolsAreValues(n: Sextet, c: char)
    ensures IsSymbol(Symbol(n)) && Value(Symbol(n)) == n
    ensures IsSymbol(c) ==> Symbol(Value(c)) == c
  {
  }

  predicate InAlphabet(text: string) { forall k | 0 <= k < |text| :: IsSymbol(text[k]) }

  function Spell(n: seq<Sextet>): (text: string)
    ensures |text| == |n| && forall k | 0 <= k < |n| :: text[k] == Symbol(n[k])
  {
    seq(|n|, k requires 0 <= k < |n| => Symbol(n[k]))
  }

  function Values(text: string): (n: seq<Sextet>)
    requires InAlphabet(text)
    ensures |n| == |text| && forall k | 0 <= k < |n| :: n[k] == Value(text[k])
  {
    seq(|text|, k requires 0 <= k < |text| => Value(text[k]))
  }

  lemma SpellingIsReversible(n: seq<Sextet>, text: string)
    ensures InAlphabet(Spell(n)) && Values(Spell(n)) == n
    ensures InAlphabet(text) ==> Spell(Values(text)) == text
  {
    forall k | 0 <= k < |n| ensures IsSymbol(Spell(n)[k]) && Value(Spell(n)[k]) == n[k] { SymbolsAreValues(n[k], '-'); }
    if InAlphabet(text) {
      forall k | 0 <= k < |text| ensures Symbol(Value(text[k])) == text[k] { SymbolsAreValues(0, text[k]); }
    }
  }

  function Encode(bytes: seq<Byte>): string { Spell(ToSextets(bytes)) }

  function Decode(text: string): seq<Byte>
    requires InAlphabet(text)
  {
    FromSextets(Values(text))
  }

  /** Encoding n bytes takes four symbols for every three bytes, rounded up, and can be undone. */
  lemma DecodeUndoes(bytes: seq<Byte>)
    ensures InAlphabet(Encode(bytes)) && Decode(Encode(bytes)) == bytes
    ensures |Encode(bytes)| == (4 * |bytes| + 2) / 3
  {
    SpellingIsReversible(ToSextets(bytes), "");
    BytesReturn(bytes);
    SextetCount(bytes);
  }

  /** Encoding what was decoded gives the text back exactly for texts of whole bytes. */
  lemma EncodeRestoresCanonical(text: string)
    requires InAlphabet(text)
    ensures Encode(Decode(text)) == text <==> WholeBytes(Values(text))
  {
    var n := Values(text);
    SextetsReturn(n);
    SpellingIsReversible(ToSextets(FromSextets(n)), text);
    if Encode(Decode(text)) == text {
      assert Values(Spell(ToSextets(FromSextets(n)))) == Values(text);
    }
  }

  /* ---- Against the standard's own words ---- */

  /** Three bytes and their four sextets are one number of 24 bits, the first of each in front. */
  lemma SextetsAreTheBits(t: Three)
    ensures var f := Up(t);
            262_144 * f.p as int + 4096 * f.q as int + 64 * f.r as int + f.s as int == 65_536 * t.a as int + 256 * t.b as int + t.c as int
  {
  }

  /** A last group of one byte is padded with zero bits to two sextets, one of two bytes to three. */
  lemma ShortGroups(a: Byte, b: Byte)
    ensures ToSextets([a]) == [a / 4, a % 4 * 16] && ToSextets([a, b]) == [a / 4, a % 4 * 16 + b / 16, b % 16 * 4]
  {
  }

  /** The URL-safe alphabet: upper case, lower case, digits, minus and underscore. */
  lemma AlphabetIs(n: Sextet)
    ensures Symbol(n) as int == if n < 26 then 65 + n else if n < 52 then 71 + n else if n < 62 then n - 4 else if n == 62 then 45 else 95
  {
  }
}
