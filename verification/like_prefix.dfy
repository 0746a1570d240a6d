/** A customer search by name prefix: the prefix is escaped and used as a LIKE pattern. */
module LikePrefix {

  /** `replaceAll` of one character. */
  function ReplaceAll(s: string, c: char, replacement: string): string {
    if s == [] then [] else (if s[0] == c then replacement else [s[0]]) + ReplaceAll(s[1..], c, replacement)
  }

  function EscapeCustomerNamePrefix(value: string): string {
    ReplaceAll(ReplaceAll(ReplaceAll(value, '\\', "\\\\"), '%', "\\%"), '_', "\\_")
  }

  /** LIKE with a backslash as the escape character (section 9.7.1 of the PostgreSQL manual). A pattern
      that ends in the escape character matches nothing. */
  predicate Like(text: string, pattern: string)
    decreases |pattern|, |text|
  {
    if pattern == [] then text == []
    else if pattern[0] == '\\' then
      |pattern| >= 2 && text != [] && text[0] == pattern[1] && Like(text[1..], pattern[2..])
    else if pattern[0] == '%' then
      Like(text, pattern[1..]) || (text != [] && Like(text[1..], pattern))
    else if pattern[0] == '_' then text != [] && Like(text[1..], pattern[1..])
    else text != [] && text[0] == pattern[0] && Like(text[1..], pattern[1..])
  }

  function EscapeCharacter(c: char): string {
    if c == '\\' || c == '%' || c == '_' then ['\\', c] else [c]
  }

  /** Each character on its own. */
  function EscapeEach(value: string): string {
    if value == [] then [] else EscapeCharacter(value[0]) + EscapeEach(value[1..])
  }

  lemma Associates(x: string, y: string, z: string)
    ensures x + (y + z) == (x + y) + z
  {
  }

  lemma {:induction false} ReplaceAppend(a: string, b: string, c: char, replacement: string)
    ensures ReplaceAll(a + b, c, replacement) == ReplaceAll(a, c, replacement) + ReplaceAll(b, c, replacement)
  {
    if a == [] {
      assert a + b == b;
    } else {
      var head := if a[0] == c then replacement else [a[0]];
      var (rest, other) := (ReplaceAll(a[1..], c, replacement), ReplaceAll(b, c, replacement));
      ReplaceAppend(a[1..], b, c, replacement);
      assert (a + b)[0] == a[0] && (a + b)[1..] == a[1..] + b;
      assert ReplaceAll(a + b, c, replacement) == head + (rest + other);
      Associates(head, rest, other);
    }
  }

  lemma ReplaceOne(x: char, c: char, replacement: string)
    ensures ReplaceAll([x], c, replacement) == if x == c then replacement else [x]
  {
    assert [x][1..] == [];
  }

  lemma ReplaceTwo(x: char, y: char, c: char, replacement: string)
    ensures ReplaceAll([x, y], c, replacement)
         == (if x == c then replacement else [x]) + (if y == c then replacement else [y])
  {
    ReplaceAppend([x], [y], c, replacement);
    ReplaceOne(x, c, replacement);
    ReplaceOne(y, c, replacement);
    assert [x] + [y] == [x, y];
  }

  lemma EscapeOne(c: char)
    ensures EscapeCustomerNamePrefix([c]) == EscapeCharacter(c)
  {
    ReplaceOne(c, '\\', "\\\\");
    if c == '\\' {
      ReplaceTwo('\\', '\\', '%', "\\%");
      ReplaceTwo('\\', '\\', '_', "\\_");
    } else {
      ReplaceOne(c, '%', "\\%");
      if c == '%' { ReplaceTwo('\\', '%', '_', "\\_"); } else { ReplaceOne(c, '_', "\\_"); }
    }
  }

  /** The three chained replacements escape each character on its own: none of them touches what an
      earlier one put in. */
  lemma {:induction false} ChainedIsEach(value: string)
    ensures EscapeCustomerNamePrefix(value) == EscapeEach(value)
  {
    if value != [] {
      var (head, tail) := (value[..1], value[1..]);
      ChainedIsEach(tail);
      EscapeOne(value[0]);
      assert head == [value[0]] && value == head + tail;
      ReplaceAppend(head, tail, '\\', "\\\\");
      var (h1, t1) := (ReplaceAll(head, '\\', "\\\\"), ReplaceAll(tail, '\\', "\\\\"));
      ReplaceAppend(h1, t1, '%', "\\%");
      ReplaceAppend(ReplaceAll(h1, '%', "\\%"), ReplaceAll(t1, '%', "\\%"), '_', "\\_");
    }
  }

  lemma {:induction false} PercentMatchesAll(text: string)
    ensures Like(text, "%")
  {
    assert "%"[1..] == [];
    if text != [] { PercentMatchesAll(text[1..]); }
  }

  /** An escaped character matches itself and nothing else. */
  lemma EscapedMatchesItself(text: string, c: char, rest: string)
    ensures Like(text, EscapeCharacter(c) + rest) <==> text != [] && text[0] == c && Like(text[1..], rest)
  {
    var e := EscapeCharacter(c);
    assert (e + rest)[|e|..] == rest;
  }

  lemma {:induction false} EachMatchesPrefix(text: string, value: string)
    ensures Like(text, EscapeEach(value) + "%") <==> |value| <= |text| && text[..|value|] == value
  {
    if value == [] {
      assert EscapeEach(value) + "%" == "%";
      PercentMatchesAll(text);
    } else {
      var rest := EscapeEach(value[1..]) + "%";
      assert EscapeEach(value) + "%" == EscapeCharacter(value[0]) + rest;
      EscapedMatchesItself(text, value[0], rest);
      if text != [] {
        EachMatchesPrefix(text[1..], value[1..]);
        PrefixOfTail(text, value);
      }
    }
  }

  lemma PrefixOfTail(text: string, value: string)
    requires text != [] && value != []
    ensures |value| <= |text| && text[..|value|] == value
       <==> text[0] == value[0] && |value[1..]| <= |text[1..]| && text[1..][..|value| - 1] == value[1..]
  {
    if |value| <= |text| {
      assert text[..|value|] == [text[0]] + text[1..][..|value| - 1];
      assert value == [value[0]] + value[1..];
    }
  }

  /** The search finds exactly the names that start with the raw value, whatever characters it holds. */
  lemma SearchIsPrefix(text: string, value: string)
    ensures Like(text, EscapeCustomerNamePrefix(value) + "%") <==> |value| <= |text| && text[..|value|] == value
  {
    ChainedIsEach(value);
    EachMatchesPrefix(text, value);
  }
}
