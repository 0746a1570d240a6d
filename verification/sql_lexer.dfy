/** The migration runner's view of a SQL script: which characters are code and which lie in comments,
    quoted strings, dollar quotes or quoted identifiers. */
module SqlLexer {
  import opened Wrappers

  /** A piece of a script. Everything but code is opaque to the runner. */
  datatype Segment =
    | Code(c: char)
    | LineComment(text: string) | BlockComment(text: string)
    | DollarQuoted(text: string) | Quoted(text: string) | EscapeQuoted(text: string) | QuotedIdentifier(text: string)
  {
    function Text(): string { if Code? then [c] else text }

    /** One character per piece: code stands for itself, anything else for a space. */
    function Rendered(): char { if Code? then c else ' ' }
  }

  /* ---- Lengths of the opaque forms ---- */

  predicate Starts(s: string, prefix: string) { |prefix| <= |s| && s[..|prefix|] == prefix }

  /** `s` starts with the two characters. */
  predicate Pair(s: string, a: char, b: char) { |s| >= 2 && s[0] == a && s[1] == b }

  /** Up to the end of the line, which stays code. */
  function LineLength(s: string): (n: nat)
    ensures n <= |s|
  {
    if s == [] || s[0] == '\n' then 0 else 1 + LineLength(s[1..])
  }

  /** What is left of a comment nested `depth` deep. */
  function CommentLength(s: string, depth: nat): (n: nat)
    ensures n <= |s|
  {
    if depth == 0 || s == [] then 0
    else if Pair(s, '/', '*') then 2 + CommentLength(s[2..], depth + 1)
    else if Pair(s, '*', '/') then 2 + CommentLength(s[2..], depth - 1)
    else 1 + CommentLength(s[1..], depth)
  }

  /** What is left of a quoted form, its closing quote included. */
  function QuoteLength(s: string, quote: char, escapes: bool): (n: nat)
    ensures n <= |s|
  {
    if s == [] then 0
    else if escapes && s[0] == '\\' then
      if |s| == 1 then 1 else 2 + QuoteLength(s[2..], quote, escapes)
    else if s[0] == quote then
      if Pair(s, quote, quote) then 2 + QuoteLength(s[2..], quote, escapes) else 1
    else 1 + QuoteLength(s[1..], quote, escapes)
  }

  predicate IsTagStart(c: char) { 'a' <= c <= 'z' || 'A' <= c <= 'Z' || c == '_' }
  predicate IsWordChar(c: char) { IsTagStart(c) || '0' <= c <= '9' }

  function WordLength(s: string): (n: nat)
    ensures n <= |s|
    ensures forall k | 0 <= k < n :: IsWordChar(s[k])
    ensures n < |s| ==> !IsWordChar(s[n])
  {
    if s == [] || !IsWordChar(s[0]) then 0 else 1 + WordLength(s[1..])
  }

  /** The dollar tag that `s` starts with: `$$`, or a name between two dollar signs. */
  function DollarTag(s: string): (tag: Option<string>)
    ensures tag.Some? ==> |tag.value| >= 2 && Starts(s, tag.value)
  {
    if s == [] || s[0] != '$' then None
    else
      var n := if |s| > 1 && IsTagStart(s[1]) then WordLength(s[1..]) else 0;
      if n + 1 < |s| && s[n + 1] == '$' then Some(s[..n + 2]) else None
  }

  /** The first place of a pattern, as `indexOf` finds it. */
  function Find(s: string, pattern: string): (k: Option<nat>)
    ensures k.Some? ==> k.value + |pattern| <= |s|
  {
    if Starts(s, pattern) then Some(0)
    else if s == [] then None
    else
      var k := Find(s[1..], pattern);
      if k.Some? then Some(k.value + 1) else None
  }

  function DollarLength(s: string, tag: string): (n: nat)
    requires Starts(s, tag)
    ensures |tag| <= n <= |s|
  {
    match Find(s[|tag|..], tag)
    case None => |s|
    case Some(k) => 2 * |tag| + k
  }

  /* ---- The reference lexer ---- */

  /** The piece that a non-empty text starts with. */
  function First(s: string): (piece: Segment)
    requires s != []
    ensures Starts(s, piece.Text()) && piece.Text() != []
  {
    if Pair(s, '-', '-') then LineComment(s[..LineLength(s)])
    else if Pair(s, '/', '*') then BlockComment(s[..2 + CommentLength(s[2..], 1)])
    else if DollarTag(s).Some? then DollarQuoted(s[..DollarLength(s, DollarTag(s).value)])
    else if s[0] == '\'' then Quoted(s[..1 + QuoteLength(s[1..], '\'', false)])
    else if Pair(s, 'e', '\'') || Pair(s, 'E', '\'') then EscapeQuoted(s[..2 + QuoteLength(s[2..], '\'', true)])
    else if s[0] == '"' then QuotedIdentifier(s[..1 + QuoteLength(s[1..], '"', false)])
    else Code(s[0])
  }

  /** What follows the first piece. */
  function Rest(s: string): (rest: string)
    requires s != []
    ensures |rest| < |s|
  {
    s[|First(s).Text()|..]
  }

  function Lex(s: string): seq<Segment>
    decreases |s|
  {
    if s == [] then [] else [First(s)] + Lex(Rest(s))
  }

  function Join(pieces: seq<Segment>): string {
    if pieces == [] then [] else pieces[0].Text() + Join(pieces[1..])
  }

  function Render(pieces: seq<Segment>): (r: string)
    ensures |r| == |pieces|
    ensures forall k | 0 <= k < |pieces| :: r[k] == pieces[k].Rendered()
  {
    seq(|pieces|, k requires 0 <= k < |pieces| => pieces[k].Rendered())
  }

  lemma FirstSplits(s: string)
    requires s != []
    ensures s == First(s).Text() + Rest(s)
  {
  }

  lemma {:induction false} JoinIsText(s: string)
    ensures Join(Lex(s)) == s
    decreases |s|
  {
    if s != [] {
      var (piece, rest) := (First(s), Rest(s));
      FirstSplits(s);
      JoinIsText(rest);
      JoinCons(piece, Lex(rest));
      assert Lex(s) == [piece] + Lex(rest);
    }
  }

  lemma {:induction false} NoPieceIsEmpty(s: string)
    ensures forall k | 0 <= k < |Lex(s)| :: Lex(s)[k].Text() != []
    decreases |s|
  {
    if s != [] { NoPieceIsEmpty(Rest(s)); }
  }

  /** Every character of the script lies in exactly one piece, and no piece is empty. */
  lemma LexPartitions(s: string)
    ensures Join(Lex(s)) == s
    ensures forall k | 0 <= k < |Lex(s)| :: Lex(s)[k].Text() != []
  {
    JoinIsText(s);
    NoPieceIsEmpty(s);
  }

  lemma JoinCons(piece: Segment, rest: seq<Segment>)
    ensures Join([piece] + rest) == piece.Text() + Join(rest)
  {
    assert ([piece] + rest)[1..] == rest;
  }

  /* ---- What the pieces are ---- */

  /** What of the script is left when piece `k` begins. */
  function LeftAt(s: string, k: nat): (left: string)
    requires k < |Lex(s)|
    ensures left != []
    decreases |s|
  {
    if k == 0 then s else LeftAt(Rest(s), k - 1)
  }

  /** Where a piece lies: what of the script follows it. */
  function After(s: string, k: nat): string
    requires k < |Lex(s)|
  {
    Rest(LeftAt(s, k))
  }

  /** A quoted body: quotes come in pairs and, with escapes, a backslash takes the next character. */
  predicate QuoteBody(s: string, quote: char, escapes: bool) {
    s == []
    || (if escapes && s[0] == '\\' then |s| >= 2 && QuoteBody(s[2..], quote, escapes)
        else if s[0] == quote then Pair(s, quote, quote) && QuoteBody(s[2..], quote, escapes)
        else QuoteBody(s[1..], quote, escapes))
  }

  /** Reading `s` inside `depth` comments never leaves the outermost one before the end, where
      `end` comments are still open. */
  predicate CommentBody(s: string, depth: nat, end: nat) {
    if s == [] then depth == end
    else if depth == 0 then false
    else if Pair(s, '/', '*') then CommentBody(s[2..], depth + 1, end)
    else if Pair(s, '*', '/') then CommentBody(s[2..], depth - 1, end)
    else CommentBody(s[1..], depth, end)
  }

  /** A dollar tag: nothing or a name between two dollar signs. */
  predicate IsTag(t: string) {
    && |t| >= 2 && t[0] == '$' && t[|t| - 1] == '$'
    && (|t| > 2 ==> IsTagStart(t[1]))
    && forall k | 1 <= k < |t| - 1 :: IsWordChar(t[k])
  }

  /** The pattern stands at a place of the text. */
  predicate At(s: string, j: nat, pattern: string) { j + |pattern| <= |s| && forall i | 0 <= i < |pattern| :: s[j + i] == pattern[i] }

  predicate NoneBetween(s: string, pattern: string, from: nat, to: nat) { forall j: nat | from <= j < to :: !At(s, j, pattern) }

  /** A dollar quote ends with the first tag behind its opening one, or reaches the end of the script without. */
  predicate DollarForm(t: string, tag: string, rest: string) {
    || (|t| >= 2 * |tag| && At(t, |t| - |tag|, tag) && NoneBetween(t, tag, |tag|, |t| - |tag|))
    || (rest == [] && NoneBetween(t, tag, |tag|, |t| + 1))
  }

  /** A comment, a quote or a dollar tag begins here. */
  ghost predicate BeginsForm(s: string) {
    || Pair(s, '-', '-') || Pair(s, '/', '*')
    || (exists tag :: IsTag(tag) && Starts(s, tag))
    || (s != [] && (s[0] == '\'' || s[0] == '"'))
    || Pair(s, 'e', '\'') || Pair(s, 'E', '\'')
  }

  /** The form of a piece. A form that is not closed reaches the end of the script. */
  ghost predicate WellFormed(piece: Segment, rest: string) {
    match piece
    case Code(c) => !BeginsForm([c] + rest)
    case LineComment(t) => Pair(t, '-', '-') && '\n' !in t && (rest == [] || rest[0] == '\n')
    case BlockComment(t) =>
      Pair(t, '/', '*') && (CommentBody(t[2..], 1, 0) || (rest == [] && exists d | d > 0 :: CommentBody(t[2..], 1, d)))
    case DollarQuoted(t) => exists tag :: IsTag(tag) && Starts(t, tag) && DollarForm(t, tag, rest)
    case Quoted(t) => QuotedForm(t, "'", '\'', false, rest)
    case EscapeQuoted(t) => QuotedForm(t, if Starts(t, "e") then "e'" else "E'", '\'', true, rest)
    case QuotedIdentifier(t) => QuotedForm(t, "\"", '"', false, rest)
  }

  /** A body with its closing quote, which is not one half of a pair. */
  predicate ClosedBody(body: string, quote: char, escapes: bool, rest: string) {
    && body != [] && body[|body| - 1] == quote && QuoteBody(body[..|body| - 1], quote, escapes)
    && (rest == [] || rest[0] != quote)
  }

  /** A body that reaches the end of the script, perhaps in a backslash with nothing after it. */
  predicate UnclosedBody(body: string, quote: char, escapes: bool, rest: string) {
    && rest == []
    && (QuoteBody(body, quote, escapes)
        || (escapes && body != [] && body[|body| - 1] == '\\' && QuoteBody(body[..|body| - 1], quote, escapes)))
  }

  predicate QuotedForm(t: string, open: string, quote: char, escapes: bool, rest: string) {
    && Starts(t, open)
    && var body := t[|open|..];
       ClosedBody(body, quote, escapes, rest) || UnclosedBody(body, quote, escapes, rest)
  }

  lemma {:induction false} LineIsWhole(s: string)
    ensures var n := LineLength(s); '\n' !in s[..n] && (s[n..] == [] || s[n..][0] == '\n')
  {
    if s != [] && s[0] != '\n' {
      LineIsWhole(s[1..]);
      var n := LineLength(s);
      assert s[..n] == [s[0]] + s[1..][..n - 1] && s[n..] == s[1..][n - 1..];
    }
  }

  lemma {:induction false} CommentIsWhole(s: string, depth: nat) returns (d: nat)
    ensures var n := CommentLength(s, depth); CommentBody(s[..n], depth, d) && (d == 0 || s[n..] == [])
    decreases |s|
  {
    if depth == 0 || s == [] {
      d := depth;
    } else {
      var n := CommentLength(s, depth);
      var step := if Pair(s, '/', '*') || Pair(s, '*', '/') then 2 else 1;
      d := CommentIsWhole(s[step..], if Pair(s, '/', '*') then depth + 1 else if Pair(s, '*', '/') then depth - 1 else depth);
      assert s[..n][step..] == s[step..][..n - step] && s[n..] == s[step..][n - step..];
      if step == 1 && n >= 2 { assert s[..n][..2] == s[..2]; }
      assert CommentBody(s[..n], depth, d);
    }
  }

  /** One step of reading a quoted body: an ordinary character, a pair of quotes or an escaped character. */
  predicate IsStep(step: string, quote: char, escapes: bool) {
    || (|step| == 1 && step[0] != quote && !(escapes && step[0] == '\\'))
    || (|step| == 2 && (if escapes && step[0] == '\\' then true else step == [quote, quote]))
  }

  /** Cutting a text after a step and then after `m` more. */
  lemma Cut(s: string, step: nat, m: nat)
    requires step + m <= |s|
    ensures s[..step + m] == s[..step] + s[step..][..m] && s[step + m..] == s[step..][m..]
  {
  }

  lemma BodyGrows(step: string, body: string, quote: char, escapes: bool)
    requires IsStep(step, quote, escapes)
    ensures QuoteBody(step + body, quote, escapes) == QuoteBody(body, quote, escapes)
  {
    assert (step + body)[|step|..] == body;
  }

  lemma FormGrows(step: string, body: string, quote: char, escapes: bool, rest: string)
    requires IsStep(step, quote, escapes)
    ensures ClosedBody(body, quote, escapes, rest) ==> ClosedBody(step + body, quote, escapes, rest)
    ensures UnclosedBody(body, quote, escapes, rest) ==> UnclosedBody(step + body, quote, escapes, rest)
  {
    BodyGrows(step, body, quote, escapes);
    if body != [] {
      var init := body[..|body| - 1];
      BodyGrows(step, init, quote, escapes);
      assert (step + body)[..|step + body| - 1] == step + init;
    }
  }

  lemma {:induction false} QuoteIsWhole(s: string, quote: char, escapes: bool)
    requires quote != '\\'
    ensures var n := QuoteLength(s, quote, escapes);
            ClosedBody(s[..n], quote, escapes, s[n..]) || UnclosedBody(s[..n], quote, escapes, s[n..])
    decreases |s|
  {
    if s != [] && !(escapes && s == ['\\']) && !(s[0] == quote && !Pair(s, quote, quote)) {
      var step := if (escapes && s[0] == '\\') || s[0] == quote then 2 else 1;
      var (head, tail) := (s[..step], s[step..]);
      var m := QuoteLength(tail, quote, escapes);
      QuoteIsWhole(tail, quote, escapes);
      assert QuoteLength(s, quote, escapes) == step + m;
      Cut(s, step, m);
      FormGrows(head, tail[..m], quote, escapes, tail[m..]);
    }
  }

  lemma StartsOfPrefix(s: string, pattern: string, m: nat)
    requires |pattern| <= m <= |s|
    ensures Starts(s[..m], pattern) <==> Starts(s, pattern)
  {
    assert s[..m][..|pattern|] == s[..|pattern|];
  }

  /** The word in front of a character that is none is as long as what lies before it. */
  lemma {:induction false} WordEnds(s: string, n: nat)
    requires n < |s| && !IsWordChar(s[n]) && forall k | 0 <= k < n :: IsWordChar(s[k])
    ensures WordLength(s) == n
  {
    if n > 0 { WordEnds(s[1..], n - 1); }
  }

  /** The tag that is found is the one that is there. */
  lemma TagIsFound(s: string, tag: string)
    requires IsTag(tag) && Starts(s, tag)
    ensures DollarTag(s) == Some(tag)
  {
    var n := |tag| - 2;
    assert forall k | 0 <= k < |tag| :: s[k] == tag[k];
    if n > 0 {
      assert forall k | 0 <= k < n :: s[1..][k] == tag[k + 1];
      WordEnds(s[1..], n);
    }
    assert s[..n + 2] == tag;
  }

  lemma FoundIsTag(s: string)
    requires DollarTag(s).Some?
    ensures IsTag(DollarTag(s).value) && Starts(s, DollarTag(s).value)
  {
    var tag := DollarTag(s).value;
    if |tag| > 2 { assert forall k | 1 <= k < |tag| - 1 :: tag[k] == s[1..][k - 1]; }
  }

  lemma StartsIsAt(s: string, pattern: string)
    ensures Starts(s, pattern) <==> At(s, 0, pattern)
  {
    if At(s, 0, pattern) { assert s[..|pattern|] == pattern; }
    if Starts(s, pattern) { assert forall i | 0 <= i < |pattern| :: s[0 + i] == s[..|pattern|][i]; }
  }

  lemma AtTail(s: string, n: nat, j: nat, pattern: string)
    requires n <= |s|
    ensures At(s[n..], j, pattern) <==> At(s, n + j, pattern)
  {
    if At(s, n + j, pattern) {
      forall i | 0 <= i < |pattern| ensures s[n..][j + i] == pattern[i] { assert s[n + j + i] == pattern[i]; }
    }
    if At(s[n..], j, pattern) {
      forall i | 0 <= i < |pattern| ensures s[n + j + i] == pattern[i] { assert s[n..][j + i] == pattern[i]; }
    }
  }

  lemma AtPrefix(s: string, m: nat, j: nat, pattern: string)
    requires m <= |s|
    ensures At(s[..m], j, pattern) <==> At(s, j, pattern) && j + |pattern| <= m
  {
  }

  /** A pattern is found at the first place where it stands. */
  lemma {:induction false} FindIsFirst(s: string, pattern: string)
    ensures match Find(s, pattern)
            case Some(k) => At(s, k, pattern) && NoneBetween(s, pattern, 0, k)
            case None => NoneBetween(s, pattern, 0, |s| + 1)
  {
    StartsIsAt(s, pattern);
    if !Starts(s, pattern) && s != [] {
      FindIsFirst(s[1..], pattern);
      forall j: nat ensures At(s[1..], j, pattern) <==> At(s, 1 + j, pattern) { AtTail(s, 1, j, pattern); }
      forall j: nat | 0 < j ensures At(s, j, pattern) <==> At(s[1..], j - 1, pattern) { AtTail(s, 1, j - 1, pattern); }
    }
  }

  lemma FoundBehind(s: string, n: nat, pattern: string)
    requires n <= |s|
    ensures match Find(s[n..], pattern)
            case Some(k) => At(s, n + k, pattern) && NoneBetween(s, pattern, n, n + k)
            case None => NoneBetween(s, pattern, n, |s| + 1)
  {
    FindIsFirst(s[n..], pattern);
    forall j: nat | n <= j ensures At(s, j, pattern) <==> At(s[n..], j - n, pattern) { AtTail(s, n, j - n, pattern); }
  }

  lemma ClosedDollar(s: string, tag: string, k: nat)
    requires At(s, |tag| + k, tag) && NoneBetween(s, tag, |tag|, |tag| + k)
    ensures DollarForm(s[..2 * |tag| + k], tag, s[2 * |tag| + k..])
  {
    var m := 2 * |tag| + k;
    AtPrefix(s, m, |tag| + k, tag);
    forall j: nat | |tag| <= j < |tag| + k ensures !At(s[..m], j, tag) { AtPrefix(s, m, j, tag); }
  }

  lemma DollarFormIsWhole(s: string, tag: string)
    requires Starts(s, tag)
    ensures var m := DollarLength(s, tag); DollarForm(s[..m], tag, s[m..])
  {
    FoundBehind(s, |tag|, tag);
    match Find(s[|tag|..], tag)
    case Some(k) => ClosedDollar(s, tag, k);
    case None => assert s[..|s|] == s;
  }

  lemma DollarIsWhole(s: string)
    requires s != [] && First(s).DollarQuoted?
    ensures WellFormed(First(s), Rest(s))
  {
    var tag := DollarTag(s).value;
    FoundIsTag(s);
    StartsOfPrefix(s, tag, DollarLength(s, tag));
    DollarFormIsWhole(s, tag);
  }

  lemma CommentsAreWhole(s: string)
    requires s != [] && (First(s).LineComment? || First(s).BlockComment?)
    ensures WellFormed(First(s), Rest(s))
  {
    var n := |First(s).Text()|;
    if First(s).LineComment? {
      LineIsWhole(s);
      LineBegins(s);
    } else {
      var d := CommentIsWhole(s[2..], 1);
      assert s[..n][2..] == s[2..][..n - 2] && s[n..] == s[2..][n - 2..];
    }
  }

  lemma QuotesAreWhole(s: string, open: string, quote: char, escapes: bool)
    requires Starts(s, open) && quote != '\\'
    ensures var n := |open| + QuoteLength(s[|open|..], quote, escapes); QuotedForm(s[..n], open, quote, escapes, s[n..])
  {
    var (m, n) := (|open|, |open| + QuoteLength(s[|open|..], quote, escapes));
    QuoteIsWhole(s[m..], quote, escapes);
    assert s[..n][m..] == s[m..][..n - m] && s[n..] == s[m..][n - m..];
    StartsOfPrefix(s, open, n);
  }

  lemma PlainQuoteIsWhole(s: string)
    requires s != [] && First(s).Quoted?
    ensures WellFormed(First(s), Rest(s))
  {
    QuotesAreWhole(s, "'", '\'', false);
  }

  lemma IdentifierIsWhole(s: string)
    requires s != [] && First(s).QuotedIdentifier?
    ensures WellFormed(First(s), Rest(s))
  {
    QuotesAreWhole(s, "\"", '"', false);
  }

  lemma EscapeQuoteIsWhole(s: string)
    requires s != [] && First(s).EscapeQuoted?
    ensures WellFormed(First(s), Rest(s))
  {
    QuotesAreWhole(s, if Starts(s, "e") then "e'" else "E'", '\'', true);
    StartsOfPrefix(s, "e", |First(s).text|);
  }

  lemma CodeBeginsNothing(s: string)
    requires s != [] && First(s).Code?
    ensures WellFormed(First(s), Rest(s))
  {
    assert s == [s[0]] + s[1..];
    forall tag | IsTag(tag) && Starts(s, tag) ensures false { TagIsFound(s, tag); }
  }

  lemma FirstIsWellFormed(s: string)
    requires s != []
    ensures WellFormed(First(s), Rest(s))
  {
    match First(s)
    case Code(c) => CodeBeginsNothing(s);
    case LineComment(_) => CommentsAreWhole(s);
    case BlockComment(_) => CommentsAreWhole(s);
    case DollarQuoted(_) => DollarIsWhole(s);
    case Quoted(_) => PlainQuoteIsWhole(s);
    case EscapeQuoted(_) => EscapeQuoteIsWhole(s);
    case QuotedIdentifier(_) => IdentifierIsWhole(s);
  }

  lemma LineBegins(s: string)
    requires Pair(s, '-', '-')
    ensures LineLength(s) >= 2 && Pair(s[..LineLength(s)], '-', '-')
  {
    assert s[0] == '-' && s[1] == '-';
    assert LineLength(s) == 2 + LineLength(s[1..][1..]);
    assert s[..LineLength(s)][..2] == s[..2];
  }

  lemma LaterPiece(whole: seq<Segment>, first: Segment, rest: seq<Segment>, k: nat)
    requires whole == [first] + rest && 0 < k < |whole|
    ensures k - 1 < |rest| && whole[k] == rest[k - 1]
  {
  }

  lemma {:induction false} PieceBegins(s: string, k: nat)
    requires k < |Lex(s)|
    ensures Lex(s)[k] == First(LeftAt(s, k))
    decreases |s|
  {
    if k > 0 {
      var rest := Rest(s);
      LaterPiece(Lex(s), First(s), Lex(rest), k);
      PieceBegins(rest, k - 1);
      assert LeftAt(s, k) == LeftAt(rest, k - 1);
    }
  }

  /** Every piece of a script has the form its kind promises, and code is only what begins no other form. */
  lemma PiecesAreWellFormed(s: string, k: nat)
    requires k < |Lex(s)|
    ensures WellFormed(Lex(s)[k], After(s, k))
  {
    PieceBegins(s, k);
    FirstIsWellFormed(LeftAt(s, k));
  }

  lemma TailOfCons(piece: Segment, rest: seq<Segment>, k: nat)
    requires k <= |rest|
    ensures ([piece] + rest)[k + 1..] == rest[k..]
  {
  }

  /** The text after a piece is what the remaining pieces join to. */
  lemma {:induction false} AfterIsTheRest(s: string, k: nat)
    requires k < |Lex(s)|
    ensures Lex(After(s, k)) == Lex(s)[k + 1..]
    decreases |s|
  {
    TailOfCons(First(s), Lex(Rest(s)), k);
    if k > 0 { AfterIsTheRest(Rest(s), k - 1); }
  }

  /* ---- The runner's loop ---- */

  /** The character at a place, if the text is that long. */
  predicate Has(s: string, k: nat, c: char) { k < |s| && s[k] == c }

  /** The end of a form, brought back to the end of the text. */
  function Within(text: string, end: nat): nat { if end <= |text| then end else |text| }

  /** Where a comment ends that is `depth` deep at a place. */
  function CommentEnd(text: string, k: nat, depth: nat): nat
    decreases |text| - k
  {
    if depth == 0 || k >= |text| then k
    else if Has(text, k, '/') && Has(text, k + 1, '*') then CommentEnd(text, k + 2, depth + 1)
    else if Has(text, k, '*') && Has(text, k + 1, '/') then CommentEnd(text, k + 2, depth - 1)
    else CommentEnd(text, k + 1, depth)
  }

  lemma TailOfTail(text: string, k: nat, step: nat)
    requires k + step <= |text|
    ensures text[k..][step..] == text[k + step..]
  {
  }

  lemma {:induction false} CommentEndIsLength(text: string, k: nat, depth: nat)
    requires k <= |text|
    ensures CommentEnd(text, k, depth) == k + CommentLength(text[k..], depth)
    decreases |text| - k
  {
    if depth > 0 && k < |text| {
      var step := if (Has(text, k, '/') && Has(text, k + 1, '*')) || (Has(text, k, '*') && Has(text, k + 1, '/')) then 2 else 1;
      TailOfTail(text, k, step);
      if Has(text, k, '/') && Has(text, k + 1, '*') { CommentEndIsLength(text, k + 2, depth + 1); }
      else if step == 2 { CommentEndIsLength(text, k + 2, depth - 1); }
      else { CommentEndIsLength(text, k + 1, depth); }
    }
  }

  method SkipComment(text: string, start: nat) returns (index: nat)
    requires start + 2 <= |text|
    ensures index == start + 2 + CommentLength(text[start..][2..], 1)
  {
    assert text[start..][2..] == text[start + 2..];
    CommentEndIsLength(text, start + 2, 1);
    var depth := 1;
    index := start + 2;
    while index < |text| && depth > 0
      invariant CommentEnd(text, start + 2, 1) == CommentEnd(text, index, depth)
    {
      if Has(text, index, '/') && Has(text, index + 1, '*') {
        depth := depth + 1;
        index := index + 2;
      } else if Has(text, index, '*') && Has(text, index + 1, '/') {
        depth := depth - 1;
        index := index + 2;
      } else {
        index := index + 1;
      }
    }
  }

  /** Where a quoted form ends that is open at a place; one past the text for a backslash at its end. */
  function QuoteEnd(text: string, k: nat, quote: char, escapes: bool): nat
    decreases |text| - k
  {
    if k >= |text| then k
    else if escapes && text[k] == '\\' then QuoteEnd(text, k + 2, quote, escapes)
    else if text[k] == quote then
      if Has(text, k + 1, quote) then QuoteEnd(text, k + 2, quote, escapes) else k + 1
    else QuoteEnd(text, k + 1, quote, escapes)
  }

  lemma {:induction false} QuoteEndIsLength(text: string, k: nat, quote: char, escapes: bool)
    requires k <= |text|
    ensures k <= QuoteEnd(text, k, quote, escapes) <= |text| + 1
    ensures Within(text, QuoteEnd(text, k, quote, escapes)) == k + QuoteLength(text[k..], quote, escapes)
    decreases |text| - k
  {
    if k < |text| {
      var two := (escapes && text[k] == '\\') || (text[k] == quote && Has(text, k + 1, quote));
      if two && k + 2 <= |text| {
        TailOfTail(text, k, 2);
        QuoteEndIsLength(text, k + 2, quote, escapes);
      } else if !two && text[k] != quote {
        TailOfTail(text, k, 1);
        QuoteEndIsLength(text, k + 1, quote, escapes);
      }
    }
  }

  /** Where a quoted form ends; a backslash at the very end carries the index one past the text. */
  method SkipQuoted(text: string, start: nat, quote: char, escapes: bool) returns (index: nat)
    requires start <= |text| && quote != '\\'
    ensures start <= index <= |text| + 1
    ensures Within(text, index) == start + QuoteLength(text[start..], quote, escapes)
  {
    QuoteEndIsLength(text, start, quote, escapes);
    index := start;
    while index < |text|
      invariant QuoteEnd(text, start, quote, escapes) == QuoteEnd(text, index, quote, escapes)
    {
      if escapes && text[index] == '\\' {
        index := index + 2;
        continue;
      }
      if text[index] == quote {
        if Has(text, index + 1, quote) {
          index := index + 2;
          continue;
        }
        index := index + 1;
        break;
      }
      index := index + 1;
    }
  }

  /** `indexOf` from a place on. */
  function FindFrom(text: string, pattern: string, start: nat): (k: Option<nat>)
    requires start <= |text|
    ensures k.Some? ==> start <= k.value && k.value + |pattern| <= |text|
  {
    var k := Find(text[start..], pattern);
    if k.Some? then Some(k.value + start) else None
  }

  lemma {:induction false} LineEnd(s: string)
    ensures LineLength(s) == var k := Find(s, "\n"); if k.Some? then k.value else |s|
  {
    if s != [] {
      LineEnd(s[1..]);
      assert Starts(s, "\n") <==> s[0] == '\n';
    }
  }

  /** Where the piece at a place ends. */
  function NextIndex(text: string, index: nat): (next: nat)
    requires index < |text|
    ensures index < next <= |text|
  {
    index + |First(text[index..]).Text()|
  }

  /** What the text renders to from a place on. */
  function Remaining(text: string, index: nat): string
    decreases |text| - index
  {
    if index >= |text| then []
    else [First(text[index..]).Rendered()] + Remaining(text, NextIndex(text, index))
  }

  lemma {:induction false} RemainingIsRendered(text: string, index: nat)
    requires index <= |text|
    ensures Remaining(text, index) == Render(Lex(text[index..]))
    decreases |text| - index
  {
    if index < |text| {
      var (piece, next) := (First(text[index..]), NextIndex(text, index));
      assert text[index..][|piece.Text()|..] == text[next..];
      RemainingIsRendered(text, next);
      RenderCons(piece, Lex(text[next..]));
    }
  }

  lemma RemainingIsWhole(text: string)
    ensures Remaining(text, 0) == Render(Lex(text))
  {
    RemainingIsRendered(text, 0);
    assert text[0..] == text;
  }

  lemma RenderCons(piece: Segment, rest: seq<Segment>)
    ensures Render([piece] + rest) == [piece.Rendered()] + Render(rest)
  {
  }

  /** The rest of a text is the same from its end on, however far beyond. */
  lemma RemainingStep(text: string, index: nat, end: nat)
    requires index < |text| && Within(text, end) == NextIndex(text, index)
    ensures Remaining(text, index) == [First(text[index..]).Rendered()] + Remaining(text, end)
  {
    if end > |text| { assert Remaining(text, end) == [] && Remaining(text, Within(text, end)) == []; }
  }

  lemma Shift(done: string, c: char, before: string, after: string)
    requires before == [c] + after
    ensures done + [c] + after == done + before
  {
  }

  /** One turn of the loop: a piece's character moves from what remains to what is done. */
  lemma PieceIsDone(text: string, index: nat, end: nat, done: string, c: char)
    requires index < |text| && Within(text, end) == NextIndex(text, index) && c == First(text[index..]).Rendered()
    ensures done + [c] + Remaining(text, end) == done + Remaining(text, index)
  {
    RemainingStep(text, index, end);
    Shift(done, c, Remaining(text, index), Remaining(text, end));
  }

  method SkipLine(text: string, index: nat) returns (end: nat)
    requires index < |text|
    ensures end == index + LineLength(text[index..])
  {
    LineEnd(text[index..]);
    var lineEnd := FindFrom(text, "\n", index);
    end := if lineEnd.None? then |text| else lineEnd.value;
  }

  method SkipDollar(text: string, index: nat, tag: string) returns (end: nat)
    requires index < |text| && Starts(text[index..], tag)
    ensures end == index + DollarLength(text[index..], tag)
  {
    var body := index + |tag|;
    assert text[index..][|tag|..] == text[body..];
    var closing := FindFrom(text, tag, body);
    end := if closing.None? then |text| else closing.value + |tag|;
  }

  /** Skips what opens with `open` characters and closes with a quote. */
  method SkipString(text: string, index: nat, open: nat, quote: char, escapes: bool) returns (end: nat)
    requires index + open <= |text| && quote != '\\'
    ensures Within(text, end) == index + open + QuoteLength(text[index..][open..], quote, escapes)
  {
    assert text[index..][open..] == text[index + open..];
    end := SkipQuoted(text, index + open, quote, escapes);
  }

  /** Where the piece at a place ends, for the forms that are not code. */
  method SkipPiece(text: string, index: nat) returns (end: Option<nat>)
    requires index < |text|
    ensures var piece := First(text[index..]);
            if end.None? then piece.Code?
            else !piece.Code? && Within(text, end.value) == NextIndex(text, index)
  {
    var after: nat;
    if Has(text, index, '-') && Has(text, index + 1, '-') {
      after := SkipLine(text, index);
      return Some(after);
    }
    if Has(text, index, '/') && Has(text, index + 1, '*') {
      after := SkipComment(text, index);
      return Some(after);
    }
    var tag := DollarTag(text[index..]);
    if tag.Some? {
      after := SkipDollar(text, index, tag.value);
      return Some(after);
    }
    if text[index] == '\'' || ((text[index] == 'e' || text[index] == 'E') && Has(text, index + 1, '\'')) {
      var escapeString := text[index] != '\'';
      after := SkipString(text, index, if escapeString then 2 else 1, '\'', escapeString);
      return Some(after);
    }
    if text[index] == '"' {
      after := SkipString(text, index, 1, '"', false);
      return Some(after);
    }
    return None;
  }

  /** The loop ends on every input, unclosed forms included, and yields one character for each piece
      of the reference lexer. */
  method StripNonExecutableSql(text: string) returns (executable: string)
    ensures executable == Render(Lex(text))
  {
    executable := "";
    var index := 0;
    RemainingIsWhole(text);
    while index < |text|
      invariant executable + Remaining(text, index) == Remaining(text, 0)
    {
      var end := SkipPiece(text, index);
      var c := if end.Some? then ' ' else text[index];
      var next := if end.Some? then end.value else index + 1;
      PieceIsDone(text, index, next, executable, c);
      executable := executable + [c];
      index := next;
    }
    assert executable + [] == executable;
  }

  /** The output's semicolons are those of code, and no other character of it comes from a piece
      that is not code. */
  lemma SemicolonsAreCode(s: string, k: nat)
    requires k < |Lex(s)|
    ensures |Render(Lex(s))| == |Lex(s)|
    ensures Render(Lex(s))[k] == ';' <==> Lex(s)[k] == Code(';')
    ensures Render(Lex(s))[k] != ' ' ==> Lex(s)[k] == Code(Render(Lex(s))[k])
  {
  }
}
