/** The lexer's pieces are the only way to cut a script into well-formed pieces. */
module LexicalForms {
  import opened Wrappers
  import opened SqlLexer

  /** Names and tags are made of ASCII letters, underscores and, behind the first, digits. */
  lemma NameCharacters(c: char)
    ensures var n := c as int;
            && (IsTagStart(c) <==> 65 <= n <= 90 || 97 <= n <= 122 || n == 95)
            && (IsWordChar(c) <==> 65 <= n <= 90 || 97 <= n <= 122 || n == 95 || 48 <= n <= 57)
  {
  }

  /* ---- Each form fixes its length ---- */

  lemma {:induction false} LineIsForced(t: string, rest: string)
    requires '\n' !in t && (rest == [] || rest[0] == '\n')
    ensures LineLength(t + rest) == |t|
  {
    if t == [] {
      assert t + rest == rest;
    } else {
      assert t[0] in t && forall c | c in t[1..] :: c in t;
      LineIsForced(t[1..], rest);
      assert (t + rest)[1..] == t[1..] + rest;
    }
  }

  lemma Behind(s: string, rest: string, n: nat)
    requires n <= |s|
    ensures (s + rest)[n..] == s[n..] + rest
  {
  }

  lemma {:induction false} ClosedCommentIsForced(body: string, rest: string, depth: nat)
    requires CommentBody(body, depth, 0)
    ensures CommentLength(body + rest, depth) == |body|
    decreases |body|
  {
    if body == [] {
      assert body + rest == rest;
    } else if Pair(body, '/', '*') {
      ClosedCommentIsForced(body[2..], rest, depth + 1);
      Behind(body, rest, 2);
    } else if Pair(body, '*', '/') {
      ClosedCommentIsForced(body[2..], rest, depth - 1);
      Behind(body, rest, 2);
    } else {
      ClosedCommentIsForced(body[1..], rest, depth);
      Behind(body, rest, 1);
    }
  }

  lemma {:induction false} OpenCommentIsForced(body: string, depth: nat, end: nat)
    requires CommentBody(body, depth, end) && end > 0
    ensures CommentLength(body, depth) == |body|
    decreases |body|
  {
    if body != [] {
      if Pair(body, '/', '*') { OpenCommentIsForced(body[2..], depth + 1, end); }
      else if Pair(body, '*', '/') { OpenCommentIsForced(body[2..], depth - 1, end); }
      else { OpenCommentIsForced(body[1..], depth, end); }
    }
  }

  /** How far a quoted body is read before what follows it. */
  lemma {:induction false} BodyIsRead(body: string, rest: string, quote: char, escapes: bool)
    requires QuoteBody(body, quote, escapes)
    ensures QuoteLength(body + rest, quote, escapes) == |body| + QuoteLength(rest, quote, escapes)
    decreases |body|
  {
    if body == [] {
      assert body + rest == rest;
    } else {
      var step := if (escapes && body[0] == '\\') || body[0] == quote then 2 else 1;
      BodyIsRead(body[step..], rest, quote, escapes);
      Behind(body, rest, step);
    }
  }

  lemma ClosedQuoteIsForced(body: string, rest: string, quote: char, escapes: bool)
    requires ClosedBody(body, quote, escapes, rest) && quote != '\\'
    ensures QuoteLength(body + rest, quote, escapes) == |body|
  {
    var (inner, tail) := (body[..|body| - 1], [quote] + rest);
    assert body + rest == inner + tail;
    BodyIsRead(inner, tail, quote, escapes);
    if rest != [] { assert tail[1] == rest[0]; }
  }

  lemma OpenQuoteIsForced(body: string, rest: string, quote: char, escapes: bool)
    requires UnclosedBody(body, quote, escapes, rest) && quote != '\\'
    ensures QuoteLength(body + rest, quote, escapes) == |body|
  {
    assert body + rest == body;
    if QuoteBody(body, quote, escapes) {
      BodyIsRead(body, [], quote, escapes);
      assert body + [] == body;
    } else {
      var inner := body[..|body| - 1];
      BodyIsRead(inner, ['\\'], quote, escapes);
      assert body == inner + ['\\'];
    }
  }

  lemma QuoteIsForced(t: string, open: string, quote: char, escapes: bool, rest: string)
    requires QuotedForm(t, open, quote, escapes, rest) && quote != '\\'
    ensures |open| + QuoteLength((t + rest)[|open|..], quote, escapes) == |t|
  {
    var body := t[|open|..];
    Behind(t, rest, |open|);
    if ClosedBody(body, quote, escapes, rest) {
      ClosedQuoteIsForced(body, rest, quote, escapes);
    } else {
      OpenQuoteIsForced(body, rest, quote, escapes);
    }
  }

  lemma {:induction false} FindAt(s: string, pattern: string, k: nat)
    requires At(s, k, pattern) && NoneBetween(s, pattern, 0, k)
    ensures Find(s, pattern) == Some(k)
  {
    FindIsFirst(s, pattern);
  }

  lemma DollarIsForced(t: string, tag: string, rest: string)
    requires tag != [] && Starts(t, tag) && DollarForm(t, tag, rest)
    ensures Starts(t + rest, tag) && DollarLength(t + rest, tag) == |t|
  {
    var (s, n) := (t + rest, |tag|);
    assert s[..|t|] == t;
    StartsOfPrefix(s, tag, |t|);
    FoundBehind(s, n, tag);
    forall j: nat | j + n <= |t| ensures At(t, j, tag) <==> At(s, j, tag) { AtPrefix(s, |t|, j, tag); }
    if |t| >= 2 * n && At(t, |t| - n, tag) && NoneBetween(t, tag, n, |t| - n) {
      var k := |t| - 2 * n;
      assert At(s, n + k, tag) && NoneBetween(s, tag, n, n + k);
    } else {
      assert s == t;
    }
  }

  /* ---- A well-formed piece in front of a script is its first ---- */

  lemma OpensLike(t: string, rest: string, open: string)
    requires Starts(t, open)
    ensures Starts(t + rest, open)
    ensures forall k | 0 <= k < |open| :: (t + rest)[k] == open[k]
  {
    assert forall k | 0 <= k < |open| :: t[k] == t[..|open|][k];
    assert (t + rest)[..|open|] == t[..|open|];
  }

  lemma CodeIsForced(c: char, rest: string)
    requires WellFormed(Code(c), rest)
    ensures First([c] + rest) == Code(c)
  {
    var s := [c] + rest;
    if DollarTag(s).Some? { FoundIsTag(s); }
  }

  lemma CommentsAreForced(piece: Segment, rest: string)
    requires WellFormed(piece, rest) && (piece.LineComment? || piece.BlockComment?)
    ensures First(piece.Text() + rest) == piece
  {
    var t := piece.Text();
    var s := t + rest;
    assert s[..|t|] == t && s[0] == t[0] && s[1] == t[1];
    if piece.LineComment? {
      LineIsForced(t, rest);
    } else {
      Behind(t, rest, 2);
      if CommentBody(t[2..], 1, 0) {
        ClosedCommentIsForced(t[2..], rest, 1);
      } else {
        var d :| d > 0 && CommentBody(t[2..], 1, d);
        OpenCommentIsForced(t[2..], 1, d);
        assert t[2..] + rest == t[2..];
      }
    }
  }

  lemma DollarsAreForced(t: string, rest: string)
    requires WellFormed(DollarQuoted(t), rest)
    ensures First(t + rest) == DollarQuoted(t)
  {
    var tag :| IsTag(tag) && Starts(t, tag) && DollarForm(t, tag, rest);
    OpensLike(t, rest, tag);
    TagIsFound(t + rest, tag);
    DollarIsForced(t, tag, rest);
    assert (t + rest)[..|t|] == t;
  }

  lemma NoTagBegins(s: string)
    requires s == [] || s[0] != '$'
    ensures DollarTag(s).None?
  {
  }

  lemma PlainQuotesAreForced(t: string, rest: string)
    requires WellFormed(Quoted(t), rest)
    ensures First(t + rest) == Quoted(t)
  {
    OpensLike(t, rest, "'");
    NoTagBegins(t + rest);
    QuoteIsForced(t, "'", '\'', false, rest);
    assert (t + rest)[..|t|] == t;
  }

  lemma IdentifiersAreForced(t: string, rest: string)
    requires WellFormed(QuotedIdentifier(t), rest)
    ensures First(t + rest) == QuotedIdentifier(t)
  {
    OpensLike(t, rest, "\"");
    NoTagBegins(t + rest);
    QuoteIsForced(t, "\"", '"', false, rest);
    assert (t + rest)[..|t|] == t;
  }

  lemma EscapeQuotesAreForced(t: string, rest: string)
    requires WellFormed(EscapeQuoted(t), rest)
    ensures First(t + rest) == EscapeQuoted(t)
  {
    var open := if Starts(t, "e") then "e'" else "E'";
    OpensLike(t, rest, open);
    NoTagBegins(t + rest);
    QuoteIsForced(t, open, '\'', true, rest);
    assert (t + rest)[..|t|] == t;
  }

  lemma FirstIsForced(piece: Segment, rest: string)
    requires WellFormed(piece, rest)
    ensures First(piece.Text() + rest) == piece
  {
    match piece
    case Code(c) => CodeIsForced(c, rest);
    case LineComment(_) => CommentsAreForced(piece, rest);
    case BlockComment(_) => CommentsAreForced(piece, rest);
    case DollarQuoted(t) => DollarsAreForced(t, rest);
    case Quoted(t) => PlainQuotesAreForced(t, rest);
    case EscapeQuoted(t) => EscapeQuotesAreForced(t, rest);
    case QuotedIdentifier(t) => IdentifiersAreForced(t, rest);
  }

  /** The pieces are well formed, each before the text of those behind it. */
  ghost predicate IsCutting(pieces: seq<Segment>) {
    pieces == [] || (WellFormed(pieces[0], Join(pieces[1..])) && IsCutting(pieces[1..]))
  }

  lemma FormsHaveText(piece: Segment, rest: string)
    requires WellFormed(piece, rest)
    ensures piece.Text() != []
  {
  }

  /** However a script is cut into well-formed pieces, they are the lexer's. */
  lemma {:induction false} OnlyCutting(pieces: seq<Segment>)
    requires IsCutting(pieces)
    ensures Lex(Join(pieces)) == pieces
  {
    if pieces != [] {
      var (piece, rest) := (pieces[0], Join(pieces[1..]));
      FormsHaveText(piece, rest);
      FirstIsForced(piece, rest);
      Behind(piece.Text(), rest, |piece.Text()|);
      assert Rest(piece.Text() + rest) == rest;
      OnlyCutting(pieces[1..]);
      assert pieces == [piece] + pieces[1..];
    }
  }

  /** The lexer cuts every script so. */
  lemma {:induction false} LexIsCutting(s: string)
    ensures IsCutting(Lex(s)) && Join(Lex(s)) == s
    decreases |s|
  {
    JoinIsText(s);
    if s != [] {
      LexIsCutting(Rest(s));
      FirstIsWellFormed(s);
      assert Lex(s)[1..] == Lex(Rest(s));
    }
  }

  /** A sequence of pieces is the lexer's reading of a script exactly when it is a cutting of it. */
  lemma LexIsTheCutting(s: string, pieces: seq<Segment>)
    ensures pieces == Lex(s) <==> IsCutting(pieces) && Join(pieces) == s
  {
    LexIsCutting(s);
    if IsCutting(pieces) && Join(pieces) == s { OnlyCutting(pieces); }
  }
}
