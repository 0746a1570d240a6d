/** How a server reads a script whose identifiers may hold dollar signs, and when the runner's lexer reads
    the same.

    The runner looks for a dollar tag or an escape string at every character. A server that reads
    identifiers whole, dollar signs included, does not look for one inside an identifier. */
module ServerLexer {
  import opened Wrappers
  import opened SqlLexer
  import opened TransactionControl

  /** Whatever splits a script into pieces. */
  type Server = string -> seq<Segment>

  /** A letter, an underscore or any character beyond ASCII begins an identifier. */
  predicate BeginsIdentifier(c: char) { IsTagStart(c) || c as int >= 128 }

  predicate ContinuesIdentifier(c: char) { BeginsIdentifier(c) || '0' <= c <= '9' || c == '$' }

  /** The next piece; inside an identifier a character that continues it is code, whatever it could begin. */
  function FirstFor(s: string, inWord: bool): (piece: Segment)
    requires s != []
    ensures Starts(s, piece.Text()) && piece.Text() != []
  {
    if inWord && ContinuesIdentifier(s[0]) then Code(s[0]) else First(s)
  }

  function InWord(piece: Segment, inWord: bool): bool {
    piece.Code? && (if inWord then ContinuesIdentifier(piece.c) else BeginsIdentifier(piece.c))
  }

  function LexFor(s: string, inWord: bool): seq<Segment>
    decreases |s|
  {
    if s == [] then []
    else
      var piece := FirstFor(s, inWord);
      [piece] + LexFor(s[|piece.Text()|..], InWord(piece, inWord))
  }

  function WordServer(): Server { (s: string) => LexFor(s, false) }

  /* ---- When both lexers read the same ---- */

  /** The runner takes a quote to begin inside an identifier. */
  predicate SplitsWord(s: string, inWord: bool)
    decreases |s|
  {
    s != []
    && ((inWord && ContinuesIdentifier(s[0]) && !First(s).Code?) || SplitsWord(Rest(s), InWord(First(s), inWord)))
  }

  /** Both read the same exactly when no quote of the runner's begins inside an identifier. */
  lemma {:induction false} LexersAgree(s: string, inWord: bool)
    ensures LexFor(s, inWord) == Lex(s) <==> !SplitsWord(s, inWord)
    decreases |s|
  {
    if s != [] {
      var (piece, own) := (FirstFor(s, inWord), First(s));
      if piece == own {
        LexersAgree(Rest(s), InWord(own, inWord));
        SameRest(own, LexFor(Rest(s), InWord(own, inWord)), Lex(Rest(s)));
      } else {
        assert LexFor(s, inWord)[0] == piece && Lex(s)[0] == own;
      }
    }
  }

  lemma SameRest(piece: Segment, a: seq<Segment>, b: seq<Segment>)
    ensures [piece] + a == [piece] + b <==> a == b
  {
    assert ([piece] + a)[1..] == a && ([piece] + b)[1..] == b;
  }

  predicate AnyControls(statements: seq<seq<Segment>>) {
    exists statement | statement in statements :: ControlsTransaction(statement)
  }

  /** A script that passes the filter leaves the server no statement that controls a transaction. */
  predicate Guards(server: Server, script: string) {
    NoTransactionControl(script) ==> !AnyControls(Statements(server(script)))
  }

  /** The filter guards every script in which no quote begins inside an identifier. */
  lemma FilterGuards(script: string)
    requires !SplitsWord(script, false)
    ensures Guards(WordServer(), script)
  {
    LexersAgree(script, false);
  }

  /* ---- A script that the filter misreads ---- */

  function Codes(s: string): (pieces: seq<Segment>)
    ensures |pieces| == |s| && forall k | 0 <= k < |s| :: pieces[k] == Code(s[k])
  {
    seq(|s|, k requires 0 <= k < |s| => Code(s[k]))
  }

  /** Letters, digits, underscores and spaces, in which nothing can be quoted. */
  predicate Bland(s: string) { forall c | c in s :: IsWordChar(c) || c == ' ' }

  /** A letter, an underscore or any character beyond ASCII. */
  predicate IsInitial(c: char) { 97 <= c as int <= 122 || 65 <= c as int <= 90 || c as int == 95 || c as int >= 128 }

  /** A statement between two names that hold the same dollar tag. */
  function BetweenNames(initial: char, statement: string): string { Between(NameOf(initial), statement) }

  function NameOf(initial: char): string { [initial] + "$b$" }

  function Between(name: string, statement: string): string { name + (";" + (statement + (";" + name))) }

  lemma NotFoundHere(s: string, pattern: string)
    requires s != [] && pattern != [] && s[0] != pattern[0]
    ensures Find(s, pattern) == match Find(s[1..], pattern) case Some(k) => Some(k + 1) case None => None
  {
    if |pattern| <= |s| { assert s[..|pattern|][0] == s[0]; }
  }

  lemma {:induction false} FindBehind(body: string, pattern: string)
    requires pattern != [] && forall c | c in body :: c != pattern[0]
    ensures Find(body + pattern, pattern) == Some(|body|)
  {
    if body == [] {
      assert body + pattern == pattern;
    } else {
      assert body[0] in body && forall c | c in body[1..] :: c in body;
      FindBehind(body[1..], pattern);
      NotFoundHere(body + pattern, pattern);
      assert (body + pattern)[1..] == body[1..] + pattern;
    }
  }

  /** What lies between the two tags, alone and with the tags. */
  function Hidden(initial: char, statement: string): string { ";" + (statement + (";" + [initial])) }
  function Quoted(body: string): string { "$b$" + (body + "$b$") }

  lemma TagOfQuoted(body: string)
    ensures DollarTag(Quoted(body)) == Some("$b$") && Quoted(body)[3..] == body + "$b$"
  {
    var q := Quoted(body);
    assert q[1..][0] == 'b' && q[1..][1] == '$';
    assert WordLength(q[1..]) == 1 + WordLength(q[1..][1..]);
    assert q[..3] == "$b$";
  }

  lemma QuotedIsOnePiece(body: string)
    requires forall c | c in body :: c != '$'
    ensures Lex(Quoted(body)) == [DollarQuoted(Quoted(body))]
  {
    var q := Quoted(body);
    TagOfQuoted(body);
    FindBehind(body, "$b$");
    assert q[..|q|] == q;
    assert Rest(q) == [];
  }

  /** The runner reads one name and one quote. */
  lemma RunnerReads(initial: char, statement: string)
    requires IsInitial(initial) && Bland(statement)
    ensures Lex(BetweenNames(initial, statement)) == [Code(initial), DollarQuoted(Quoted(Hidden(initial, statement)))]
  {
    var (s, q) := (BetweenNames(initial, statement), Quoted(Hidden(initial, statement)));
    assert s == [initial] + q;
    assert First(s) == Code(initial) && Rest(s) == q;
    QuotedIsOnePiece(Hidden(initial, statement));
  }

  lemma {:induction false} OneStatement(statement: seq<Segment>)
    requires Code(';') !in statement
    ensures Statements(statement) == [statement]
  {
    if statement != [] {
      OneStatement(statement[1..]);
      assert statement == [statement[0]] + statement[1..];
    }
  }

  lemma ShortIsHarmless(piece: Segment, other: Segment)
    requires piece != Code(';') && other != Code(';')
    ensures Statements([piece, other]) == [[piece, other]] && !ControlsTransaction([piece, other])
  {
    OneStatement([piece, other]);
    var statement := [piece, other];
    assert statement[1..] == [other] && [other][1..] == [];
    assert Word([]) == [] && |Word([other])| <= 1 && |Word(statement)| <= 2;
    assert SkipBlanks([]) == [];
    assert SkipBlanks([other]) == [] || SkipBlanks([other]) == [other];
    assert SkipBlanks(statement) == statement || SkipBlanks(statement) == SkipBlanks([other]);
  }

  lemma FilterPasses(initial: char, statement: string)
    requires IsInitial(initial) && Bland(statement)
    ensures NoTransactionControl(BetweenNames(initial, statement))
  {
    RunnerReads(initial, statement);
    ShortIsHarmless(Code(initial), DollarQuoted(Quoted(Hidden(initial, statement))));
  }

  /** A character that is read on its own. */
  predicate ReadsAlone(c: char, inWord: bool) {
    (inWord && ContinuesIdentifier(c)) || IsInitial(c) || IsWordChar(c) || c == ' ' || c == ';'
  }

  predicate ReadsAsCode(s: string, inWord: bool) {
    s == [] || (ReadsAlone(s[0], inWord) && ReadsAsCode(s[1..], InWord(Code(s[0]), inWord)))
  }

  predicate EndsInWord(s: string, inWord: bool) {
    if s == [] then inWord else EndsInWord(s[1..], InWord(Code(s[0]), inWord))
  }

  predicate BeginsUnquoted(s: string) { s == [] || s[0] != '\'' }

  lemma CodeStep(c: char, tail: string, inWord: bool)
    requires ReadsAlone(c, inWord) && BeginsUnquoted(tail)
    ensures LexFor([c] + tail, inWord) == [Code(c)] + LexFor(tail, InWord(Code(c), inWord))
  {
    var s := [c] + tail;
    assert |s| > 1 ==> s[1] == tail[0];
    assert FirstFor(s, inWord) == Code(c) && s[1..] == tail;
  }

  lemma CodesCons(c: char, s: string, rest: seq<Segment>)
    ensures Codes([c] + s) + rest == [Code(c)] + (Codes(s) + rest)
  {
    assert Codes([c] + s) == [Code(c)] + Codes(s);
  }

  lemma StaysUnquoted(s: string, rest: string, inWord: bool)
    requires ReadsAsCode(s, inWord) && BeginsUnquoted(rest)
    ensures BeginsUnquoted(s + rest)
  {
  }

  lemma ConsAppend(s: string, rest: string)
    requires s != []
    ensures s == [s[0]] + s[1..] && s + rest == [s[0]] + (s[1..] + rest)
  {
  }

  lemma {:induction false} CodeIsRead(s: string, rest: string, inWord: bool)
    requires ReadsAsCode(s, inWord) && BeginsUnquoted(rest)
    ensures LexFor(s + rest, inWord) == Codes(s) + LexFor(rest, EndsInWord(s, inWord))
    decreases |s|
  {
    if s == [] {
      assert s + rest == rest;
    } else {
      var (c, tail) := (s[0], s[1..]);
      var next := InWord(Code(c), inWord);
      CodeIsRead(tail, rest, next);
      StaysUnquoted(tail, rest, next);
      CodeStep(c, tail + rest, inWord);
      CodesCons(c, tail, LexFor(rest, EndsInWord(tail, next)));
      ConsAppend(s, rest);
    }
  }

  lemma {:induction false} BlandReadsAsCode(s: string, inWord: bool)
    requires Bland(s)
    ensures ReadsAsCode(s, inWord)
  {
    if s != [] {
      assert s[0] in s;
      BlandReadsAsCode(s[1..], InWord(Code(s[0]), inWord));
    }
  }

  lemma NameReadsAsCode(initial: char)
    requires IsInitial(initial)
    ensures ReadsAsCode(NameOf(initial), false)
  {
    var name := NameOf(initial);
    assert name[1..] == "$b$" && "$b$"[1..] == "b$" && "b$"[1..] == "$" && "$"[1..] == "";
    assert ReadsAsCode("$", true) && ReadsAsCode("b$", true) && ReadsAsCode("$b$", true);
  }

  lemma LastIsRead(name: string, inWord: bool)
    requires ReadsAsCode(name, false)
    ensures LexFor(";" + name, inWord) == [Code(';')] + Codes(name)
  {
    assert name + [] == name;
    StaysUnquoted(name, [], false);
    CodeStep(';', name, inWord);
    CodeIsRead(name, [], false);
  }

  lemma NextIsRead(s: string, rest: string, inWord: bool)
    requires ReadsAsCode(s, false) && BeginsUnquoted(rest)
    ensures LexFor(";" + (s + rest), inWord) == [Code(';')] + (Codes(s) + LexFor(rest, EndsInWord(s, false)))
  {
    StaysUnquoted(s, rest, false);
    CodeStep(';', s + rest, inWord);
    CodeIsRead(s, rest, false);
  }

  /** The server reads three statements. */
  lemma ServerReads(name: string, statement: string)
    requires ReadsAsCode(name, false) && Bland(statement)
    ensures LexFor(Between(name, statement), false)
         == Codes(name) + ([Code(';')] + (Codes(statement) + ([Code(';')] + Codes(name))))
  {
    var (last, ends) := (";" + name, EndsInWord(name, false));
    BlandReadsAsCode(statement, false);
    LastIsRead(name, EndsInWord(statement, false));
    NextIsRead(statement, last, ends);
    CodeIsRead(name, ";" + (statement + last), false);
  }

  lemma {:induction false} NextStatement(statement: seq<Segment>, rest: seq<Segment>)
    requires Code(';') !in statement
    ensures Statements(statement + ([Code(';')] + rest)) == [statement] + Statements(rest)
  {
    var whole := statement + ([Code(';')] + rest);
    if statement == [] {
      assert whole[0] == Code(';') && whole[1..] == rest;
    } else {
      assert whole[0] == statement[0] && whole[1..] == statement[1..] + ([Code(';')] + rest);
      NextStatement(statement[1..], rest);
      assert statement == [statement[0]] + statement[1..];
    }
  }

  lemma NameIsNoSemicolon(initial: char)
    requires IsInitial(initial)
    ensures Code(';') !in Codes(NameOf(initial))
  {
  }

  /** Whatever stands between two names with the same tag passes the filter, and the server runs it. */
  lemma FilterMisreadsNames(initial: char, statement: string)
    requires IsInitial(initial) && Bland(statement)
    ensures NoTransactionControl(BetweenNames(initial, statement))
    ensures Codes(statement) in Statements(WordServer()(BetweenNames(initial, statement)))
  {
    var name := Codes(NameOf(initial));
    FilterPasses(initial, statement);
    NameReadsAsCode(initial);
    NameIsNoSemicolon(initial);
    ServerReads(NameOf(initial), statement);
    assert forall k | 0 <= k < |statement| :: statement[k] in statement;
    NextStatement(name, Codes(statement) + ([Code(';')] + name));
    NextStatement(Codes(statement), name);
  }

  lemma CommitControls()
    ensures ControlsTransaction(Codes("commit"))
  {
    var statement := Codes("commit");
    assert SkipBlanks(statement) == statement;
    OneWordsAreLetters();
    WordIsBeginning(statement, "commit");
  }

  /** So the filter does not guard every script: a commit between two such names ends the transaction. */
  lemma FilterMissesCommit(initial: char)
    requires IsInitial(initial)
    ensures !Guards(WordServer(), BetweenNames(initial, "commit")) && SplitsWord(BetweenNames(initial, "commit"), false)
  {
    var statement := "commit";
    FilterMisreadsNames(initial, statement);
    CommitControls();
    if !SplitsWord(BetweenNames(initial, statement), false) {
      FilterGuards(BetweenNames(initial, statement));
    }
  }
}
