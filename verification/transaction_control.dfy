/** The runner refuses a migration that ends or nests the transaction the runner owns. */
module TransactionControl {
  import opened SqlLexer

  /* ---- Statements of a lexed script ---- */

  /** White space and line ends as JavaScript's `trim` and `\s` take them. */
  predicate IsSpace(c: char) {
    || '\t' <= c <= '\r' || c == ' ' || c == '\U{00A0}' || c == '\U{1680}' || '\U{2000}' <= c <= '\U{200A}'
    || c == '\U{2028}' || c == '\U{2029}' || c == '\U{202F}' || c == '\U{205F}' || c == '\U{3000}' || c == '\U{FEFF}'
  }

  /** ASCII lower case; no other letter folds onto an ASCII one. */
  function Fold(c: char): char {
    if 'A' <= c <= 'Z' then (c as int + 32) as char else c
  }

  predicate Blank(piece: Segment) { !piece.Code? || IsSpace(piece.c) }

  predicate WordPiece(piece: Segment) { piece.Code? && IsWordChar(piece.c) }

  /** The statements of a script: what lies between its code semicolons. */
  function Statements(pieces: seq<Segment>): (statements: seq<seq<Segment>>)
    ensures statements != []
  {
    if pieces == [] then [[]]
    else
      var rest := Statements(pieces[1..]);
      if pieces[0] == Code(';') then [[]] + rest else [[pieces[0]] + rest[0]] + rest[1..]
  }

  /** Statements joined again by the semicolons between them. */
  function Separated(statements: seq<seq<Segment>>): seq<Segment> {
    if statements == [] then []
    else if |statements| == 1 then statements[0]
    else statements[0] + ([Code(';')] + Separated(statements[1..]))
  }

  /** The statements are what lies between the script's code semicolons: joined by them they are the
      script, and none holds one. */
  lemma {:induction false} StatementsAreSeparated(pieces: seq<Segment>)
    ensures Separated(Statements(pieces)) == pieces
    ensures forall statement | statement in Statements(pieces) :: Code(';') !in statement
  {
    if pieces != [] {
      var rest := Statements(pieces[1..]);
      StatementsAreSeparated(pieces[1..]);
      assert pieces == [pieces[0]] + pieces[1..];
      if pieces[0] == Code(';') {
        assert Statements(pieces)[1..] == rest;
        assert [] + ([Code(';')] + Separated(rest)) == pieces;
      } else {
        HeadGrows(pieces[0], rest);
      }
    }
  }

  lemma HeadGrows(piece: Segment, rest: seq<seq<Segment>>)
    requires rest != []
    ensures Separated([[piece] + rest[0]] + rest[1..]) == [piece] + Separated(rest)
  {
    var grown := [[piece] + rest[0]] + rest[1..];
    if |rest| > 1 {
      assert grown[1..] == rest[1..];
      assert ([piece] + rest[0]) + ([Code(';')] + Separated(rest[1..])) == [piece] + (rest[0] + ([Code(';')] + Separated(rest[1..])));
    }
  }

  /** White space, code point by code point. */
  lemma WhiteSpace(c: char)
    ensures IsSpace(c) <==>
              c as int in {9, 10, 11, 12, 13, 32, 160, 5760, 8192, 8193, 8194, 8195, 8196, 8197, 8198, 8199, 8200, 8201, 8202,
                           8232, 8233, 8239, 8287, 12288, 65279}
  {
  }

  function SkipBlanks(pieces: seq<Segment>): seq<Segment> {
    if pieces != [] && Blank(pieces[0]) then SkipBlanks(pieces[1..]) else pieces
  }

  /* ---- What a server does with a statement ---- */

  /** The word that stands in front, in lower case. */
  function Word(pieces: seq<Segment>): string {
    if pieces != [] && WordPiece(pieces[0]) then [Fold(pieces[0].c)] + Word(pieces[1..]) else []
  }

  /** What stands behind that word. */
  function BehindWord(pieces: seq<Segment>): seq<Segment> {
    if pieces != [] && WordPiece(pieces[0]) then BehindWord(pieces[1..]) else pieces
  }

  /** A statement that begins, ends or nests a transaction, by its first words. */
  predicate ControlsTransaction(statement: seq<Segment>) {
    var first := Word(SkipBlanks(statement));
    var second := Word(SkipBlanks(BehindWord(SkipBlanks(statement))));
    || first == "begin"
    || (first == "start" && second == "transaction")
    || first == "commit"
    || first == "end"
    || first == "rollback"
    || first == "abort"
    || first == "savepoint"
    || first == "release"
    || (first == "prepare" && second == "transaction")
  }

  /* ---- The runner's patterns, read on statements ---- */

  predicate Begins(pieces: seq<Segment>, word: string) {
    |word| <= |pieces| && forall k | 0 <= k < |word| :: pieces[k].Code? && Fold(pieces[k].c) == word[k]
  }

  predicate BeginsWithWord(pieces: seq<Segment>, word: string) {
    Begins(pieces, word) && (|pieces| > |word| ==> !WordPiece(pieces[|word|]))
  }

  datatype Form = One(word: string) | Two(word: string, second: string)

  const PROHIBITED: seq<Form> := [
    One("begin"), Two("start", "transaction"), One("commit"), One("end"), One("rollback"),
    One("abort"), One("savepoint"), One("release"), Two("prepare", "transaction")]

  predicate HasForm(pieces: seq<Segment>, form: Form) {
    match form
    case One(word) => BeginsWithWord(pieces, word)
    case Two(word, second) =>
      && Begins(pieces, word) && |pieces| > |word| && Blank(pieces[|word|])
      && BeginsWithWord(SkipBlanks(pieces[|word|..]), second)
  }

  predicate HasProhibitedForm(pieces: seq<Segment>) { exists k | 0 <= k < |PROHIBITED| :: HasForm(pieces, PROHIBITED[k]) }

  /* ---- The runner's check on the stripped text ---- */

  function Split(s: string): (parts: seq<string>)
    ensures parts != []
  {
    if s == [] then [[]]
    else
      var rest := Split(s[1..]);
      if s[0] == ';' then [[]] + rest else [[s[0]] + rest[0]] + rest[1..]
  }

  function TrimStart(s: string): string {
    if s != [] && IsSpace(s[0]) then TrimStart(s[1..]) else s
  }

  function TrimEnd(s: string): (t: string)
    ensures |t| <= |s| && t == s[..|t|]
    ensures forall k | |t| <= k < |s| :: IsSpace(s[k])
    ensures t != [] ==> !IsSpace(t[|t| - 1])
  {
    if s != [] && IsSpace(s[|s| - 1]) then TrimEnd(s[..|s| - 1]) else s
  }

  predicate MatchesLetters(s: string, word: string) {
    |word| <= |s| && forall k | 0 <= k < |word| :: Fold(s[k]) == word[k]
  }

  /** `^word\b`, letters in either case. */
  predicate MatchesWord(s: string, word: string) {
    MatchesLetters(s, word) && (|s| > |word| ==> !IsWordChar(s[|word|]))
  }

  /** `^word\s+second\b`. */
  predicate Matches(s: string, form: Form) {
    match form
    case One(word) => MatchesWord(s, word)
    case Two(word, second) =>
      && MatchesLetters(s, word) && |s| > |word| && IsSpace(s[|word|])
      && MatchesWord(TrimStart(s[|word|..]), second)
  }

  /* ---- Stripping commutes with every step of the check ---- */

  predicate Letters(word: string) { word != [] && forall k | 0 <= k < |word| :: 'a' <= word[k] <= 'z' }

  predicate PlainForm(form: Form) { Letters(form.word) && (form.Two? ==> Letters(form.second)) }

  lemma OneWordsAreLetters()
    ensures Letters("begin") && Letters("commit") && Letters("end") && Letters("rollback")
    ensures Letters("abort") && Letters("savepoint") && Letters("release")
  {
  }

  lemma TwoWordsAreLetters()
    ensures Letters("start") && Letters("prepare") && Letters("transaction")
  {
  }

  lemma ProhibitedArePlain(k: nat)
    requires k < |PROHIBITED|
    ensures PlainForm(PROHIBITED[k])
  {
    OneWordsAreLetters();
    TwoWordsAreLetters();
  }

  lemma LettersAreWordChars(piece: Segment, c: char)
    requires 'a' <= c <= 'z' && piece.Code? && Fold(piece.c) == c
    ensures WordPiece(piece)
  {
  }

  /** A word in front is the word that the statement begins with. */
  lemma {:induction false} WordIsBeginning(pieces: seq<Segment>, word: string)
    requires forall k | 0 <= k < |word| :: 'a' <= word[k] <= 'z'
    ensures Word(pieces) == word <==> BeginsWithWord(pieces, word)
    ensures Word(pieces) == word ==> |word| <= |pieces| && BehindWord(pieces) == pieces[|word|..]
  {
    if word == [] {
      assert pieces[0..] == pieces;
    } else if pieces != [] && pieces[0].Code? && Fold(pieces[0].c) == word[0] {
      var (rest, tail) := (pieces[1..], word[1..]);
      LettersAreWordChars(pieces[0], word[0]);
      WordIsBeginning(rest, tail);
      assert word == [word[0]] + tail;
      BeginsCons(pieces, word);
    }
  }

  lemma BeginsCons(pieces: seq<Segment>, word: string)
    requires pieces != [] && word != [] && pieces[0].Code? && Fold(pieces[0].c) == word[0]
    ensures BeginsWithWord(pieces, word) <==> BeginsWithWord(pieces[1..], word[1..])
  {
    var (rest, tail) := (pieces[1..], word[1..]);
    assert forall k | 0 <= k < |tail| && k < |rest| :: rest[k] == pieces[k + 1] && tail[k] == word[k + 1];
    if Begins(rest, tail) {
      forall k | 0 <= k < |word| ensures pieces[k].Code? && Fold(pieces[k].c) == word[k] {
        if k > 0 { assert pieces[k] == rest[k - 1] && word[k] == tail[k - 1]; }
      }
    }
    if |pieces| > |word| { assert rest[|tail|] == pieces[|word|]; }
  }

  lemma OneIsWord(pieces: seq<Segment>, word: string)
    requires Letters(word)
    ensures HasForm(pieces, One(word)) <==> Word(pieces) == word
  {
    WordIsBeginning(pieces, word);
  }

  lemma TwoAreWords(pieces: seq<Segment>, word: string, second: string)
    requires Letters(word) && Letters(second)
    ensures HasForm(pieces, Two(word, second)) <==> Word(pieces) == word && Word(SkipBlanks(BehindWord(pieces))) == second
  {
    WordIsBeginning(pieces, word);
    if Begins(pieces, word) && |pieces| > |word| {
      var behind := pieces[|word|..];
      WordIsBeginning(SkipBlanks(behind), second);
      if Word(pieces) == word && !Blank(pieces[|word|]) {
        assert SkipBlanks(behind) == behind && !WordPiece(behind[0]);
      }
    }
  }

  /** The runner's patterns are the words by which a statement controls a transaction. */
  lemma PatternsAreTheWords(statement: seq<Segment>)
    ensures HasProhibitedForm(SkipBlanks(statement)) <==> ControlsTransaction(statement)
  {
    var pieces := SkipBlanks(statement);
    OneWordsAreLetters();
    TwoWordsAreLetters();
    OneIsWord(pieces, "begin");
    OneIsWord(pieces, "commit");
    OneIsWord(pieces, "end");
    OneIsWord(pieces, "rollback");
    OneIsWord(pieces, "abort");
    OneIsWord(pieces, "savepoint");
    OneIsWord(pieces, "release");
    TwoAreWords(pieces, "start", "transaction");
    TwoAreWords(pieces, "prepare", "transaction");
    EachForm(pieces);
  }

  lemma EachForm(pieces: seq<Segment>)
    ensures HasProhibitedForm(pieces) <==>
              || HasForm(pieces, One("begin")) || HasForm(pieces, Two("start", "transaction")) || HasForm(pieces, One("commit"))
              || HasForm(pieces, One("end")) || HasForm(pieces, One("rollback")) || HasForm(pieces, One("abort"))
              || HasForm(pieces, One("savepoint")) || HasForm(pieces, One("release")) || HasForm(pieces, Two("prepare", "transaction"))
  {
    var has := (form: Form) => HasForm(pieces, form);
    NineForms(PROHIBITED, has);
    FirstForms();
    LastForms();
    assert HasProhibitedForm(pieces) <==> exists k | 0 <= k < |PROHIBITED| :: has(PROHIBITED[k]);
  }

  lemma NineForms(forms: seq<Form>, has: Form -> bool)
    requires |forms| == 9
    ensures (exists k | 0 <= k < |forms| :: has(forms[k])) <==>
              || has(forms[0]) || has(forms[1]) || has(forms[2]) || has(forms[3]) || has(forms[4])
              || has(forms[5]) || has(forms[6]) || has(forms[7]) || has(forms[8])
  {
  }

  lemma FirstForms()
    ensures |PROHIBITED| == 9
    ensures PROHIBITED[0] == One("begin") && PROHIBITED[1] == Two("start", "transaction") && PROHIBITED[2] == One("commit")
    ensures PROHIBITED[3] == One("end") && PROHIBITED[4] == One("rollback")
  {
  }

  lemma LastForms()
    ensures |PROHIBITED| == 9
    ensures PROHIBITED[5] == One("abort") && PROHIBITED[6] == One("savepoint") && PROHIBITED[7] == One("release")
    ensures PROHIBITED[8] == Two("prepare", "transaction")
  {
  }

  lemma RenderedSpace(piece: Segment)
    ensures IsSpace(piece.Rendered()) <==> Blank(piece)
    ensures IsWordChar(piece.Rendered()) <==> WordPiece(piece)
  {
  }

  lemma RenderedLetter(piece: Segment, c: char)
    requires 'a' <= c <= 'z'
    ensures Fold(piece.Rendered()) == c <==> piece.Code? && Fold(piece.c) == c
  {
  }

  lemma RenderHead(pieces: seq<Segment>)
    requires pieces != []
    ensures Render(pieces)[0] == pieces[0].Rendered() && Render(pieces)[1..] == Render(pieces[1..])
    ensures Render(pieces)[0] == ';' <==> pieces[0] == Code(';')
  {
  }

  lemma RenderMore(piece: Segment, rest: seq<Segment>)
    ensures Render([piece] + rest) == [piece.Rendered()] + Render(rest)
  {
  }

  lemma {:induction false} SplitCommutes(pieces: seq<Segment>)
    ensures |Split(Render(pieces))| == |Statements(pieces)|
    ensures forall k | 0 <= k < |Statements(pieces)| :: Split(Render(pieces))[k] == Render(Statements(pieces)[k])
  {
    if pieces == [] {
      assert Render(pieces) == [];
    } else {
      SplitCommutes(pieces[1..]);
      RenderHead(pieces);
      RenderMore(pieces[0], Statements(pieces[1..])[0]);
    }
  }

  lemma {:induction false} TrimCommutes(pieces: seq<Segment>)
    ensures TrimStart(Render(pieces)) == Render(SkipBlanks(pieces))
  {
    if pieces != [] {
      RenderedSpace(pieces[0]);
      if Blank(pieces[0]) {
        TrimCommutes(pieces[1..]);
        assert Render(pieces)[1..] == Render(pieces[1..]);
      }
    }
  }

  lemma WordCommutes(pieces: seq<Segment>, word: string)
    requires Letters(word)
    ensures MatchesLetters(Render(pieces), word) <==> Begins(pieces, word)
    ensures MatchesWord(Render(pieces), word) <==> BeginsWithWord(pieces, word)
  {
    forall k | 0 <= k < |word| && k < |pieces|
      ensures Fold(Render(pieces)[k]) == word[k] <==> pieces[k].Code? && Fold(pieces[k].c) == word[k]
    {
      RenderedLetter(pieces[k], word[k]);
    }
    if |pieces| > |word| { RenderedSpace(pieces[|word|]); }
  }

  lemma FormCommutes(pieces: seq<Segment>, form: Form)
    requires PlainForm(form)
    ensures Matches(Render(pieces), form) <==> HasForm(pieces, form)
  {
    WordCommutes(pieces, form.word);
    if form.Two? && |pieces| > |form.word| {
      var tail := pieces[|form.word|..];
      RenderedSpace(pieces[|form.word|]);
      assert Render(pieces)[|form.word|..] == Render(tail);
      TrimCommutes(tail);
      WordCommutes(SkipBlanks(tail), form.second);
    }
  }

  /** Trailing white space decides nothing. */
  lemma WordIgnoresEnd(s: string, word: string)
    requires Letters(word)
    ensures MatchesLetters(TrimEnd(s), word) <==> MatchesLetters(s, word)
    ensures MatchesWord(TrimEnd(s), word) <==> MatchesWord(s, word)
  {
    assert forall k | 0 <= k < |word| && k < |s| && Fold(s[k]) == word[k] :: !IsSpace(s[k]);
  }

  lemma {:induction false} TrimEndOfTrimStart(s: string)
    ensures TrimStart(TrimEnd(s)) == TrimEnd(TrimStart(s))
    decreases |s|
  {
    if s != [] && IsSpace(s[0]) {
      TrimEndOfTrimStart(s[1..]);
      TrimEndOfTail(s, 1);
    } else if TrimEnd(s) != [] {
      assert TrimEnd(s)[0] == s[0];
    }
  }

  lemma {:induction false} TrimEndOfTail(s: string, n: nat)
    requires n <= |s|
    ensures TrimEnd(s[n..]) == if n <= |TrimEnd(s)| then TrimEnd(s)[n..] else []
    decreases |s|
  {
    var last := |s| - 1;
    if n < |s| && IsSpace(s[last]) {
      TrimEndOfTail(s[..last], n);
      assert s[n..][..last - n] == s[..last][n..];
    }
  }

  lemma FormIgnoresEnd(s: string, form: Form)
    requires PlainForm(form)
    ensures Matches(TrimEnd(s), form) <==> Matches(s, form)
  {
    var n := |form.word|;
    WordIgnoresEnd(s, form.word);
    if form.Two? && n < |s| {
      var tail := s[n..];
      TrimEndOfTail(s, n);
      TrimEndOfTrimStart(tail);
      WordIgnoresEnd(TrimStart(tail), form.second);
    }
  }

  function Trim(s: string): string { TrimEnd(TrimStart(s)) }

  /** What the runner asks of one statement. */
  predicate IsProhibited(statement: string) {
    var trimmed := Trim(statement);
    trimmed != [] && exists k | 0 <= k < |PROHIBITED| :: Matches(trimmed, PROHIBITED[k])
  }

  /** A statement's text, stripped and trimmed, matches a prohibited pattern exactly when the
      statement controls a transaction. */
  lemma TextMatchesStatement(statement: seq<Segment>)
    ensures IsProhibited(Render(statement)) <==> ControlsTransaction(statement)
  {
    TrimCommutes(statement);
    PatternsAreTheWords(statement);
    forall k | 0 <= k < |PROHIBITED|
      ensures Matches(Trim(Render(statement)), PROHIBITED[k]) <==> HasForm(SkipBlanks(statement), PROHIBITED[k])
    {
      ProhibitedArePlain(k);
      FormIgnoresEnd(Render(SkipBlanks(statement)), PROHIBITED[k]);
      FormCommutes(SkipBlanks(statement), PROHIBITED[k]);
    }
  }

  predicate NoTransactionControl(script: string) {
    forall statement | statement in Statements(Lex(script)) :: !ControlsTransaction(statement)
  }

  predicate NoneProhibited(statements: seq<string>) {
    forall statement | statement in statements :: !IsProhibited(statement)
  }

  lemma StrippingHidesNothing(script: string)
    ensures NoneProhibited(Split(Render(Lex(script)))) <==> NoTransactionControl(script)
  {
    var (texts, statements) := (Split(Render(Lex(script))), Statements(Lex(script)));
    SplitCommutes(Lex(script));
    forall k | 0 <= k < |texts| ensures IsProhibited(texts[k]) <==> ControlsTransaction(statements[k]) {
      TextMatchesStatement(statements[k]);
    }
  }

  method CheckStatements(statements: seq<string>) returns (valid: bool)
    ensures valid <==> NoneProhibited(statements)
  {
    for k := 0 to |statements|
      invariant forall j | 0 <= j < k :: !IsProhibited(statements[j])
    {
      if IsProhibited(statements[k]) {
        return false;
      }
    }
    return true;
  }

  /** A script passes exactly when none of its top-level statements begins with a prohibited form,
      wherever comments, quotes and semicolons inside them stand. */
  method ValidateTransactionControl(script: string) returns (valid: bool)
    ensures valid <==> NoTransactionControl(script)
  {
    var executable := StripNonExecutableSql(script);
    var statements := Split(executable);
    StrippingHidesNothing(script);
    valid := CheckStatements(statements);
  }

  /** Comments and quoted text in front of a statement hide nothing. */
  lemma {:induction false} LeadingBlanksHideNothing(blanks: seq<Segment>, statement: seq<Segment>)
    requires forall piece | piece in blanks :: Blank(piece)
    ensures ControlsTransaction(blanks + statement) <==> ControlsTransaction(statement)
  {
    BlanksAreSkipped(blanks, statement);
  }

  lemma {:induction false} BlanksAreSkipped(blanks: seq<Segment>, rest: seq<Segment>)
    requires forall piece | piece in blanks :: Blank(piece)
    ensures SkipBlanks(blanks + rest) == SkipBlanks(rest)
  {
    if blanks == [] {
      assert blanks + rest == rest;
    } else {
      BlanksAreSkipped(blanks[1..], rest);
      assert (blanks + rest)[1..] == blanks[1..] + rest;
    }
  }
}
