/** What the scanner's output promises its consumer, the parser: every token
    is of a kind the scanner produces, carries text exactly when it is an
    identifier or a number, and the positions it records point back into the
    source. */
module ScanningFacts {
  import opened Wrappers
  import opened Tokens
  import opened Logging
  import opened Scanning

  predicate IsKeywordKind(k: TokenKind) {
    k == DEF || k == IF || k == ELSE || k == WHILE || k == RETURN
  }

  predicate IsBracketKind(k: TokenKind) {
    k == OPEN_PAREN || k == CLOSE_PAREN || k == OPEN_CURLY || k == CLOSE_CURLY || k == OPEN_BRACKET || k == CLOSE_BRACKET
  }

  /** A non-empty word: a letter or underscore, then word characters. */
  predicate IsWord(w: string) {
    |w| > 0 && IsWordStart(w[0]) && forall k :: 0 <= k < |w| ==> IsWordChar(w[k])
  }

  /** A non-empty run of decimal digits. */
  predicate IsNumeral(w: string) {
    |w| > 0 && forall k :: 0 <= k < |w| ==> IsDigit(w[k])
  }

  /** The shape of a token the scanner emits. */
  predicate WellFormed(t: Token) {
    && !Unused(t.kind)
    && (t.value.Some? <==> CarriesText(t.kind))
    && (t.kind == IDENTIFIER ==> IsWord(t.value.value) && Keyword(t.value.value).None?)
    && (t.kind == NUMBER ==> IsNumeral(t.value.value))
  }

  /** Where the position a token records lies in the source: a keyword at the
      first character of the whole word it was read from (with that word's
      length), a bracket, `=` or `<` just past it,
      `==` and `<=` just past their second character (with length 2); every
      other kind records position 0. */
  predicate Anchored(src: string, t: Token) {
    var p := t.position;
    if IsKeywordKind(t.kind) then
      && t.length.Some? && 0 < t.length.value && p + t.length.value <= |src|
      && IsWordStart(src[p]) && WordEnd(src, p + 1) == p + t.length.value
      && Keyword(src[p..p + t.length.value]) == Some(t.kind)
    else if IsBracketKind(t.kind) then
      t.length.None? && 1 <= p <= |src| && Bracket(src[p - 1]) == Some(t.kind)
    else if t.kind == EQUAL_EQUAL || t.kind == LESS_THAN_EQUAL then
      t.length == Some(2) && 2 <= p <= |src| && src[p - 1] == '='
      && src[p - 2] == (if t.kind == EQUAL_EQUAL then '=' else '<')
    else if t.kind == EQUAL || t.kind == LESS_THAN then
      t.length.None? && 1 <= p <= |src| && src[p - 1] == (if t.kind == EQUAL then '=' else '<')
    else
      t.length.None? && p == 0
  }

  /** A word step reads the whole word from `i` and resumes after it: a
      keyword becomes a token anchored at the word's first character with its
      length, any other word an identifier carrying it; a step that stops
      does so on a reserved word, past it. */
  lemma WordStepFacts(src: string, i: nat, lines: seq<Line>)
    requires i < |src| && IsWordStart(src[i])
    ensures StepAt(src, i, lines).Emit? ==>
      WellFormed(StepAt(src, i, lines).token) && Anchored(src, StepAt(src, i, lines).token)
    ensures StepAt(src, i, lines).Stop? ==> i <= StepAt(src, i, lines).error.cursor <= |src|
    ensures var e := WordEnd(src, i + 1); var st := StepAt(src, i, lines);
      && (!st.Stop? ==> st.next == e)
      && (Keyword(src[i..e]).Some? ==> st.Emit? && st.token == Token(Keyword(src[i..e]).value, i, Some(e - i), None))
      && (Keyword(src[i..e]).None? && st.Emit? ==> st.token.value == Some(src[i..e]))
      && (st.Stop? ==> src[i..e] in Reserved && st.error.cursor == e)
  {
    var e := WordEnd(src, i + 1);
    var w := src[i..e];
    match Keyword(w)
    case Some(k) =>
      assert StepAt(src, i, lines) == Emit(Token(k, i, Some(e - i), None), e);
      KeywordToken(src, i, e, k);
    case None =>
      if w in Reserved && LogAt(lines, Warning, i).Thrown? {
        assert StepAt(src, i, lines) == Stop(LexError(ReservedWarning(w, LogAt(lines, Warning, i).failure), e));
      } else {
        assert StepAt(src, i, lines) == Emit(Token(IDENTIFIER, 0, None, Some(w)), e);
        IdentifierToken(src, i, e);
      }
  }

  /** The run of word characters from a word start is a word. */
  lemma WordAt(src: string, i: nat, e: nat)
    requires i < |src| && IsWordStart(src[i]) && e == WordEnd(src, i + 1)
    ensures IsWord(src[i..e])
  {
    var w := src[i..e];
    forall k | 0 <= k < |w| ensures IsWordChar(w[k]) {
      if k > 0 { assert w[k] == src[i + k]; }
    }
  }

  /** A keyword read as the whole word from `i` to `e`. */
  lemma KeywordToken(src: string, i: nat, e: nat, k: TokenKind)
    requires i < |src| && IsWordStart(src[i]) && e == WordEnd(src, i + 1) && Keyword(src[i..e]) == Some(k)
    ensures WellFormed(Token(k, i, Some(e - i), None)) && Anchored(src, Token(k, i, Some(e - i), None))
  {
    assert src[i..i + (e - i)] == src[i..e];
  }

  /** Any other word read from `i` to `e`, as an identifier. */
  lemma IdentifierToken(src: string, i: nat, e: nat)
    requires i < |src| && IsWordStart(src[i]) && e == WordEnd(src, i + 1) && Keyword(src[i..e]).None?
    ensures WellFormed(Token(IDENTIFIER, 0, None, Some(src[i..e]))) && Anchored(src, Token(IDENTIFIER, 0, None, Some(src[i..e])))
  {
    WordAt(src, i, e);
  }

  /** A digit step reads the whole run of digits from `i`, emits a number
      carrying it, and resumes after it. */
  lemma DigitStepFacts(src: string, i: nat, lines: seq<Line>)
    requires i < |src| && !IsWordStart(src[i]) && IsDigit(src[i])
    ensures StepAt(src, i, lines).Emit?
    ensures WellFormed(StepAt(src, i, lines).token) && Anchored(src, StepAt(src, i, lines).token)
    ensures var e := DigitEnd(src, i + 1);
      StepAt(src, i, lines).next == e && StepAt(src, i, lines).token.value == Some(src[i..e])
  {
    var e := DigitEnd(src, i + 1);
    var w := src[i..e];
    assert IsNumeral(w) by {
      forall k | 0 <= k < |w| ensures IsDigit(w[k]) {
        if k > 0 { assert w[k] == src[i + k]; }
      }
    }
  }

  /** A single step emits a well-formed, anchored token, and a step that
      stops leaves the cursor within the source. */
  lemma StepFacts(src: string, i: nat, lines: seq<Line>)
    requires i < |src|
    ensures StepAt(src, i, lines).Emit? ==>
      WellFormed(StepAt(src, i, lines).token) && Anchored(src, StepAt(src, i, lines).token)
    ensures StepAt(src, i, lines).Stop? ==> i <= StepAt(src, i, lines).error.cursor <= |src|
  {
    if IsWordStart(src[i]) {
      WordStepFacts(src, i, lines);
    } else if IsDigit(src[i]) {
      DigitStepFacts(src, i, lines);
    }
  }

  /** Everything a successful scan from `i` returns is well formed and
      anchored, there are no more tokens than characters left, and a failed
      scan stops inside the source. */
  lemma {:induction false} ScanFacts(src: string, i: nat, lines: seq<Line>)
    requires i <= |src|
    ensures ScanFrom(src, i, lines).Success? ==>
      var ts := ScanFrom(src, i, lines).value;
      |ts| <= |src| - i && forall k :: 0 <= k < |ts| ==> WellFormed(ts[k]) && Anchored(src, ts[k])
    ensures ScanFrom(src, i, lines).Failure? ==> i <= ScanFrom(src, i, lines).error.cursor <= |src|
    decreases |src| - i
  {
    if i < |src| {
      StepFacts(src, i, lines);
      match StepAt(src, i, lines)
      case Emit(t, j) =>
        ScanFacts(src, j, lines);
        var r := ScanFrom(src, j, lines);
        if r.Success? {
          var ts := [t] + r.value;
          assert ScanFrom(src, i, lines).value == ts;
          forall k | 0 <= k < |ts| ensures WellFormed(ts[k]) && Anchored(src, ts[k]) {
            if k > 0 { assert ts[k] == r.value[k - 1]; }
          }
        }
      case Skip(j) =>
        ScanFacts(src, j, lines);
      case Stop(_) =>
    }
  }

  /** `tokenize` with a fresh lexer hands the parser a token list whose
      identifiers and numbers all carry their text. */
  lemma TokenizeFacts(src: string, lines: seq<Line>)
    ensures Tokenize(src, lines).Success? ==>
      var ts := Tokenize(src, lines).value;
      && Payloads(ts)
      && |ts| <= |src|
      && (forall k :: 0 <= k < |ts| ==> WellFormed(ts[k]) && Anchored(src, ts[k]))
    ensures Tokenize(src, lines).Failure? ==> Tokenize(src, lines).error.cursor <= |src|
  {
    ScanFacts(src, 0, lines);
  }

  /** Once the logger has the scanned text as its file, a reserved word never
      makes the scan fail: its warning always finds a line. */
  lemma {:induction false} ReservedWarnsInFile(src: string, i: nat)
    requires i <= |src|
    ensures ScanFrom(src, i, LinesOf(src)).Failure? ==> !ScanFrom(src, i, LinesOf(src)).error.cause.ReservedWarning?
    decreases |src| - i
  {
    if i < |src| {
      WarningInFileReturns(src, i);
      match StepAt(src, i, LinesOf(src))
      case Emit(_, j) => ScanFacts(src, j, LinesOf(src)); ReservedWarnsInFile(src, j);
      case Skip(j) => ReservedWarnsInFile(src, j);
      case Stop(_) =>
    }
  }

  /** Digits followed by letters are two tokens: there is no separator rule. */
  lemma NumberThenWord()
    ensures Tokenize("12ab", []) == Success([Token(NUMBER, 0, None, Some("12")), Token(IDENTIFIER, 0, None, Some("ab"))])
  {
    var src := "12ab";
    var n := Token(NUMBER, 0, None, Some("12"));
    var w := Token(IDENTIFIER, 0, None, Some("ab"));
    assert DigitEnd(src, 2) == 2;
    assert DigitEnd(src, 1) == 2;
    assert src[0..2] == "12";
    assert StepAt(src, 0, []) == Emit(n, 2);
    assert WordEnd(src, 4) == 4;
    assert WordEnd(src, 3) == 4;
    assert src[2..4] == "ab";
    assert "ab" !in Reserved;
    assert StepAt(src, 2, []) == Emit(w, 4);
    assert [w] + [] == [w];
    assert ScanFrom(src, 2, []) == Success([w]);
    assert [n] + [w] == [n, w];
  }

  /** A comment runs to the line break, which is then skipped as space. */
  lemma CommentSkipped()
    ensures Tokenize("# x\n1", []) == Success([Token(NUMBER, 0, None, Some("1"))])
  {
    var src := "# x\n1";
    var n := Token(NUMBER, 0, None, Some("1"));
    assert CommentEnd(src, 3) == 3;
    assert CommentEnd(src, 2) == 3;
    assert CommentEnd(src, 1) == 3;
    assert StepAt(src, 0, []) == Skip(3);
    assert StepAt(src, 3, []) == Skip(4);
    assert DigitEnd(src, 5) == 5;
    assert src[4..5] == "1";
    assert StepAt(src, 4, []) == Emit(n, 5);
    assert [n] + [] == [n];
    assert ScanFrom(src, 4, []) == Success([n]);
    assert ScanFrom(src, 3, []) == Success([n]);
  }

  /** Keywords and two-character operators record the positions described
      by `Anchored`. */
  lemma KeywordAndOperatorPositions()
    ensures Tokenize("if a<=b", []) == Success([
      Token(IF, 0, Some(2), None), Token(IDENTIFIER, 0, None, Some("a")),
      Token(LESS_THAN_EQUAL, 6, Some(2), None), Token(IDENTIFIER, 0, None, Some("b"))])
  {
    var src := "if a<=b";
    var kw := Token(IF, 0, Some(2), None);
    var a := Token(IDENTIFIER, 0, None, Some("a"));
    var le := Token(LESS_THAN_EQUAL, 6, Some(2), None);
    var b := Token(IDENTIFIER, 0, None, Some("b"));
    assert WordEnd(src, 2) == 2;
    assert WordEnd(src, 1) == 2;
    assert src[0..2] == "if";
    assert StepAt(src, 0, []) == Emit(kw, 2);
    assert StepAt(src, 2, []) == Skip(3);
    assert WordEnd(src, 4) == 4;
    assert src[3..4] == "a";
    assert "a" !in Reserved;
    assert StepAt(src, 3, []) == Emit(a, 4);
    assert StepAt(src, 4, []) == Emit(le, 6);
    assert WordEnd(src, 7) == 7;
    assert src[6..7] == "b";
    assert "b" !in Reserved;
    assert StepAt(src, 6, []) == Emit(b, 7);
    assert [b] + [] == [b];
    assert ScanFrom(src, 6, []) == Success([b]);
    assert [le] + [b] == [le, b];
    assert ScanFrom(src, 4, []) == Success([le, b]);
    assert [a] + [le, b] == [a, le, b];
    assert ScanFrom(src, 3, []) == Success([a, le, b]);
    assert ScanFrom(src, 2, []) == Success([a, le, b]);
    assert [kw] + [a, le, b] == [kw, a, le, b];
  }

  /** A trailing `=` makes the lookahead read past the end. */
  lemma TrailingEqualFails()
    ensures Tokenize("x=", []) == Failure(LexError(MissingLookahead, 2))
  {
    var src := "x=";
    assert WordEnd(src, 1) == 1;
    assert src[0..1] == "x";
    assert "x" !in Reserved;
    assert StepAt(src, 0, []) == Emit(Token(IDENTIFIER, 0, None, Some("x")), 1);
    assert StepAt(src, 1, []) == Stop(LexError(MissingLookahead, 2));
  }

  /** An unrecognised character is logged as an error, and the error throws:
      out of range without a file, a runtime error with the caret otherwise. */
  lemma UnrecognizedFails()
    ensures Tokenize("@", []) == Failure(LexError(Unrecognized('@', OutOfRange(0)), 0))
    ensures Tokenize("@", LinesOf("@")) == Failure(LexError(Unrecognized('@', RuntimeError(Caret(1, "@", 0))), 0))
  {
    assert LineEnd("@", 1) == 1;
    assert LineEnd("@", 0) == 1;
    assert LinesFrom("@", 2, 2) == [];
    assert "@"[0..1] == "@";
    assert [Line("@", 0, 1, 1)] + [] == [Line("@", 0, 1, 1)];
    assert LinesOf("@") == [Line("@", 0, 1, 1)];
    assert FindLine(LinesOf("@"), 0) == Some(0);
  }

  /** A reserved word scanned without a file makes the warning throw. */
  lemma ReservedWithoutFileFails()
    ensures Tokenize("new", []) == Failure(LexError(ReservedWarning("new", OutOfRange(0)), 3))
  {
    var src := "new";
    assert WordEnd(src, 3) == 3;
    assert WordEnd(src, 2) == 3;
    assert WordEnd(src, 1) == 3;
    assert src[0..3] == "new";
    assert Reserved[6] == "new";
  }

  /** A lexer can be asked for its tokens again: a scan that succeeds resets
      the cursor, so the second scan repeats the first; a scan that fails
      leaves the cursor on the character that stopped it, and the second
      scan resumes there. */
  method TokenizeTwice(src: string, logger: Logger) returns (first: Result<seq<Token>, LexError>, second: Result<seq<Token>, LexError>)
    ensures first == Tokenize(src, logger.lines)
    ensures first.Success? ==> second == first
    ensures first.Failure? ==> second == ScanFrom(src, first.error.cursor, logger.lines)
  {
    var lexer := new Lexer(src);
    first := lexer.Tokenize(logger);
    TokenizeFacts(src, logger.lines);
    second := lexer.Tokenize(logger);
  }
}
