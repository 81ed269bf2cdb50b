/** The scanner (src/Lexer.cpp, src/Lexer.hpp): one left-to-right pass over
    the source with a cursor, producing keywords, identifiers, digit-only
    numbers, one- and two-character operators and punctuation. Characters are
    classified as in the "C" locale (ASCII). */
module Scanning {
  import opened Wrappers
  import opened Tokens
  import opened Logging

  predicate IsAlpha(c: char) {
    ('a' <= c <= 'z') || ('A' <= c <= 'Z')
  }

  predicate IsDigit(c: char) {
    '0' <= c <= '9'
  }

  predicate IsAlnum(c: char) {
    IsAlpha(c) || IsDigit(c)
  }

  /** `std::isspace`: space, tab, newline, vertical tab, form feed, return.
      White space is never part of a word or a number. */
  predicate IsSpace(c: char)
    ensures IsSpace(c) ==> !IsWordChar(c) && c != '#'
  {
    c == ' ' || c == '\t' || c == '\n' || c == '\r' || c as int == 11 || c as int == 12
  }

  predicate IsWordStart(c: char) {
    IsAlpha(c) || c == '_'
  }

  predicate IsWordChar(c: char) {
    IsAlnum(c) || c == '_'
  }

  /** The five words that become keyword tokens. No reserved word is one of
      them, so a keyword never draws the reserved-word warning. */
  function Keyword(w: string): (r: Option<TokenKind>)
    ensures r.Some? ==> r.value in {DEF, IF, ELSE, WHILE, RETURN} && |w| >= 2
    ensures w in Reserved ==> r.None?
  {
    if w == "def" then Some(DEF)
    else if w == "if" then Some(IF)
    else if w == "else" then Some(ELSE)
    else if w == "while" then Some(WHILE)
    else if w == "return" then Some(RETURN)
    else None
  }

  /** Words kept for later versions: still identifiers, but they draw a warning. */
  const Reserved: seq<string> :=
    ["for", "callout", "class", "interface", "extends", "implements",
     "new", "this", "string", "float", "double", "null"]

  /** End of the run of word characters starting at `i`. */
  function WordEnd(src: string, i: nat): (e: nat)
    requires i <= |src|
    ensures i <= e <= |src|
    ensures forall k :: i <= k < e ==> IsWordChar(src[k])
    ensures e < |src| ==> !IsWordChar(src[e])
    decreases |src| - i
  {
    if i < |src| && IsWordChar(src[i]) then WordEnd(src, i + 1) else i
  }

  /** End of the run of digits starting at `i`. */
  function DigitEnd(src: string, i: nat): (e: nat)
    requires i <= |src|
    ensures i <= e <= |src|
    ensures forall k :: i <= k < e ==> IsDigit(src[k])
    ensures e < |src| ==> !IsDigit(src[e])
    decreases |src| - i
  {
    if i < |src| && IsDigit(src[i]) then DigitEnd(src, i + 1) else i
  }

  /** End of a comment starting at `i`: the next '\n' or '\r' (not consumed)
      or the end of the source. */
  function CommentEnd(src: string, i: nat): (e: nat)
    requires i <= |src|
    ensures i <= e <= |src|
    ensures forall k :: i <= k < e ==> src[k] != '\n' && src[k] != '\r'
    ensures e < |src| ==> src[e] == '\n' || src[e] == '\r'
    decreases |src| - i
  {
    if i < |src| && src[i] != '\n' && src[i] != '\r' then CommentEnd(src, i + 1) else i
  }

  /** Bracket characters and their kinds; none of them starts a word, a
      number, a relation, a comment or white space. */
  function Bracket(c: char): (r: Option<TokenKind>)
    ensures r.Some? ==> r.value in {OPEN_PAREN, CLOSE_PAREN, OPEN_CURLY, CLOSE_CURLY, OPEN_BRACKET, CLOSE_BRACKET}
    ensures r.Some? ==> !IsWordChar(c) && c !in "=<>#" && !IsSpace(c)
  {
    if c == '(' then Some(OPEN_PAREN)
    else if c == ')' then Some(CLOSE_PAREN)
    else if c == '{' then Some(OPEN_CURLY)
    else if c == '}' then Some(CLOSE_CURLY)
    else if c == '[' then Some(OPEN_BRACKET)
    else if c == ']' then Some(CLOSE_BRACKET)
    else None
  }

  /** Single-character operators and separators that record no position;
      none of them starts any other kind of token, a comment or white space. */
  function Simple(c: char): (r: Option<TokenKind>)
    ensures r.Some? ==> r.value in {PLUS, MINUS, TIMES, DIVIDE, COMMA, SEMICOLON}
    ensures r.Some? ==> !IsWordChar(c) && c !in "=<>#" && !IsSpace(c) && Bracket(c).None?
  {
    if c == '+' then Some(PLUS)
    else if c == '-' then Some(MINUS)
    else if c == '*' then Some(TIMES)
    else if c == '/' then Some(DIVIDE)
    else if c == ',' then Some(COMMA)
    else if c == ';' then Some(SEMICOLON)
    else None
  }

  /** Why tokenising stopped: the logger threw for an unrecognised character
      (it always does) or for a reserved word whose position has no line in
      the logger's table, or `=`, `<` or `>` ended the source and the lookahead
      read an empty optional. */
  datatype LexCause =
    | Unrecognized(c: char, failure: LogFailure)
    | ReservedWarning(word: string, failure: LogFailure)
    | MissingLookahead

  /** The cause, and the cursor at the moment the exception escaped. */
  datatype LexError = LexError(cause: LexCause, cursor: nat)

  /** What one iteration of the scanning loop does at offset `i`. */
  datatype Step = Emit(token: Token, next: nat) | Skip(next: nat) | Stop(error: LexError)

  function StepAt(src: string, i: nat, lines: seq<Line>): (s: Step)
    requires i < |src|
    ensures !s.Stop? ==> i < s.next <= |src|
  {
    var c := src[i];
    if IsWordStart(c) then
      var e := WordEnd(src, i + 1);
      var w := src[i..e];
      match Keyword(w)
      case Some(k) => Emit(Token(k, i, Some(|w|), None), e)
      case None =>
        if w in Reserved && LogAt(lines, Warning, i).Thrown? then
          Stop(LexError(ReservedWarning(w, LogAt(lines, Warning, i).failure), e))
        else
          Emit(Token(IDENTIFIER, 0, None, Some(w)), e)
    else if IsDigit(c) then
      var e := DigitEnd(src, i + 1);
      Emit(Token(NUMBER, 0, None, Some(src[i..e])), e)
    else if Bracket(c).Some? then
      Emit(Token(Bracket(c).value, i + 1, None, None), i + 1)
    else if c == '=' || c == '<' || c == '>' then
      if i + 1 == |src| then Stop(LexError(MissingLookahead, i + 1))
      else if src[i + 1] == '=' then
        if c == '=' then Emit(Token(EQUAL_EQUAL, i + 2, Some(2), None), i + 2)
        else if c == '<' then Emit(Token(LESS_THAN_EQUAL, i + 2, Some(2), None), i + 2)
        else Emit(Token(GREATER_THAN_EQUAL, 0, None, None), i + 2)
      else
        if c == '=' then Emit(Token(EQUAL, i + 1, None, None), i + 1)
        else if c == '<' then Emit(Token(LESS_THAN, i + 1, None, None), i + 1)
        else Emit(Token(GREATER_THAN, 0, None, None), i + 1)
    else if Simple(c).Some? then
      Emit(Token(Simple(c).value, 0, None, None), i + 1)
    else if c == '#' then
      Skip(CommentEnd(src, i))
    else if IsSpace(c) then
      Skip(i + 1)
    else
      Stop(LexError(Unrecognized(c, LogAt(lines, Error, i).failure), i))
  }

  /** Put `ts` in front of a successful result. */
  function Prepend(ts: seq<Token>, r: Result<seq<Token>, LexError>): Result<seq<Token>, LexError> {
    match r
    case Success(rest) => Success(ts + rest)
    case Failure(e) => Failure(e)
  }

  lemma PrependPrepend(a: seq<Token>, b: seq<Token>, r: Result<seq<Token>, LexError>)
    ensures Prepend(a, Prepend(b, r)) == Prepend(a + b, r)
  {
    if r.Success? {
      assert a + (b + r.value) == (a + b) + r.value;
    }
  }

  /** One emitting or skipping step of the scan, seen from the loop. */
  lemma ScanAdvance(src: string, i: nat, lines: seq<Line>, before: seq<Token>, after: seq<Token>)
    requires i < |src|
    requires match StepAt(src, i, lines)
      case Emit(t, _) => after == before + [t]
      case Skip(_) => after == before
      case Stop(_) => false
    ensures Prepend(after, ScanFrom(src, StepAt(src, i, lines).next, lines)) == Prepend(before, ScanFrom(src, i, lines))
  {
    if StepAt(src, i, lines).Emit? {
      PrependPrepend(before, [StepAt(src, i, lines).token], ScanFrom(src, StepAt(src, i, lines).next, lines));
    }
  }

  /** What `tokenize` returns when its cursor starts at `i`, given the
      logger's line table. */
  function ScanFrom(src: string, i: nat, lines: seq<Line>): (r: Result<seq<Token>, LexError>)
    ensures r.Success? && i <= |src| ==> |r.value| <= |src| - i
    decreases |src| - i
  {
    if i >= |src| then Success([])
    else
      match StepAt(src, i, lines)
      case Emit(t, j) => Prepend([t], ScanFrom(src, j, lines))
      case Skip(j) => ScanFrom(src, j, lines)
      case Stop(e) => Failure(e)
  }

  /** The result of tokenising with a fresh lexer. */
  function Tokenize(src: string, lines: seq<Line>): (r: Result<seq<Token>, LexError>)
    ensures r.Success? ==> |r.value| <= |src|
  {
    ScanFrom(src, 0, lines)
  }

  class Lexer {
    const src: string
    var index: nat

    /** The cursor of a fresh lexer is 0. */
    constructor (src: string)
      ensures this.src == src && index == 0
    {
      this.src := src;
      index := 0;
    }

    /** The character `offset` places after the cursor, if there is one. */
    function Peek(offset: nat): (c: Option<char>)
      reads this
      ensures c.Some? <==> index + offset < |src|
      ensures c.Some? ==> c.value == src[index + offset]
    {
      if index + offset >= |src| then None else Some(src[index + offset])
    }

    /** Return the character under the cursor and advance past it. */
    method Consume() returns (c: char)
      requires index < |src|
      modifies this
      ensures c == src[old(index)] && index == old(index) + 1
    {
      c := src[index];
      index := index + 1;
    }

    /** The identifier-or-keyword branch of `tokenize`: read the word under
        the cursor, classify it, and log a warning for a reserved word. */
    method LexWord(logger: Logger) returns (r: Result<Token, LexError>)
      requires index < |src| && IsWordStart(src[index])
      modifies this
      ensures r.Success? ==> StepAt(src, old(index), logger.lines) == Emit(r.value, index)
      ensures r.Failure? ==> StepAt(src, old(index), logger.lines) == Stop(r.error) && index == r.error.cursor
    {
      ghost var i := index;
      var buffer: string := "";
      var x := Consume();
      buffer := buffer + [x];
      while Peek(0).Some? && IsWordChar(Peek(0).value)
        invariant i < index <= |src|
        invariant buffer == src[i..index]
        invariant WordEnd(src, index) == WordEnd(src, i + 1)
        decreases |src| - index
      {
        x := Consume();
        buffer := buffer + [x];
      }
      var startPosition := index - |buffer|;
      assert index == WordEnd(src, i + 1) && startPosition == i;
      if buffer == "def" {
        r := Success(Token(DEF, startPosition, Some(|buffer|), None));
      } else if buffer == "if" {
        r := Success(Token(IF, startPosition, Some(|buffer|), None));
      } else if buffer == "else" {
        r := Success(Token(ELSE, startPosition, Some(|buffer|), None));
      } else if buffer == "while" {
        r := Success(Token(WHILE, startPosition, Some(|buffer|), None));
      } else if buffer == "return" {
        r := Success(Token(RETURN, startPosition, Some(|buffer|), None));
      } else {
        if buffer in Reserved {
          var out := logger.LogMessage(Warning, startPosition);
          if out.Thrown? {
            return Failure(LexError(ReservedWarning(buffer, out.failure), index));
          }
        }
        r := Success(Token(IDENTIFIER, 0, None, Some(buffer)));
      }
    }

    /** The number branch of `tokenize`: a run of digits. */
    method LexNumber(ghost lines: seq<Line>) returns (t: Token)
      requires index < |src| && IsDigit(src[index])
      modifies this
      ensures StepAt(src, old(index), lines) == Emit(t, index)
    {
      ghost var i := index;
      var buffer: string := "";
      var x := Consume();
      buffer := buffer + [x];
      while Peek(0).Some? && IsDigit(Peek(0).value)
        invariant i < index <= |src|
        invariant buffer == src[i..index]
        invariant DigitEnd(src, index) == DigitEnd(src, i + 1)
        decreases |src| - index
      {
        x := Consume();
        buffer := buffer + [x];
      }
      t := Token(NUMBER, 0, None, Some(buffer));
    }

    /** The `=`, `<`, `>` branch of `tokenize`: one or two characters, with a
        lookahead that fails at the end of the source. */
    method LexRelation(ghost lines: seq<Line>) returns (r: Result<Token, LexError>)
      requires index < |src| && (src[index] == '=' || src[index] == '<' || src[index] == '>')
      modifies this
      ensures r.Success? ==> StepAt(src, old(index), lines) == Emit(r.value, index)
      ensures r.Failure? ==> StepAt(src, old(index), lines) == Stop(r.error) && index == r.error.cursor
    {
      var c := Consume();
      if Peek(0).None? {
        return Failure(LexError(MissingLookahead, index));
      }
      if Peek(0).value == '=' {
        var _ := Consume();
        if c == '=' {
          r := Success(Token(EQUAL_EQUAL, index, Some(2), None));
        } else if c == '<' {
          r := Success(Token(LESS_THAN_EQUAL, index, Some(2), None));
        } else {
          r := Success(Token(GREATER_THAN_EQUAL, 0, None, None));
        }
      } else {
        if c == '=' {
          r := Success(Token(EQUAL, index, None, None));
        } else if c == '<' {
          r := Success(Token(LESS_THAN, index, None, None));
        } else {
          r := Success(Token(GREATER_THAN, 0, None, None));
        }
      }
    }

    /** The comment branch of `tokenize`: skip to the end of the line, leaving
        the line break for the next iteration. */
    method SkipComment(ghost lines: seq<Line>)
      requires index < |src| && src[index] == '#'
      modifies this
      ensures StepAt(src, old(index), lines) == Skip(index)
    {
      ghost var i := index;
      while Peek(0).Some? && Peek(0).value != '\n' && Peek(0).value != '\r'
        invariant i <= index <= |src|
        invariant CommentEnd(src, index) == CommentEnd(src, i)
        decreases |src| - index
      {
        var _ := Consume();
      }
    }

    /** One iteration of the loop of `tokenize`, dispatching on the character
        under the cursor. The cursor ends where the step says the scan goes on,
        or where the exception that stopped it left it. */
    method ScanStep(logger: Logger) returns (s: Step)
      requires index < |src|
      modifies this
      ensures s == StepAt(src, old(index), logger.lines)
      ensures !s.Stop? ==> index == s.next
      ensures s.Stop? ==> index == s.error.cursor
    {
      var c := Peek(0).value;
      if IsWordStart(c) {
        var w := LexWord(logger);
        s := if w.Success? then Emit(w.value, index) else Stop(w.error);
      } else if IsDigit(c) {
        var t := LexNumber(logger.lines);
        s := Emit(t, index);
      } else if Bracket(c).Some? {
        var _ := Consume();
        s := Emit(Token(Bracket(c).value, index, None, None), index);
      } else if c == '=' || c == '<' || c == '>' {
        var o := LexRelation(logger.lines);
        s := if o.Success? then Emit(o.value, index) else Stop(o.error);
      } else if Simple(c).Some? {
        var _ := Consume();
        s := Emit(Token(Simple(c).value, 0, None, None), index);
      } else if c == '#' {
        SkipComment(logger.lines);
        s := Skip(index);
      } else if IsSpace(c) {
        var _ := Consume();
        s := Skip(index);
      } else {
        var out := logger.LogMessage(Error, index);
        s := Stop(LexError(Unrecognized(c, out.failure), index));
      }
    }

    /** `tokenize`, reading the logger's line table when it logs. On success
        the cursor is reset to 0; when the logger or a lookahead throws, the
        cursor stays where the exception left it. */
    method Tokenize(logger: Logger) returns (r: Result<seq<Token>, LexError>)
      requires index <= |src|
      modifies this
      ensures r == ScanFrom(src, old(index), logger.lines)
      ensures r.Success? ==> index == 0
      ensures r.Failure? ==> index == r.error.cursor
    {
      var tokens: seq<Token> := [];
      ghost var all := ScanFrom(src, index, logger.lines);
      assert all.Success? ==> [] + all.value == all.value;
      while Peek(0).Some?
        invariant index <= |src|
        invariant Prepend(tokens, ScanFrom(src, index, logger.lines)) == ScanFrom(src, old(index), logger.lines)
        decreases |src| - index
      {
        ghost var i := index;
        ghost var tokens0 := tokens;
        var s := ScanStep(logger);
        if s.Stop? {
          return Failure(s.error);
        }
        if s.Emit? {
          tokens := tokens + [s.token];
        }
        ScanAdvance(src, i, logger.lines, tokens0, tokens);
      }
      assert tokens + [] == tokens;
      index := 0;
      return Success(tokens);
    }
  }
}
