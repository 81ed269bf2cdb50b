/** What the parser builds for the shapes of input the language is about:
    operator precedence and associativity, grouping, calls, conditionals,
    parameter lists and the end-of-input rules. */
module ParsingFacts {
  import opened Wrappers
  import opened Tokens
  import opened Ast
  import opened Grammar

  /** A token of a kind that carries no text, as the parser sees it. */
  function Tok(k: TokenKind): Token {
    Token(k, 0, None, None)
  }

  function Num(digits: string): Token {
    Token(NUMBER, 0, None, Some(digits))
  }

  function Ident(name: string): Token {
    Token(IDENTIFIER, 0, None, Some(name))
  }

  /** The nine operator kinds have the precedences of the constructor's table,
      and only they bind at all. */
  lemma PrecedenceTable(k: TokenKind)
    ensures (Precedence(k) == 4) <==> (k == TIMES || k == DIVIDE)
    ensures (Precedence(k) == 3) <==> (k == PLUS || k == MINUS)
    ensures (Precedence(k) == 2) <==> (k == LESS_THAN || k == GREATER_THAN || k == LESS_THAN_EQUAL || k == GREATER_THAN_EQUAL)
    ensures (Precedence(k) == 1) <==> (k == EQUAL_EQUAL)
    ensures Precedence(k) >= 1 || Precedence(k) == -1
  {
  }

  /** A number is a primary; it is consumed unless it is the last token. */
  lemma PrimaryNumber(ts: seq<Token>, i: nat)
    requires Payloads(ts) && i < |ts| && ts[i].kind == NUMBER
    ensures PrimaryAt(ts, i) == Parsed(Built(Number(ts[i].value.value)), Past(ts, i))
  {
  }

  /** A name not followed by `(` is a variable; it is consumed unless it is
      the last token. */
  lemma PrimaryVariable(ts: seq<Token>, i: nat)
    requires Payloads(ts) && i < |ts| && ts[i].kind == IDENTIFIER && ts[Past(ts, i)].kind != OPEN_PAREN
    ensures PrimaryAt(ts, i) == Parsed(Built(Variable(ts[i].value.value)), Past(ts, i))
  {
  }

  /** A token that is not an operator binding at least as tightly as
      `exprPrec` ends the operator loop without moving the cursor. */
  lemma BinaryStops(ts: seq<Token>, i: nat, exprPrec: int, lhs: Expr)
    requires Payloads(ts) && i < |ts| && Precedence(ts[i].kind) < exprPrec
    ensures BinaryLoop(ts, i, exprPrec, lhs) == Parsed(Built(lhs), i)
    ensures BinaryAt(ts, i, exprPrec, lhs) == Parsed(Built(lhs), i)
  {
  }

  /** A primary followed by a token that is no operator is a whole expression. */
  lemma ExprIsPrimary(ts: seq<Token>, i: nat)
    requires Payloads(ts) && PrimaryAt(ts, i).out.Built?
    requires Precedence(ts[PrimaryAt(ts, i).cursor].kind) < 0
    ensures ExprAt(ts, i) == PrimaryAt(ts, i)
  {
    BinaryStops(ts, PrimaryAt(ts, i).cursor, 0, PrimaryAt(ts, i).out.value);
  }

  /** A primary followed by an operator binding no tighter than `tokPrec` is
      a whole right operand. */
  lemma OperandIsPrimary(ts: seq<Token>, k: nat, tokPrec: int)
    requires Payloads(ts) && PrimaryAt(ts, k).out.Built?
    requires Precedence(ts[PrimaryAt(ts, k).cursor].kind) <= tokPrec
    ensures OperandAt(ts, k, tokPrec) == PrimaryAt(ts, k)
  {
  }

  /** One turn of the operator loop whose right operand is the primary at
      `i + 1`, followed by a token binding no tighter. */
  lemma BinaryTurn(ts: seq<Token>, i: nat, exprPrec: int, lhs: Expr)
    requires Payloads(ts) && i < |ts| && exprPrec <= Precedence(ts[i].kind)
    requires PrimaryAt(ts, i + 1).out.Built?
    requires Precedence(ts[PrimaryAt(ts, i + 1).cursor].kind) <= Precedence(ts[i].kind)
    ensures BinaryLoop(ts, i, exprPrec, lhs) ==
      BinaryLoop(ts, PrimaryAt(ts, i + 1).cursor, exprPrec, Binary(ts[i], lhs, PrimaryAt(ts, i + 1).out.value))
  {
    OperandIsPrimary(ts, i + 1, Precedence(ts[i].kind));
    LoopTurn(ts, i, exprPrec, lhs, PrimaryAt(ts, i + 1).out.value, PrimaryAt(ts, i + 1).cursor);
  }

  /** A parenthesised expression is the inner expression itself, the `)`
      consumed unless it is the last token. */
  lemma GroupIsInner(ts: seq<Token>, i: nat)
    requires Payloads(ts) && i < |ts| && ts[i].kind == OPEN_PAREN
    requires ExprAt(ts, i + 1).out.Built? && ts[ExprAt(ts, i + 1).cursor].kind == CLOSE_PAREN
    ensures PrimaryAt(ts, i) == Parsed(ExprAt(ts, i + 1).out, Past(ts, ExprAt(ts, i + 1).cursor))
  {
    assert PrimaryAt(ts, i) == GroupingAt(ts, i);
  }

  /** An argument followed by `)` ends the call. */
  lemma ArgumentThenClose(ts: seq<Token>, k: nat, callee: string, args: seq<Expr>)
    requires Payloads(ts) && ExprAt(ts, k).out.Built? && ts[ExprAt(ts, k).cursor].kind == CLOSE_PAREN
    ensures ArgsFrom(ts, k, callee, args) ==
      Parsed(Built(Call(callee, args + [ExprAt(ts, k).out.value])), Past(ts, ExprAt(ts, k).cursor))
  {
  }

  /** An argument followed by `,` goes on with the next one. */
  lemma ArgumentThenComma(ts: seq<Token>, k: nat, callee: string, args: seq<Expr>)
    requires Payloads(ts) && ExprAt(ts, k).out.Built? && ts[ExprAt(ts, k).cursor].kind == COMMA
    ensures ArgsFrom(ts, k, callee, args) ==
      ArgsFrom(ts, ExprAt(ts, k).cursor + 1, callee, args + [ExprAt(ts, k).out.value])
  {
  }

  /** A name followed by `(` starts the argument loop after the parenthesis. */
  lemma CallStarts(ts: seq<Token>, i: nat)
    requires Payloads(ts) && i + 1 < |ts| && ts[i].kind == IDENTIFIER && ts[i + 1].kind == OPEN_PAREN
    ensures PrimaryAt(ts, i) == ArgsFrom(ts, i + 2, ts[i].value.value, [])
  {
    assert PrimaryAt(ts, i) == IdentifierAt(ts, i);
  }

  /** A prototype with a single parameter. */
  lemma OneParameter(ts: seq<Token>, i: nat, f: string, x: string)
    requires Payloads(ts) && i + 3 < |ts|
    requires ts[i] == Ident(f) && ts[i + 1] == Tok(OPEN_PAREN) && ts[i + 2] == Ident(x) && ts[i + 3] == Tok(CLOSE_PAREN)
    ensures PrototypeAt(ts, i) == Parsed(Built(Prototype(f, [x])), i + 4)
  {
    assert ParamsFrom(ts, i + 3, f, [x]) == Parsed(Built(Prototype(f, [x])), i + 4);
    assert [] + [x] == [x];
  }

  /** `def proto { body }` where the body parses, as a definition. */
  lemma DefinitionOf(ts: seq<Token>, i: nat)
    requires Payloads(ts) && i < |ts| && ts[i].kind == DEF
    requires PrototypeAt(ts, i + 1).out.Built? && PrototypeAt(ts, i + 1).cursor < |ts|
    requires ts[PrototypeAt(ts, i + 1).cursor].kind == OPEN_CURLY
    requires ExprAt(ts, PrototypeAt(ts, i + 1).cursor + 1).out.Built?
    requires ts[ExprAt(ts, PrototypeAt(ts, i + 1).cursor + 1).cursor].kind == CLOSE_CURLY
    ensures ProgramAt(ts, i) == Parsed(
      Built(Function(PrototypeAt(ts, i + 1).out.value, ExprAt(ts, PrototypeAt(ts, i + 1).cursor + 1).out.value)),
      ExprAt(ts, PrototypeAt(ts, i + 1).cursor + 1).cursor + 1)
  {
    assert ProgramAt(ts, i) == FuncDefAt(ts, i);
  }

  /** A number on the last token is not consumed, and nothing follows it. */
  lemma LastNumberStays(ts: seq<Token>, d: string)
    requires Payloads(ts) && |ts| > 0 && ts[|ts| - 1] == Num(d)
    ensures ExprAt(ts, |ts| - 1) == Parsed(Built(Number(d)), |ts| - 1)
  {
    PrimaryNumber(ts, |ts| - 1);
  }

  /** Three operands and two binary operators: a tighter second operator
      nests on the right, an equal or looser one folds to the left. */
  lemma ThreeOperands(a: string, o1: Token, b: string, o2: Token, c: string)
    requires Precedence(o1.kind) >= 1 && Precedence(o2.kind) >= 1
    ensures ExprAt([Num(a), o1, Num(b), o2, Num(c)], 0) == Parsed(Built(
      if Precedence(o1.kind) < Precedence(o2.kind)
      then Binary(o1, Number(a), Binary(o2, Number(b), Number(c)))
      else Binary(o2, Binary(o1, Number(a), Number(b)), Number(c))), 4)
  {
    var ts := [Num(a), o1, Num(b), o2, Num(c)];
    assert Payloads(ts);
    assert Precedence(NUMBER) == -1;
    PrimaryNumber(ts, 0);
    PrimaryNumber(ts, 2);
    PrimaryNumber(ts, 4);
    assert ExprAt(ts, 0) == BinaryLoop(ts, 1, 0, Number(a));
    if Precedence(o1.kind) < Precedence(o2.kind) {
      var inner := Binary(o2, Number(b), Number(c));
      BinaryTurn(ts, 3, Precedence(o1.kind) + 1, Number(b));
      BinaryStops(ts, 4, Precedence(o1.kind) + 1, inner);
      assert OperandAt(ts, 2, Precedence(o1.kind)) == Parsed(Built(inner), 4);
      BinaryStops(ts, 4, 0, Binary(o1, Number(a), inner));
    } else {
      var left := Binary(o1, Number(a), Number(b));
      BinaryTurn(ts, 1, 0, Number(a));
      BinaryTurn(ts, 3, 0, left);
      BinaryStops(ts, 4, 0, Binary(o2, left, Number(c)));
    }
  }

  /** `1 + 2 * 3`: multiplication binds tighter. */
  lemma TimesNestsRight()
    ensures ExprAt([Num("1"), Tok(PLUS), Num("2"), Tok(TIMES), Num("3")], 0)
      == Parsed(Built(Binary(Tok(PLUS), Number("1"), Binary(Tok(TIMES), Number("2"), Number("3")))), 4)
  {
    ThreeOperands("1", Tok(PLUS), "2", Tok(TIMES), "3");
  }

  /** `8 - 3 - 2`: subtraction folds to the left. */
  lemma MinusFoldsLeft()
    ensures ExprAt([Num("8"), Tok(MINUS), Num("3"), Tok(MINUS), Num("2")], 0)
      == Parsed(Built(Binary(Tok(MINUS), Binary(Tok(MINUS), Number("8"), Number("3")), Number("2"))), 4)
  {
    ThreeOperands("8", Tok(MINUS), "3", Tok(MINUS), "2");
  }

  /** `a + b` at `i`, followed by a token binding no tighter than `+`. */
  lemma SumAt(ts: seq<Token>, i: nat, a: string, b: string)
    requires Payloads(ts) && i + 3 < |ts|
    requires ts[i] == Num(a) && ts[i + 1] == Tok(PLUS) && ts[i + 2] == Num(b) && Precedence(ts[i + 3].kind) < 0
    ensures ExprAt(ts, i) == Parsed(Built(Binary(Tok(PLUS), Number(a), Number(b))), i + 3)
  {
    PrimaryNumber(ts, i);
    PrimaryNumber(ts, i + 2);
    BinaryTurn(ts, i + 1, 0, Number(a));
    BinaryStops(ts, i + 3, 0, Binary(Tok(PLUS), Number(a), Number(b)));
  }

  /** `(a + b) * c`: a group is its inner expression, with no node of its own. */
  lemma GroupingHasNoNode(a: string, b: string, c: string)
    ensures ExprAt([Tok(OPEN_PAREN), Num(a), Tok(PLUS), Num(b), Tok(CLOSE_PAREN), Tok(TIMES), Num(c)], 0)
      == Parsed(Built(Binary(Tok(TIMES), Binary(Tok(PLUS), Number(a), Number(b)), Number(c))), 6)
  {
    var ts := [Tok(OPEN_PAREN), Num(a), Tok(PLUS), Num(b), Tok(CLOSE_PAREN), Tok(TIMES), Num(c)];
    assert Payloads(ts);
    var sum := Binary(Tok(PLUS), Number(a), Number(b));
    SumAt(ts, 1, a, b);
    GroupIsInner(ts, 0);
    PrimaryNumber(ts, 6);
    BinaryTurn(ts, 5, 0, sum);
    BinaryStops(ts, 6, 0, Binary(Tok(TIMES), sum, Number(c)));
  }

  /** `f(a, b)`: a call with its arguments in order; the closing parenthesis
      is the last token and stays unconsumed. */
  lemma CallWithArguments(f: string, a: string, b: string)
    ensures ExprAt([Ident(f), Tok(OPEN_PAREN), Num(a), Tok(COMMA), Num(b), Tok(CLOSE_PAREN)], 0)
      == Parsed(Built(Call(f, [Number(a), Number(b)])), 5)
  {
    var ts := [Ident(f), Tok(OPEN_PAREN), Num(a), Tok(COMMA), Num(b), Tok(CLOSE_PAREN)];
    assert Payloads(ts);
    TwoArguments(ts, 2, f, a, b);
    CallStarts(ts, 0);
    BinaryStops(ts, 5, 0, Call(f, [Number(a), Number(b)]));
  }

  /** The argument loop over `a, b)`, the `)` being the last token. */
  lemma TwoArguments(ts: seq<Token>, k: nat, f: string, a: string, b: string)
    requires Payloads(ts) && |ts| == k + 4
    requires ts[k] == Num(a) && ts[k + 1] == Tok(COMMA) && ts[k + 2] == Num(b) && ts[k + 3] == Tok(CLOSE_PAREN)
    ensures ArgsFrom(ts, k, f, []) == Parsed(Built(Call(f, [Number(a), Number(b)])), k + 3)
  {
    PrimaryNumber(ts, k);
    ExprIsPrimary(ts, k);
    PrimaryNumber(ts, k + 2);
    ExprIsPrimary(ts, k + 2);
    ArgumentThenComma(ts, k, f, []);
    ArgumentThenClose(ts, k + 2, f, [Number(a)]);
    assert [] + [Number(a)] == [Number(a)];
    assert [Number(a)] + [Number(b)] == [Number(a), Number(b)];
  }

  /** `f()`: a call needs an argument; the `)` where one was expected is
      reported as an ERROR, which throws. */
  lemma EmptyCallFails(f: string)
    ensures ExprAt([Ident(f), Tok(OPEN_PAREN), Tok(CLOSE_PAREN)], 0)
      == Parsed(Raised(ArgumentFailed(Tok(CLOSE_PAREN))), 2)
  {
    var ts := [Ident(f), Tok(OPEN_PAREN), Tok(CLOSE_PAREN)];
    assert Payloads(ts);
    assert ExprAt(ts, 2) == Parsed(Null, 2);
    assert ArgsFrom(ts, 2, f, []) == Parsed(Raised(ArgumentFailed(Tok(CLOSE_PAREN))), 2);
    assert IdentifierAt(ts, 0) == Parsed(Raised(ArgumentFailed(Tok(CLOSE_PAREN))), 2);
    assert PrimaryAt(ts, 0) == Parsed(Raised(ArgumentFailed(Tok(CLOSE_PAREN))), 2);
  }

  /** A number followed by a token that is no operator is a whole expression. */
  lemma NumberExpr(ts: seq<Token>, k: nat)
    requires Payloads(ts) && k + 1 < |ts| && ts[k].kind == NUMBER && Precedence(ts[k + 1].kind) < 0
    ensures ExprAt(ts, k) == Parsed(Built(Number(ts[k].value.value)), k + 1)
  {
    PrimaryNumber(ts, k);
    BinaryStops(ts, k + 1, 0, Number(ts[k].value.value));
  }

  /** `if ( cond ) {` leads to the then-branch after the brace. */
  lemma IfHead(ts: seq<Token>, i: nat, cond: Expr, e: nat)
    requires Payloads(ts) && i + 1 < |ts| && ts[i].kind == IF && ts[i + 1].kind == OPEN_PAREN
    requires ExprAt(ts, i + 2) == Parsed(Built(cond), e)
    requires e + 1 < |ts| && ts[e].kind == CLOSE_PAREN && ts[e + 1].kind == OPEN_CURLY
    ensures PrimaryAt(ts, i) == IfThenAt(ts, e + 2, cond)
  {
    assert ConditionAt(ts, i + 2) == Parsed(Built(cond), e + 2);
    assert HeadAt(ts, i, IF) == Parsed(Built(cond), e + 2);
    assert PrimaryAt(ts, i) == IfAt(ts, i);
  }

  /** `then } else {` leads to the else-branch after the brace. */
  lemma ThenElse(ts: seq<Token>, k: nat, cond: Expr, thn: Expr, e: nat)
    requires Payloads(ts) && ExprAt(ts, k) == Parsed(Built(thn), e) && e + 2 < |ts|
    requires ts[e].kind == CLOSE_CURLY && ts[e + 1].kind == ELSE && ts[e + 2].kind == OPEN_CURLY
    ensures IfThenAt(ts, k, cond) == IfElseAt(ts, e + 3, cond, thn)
  {
  }

  /** `then }` followed by anything but `else`: the conditional is null. */
  lemma ThenWithoutElse(ts: seq<Token>, k: nat, cond: Expr, thn: Expr, e: nat)
    requires Payloads(ts) && ExprAt(ts, k) == Parsed(Built(thn), e) && e + 1 < |ts|
    requires ts[e].kind == CLOSE_CURLY && ts[e + 1].kind != ELSE
    ensures IfThenAt(ts, k, cond) == Parsed(Null, e + 1)
  {
  }

  /** `then }` on the last token: the look for `else` raises. */
  lemma ThenAtEnd(ts: seq<Token>, k: nat, cond: Expr, thn: Expr)
    requires Payloads(ts) && |ts| > 0 && ExprAt(ts, k) == Parsed(Built(thn), |ts| - 1)
    requires ts[|ts| - 1].kind == CLOSE_CURLY
    ensures IfThenAt(ts, k, cond) == Parsed(Raised(EmptyPeek), |ts|)
  {
  }

  /** `else }` completes the conditional. */
  lemma ElseClose(ts: seq<Token>, k: nat, cond: Expr, thn: Expr, els: Expr, e: nat)
    requires Payloads(ts) && ExprAt(ts, k) == Parsed(Built(els), e) && e < |ts| && ts[e].kind == CLOSE_CURLY
    ensures IfElseAt(ts, k, cond, thn) == Parsed(Built(If(cond, thn, els)), Past(ts, e))
  {
  }

  /** `if (c) { t } else { e }`: all three parts, in order; the final brace
      is the last token and stays unconsumed. */
  lemma IfElseExpression(ts: seq<Token>, c: string, t: string, e: string)
    requires |ts| == 11 && ts[0] == Tok(IF) && ts[1] == Tok(OPEN_PAREN) && ts[2] == Num(c) && ts[3] == Tok(CLOSE_PAREN)
    requires ts[4] == Tok(OPEN_CURLY) && ts[5] == Num(t) && ts[6] == Tok(CLOSE_CURLY) && ts[7] == Tok(ELSE)
    requires ts[8] == Tok(OPEN_CURLY) && ts[9] == Num(e) && ts[10] == Tok(CLOSE_CURLY)
    requires Payloads(ts)
    ensures ExprAt(ts, 0) == Parsed(Built(If(Number(c), Number(t), Number(e))), 10)
  {
    NumberExpr(ts, 2);
    IfHead(ts, 0, Number(c), 3);
    BothBranches(ts, Number(c), t, e);
    BinaryStops(ts, 10, 0, If(Number(c), Number(t), Number(e)));
  }

  /** `t } else { e }` from offset 5, the final brace being the last token. */
  lemma BothBranches(ts: seq<Token>, cond: Expr, t: string, e: string)
    requires |ts| == 11 && ts[5] == Num(t) && ts[6] == Tok(CLOSE_CURLY) && ts[7] == Tok(ELSE)
    requires ts[8] == Tok(OPEN_CURLY) && ts[9] == Num(e) && ts[10] == Tok(CLOSE_CURLY)
    requires Payloads(ts)
    ensures IfThenAt(ts, 5, cond) == Parsed(Built(If(cond, Number(t), Number(e))), 10)
  {
    NumberExpr(ts, 5);
    NumberExpr(ts, 9);
    ThenElse(ts, 5, cond, Number(t), 6);
    ElseClose(ts, 9, cond, Number(t), Number(e), 10);
  }

  /** `if (c) { t } x`: without `else` the result is null. */
  lemma IfWithoutElse(ts: seq<Token>, c: string, t: string, x: string)
    requires |ts| == 8 && ts[0] == Tok(IF) && ts[1] == Tok(OPEN_PAREN) && ts[2] == Num(c) && ts[3] == Tok(CLOSE_PAREN)
    requires ts[4] == Tok(OPEN_CURLY) && ts[5] == Num(t) && ts[6] == Tok(CLOSE_CURLY) && ts[7] == Ident(x)
    requires Payloads(ts)
    ensures ExprAt(ts, 0) == Parsed(Null, 7)
  {
    NumberExpr(ts, 2);
    NumberExpr(ts, 5);
    IfHead(ts, 0, Number(c), 3);
    ThenWithoutElse(ts, 5, Number(c), Number(t), 6);
  }

  /** `if (c) { t }` at the end of the input: the look for `else` peeks past
      the last token and raises. */
  lemma IfWithoutElseAtEnd(ts: seq<Token>, c: string, t: string)
    requires |ts| == 7 && ts[0] == Tok(IF) && ts[1] == Tok(OPEN_PAREN) && ts[2] == Num(c) && ts[3] == Tok(CLOSE_PAREN)
    requires ts[4] == Tok(OPEN_CURLY) && ts[5] == Num(t) && ts[6] == Tok(CLOSE_CURLY)
    requires Payloads(ts)
    ensures ExprAt(ts, 0) == Parsed(Raised(EmptyPeek), 7)
  {
    NumberExpr(ts, 2);
    NumberExpr(ts, 5);
    IfHead(ts, 0, Number(c), 3);
    ThenAtEnd(ts, 5, Number(c), Number(t));
  }

  /** `while ( cond ) { body }` with both parts parsed. */
  lemma WhileOf(ts: seq<Token>, i: nat, cond: Expr, e: nat, body: Expr, f: nat)
    requires Payloads(ts) && i + 1 < |ts| && ts[i].kind == WHILE && ts[i + 1].kind == OPEN_PAREN
    requires ExprAt(ts, i + 2) == Parsed(Built(cond), e)
    requires e + 1 < |ts| && ts[e].kind == CLOSE_PAREN && ts[e + 1].kind == OPEN_CURLY
    requires ExprAt(ts, e + 2) == Parsed(Built(body), f) && f < |ts| && ts[f].kind == CLOSE_CURLY
    ensures PrimaryAt(ts, i) == Parsed(Built(While(cond, body)), Past(ts, f))
  {
    assert ConditionAt(ts, i + 2) == Parsed(Built(cond), e + 2);
    assert HeadAt(ts, i, WHILE) == Parsed(Built(cond), e + 2);
    assert WhileBodyAt(ts, e + 2, cond) == Parsed(Built(While(cond, body)), Past(ts, f));
    assert PrimaryAt(ts, i) == WhileAt(ts, i);
  }

  /** `while (c) { b }`: condition and body, the final `}` being the last
      token and left unconsumed. */
  lemma WhileExpression(ts: seq<Token>, c: string, b: string)
    requires |ts| == 7 && ts[0] == Tok(WHILE) && ts[1] == Tok(OPEN_PAREN) && ts[2] == Num(c) && ts[3] == Tok(CLOSE_PAREN)
    requires ts[4] == Tok(OPEN_CURLY) && ts[5] == Num(b) && ts[6] == Tok(CLOSE_CURLY)
    requires Payloads(ts)
    ensures ExprAt(ts, 0) == Parsed(Built(While(Number(c), Number(b))), 6)
  {
    NumberExpr(ts, 2);
    NumberExpr(ts, 5);
    WhileOf(ts, 0, Number(c), 3, Number(b), 6);
    BinaryStops(ts, 6, 0, While(Number(c), Number(b)));
  }

  /** The identifiers among `ts[k..e]`, in order. */
  function Names(ts: seq<Token>, k: nat, e: nat): seq<string>
    requires Payloads(ts) && k <= e <= |ts|
    decreases e - k
  {
    if k == e then []
    else (if ts[k].kind == IDENTIFIER then [ts[k].value.value] else []) + Names(ts, k + 1, e)
  }

  /** Where the run of identifiers and commas starting at `k` ends. */
  function RunEnd(ts: seq<Token>, k: nat): (e: nat)
    requires k <= |ts|
    ensures k <= e <= |ts|
    ensures forall j :: k <= j < e ==> ts[j].kind == IDENTIFIER || ts[j].kind == COMMA
    ensures e < |ts| ==> ts[e].kind != IDENTIFIER && ts[e].kind != COMMA
    decreases |ts| - k
  {
    if k < |ts| && (ts[k].kind == IDENTIFIER || ts[k].kind == COMMA) then RunEnd(ts, k + 1) else k
  }

  lemma {:induction false} NamesSplit(ts: seq<Token>, k: nat, e: nat)
    requires Payloads(ts) && k <= e < |ts|
    ensures Names(ts, k, e + 1) == Names(ts, k, e) + (if ts[e].kind == IDENTIFIER then [ts[e].value.value] else [])
    decreases e - k
  {
    var last := if ts[e].kind == IDENTIFIER then [ts[e].value.value] else [];
    if k < e {
      var head := if ts[k].kind == IDENTIFIER then [ts[k].value.value] else [];
      NamesSplit(ts, k + 1, e);
      calc {
        Names(ts, k, e + 1);
        head + Names(ts, k + 1, e + 1);
        head + (Names(ts, k + 1, e) + last);
        { assert head + (Names(ts, k + 1, e) + last) == (head + Names(ts, k + 1, e)) + last; }
        Names(ts, k, e) + last;
      }
    } else {
      assert Names(ts, e, e + 1) == last + [];
    }
  }

  /** The parameter loop reads the whole run of identifiers and commas and
      keeps the identifiers in order, then needs `)`: any other token gives a
      null prototype, and the end of the input raises. */
  lemma {:induction false} ParamsFromRun(ts: seq<Token>, k: nat, name: string, names: seq<string>)
    requires Payloads(ts) && k <= |ts|
    ensures var e := RunEnd(ts, k);
      ParamsFrom(ts, k, name, names) ==
        if e >= |ts| then EmptyAt(e)
        else if ts[e].kind == CLOSE_PAREN then Parsed(Built(Prototype(name, names + Names(ts, k, e))), e + 1)
        else Parsed(Null, e)
    decreases |ts| - k
  {
    var e := RunEnd(ts, k);
    if k < e {
      var head := if ts[k].kind == IDENTIFIER then [ts[k].value.value] else [];
      ParamsFromRun(ts, k + 1, name, names + head);
      assert RunEnd(ts, k + 1) == e;
      if ts[k].kind == COMMA {
        assert names + head == names;
      }
      assert names + Names(ts, k, e) == (names + head) + Names(ts, k + 1, e);
    } else {
      assert names + Names(ts, k, e) == names;
    }
  }

  /** Empty or doubled commas are skipped: `f(a,,b)` declares `a` and `b`. */
  lemma DoubledCommas(f: string, a: string, b: string)
    ensures PrototypeAt([Ident(f), Tok(OPEN_PAREN), Ident(a), Tok(COMMA), Tok(COMMA), Ident(b), Tok(CLOSE_PAREN)], 0)
      == Parsed(Built(Prototype(f, [a, b])), 7)
  {
    var ts := [Ident(f), Tok(OPEN_PAREN), Ident(a), Tok(COMMA), Tok(COMMA), Ident(b), Tok(CLOSE_PAREN)];
    assert Payloads(ts);
    assert [] + [a] == [a];
    assert [a] + [b] == [a, b];
    assert ParamsFrom(ts, 6, f, [a, b]) == Parsed(Built(Prototype(f, [a, b])), 7);
    assert ParamsFrom(ts, 5, f, [a]) == Parsed(Built(Prototype(f, [a, b])), 7);
    assert ParamsFrom(ts, 3, f, [a]) == Parsed(Built(Prototype(f, [a, b])), 7);
    assert ParamsFrom(ts, 2, f, []) == Parsed(Built(Prototype(f, [a, b])), 7);
  }

  /** Missing commas are accepted too: `f(a b)` declares `a` and `b`. */
  lemma MissingCommas(f: string, a: string, b: string)
    ensures PrototypeAt([Ident(f), Tok(OPEN_PAREN), Ident(a), Ident(b), Tok(CLOSE_PAREN)], 0)
      == Parsed(Built(Prototype(f, [a, b])), 5)
  {
    var ts := [Ident(f), Tok(OPEN_PAREN), Ident(a), Ident(b), Tok(CLOSE_PAREN)];
    assert Payloads(ts);
    assert [] + [a] == [a];
    assert [a] + [b] == [a, b];
    assert ParamsFrom(ts, 4, f, [a, b]) == Parsed(Built(Prototype(f, [a, b])), 5);
    assert ParamsFrom(ts, 3, f, [a]) == Parsed(Built(Prototype(f, [a, b])), 5);
    assert ParamsFrom(ts, 2, f, []) == Parsed(Built(Prototype(f, [a, b])), 5);
  }

  /** `def f() { }`: the body does not parse, yet the closing brace is
      consumed before the definition comes back null. */
  lemma EmptyBodyConsumesBrace(f: string)
    ensures FuncDefAt([Tok(DEF), Ident(f), Tok(OPEN_PAREN), Tok(CLOSE_PAREN), Tok(OPEN_CURLY), Tok(CLOSE_CURLY)], 0)
      == Parsed(Null, 6)
  {
    var ts := [Tok(DEF), Ident(f), Tok(OPEN_PAREN), Tok(CLOSE_PAREN), Tok(OPEN_CURLY), Tok(CLOSE_CURLY)];
    assert Payloads(ts);
    assert PrototypeAt(ts, 1) == Parsed(Built(Prototype(f, [])), 4);
    assert ExprAt(ts, 5) == Parsed(Null, 5);
  }

  /** `def f(x) { x }`: a definition with its prototype and body. */
  lemma Definition(f: string, x: string)
    ensures ProgramAt([Tok(DEF), Ident(f), Tok(OPEN_PAREN), Ident(x), Tok(CLOSE_PAREN), Tok(OPEN_CURLY), Ident(x), Tok(CLOSE_CURLY)], 0)
      == Parsed(Built(Function(Prototype(f, [x]), Variable(x))), 8)
  {
    var ts := [Tok(DEF), Ident(f), Tok(OPEN_PAREN), Ident(x), Tok(CLOSE_PAREN), Tok(OPEN_CURLY), Ident(x), Tok(CLOSE_CURLY)];
    assert Payloads(ts);
    OneParameter(ts, 1, f, x);
    PrimaryVariable(ts, 6);
    ExprIsPrimary(ts, 6);
    DefinitionOf(ts, 0);
  }

  /** Any other first token makes a top-level expression, named
      `__anon_expr` and without parameters. */
  lemma TopLevelExpression(a: string, y: string)
    ensures ProgramAt([Num(a), Tok(TIMES), Ident(y)], 0)
      == Parsed(Built(Function(Prototype(AnonName, []), Binary(Tok(TIMES), Number(a), Variable(y)))), 2)
  {
    var ts := [Num(a), Tok(TIMES), Ident(y)];
    assert Payloads(ts);
    PrimaryNumber(ts, 0);
    PrimaryVariable(ts, 2);
    BinaryTurn(ts, 1, 0, Number(a));
    BinaryStops(ts, 2, 0, Binary(Tok(TIMES), Number(a), Variable(y)));
    assert ExprAt(ts, 0) == Parsed(Built(Binary(Tok(TIMES), Number(a), Variable(y))), 2);
  }

  /** An empty token list: the cursor is never at the end, and the first
      peek raises. */
  lemma EmptyInputRaises()
    ensures !AtEnd([], 0)
    ensures ProgramAt([], 0) == Parsed(Raised(EmptyPeek), 0)
    ensures ExprAt([], 0) == Parsed(Raised(EmptyPeek), 0)
  {
  }
}
