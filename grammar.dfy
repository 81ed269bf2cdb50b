/** What each sub-parser of src/Parser.cpp does, as functions of the token
    list and the cursor they start at. A sub-parser either builds a node,
    returns a null pointer, or lets an exception escape; in every case the
    cursor it leaves behind is part of the result. */
module Grammar {
  import opened Wrappers
  import opened Tokens
  import opened Ast

  /** The exceptions a parse can raise: `peek().value()` on an empty optional,
      and the ERROR logged for an argument that does not parse (an ERROR
      always throws). */
  datatype ParseError =
    | EmptyPeek
    | ArgumentFailed(at: Token)

  datatype Outcome<+T> = Built(value: T) | Null | Raised(error: ParseError)

  /** An outcome and the cursor after it. */
  datatype Parsed<+T> = Parsed(out: Outcome<T>, cursor: nat)

  /** The precedence table the constructor fills; 1 binds loosest. */
  const BinopPrecedence: map<TokenKind, int> :=
    map[TIMES := 4, DIVIDE := 4, PLUS := 3, MINUS := 3,
        LESS_THAN := 2, GREATER_THAN := 2, LESS_THAN_EQUAL := 2, GREATER_THAN_EQUAL := 2,
        EQUAL_EQUAL := 1]

  /** `getTokPrecedence` for a token of kind `k`: -1 when it is not a binary operator. */
  function Precedence(k: TokenKind): int {
    match k
    case TIMES | DIVIDE => 4
    case PLUS | MINUS => 3
    case LESS_THAN | GREATER_THAN | LESS_THAN_EQUAL | GREATER_THAN_EQUAL => 2
    case EQUAL_EQUAL => 1
    case _ => -1
  }

  /** The precedence of a kind is its entry in the table, -1 without one. */
  lemma PrecedenceInTable(k: TokenKind)
    ensures Precedence(k) == if k in BinopPrecedence then BinopPrecedence[k] else -1
  {
  }

  /** `isAtEnd`: the cursor is on the last token or beyond it. For an empty
      list `size() - 1` wraps around to the largest unsigned value, which no
      cursor reaches, so it never holds. */
  predicate AtEnd(ts: seq<Token>, i: nat) {
    |ts| > 0 && i >= |ts| - 1
  }

  /** `AtEnd` is the unsigned comparison `index >= size() - 1` of the source,
      for every cursor below the largest 64-bit value. */
  lemma AtEndWraps(ts: seq<Token>, i: nat)
    requires i < 0xFFFF_FFFF_FFFF_FFFF && |ts| < 0x1_0000_0000_0000_0000
    ensures AtEnd(ts, i) <==> i >= (|ts| - 1) % 0x1_0000_0000_0000_0000
  {
    assert (|ts| - 1) % 0x1_0000_0000_0000_0000 == if |ts| == 0 then 0xFFFF_FFFF_FFFF_FFFF else |ts| - 1;
  }

  /** The cursor after `if (!isAtEnd()) consume();` at `i`. */
  function Past(ts: seq<Token>, i: nat): nat {
    if AtEnd(ts, i) then i else i + 1
  }

  /** The guarded `consume` moves one token forward, except on the last
      token, where it stays; from a token it never leaves the list. */
  lemma PastStep(ts: seq<Token>, i: nat)
    ensures Past(ts, i) == i <==> AtEnd(ts, i)
    ensures Past(ts, i) == i || Past(ts, i) == i + 1
    ensures i < |ts| ==> Past(ts, i) < |ts|
  {
  }

  /** The tokens not yet read. */
  function Remaining(ts: seq<Token>, i: nat): nat {
    if i < |ts| then |ts| - i else 0
  }

  /** A null pointer or an exception, passed on unchanged. */
  function Forward<T, U>(o: Outcome<T>): Outcome<U>
    requires !o.Built?
  {
    if o.Null? then Null else Raised(o.error)
  }

  function Fail<T, U>(p: Parsed<T>): Parsed<U>
    requires !p.out.Built?
  {
    Parsed(Forward(p.out), p.cursor)
  }

  function EmptyAt<T>(i: nat): Parsed<T> {
    Parsed(Raised(EmptyPeek), i)
  }

  /** `numberExpr`. */
  function NumberAt(ts: seq<Token>, i: nat): (r: Parsed<Expr>)
    requires Payloads(ts)
    ensures i <= r.cursor && (r.out.Raised? || r.cursor < |ts|)
    ensures r.out.Built? <==> i < |ts| && ts[i].kind == NUMBER
  {
    if i >= |ts| then EmptyAt(i)
    else if ts[i].kind == NUMBER then Parsed(Built(Number(ts[i].value.value)), Past(ts, i))
    else Parsed(Null, i)
  }

  /** `groupingExpr`: a parenthesised expression, without a node of its own. */
  function GroupingAt(ts: seq<Token>, i: nat): (r: Parsed<Expr>)
    requires Payloads(ts)
    ensures i <= r.cursor && (r.out.Raised? || r.cursor < |ts|)
    decreases Remaining(ts, i), 1
  {
    if i >= |ts| then EmptyAt(i)
    else if ts[i].kind != OPEN_PAREN then Parsed(Null, i)
    else
      var e := ExprAt(ts, i + 1);
      if !e.out.Built? then Fail(e)
      else if ts[e.cursor].kind == CLOSE_PAREN then Parsed(e.out, Past(ts, e.cursor))
      else Parsed(Null, e.cursor)
  }

  /** `identifierExpr`: a variable, or a call when `(` follows the name. */
  function IdentifierAt(ts: seq<Token>, i: nat): (r: Parsed<Expr>)
    requires Payloads(ts)
    ensures i <= r.cursor && (r.out.Raised? || r.cursor < |ts|)
    ensures r.out.Built? ==> (
      && i < |ts| && ts[i].kind == IDENTIFIER && (r.cursor > i || AtEnd(ts, i))
      && (|| r.out.value == Variable(ts[i].value.value)
          || (r.out.value.Call? && r.out.value.callee == ts[i].value.value && |r.out.value.args| > 0)))
    decreases Remaining(ts, i), 1
  {
    if i >= |ts| then EmptyAt(i)
    else if ts[i].kind != IDENTIFIER then Parsed(Null, i)
    else
      var name := ts[i].value.value;
      var j := Past(ts, i);
      if ts[j].kind != OPEN_PAREN then Parsed(Built(Variable(name)), j)
      else ArgsFrom(ts, j + 1, name, [])
  }

  /** The argument loop of `identifierExpr` from cursor `k`, with `args`
      already parsed: an argument, then `)` to finish or `,` to go on. */
  function ArgsFrom(ts: seq<Token>, k: nat, callee: string, args: seq<Expr>): (r: Parsed<Expr>)
    requires Payloads(ts)
    ensures k <= r.cursor && (r.out.Raised? || r.cursor < |ts|)
    ensures r.out.Built? ==>
      r.out.value.Call? && r.out.value.callee == callee &&
      |r.out.value.args| > |args| && r.out.value.args[..|args|] == args
    decreases Remaining(ts, k), 6
  {
    var a := ExprAt(ts, k);
    if a.out.Raised? then Fail(a)
    else if a.out.Null? then Parsed(Raised(ArgumentFailed(ts[a.cursor])), a.cursor)
    else
      var c := a.cursor;
      if ts[c].kind == CLOSE_PAREN then Parsed(Built(Call(callee, args + [a.out.value])), Past(ts, c))
      else if ts[c].kind != COMMA then Parsed(Null, c)
      else ArgsFrom(ts, c + 1, callee, args + [a.out.value])
  }

  /** The head `conditionalExpr` and `whileExpr` share: the keyword `kw`,
      `(`, the condition, `)` and `{`, each consumed. A built result is the
      condition, with the cursor after the brace. */
  function HeadAt(ts: seq<Token>, i: nat, kw: TokenKind): (r: Parsed<Expr>)
    requires Payloads(ts)
    ensures i <= r.cursor
    ensures r.out.Built? ==> i < r.cursor <= |ts|
    ensures r.out.Null? ==> r.cursor < |ts|
    decreases Remaining(ts, i), 0
  {
    if i >= |ts| then EmptyAt(i)
    else if ts[i].kind != kw then Parsed(Null, i)
    else if i + 1 >= |ts| then EmptyAt(i + 1)
    else if ts[i + 1].kind != OPEN_PAREN then Parsed(Null, i + 1)
    else ConditionAt(ts, i + 2)
  }

  /** The head from the condition at `k`: `cond ) {`. */
  function ConditionAt(ts: seq<Token>, k: nat): (r: Parsed<Expr>)
    requires Payloads(ts)
    ensures k <= r.cursor
    ensures r.out.Built? ==> k < r.cursor <= |ts|
    ensures r.out.Null? ==> r.cursor < |ts|
    decreases Remaining(ts, k), 6
  {
    var c := ExprAt(ts, k);
    if !c.out.Built? then Fail(c)
    else if ts[c.cursor].kind != CLOSE_PAREN then Parsed(Null, c.cursor)
    else if c.cursor + 1 >= |ts| then EmptyAt(c.cursor + 1)
    else if ts[c.cursor + 1].kind != OPEN_CURLY then Parsed(Null, c.cursor + 1)
    else Parsed(c.out, c.cursor + 2)
  }

  /** `conditionalExpr`: the head, then the branches. */
  function IfAt(ts: seq<Token>, i: nat): (r: Parsed<Expr>)
    requires Payloads(ts)
    ensures i <= r.cursor && (r.out.Raised? || r.cursor < |ts|)
    decreases Remaining(ts, i), 1
  {
    var h := HeadAt(ts, i, IF);
    if !h.out.Built? then Fail(h) else IfThenAt(ts, h.cursor, h.out.value)
  }

  /** `conditionalExpr` from the then-branch at `k`: `then } else {`. */
  function IfThenAt(ts: seq<Token>, k: nat, cond: Expr): (r: Parsed<Expr>)
    requires Payloads(ts)
    ensures k <= r.cursor && (r.out.Raised? || r.cursor < |ts|)
    decreases Remaining(ts, k), 6
  {
    var t := ExprAt(ts, k);
    if !t.out.Built? then Fail(t)
    else if ts[t.cursor].kind != CLOSE_CURLY then Parsed(Null, t.cursor)
    else if t.cursor + 1 >= |ts| then EmptyAt(t.cursor + 1)
    else if ts[t.cursor + 1].kind != ELSE then Parsed(Null, t.cursor + 1)
    else if t.cursor + 2 >= |ts| then EmptyAt(t.cursor + 2)
    else if ts[t.cursor + 2].kind != OPEN_CURLY then Parsed(Null, t.cursor + 2)
    else IfElseAt(ts, t.cursor + 3, cond, t.out.value)
  }

  /** `conditionalExpr` from the else-branch at `k`: `else }`, the brace
      consumed unless it is the last token. */
  function IfElseAt(ts: seq<Token>, k: nat, cond: Expr, thn: Expr): (r: Parsed<Expr>)
    requires Payloads(ts)
    ensures k <= r.cursor && (r.out.Raised? || r.cursor < |ts|)
    decreases Remaining(ts, k), 6
  {
    var e := ExprAt(ts, k);
    if !e.out.Built? then Fail(e)
    else if ts[e.cursor].kind != CLOSE_CURLY then Parsed(Null, e.cursor)
    else Parsed(Built(If(cond, thn, e.out.value)), Past(ts, e.cursor))
  }

  /** `whileExpr`: the head, then the body. */
  function WhileAt(ts: seq<Token>, i: nat): (r: Parsed<Expr>)
    requires Payloads(ts)
    ensures i <= r.cursor && (r.out.Raised? || r.cursor < |ts|)
    decreases Remaining(ts, i), 1
  {
    var h := HeadAt(ts, i, WHILE);
    if !h.out.Built? then Fail(h) else WhileBodyAt(ts, h.cursor, h.out.value)
  }

  /** `whileExpr` from the body at `k`: `body }`, the brace consumed unless
      it is the last token. */
  function WhileBodyAt(ts: seq<Token>, k: nat, cond: Expr): (r: Parsed<Expr>)
    requires Payloads(ts)
    ensures k <= r.cursor && (r.out.Raised? || r.cursor < |ts|)
    decreases Remaining(ts, k), 6
  {
    var b := ExprAt(ts, k);
    if !b.out.Built? then Fail(b)
    else if ts[b.cursor].kind != CLOSE_CURLY then Parsed(Null, b.cursor)
    else Parsed(Built(While(cond, b.out.value)), Past(ts, b.cursor))
  }

  /** `parsePrimaryExpr`: dispatch on the kind of the current token. */
  function PrimaryAt(ts: seq<Token>, i: nat): (r: Parsed<Expr>)
    requires Payloads(ts)
    ensures i <= r.cursor && (r.out.Raised? || r.cursor < |ts|)
    ensures r.out.Built? ==> r.cursor > i || AtEnd(ts, i)
    decreases Remaining(ts, i), 2
  {
    if i >= |ts| then EmptyAt(i)
    else
      match ts[i].kind
      case IDENTIFIER => IdentifierAt(ts, i)
      case NUMBER => NumberAt(ts, i)
      case OPEN_PAREN => GroupingAt(ts, i)
      case IF => IfAt(ts, i)
      case WHILE => WhileAt(ts, i)
      case _ => Parsed(Null, i)
  }

  /** `parseBinaryExpr(exprPrec, lhs)`: nothing to do on the last token,
      otherwise the precedence-climbing loop. */
  function BinaryAt(ts: seq<Token>, i: nat, exprPrec: int, lhs: Expr): (r: Parsed<Expr>)
    requires Payloads(ts)
    ensures i <= r.cursor && (i < |ts| ==> r.out.Raised? || r.cursor < |ts|)
    decreases Remaining(ts, i), 4
  {
    if AtEnd(ts, i) then Parsed(Built(lhs), i)
    else BinaryLoop(ts, i, exprPrec, lhs)
  }

  /** One turn of the `while (true)` loop of `parseBinaryExpr` and the turns
      after it: take an operator binding at least as tightly as `exprPrec`
      and its right operand, and fold them into `lhs`. */
  function BinaryLoop(ts: seq<Token>, i: nat, exprPrec: int, lhs: Expr): (r: Parsed<Expr>)
    requires Payloads(ts)
    ensures i <= r.cursor && (r.out.Raised? || r.cursor < |ts|)
    decreases Remaining(ts, i), 3
  {
    if i >= |ts| then EmptyAt(i)
    else if Precedence(ts[i].kind) < exprPrec then Parsed(Built(lhs), i)
    else
      var rhs := OperandAt(ts, i + 1, Precedence(ts[i].kind));
      if !rhs.out.Built? then rhs
      else BinaryLoop(ts, rhs.cursor, exprPrec, Binary(ts[i], lhs, rhs.out.value))
  }

  /** One turn of the operator loop: an operator binding at least as tightly
      as `exprPrec`, and its right operand ending at `j`. */
  lemma LoopTurn(ts: seq<Token>, i: nat, exprPrec: int, lhs: Expr, rhs: Expr, j: nat)
    requires Payloads(ts) && i < |ts| && exprPrec <= Precedence(ts[i].kind)
    requires OperandAt(ts, i + 1, Precedence(ts[i].kind)) == Parsed(Built(rhs), j)
    ensures BinaryLoop(ts, i, exprPrec, lhs) == BinaryLoop(ts, j, exprPrec, Binary(ts[i], lhs, rhs))
  {
  }

  /** The right operand of an operator of precedence `tokPrec` whose
      operand starts at `k`: a primary, which an operator binding tighter
      after it takes as its left operand first. */
  function OperandAt(ts: seq<Token>, k: nat, tokPrec: int): (r: Parsed<Expr>)
    requires Payloads(ts)
    ensures k <= r.cursor && (r.out.Raised? || r.cursor < |ts|)
    decreases Remaining(ts, k), 5
  {
    var rhs := PrimaryAt(ts, k);
    if !rhs.out.Built? then rhs
    else if tokPrec < Precedence(ts[rhs.cursor].kind) then BinaryAt(ts, rhs.cursor, tokPrec + 1, rhs.out.value)
    else rhs
  }

  /** `parseExpr`: a primary, then the binary operators after it. */
  function ExprAt(ts: seq<Token>, i: nat): (r: Parsed<Expr>)
    requires Payloads(ts)
    ensures i <= r.cursor && (r.out.Raised? || r.cursor < |ts|)
    ensures r.out.Built? ==> r.cursor > i || AtEnd(ts, i)
    decreases Remaining(ts, i), 5
  {
    var p := PrimaryAt(ts, i);
    if !p.out.Built? then p
    else BinaryAt(ts, p.cursor, 0, p.out.value)
  }

  /** The parameter loop of `parsePrototype` from cursor `k`: identifiers are
      collected and commas skipped, in any order, up to a required `)`. */
  function ParamsFrom(ts: seq<Token>, k: nat, name: string, names: seq<string>): (r: Parsed<Prototype>)
    requires Payloads(ts)
    ensures k <= r.cursor && (r.out.Raised? || r.cursor <= |ts|)
    ensures r.out.Built? ==> r.out.value.name == name && names <= r.out.value.args
    decreases Remaining(ts, k)
  {
    if k >= |ts| then EmptyAt(k)
    else if ts[k].kind == IDENTIFIER then ParamsFrom(ts, k + 1, name, names + [ts[k].value.value])
    else if ts[k].kind == COMMA then ParamsFrom(ts, k + 1, name, names)
    else if ts[k].kind != CLOSE_PAREN then Parsed(Null, k)
    else Parsed(Built(Prototype(name, names)), k + 1)
  }

  /** `parsePrototype`: `name ( params )`. */
  function PrototypeAt(ts: seq<Token>, i: nat): (r: Parsed<Prototype>)
    requires Payloads(ts)
    ensures i <= r.cursor && (r.out.Raised? || r.cursor <= |ts|)
    ensures r.out.Built? ==>
      i + 3 <= r.cursor && ts[i].kind == IDENTIFIER && ts[i + 1].kind == OPEN_PAREN && r.out.value.name == ts[i].value.value
  {
    if i >= |ts| then EmptyAt(i)
    else if ts[i].kind != IDENTIFIER then Parsed(Null, i)
    else if i + 1 >= |ts| then EmptyAt(i + 1)
    else if ts[i + 1].kind != OPEN_PAREN then Parsed(Null, i + 1)
    else ParamsFrom(ts, i + 2, ts[i].value.value, [])
  }

  /** `parseFuncDefinition`: `def prototype { body }`. The closing brace is
      consumed before the body is checked, so a body that does not parse
      still moves the cursor past it. */
  function FuncDefAt(ts: seq<Token>, i: nat): (r: Parsed<Function>)
    requires Payloads(ts)
    ensures i <= r.cursor && (r.out.Raised? || r.cursor <= |ts|)
    ensures r.out.Built? ==>
      i + 6 <= r.cursor && ts[i].kind == DEF && PrototypeAt(ts, i + 1).out == Built(r.out.value.proto)
  {
    if i >= |ts| then EmptyAt(i)
    else if ts[i].kind != DEF then Parsed(Null, i)
    else
      var p := PrototypeAt(ts, i + 1);
      if !p.out.Built? then Fail(p)
      else if p.cursor >= |ts| then EmptyAt(p.cursor)
      else if ts[p.cursor].kind != OPEN_CURLY then Parsed(Null, p.cursor)
      else
        var b := ExprAt(ts, p.cursor + 1);
        if b.out.Raised? then Fail(b)
        else if ts[b.cursor].kind != CLOSE_CURLY then Parsed(Null, b.cursor)
        else if b.out.Built? then Parsed(Built(Function(p.out.value, b.out.value)), b.cursor + 1)
        else Parsed(Null, b.cursor + 1)
  }

  /** `parseTopLevelExpr`: an expression, wrapped as a function without
      parameters under the anonymous name. */
  function TopLevelAt(ts: seq<Token>, i: nat): (r: Parsed<Function>)
    requires Payloads(ts)
    ensures r.cursor == ExprAt(ts, i).cursor
    ensures r.out.Built? <==> ExprAt(ts, i).out.Built?
    ensures r.out.Built? ==> r.out.value == Function(Prototype(AnonName, []), ExprAt(ts, i).out.value)
    ensures r.out.Raised? <==> ExprAt(ts, i).out.Raised?
  {
    var e := ExprAt(ts, i);
    if e.out.Built? then Parsed(Built(Function(Prototype(AnonName, []), e.out.value)), e.cursor)
    else Fail(e)
  }

  /** `parse`: a definition when the current token is `def`, otherwise a
      top-level expression. */
  function ProgramAt(ts: seq<Token>, i: nat): (r: Parsed<Function>)
    requires Payloads(ts)
    ensures i <= r.cursor && (r.out.Raised? || r.cursor <= |ts|)
    ensures r.out.Built? ==> i < |ts|
    ensures r.out.Built? && ts[i].kind != DEF ==> r.out.value.proto == Prototype(AnonName, [])
    ensures r.out.Built? && ts[i].kind == DEF ==>
      i + 1 < |ts| && ts[i + 1].kind == IDENTIFIER && r.out.value.proto.name == ts[i + 1].value.value
  {
    if i >= |ts| then EmptyAt(i)
    else if ts[i].kind == DEF then FuncDefAt(ts, i)
    else TopLevelAt(ts, i)
  }
}
