/** The recursive-descent parser (src/Parser.cpp, src/Parser.hpp): the token
    list and the precedence table are fixed at construction, and the only
    state that changes is the cursor. Every method returns what the matching
    function of `Grammar` computes from the cursor it was called at, and
    leaves the cursor where that function says. */
module Parsing {
  import opened Wrappers
  import opened Tokens
  import opened Ast
  import opened Grammar

  class Parser {
    const tokens: seq<Token>
    const binopPrecedence: map<TokenKind, int>
    var index: nat

    /** A fresh parser starts on the first token. */
    constructor (tokens: seq<Token>)
      ensures this.tokens == tokens && binopPrecedence == BinopPrecedence && index == 0
    {
      this.tokens := tokens;
      binopPrecedence := BinopPrecedence;
      index := 0;
    }

    /** The fields the constructor fixes. */
    ghost predicate Valid() {
      binopPrecedence == BinopPrecedence && Payloads(tokens)
    }

    /** The cursor is at the end exactly when the list is not empty and no
        token follows the current one. */
    predicate IsAtEnd()
      reads this
      ensures IsAtEnd() <==> |tokens| > 0 && Peek(1).None?
    {
      AtEnd(tokens, index)
    }

    /** The token `offset` places after the cursor, if there is one. */
    function Peek(offset: nat): (t: Option<Token>)
      reads this
      ensures t.Some? <==> index + offset < |tokens|
      ensures t.Some? ==> t.value == tokens[index + offset]
    {
      if index + offset >= |tokens| then None else Some(tokens[index + offset])
    }

    /** Return the current token and advance. The cursor moves even when
        there is no token to return (`at` throws after the increment). */
    method Consume() returns (t: Option<Token>)
      modifies this
      ensures index == old(index) + 1
      ensures t == old(Peek(0))
    {
      t := if index < |tokens| then Some(tokens[index]) else None;
      index := index + 1;
    }

    /** The precedence of the current token, or the exception an empty
        `peek` raises. */
    method GetTokPrecedence() returns (r: Result<int, ParseError>)
      requires Valid()
      ensures r.Success? <==> index < |tokens|
      ensures r.Success? ==> r.value == Precedence(tokens[index].kind)
      ensures r.Failure? ==> r.error == EmptyPeek
    {
      var t := Peek(0);
      if t.None? {
        return Failure(EmptyPeek);
      }
      PrecedenceInTable(t.value.kind);
      if t.value.kind in binopPrecedence {
        return Success(binopPrecedence[t.value.kind]);
      }
      return Success(-1);
    }

    method NumberExpr() returns (r: Outcome<Expr>)
      requires Valid()
      modifies this
      ensures Parsed(r, index) == NumberAt(tokens, old(index))
    {
      var t := Peek(0);
      if t.None? {
        return Raised(EmptyPeek);
      }
      if t.value.kind == NUMBER {
        r := Built(Number(t.value.value.value));
        if !IsAtEnd() {
          var _ := Consume();
        }
        return r;
      }
      return Null;
    }

    method GroupingExpr() returns (r: Outcome<Expr>)
      requires Valid()
      modifies this
      ensures Parsed(r, index) == GroupingAt(tokens, old(index))
      decreases Remaining(tokens, index), 1
    {
      var t := Peek(0);
      if t.None? {
        return Raised(EmptyPeek);
      }
      if t.value.kind == OPEN_PAREN {
        var _ := Consume();
        var expr := ParseExpr();
        if !expr.Built? {
          return expr;
        }
        // A built expression leaves the cursor on a token, so this peek has a value.
        t := Peek(0);
        if t.value.kind == CLOSE_PAREN {
          if !IsAtEnd() {
            var _ := Consume();
          }
          return expr;
        }
      }
      return Null;
    }

    method IdentifierExpr() returns (r: Outcome<Expr>)
      requires Valid()
      modifies this
      ensures Parsed(r, index) == IdentifierAt(tokens, old(index))
      decreases Remaining(tokens, index), 1
    {
      var t := Peek(0);
      if t.None? {
        return Raised(EmptyPeek);
      }
      if t.value.kind != IDENTIFIER {
        return Null;
      }
      var name := t.value.value.value;
      if !IsAtEnd() {
        var _ := Consume();
      }
      // The name is consumed only if a token follows it, so this peek has a value.
      t := Peek(0);
      if t.value.kind != OPEN_PAREN {
        return Built(Variable(name));
      }
      var _ := Consume();
      r := ParseArguments(name);
    }

    /** The argument loop of `identifierExpr`, after the `(` of a call. */
    method ParseArguments(name: string) returns (r: Outcome<Expr>)
      requires Valid()
      modifies this
      ensures Parsed(r, index) == ArgsFrom(tokens, old(index), name, [])
      decreases Remaining(tokens, index), 6
    {
      var args: seq<Expr> := [];
      while true
        invariant old(index) <= index
        invariant ArgsFrom(tokens, index, name, args) == ArgsFrom(tokens, old(index), name, [])
        decreases Remaining(tokens, index)
      {
        var arg := ParseExpr();
        if arg.Raised? {
          return arg;
        }
        // Neither a null result nor a built one leaves the cursor past the
        // last token, so both peeks below have a value.
        if arg.Null? {
          var t := Peek(0);
          return Raised(ArgumentFailed(t.value));
        }
        args := args + [arg.value];
        var t := Peek(0);
        if t.value.kind == CLOSE_PAREN {
          break;
        }
        if t.value.kind != COMMA {
          return Null;
        }
        var _ := Consume();
      }
      if !IsAtEnd() {
        var _ := Consume();
      }
      return Built(Call(name, args));
    }

    /** Consume a token of kind `k` or report why not: an empty `peek`
        raises, another kind means a null result. */
    method Expect(k: TokenKind) returns (ok: Outcome<()>)
      modifies this
      ensures old(index) >= |tokens| ==> ok == Raised(EmptyPeek) && index == old(index)
      ensures old(index) < |tokens| && tokens[old(index)].kind != k ==> ok == Null && index == old(index)
      ensures old(index) < |tokens| && tokens[old(index)].kind == k ==> ok == Built(()) && index == old(index) + 1
    {
      var t := Peek(0);
      if t.None? {
        return Raised(EmptyPeek);
      }
      if t.value.kind != k {
        return Null;
      }
      var _ := Consume();
      return Built(());
    }

    /** The closing brace of `if` and `while`: consumed unless it is the last token. */
    method ExpectLast(k: TokenKind) returns (ok: Outcome<()>)
      modifies this
      ensures old(index) >= |tokens| ==> ok == Raised(EmptyPeek) && index == old(index)
      ensures old(index) < |tokens| && tokens[old(index)].kind != k ==> ok == Null && index == old(index)
      ensures old(index) < |tokens| && tokens[old(index)].kind == k ==> ok == Built(()) && index == Past(tokens, old(index))
    {
      var t := Peek(0);
      if t.None? {
        return Raised(EmptyPeek);
      }
      if t.value.kind != k {
        return Null;
      }
      if !IsAtEnd() {
        var _ := Consume();
      }
      return Built(());
    }

    /** The head of `conditionalExpr` and `whileExpr`: `kw ( cond ) {`. */
    method ParseHead(kw: TokenKind) returns (r: Outcome<Expr>)
      requires Valid()
      modifies this
      ensures Parsed(r, index) == HeadAt(tokens, old(index), kw)
      decreases Remaining(tokens, index), 0
    {
      var ok := Expect(kw);
      if !ok.Built? { return Forward(ok); }
      ok := Expect(OPEN_PAREN);
      if !ok.Built? { return Forward(ok); }
      r := ParseCondition();
    }

    /** The head from the condition on: `cond ) {`. */
    method ParseCondition() returns (r: Outcome<Expr>)
      requires Valid()
      modifies this
      ensures Parsed(r, index) == ConditionAt(tokens, old(index))
      decreases Remaining(tokens, index), 6
    {
      var cond := ParseExpr();
      if !cond.Built? { return cond; }
      var ok := Expect(CLOSE_PAREN);
      if !ok.Built? { return Forward(ok); }
      ok := Expect(OPEN_CURLY);
      if !ok.Built? { return Forward(ok); }
      return cond;
    }

    method ConditionalExpr() returns (r: Outcome<Expr>)
      requires Valid()
      modifies this
      ensures Parsed(r, index) == IfAt(tokens, old(index))
      decreases Remaining(tokens, index), 1
    {
      var cond := ParseHead(IF);
      if !cond.Built? { return cond; }
      r := ConditionalThen(cond.value);
    }

    /** `conditionalExpr` from the then-branch on. */
    method ConditionalThen(cond: Expr) returns (r: Outcome<Expr>)
      requires Valid()
      modifies this
      ensures Parsed(r, index) == IfThenAt(tokens, old(index), cond)
      decreases Remaining(tokens, index), 6
    {
      var thn := ParseExpr();
      if !thn.Built? { return thn; }
      var ok := Expect(CLOSE_CURLY);
      if !ok.Built? { return Forward(ok); }
      ok := Expect(ELSE);
      if !ok.Built? { return Forward(ok); }
      ok := Expect(OPEN_CURLY);
      if !ok.Built? { return Forward(ok); }
      r := ConditionalElse(cond, thn.value);
    }

    /** `conditionalExpr` from the else-branch on. */
    method ConditionalElse(cond: Expr, thn: Expr) returns (r: Outcome<Expr>)
      requires Valid()
      modifies this
      ensures Parsed(r, index) == IfElseAt(tokens, old(index), cond, thn)
      decreases Remaining(tokens, index), 6
    {
      var els := ParseExpr();
      if !els.Built? { return els; }
      var ok := ExpectLast(CLOSE_CURLY);
      if !ok.Built? { return Forward(ok); }
      return Built(If(cond, thn, els.value));
    }

    method WhileExpr() returns (r: Outcome<Expr>)
      requires Valid()
      modifies this
      ensures Parsed(r, index) == WhileAt(tokens, old(index))
      decreases Remaining(tokens, index), 1
    {
      var cond := ParseHead(WHILE);
      if !cond.Built? { return cond; }
      r := WhileBody(cond.value);
    }

    /** `whileExpr` from the body on. */
    method WhileBody(cond: Expr) returns (r: Outcome<Expr>)
      requires Valid()
      modifies this
      ensures Parsed(r, index) == WhileBodyAt(tokens, old(index), cond)
      decreases Remaining(tokens, index), 6
    {
      var body := ParseExpr();
      if !body.Built? { return body; }
      var ok := ExpectLast(CLOSE_CURLY);
      if !ok.Built? { return Forward(ok); }
      return Built(While(cond, body.value));
    }

    method ParseBinaryExpr(exprPrec: int, lhs: Expr) returns (r: Outcome<Expr>)
      requires Valid()
      modifies this
      ensures Parsed(r, index) == BinaryAt(tokens, old(index), exprPrec, lhs)
      decreases Remaining(tokens, index), 4
    {
      if IsAtEnd() {
        return Built(lhs);
      }
      var LHS := lhs;
      ghost var goal := BinaryLoop(tokens, index, exprPrec, lhs);
      while true
        invariant old(index) <= index
        invariant BinaryLoop(tokens, index, exprPrec, LHS) == goal
        decreases Remaining(tokens, index)
      {
        var tokPrec := GetTokPrecedence();
        if tokPrec.Failure? {
          return Raised(tokPrec.error);
        }
        if tokPrec.value < exprPrec {
          return Built(LHS);
        }
        ghost var i := index;
        var binOp := Peek(0).value;
        var _ := Consume();
        var RHS := ParseOperand(tokPrec.value);
        if !RHS.Built? {
          return RHS;
        }
        LoopTurn(tokens, i, exprPrec, LHS, RHS.value, index);
        LHS := Binary(binOp, LHS, RHS.value);
      }
    }

    /** The right operand inside the loop of `parseBinaryExpr`, for an
        operator of precedence `tokPrec` that has just been consumed. */
    method ParseOperand(tokPrec: int) returns (r: Outcome<Expr>)
      requires Valid()
      modifies this
      ensures Parsed(r, index) == OperandAt(tokens, old(index), tokPrec)
      decreases Remaining(tokens, index), 5
    {
      var RHS := ParsePrimaryExpr();
      if !RHS.Built? {
        return RHS;
      }
      // A built primary leaves the cursor on a token, so this lookup cannot raise.
      var nextPrec := GetTokPrecedence();
      if tokPrec < nextPrec.value {
        RHS := ParseBinaryExpr(tokPrec + 1, RHS.value);
      }
      return RHS;
    }

    method ParsePrototype() returns (r: Outcome<Prototype>)
      requires Valid()
      modifies this
      ensures Parsed(r, index) == PrototypeAt(tokens, old(index))
    {
      var t := Peek(0);
      if t.None? {
        return Raised(EmptyPeek);
      }
      if t.value.kind != IDENTIFIER {
        return Null;
      }
      var fnName := t.value.value.value;
      var _ := Consume();
      var ok := Expect(OPEN_PAREN);
      if !ok.Built? { return Forward(ok); }
      ghost var k0 := index;
      var argNames: seq<string> := [];
      while Peek(0).Some? && (Peek(0).value.kind == IDENTIFIER || Peek(0).value.kind == COMMA)
        invariant k0 <= index <= |tokens|
        invariant ParamsFrom(tokens, index, fnName, argNames) == ParamsFrom(tokens, k0, fnName, [])
        decreases |tokens| - index
      {
        if Peek(0).value.kind == IDENTIFIER {
          argNames := argNames + [Peek(0).value.value.value];
        }
        var _ := Consume();
      }
      ok := Expect(CLOSE_PAREN);
      if !ok.Built? { return Forward(ok); }
      return Built(Prototype(fnName, argNames));
    }

    method ParseFuncDefinition() returns (r: Outcome<Function>)
      requires Valid()
      modifies this
      ensures Parsed(r, index) == FuncDefAt(tokens, old(index))
    {
      var ok := Expect(DEF);
      if !ok.Built? { return Forward(ok); }
      var proto := ParsePrototype();
      if !proto.Built? { return Forward(proto); }
      ok := Expect(OPEN_CURLY);
      if !ok.Built? { return Forward(ok); }
      var expr := ParseExpr();
      if expr.Raised? { return Forward(expr); }
      ok := Expect(CLOSE_CURLY);
      if !ok.Built? { return Forward(ok); }
      if expr.Built? {
        return Built(Function(proto.value, expr.value));
      }
      return Null;
    }

    method ParsePrimaryExpr() returns (r: Outcome<Expr>)
      requires Valid()
      modifies this
      ensures Parsed(r, index) == PrimaryAt(tokens, old(index))
      decreases Remaining(tokens, index), 2
    {
      var t := Peek(0);
      if t.None? {
        return Raised(EmptyPeek);
      }
      match t.value.kind
      case IDENTIFIER => r := IdentifierExpr();
      case NUMBER => r := NumberExpr();
      case OPEN_PAREN => r := GroupingExpr();
      case IF => r := ConditionalExpr();
      case WHILE => r := WhileExpr();
      case _ => r := Null;
    }

    method ParseExpr() returns (r: Outcome<Expr>)
      requires Valid()
      modifies this
      ensures Parsed(r, index) == ExprAt(tokens, old(index))
      decreases Remaining(tokens, index), 5
    {
      var lhs := ParsePrimaryExpr();
      if !lhs.Built? {
        return lhs;
      }
      r := ParseBinaryExpr(0, lhs.value);
    }

    method ParseTopLevelExpr() returns (r: Outcome<Function>)
      requires Valid()
      modifies this
      ensures Parsed(r, index) == TopLevelAt(tokens, old(index))
    {
      var expr := ParseExpr();
      if expr.Built? {
        return Built(Function(Prototype(AnonName, []), expr.value));
      }
      return Forward(expr);
    }

    method Parse() returns (r: Outcome<Function>)
      requires Valid()
      modifies this
      ensures Parsed(r, index) == ProgramAt(tokens, old(index))
    {
      var t := Peek(0);
      if t.None? {
        return Raised(EmptyPeek);
      }
      if t.value.kind == DEF {
        r := ParseFuncDefinition();
      } else {
        r := ParseTopLevelExpr();
      }
    }
  }
}
