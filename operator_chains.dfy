/** The grouping `parseBinaryExpr` gives a chain of numbers and binary
    operators (src/Parser.cpp:219-258), stated without reference to the
    algorithm: read left to right, the tree's operands and operators are
    those of the chain, and every node binds at least as tightly as its
    parent, strictly more tightly when it is the right child. Such a tree is
    unique, and its root is the rightmost of the loosest operators. */
module OperatorChains {
  import opened Tokens
  import opened Ast
  import opened Grammar

  /** The operands of a tree, left to right: its subtrees that are not
      binary nodes. */
  function Leaves(e: Expr): seq<Expr> {
    if e.Binary? then Leaves(e.lhs) + Leaves(e.rhs) else [e]
  }

  /** The operators of a tree, left to right. */
  function Ops(e: Expr): seq<Token> {
    if e.Binary? then Ops(e.lhs) + [e.op] + Ops(e.rhs) else []
  }

  /** `e`, if it is a binary node, binds at least as tightly as `p`. */
  predicate Binds(e: Expr, p: int) {
    e.Binary? ==> Precedence(e.op.kind) >= p
  }

  /** Operators of the same precedence group to the left and a tighter
      operator groups below a looser one: a left child binds at least as
      tightly as its parent, a right child strictly more tightly. */
  predicate WellGrouped(e: Expr) {
    e.Binary? ==>
      && WellGrouped(e.lhs) && WellGrouped(e.rhs)
      && Binds(e.lhs, Precedence(e.op.kind))
      && Binds(e.rhs, Precedence(e.op.kind) + 1)
  }

  /** Numbers at `s`, `s + 2`, ..., `e` with a binary operator between each
      two. */
  predicate ChainAt(ts: seq<Token>, s: nat, e: nat)
    decreases e - s
  {
    && s <= e < |ts| && ts[s].kind == NUMBER
    && (s < e ==> Precedence(ts[s + 1].kind) >= 1 && ChainAt(ts, s + 2, e))
  }

  /** Nothing binding follows the number at `e`: it is the last token, or a
      token that is no binary operator comes after it. */
  predicate EndsAt(ts: seq<Token>, e: nat) {
    e + 1 < |ts| ==> Precedence(ts[e + 1].kind) < 0
  }

  /** The operators of the chain from `s` to `m`, left to right. */
  function ChainOps(ts: seq<Token>, s: nat, m: nat): seq<Token>
    requires ChainAt(ts, s, m)
    decreases m - s
  {
    if s == m then [] else [ts[s + 1]] + ChainOps(ts, s + 2, m)
  }

  /** The number nodes of the chain from `s` to `m`, except the first. */
  function RightLeaves(ts: seq<Token>, s: nat, m: nat): seq<Expr>
    requires Payloads(ts) && ChainAt(ts, s, m)
    decreases m - s
  {
    if s == m then [] else assert ChainAt(ts, s + 2, m); [Number(ts[s + 2].value.value)] + RightLeaves(ts, s + 2, m)
  }

  /** A tree has one operand more than it has operators. */
  lemma {:induction false} LeavesCount(e: Expr)
    ensures |Leaves(e)| == |Ops(e)| + 1
  {
    if e.Binary? {
      LeavesCount(e.lhs);
      LeavesCount(e.rhs);
    }
  }

  /** The number nodes of the chain from `s` to `e`, left to right. */
  function ChainLeaves(ts: seq<Token>, s: nat, e: nat): seq<Expr>
    requires Payloads(ts) && ChainAt(ts, s, e)
  {
    [Number(ts[s].value.value)] + RightLeaves(ts, s, e)
  }

  /** The number at which a run of operators binding at least as tightly as
      `p`, from the one after `s`, ends; the operator after it, if any, binds
      more loosely. */
  function Reach(ts: seq<Token>, s: nat, e: nat, p: int): (m: nat)
    requires ChainAt(ts, s, e)
    ensures s <= m <= e && ChainAt(ts, s, m) && ChainAt(ts, m, e)
    ensures m < e ==> Precedence(ts[m + 1].kind) < p
    decreases e - s
  {
    if s == e || Precedence(ts[s + 1].kind) < p then s else Reach(ts, s + 2, e, p)
  }

  /** A run at a tighter level, then the rest of the run at a looser one. */
  lemma {:induction false} ReachSplit(ts: seq<Token>, s: nat, e: nat, p: int, p': int)
    requires ChainAt(ts, s, e) && p <= p'
    ensures Reach(ts, s, e, p) == Reach(ts, Reach(ts, s, e, p'), e, p)
    decreases e - s
  {
    if s < e && Precedence(ts[s + 1].kind) >= p' {
      ReachSplit(ts, s + 2, e, p, p');
    }
  }

  /** Every operator of a chain binds, so the outermost loop reaches them all. */
  lemma {:induction false} ReachAll(ts: seq<Token>, s: nat, e: nat, p: int)
    requires ChainAt(ts, s, e) && p <= 1
    ensures Reach(ts, s, e, p) == e
    decreases e - s
  {
    if s < e {
      ReachAll(ts, s + 2, e, p);
    }
  }

  /** A chain cut at one of its numbers. */
  lemma {:induction false} ChainSplit(ts: seq<Token>, s: nat, m: nat, e: nat)
    requires Payloads(ts) && ChainAt(ts, s, m) && ChainAt(ts, m, e)
    ensures ChainAt(ts, s, e)
    ensures RightLeaves(ts, s, e) == RightLeaves(ts, s, m) + RightLeaves(ts, m, e)
    ensures ChainOps(ts, s, e) == ChainOps(ts, s, m) + ChainOps(ts, m, e)
    decreases m - s
  {
    if s < m {
      ChainSplit(ts, s + 2, m, e);
      Shift([Number(ts[s + 2].value.value)], RightLeaves(ts, s + 2, m), RightLeaves(ts, m, e));
      Shift([ts[s + 1]], ChainOps(ts, s + 2, m), ChainOps(ts, m, e));
    }
  }

  lemma Shift<T>(a: seq<T>, b: seq<T>, c: seq<T>)
    ensures a + (b + c) == (a + b) + c
  {
  }

  /** `((a + [x]) + b) + c` regrouped. */
  lemma Regroup<T>(a: seq<T>, x: T, b: seq<T>, c: seq<T>, bc: seq<T>)
    requires bc == b + c
    ensures (a + [x] + b) + c == a + ([x] + bc)
  {
  }

  /** `r` is what the operator loop returns when it has folded the operators
      and numbers of the chain from `s` to `m` into `lhs`, `p` being the
      loosest precedence it takes: a well-grouped tree, `lhs` itself when it
      took nothing, and the cursor past the number at `m`. */
  predicate Folded(ts: seq<Token>, s: nat, m: nat, p: int, lhs: Expr, r: Parsed<Expr>)
    requires Payloads(ts) && ChainAt(ts, s, m)
  {
    && r.out.Built?
    && r.cursor == Past(ts, m)
    && Leaves(r.out.value) == Leaves(lhs) + RightLeaves(ts, s, m)
    && Ops(r.out.value) == Ops(lhs) + ChainOps(ts, s, m)
    && WellGrouped(r.out.value)
    && (m == s ==> r.out.value == lhs)
    && (m > s ==> Binds(r.out.value, p))
  }

  /** `r` is a right operand of precedence `q` that spans the chain from `s`
      to `m`: a well-grouped tree over its numbers and operators whose root
      binds more tightly than `q`, and the cursor past the number at `m`. */
  predicate Spans(ts: seq<Token>, s: nat, m: nat, q: int, r: Parsed<Expr>)
    requires Payloads(ts) && ChainAt(ts, s, m)
  {
    && r.out.Built?
    && r.cursor == Past(ts, m)
    && Leaves(r.out.value) == ChainLeaves(ts, s, m)
    && Ops(r.out.value) == ChainOps(ts, s, m)
    && WellGrouped(r.out.value)
    && Binds(r.out.value, q + 1)
  }

  /** One turn of the loop: the operator after `s` and its operand, spanning
      the chain up to `m1`, folded into `lhs`, then the rest of the loop up
      to `m2`, fold the chain from `s` to `m2` into `lhs`. */
  lemma FoldTurn(ts: seq<Token>, s: nat, m1: nat, m2: nat, p: int, lhs: Expr, rhs: Parsed<Expr>, r: Parsed<Expr>)
    requires Payloads(ts) && s < m2 && ChainAt(ts, s, m2) && ChainAt(ts, s + 2, m1) && ChainAt(ts, m1, m2)
    requires p <= Precedence(ts[s + 1].kind)
    requires WellGrouped(lhs) && Binds(lhs, Precedence(ts[s + 1].kind))
    requires Spans(ts, s + 2, m1, Precedence(ts[s + 1].kind), rhs)
    requires Folded(ts, m1, m2, p, Binary(ts[s + 1], lhs, rhs.out.value), r)
    ensures Folded(ts, s, m2, p, lhs, r)
  {
    JoinLeaves(ts, s, m1, m2, lhs, rhs.out.value, r.out.value);
    JoinOps(ts, s, m1, m2, lhs, rhs.out.value, r.out.value);
  }

  /** The operands of a turn: those of `lhs`, then those of the chain from
      the number after `s` to `m2`. */
  lemma JoinLeaves(ts: seq<Token>, s: nat, m1: nat, m2: nat, lhs: Expr, rhs: Expr, t: Expr)
    requires Payloads(ts) && s < m2 && ChainAt(ts, s, m2) && ChainAt(ts, s + 2, m1) && ChainAt(ts, m1, m2)
    requires Leaves(rhs) == ChainLeaves(ts, s + 2, m1)
    requires Leaves(t) == Leaves(Binary(ts[s + 1], lhs, rhs)) + RightLeaves(ts, m1, m2)
    ensures Leaves(t) == Leaves(lhs) + RightLeaves(ts, s, m2)
  {
    ChainSplit(ts, s + 2, m1, m2);
    var n := Number(ts[s + 2].value.value);
    assert RightLeaves(ts, s, m2) == [n] + RightLeaves(ts, s + 2, m2);
    Regroup(Leaves(lhs), n, RightLeaves(ts, s + 2, m1), RightLeaves(ts, m1, m2), RightLeaves(ts, s + 2, m2));
  }

  /** The operators of a turn: those of `lhs`, then those of the chain from
      `s` to `m2`. */
  lemma JoinOps(ts: seq<Token>, s: nat, m1: nat, m2: nat, lhs: Expr, rhs: Expr, t: Expr)
    requires Payloads(ts) && s < m2 && ChainAt(ts, s, m2) && ChainAt(ts, s + 2, m1) && ChainAt(ts, m1, m2)
    requires Ops(rhs) == ChainOps(ts, s + 2, m1)
    requires Ops(t) == Ops(Binary(ts[s + 1], lhs, rhs)) + ChainOps(ts, m1, m2)
    ensures Ops(t) == Ops(lhs) + ChainOps(ts, s, m2)
  {
    ChainSplit(ts, s + 2, m1, m2);
    assert ChainOps(ts, s, m2) == [ts[s + 1]] + ChainOps(ts, s + 2, m2);
    Regroup(Ops(lhs), ts[s + 1], ChainOps(ts, s + 2, m1), ChainOps(ts, m1, m2), ChainOps(ts, s + 2, m2));
  }

  /** The loop after the number at `s` ends at once when no operator follows
      or the next one binds more loosely than `p`. */
  lemma LoopEnds(ts: seq<Token>, s: nat, e: nat, p: int, lhs: Expr)
    requires Payloads(ts) && ChainAt(ts, s, e) && EndsAt(ts, e) && 0 <= p
    requires WellGrouped(lhs)
    requires s == e || Precedence(ts[s + 1].kind) < p
    ensures BinaryLoop(ts, Past(ts, s), p, lhs) == Parsed(Built(lhs), Past(ts, s))
    ensures Folded(ts, s, Reach(ts, s, e, p), p, lhs, BinaryLoop(ts, Past(ts, s), p, lhs))
  {
    assert Precedence(ts[Past(ts, s)].kind) < p;
    assert RightLeaves(ts, s, s) == [] && ChainOps(ts, s, s) == [];
  }

  /** The operator loop entered after the number at `s`, with `lhs` built so
      far and a next operator binding no more tightly than `lhs`'s root:
      it takes exactly the operators that bind at least as tightly as `p`,
      and their operands, into a well-grouped tree over `lhs` and them. */
  lemma {:induction false} LoopChain(ts: seq<Token>, s: nat, e: nat, p: int, lhs: Expr)
    requires Payloads(ts) && ChainAt(ts, s, e) && EndsAt(ts, e) && 0 <= p
    requires WellGrouped(lhs) && (s < e ==> Binds(lhs, Precedence(ts[s + 1].kind)))
    ensures Folded(ts, s, Reach(ts, s, e, p), p, lhs, BinaryLoop(ts, Past(ts, s), p, lhs))
    decreases e - s, 0
  {
    if s == e || Precedence(ts[s + 1].kind) < p {
      LoopEnds(ts, s, e, p, lhs);
    } else {
      var q := Precedence(ts[s + 1].kind);
      OperandChain(ts, s + 2, e, q);
      var m1 := Reach(ts, s + 2, e, q + 1);
      var rhs := OperandAt(ts, s + 2, q);
      var lhs2 := Binary(ts[s + 1], lhs, rhs.out.value);
      LoopChain(ts, m1, e, p, lhs2);
      LoopStep(ts, s, e, p, lhs, q, m1, rhs, BinaryLoop(ts, Past(ts, m1), p, lhs2));
    }
  }

  /** A turn of the loop that takes the operator after `s`, of precedence
      `q`, given what its right operand `rhs` and the rest `r` of the loop
      return. */
  lemma LoopStep(ts: seq<Token>, s: nat, e: nat, p: int, lhs: Expr, q: int, m1: nat, rhs: Parsed<Expr>, r: Parsed<Expr>)
    requires Payloads(ts) && ChainAt(ts, s, e) && EndsAt(ts, e) && 0 <= p && s < e
    requires q == Precedence(ts[s + 1].kind) && p <= q
    requires WellGrouped(lhs) && Binds(lhs, q)
    requires m1 == Reach(ts, s + 2, e, q + 1) && rhs == OperandAt(ts, s + 2, q) && Spans(ts, s + 2, m1, q, rhs)
    requires r == BinaryLoop(ts, Past(ts, m1), p, Binary(ts[s + 1], lhs, rhs.out.value))
    requires Folded(ts, m1, Reach(ts, m1, e, p), p, Binary(ts[s + 1], lhs, rhs.out.value), r)
    ensures Folded(ts, s, Reach(ts, s, e, p), p, lhs, BinaryLoop(ts, Past(ts, s), p, lhs))
  {
    var m2 := Reach(ts, m1, e, p);
    assert Reach(ts, s, e, p) == m2 by {
      ReachSplit(ts, s + 2, e, p, q + 1);
    }
    assert BinaryLoop(ts, Past(ts, s), p, lhs) == r by {
      LoopTaken(ts, s, p, lhs, q, rhs);
    }
    FoldTurn(ts, s, m1, m2, p, lhs, rhs, r);
  }

  /** The loop after the number at `s` takes the operator after it, of
      precedence `q`, and its right operand `rhs`. */
  lemma LoopTaken(ts: seq<Token>, s: nat, p: int, lhs: Expr, q: int, rhs: Parsed<Expr>)
    requires Payloads(ts) && s + 2 < |ts| && q == Precedence(ts[s + 1].kind) && p <= q
    requires rhs == OperandAt(ts, s + 2, q) && rhs.out.Built?
    ensures BinaryLoop(ts, Past(ts, s), p, lhs) == BinaryLoop(ts, rhs.cursor, p, Binary(ts[s + 1], lhs, rhs.out.value))
  {
    assert Past(ts, s) == s + 1;
    LoopTurn(ts, s + 1, p, lhs, rhs.out.value, rhs.cursor);
  }

  /** The right operand at the number `s` is that number, or the loop one
      level tighter after it when the next operator binds more tightly. */
  lemma OperandStart(ts: seq<Token>, s: nat, e: nat, q: int)
    requires Payloads(ts) && ChainAt(ts, s, e) && EndsAt(ts, e) && 0 <= q
    ensures OperandAt(ts, s, q) ==
      if s < e && Precedence(ts[s + 1].kind) > q
      then BinaryLoop(ts, Past(ts, s), q + 1, Number(ts[s].value.value))
      else Parsed(Built(Number(ts[s].value.value)), Past(ts, s))
  {
    assert PrimaryAt(ts, s) == Parsed(Built(Number(ts[s].value.value)), Past(ts, s));
    if s < e {
      assert Past(ts, s) == s + 1 && !AtEnd(ts, s + 1);
    } else {
      assert Precedence(ts[Past(ts, s)].kind) < 0;
    }
  }

  /** A loop over a single number folded into nothing but that number spans
      the chain it took. */
  lemma FoldedSpans(ts: seq<Token>, s: nat, m: nat, q: int, r: Parsed<Expr>)
    requires Payloads(ts) && ChainAt(ts, s, m) && s < m
    requires Folded(ts, s, m, q + 1, Number(ts[s].value.value), r)
    ensures Spans(ts, s, m, q, r)
  {
    var n := Number(ts[s].value.value);
    assert Leaves(n) == [n] && Ops(n) == [];
  }

  /** The right operand of an operator of precedence `q` whose number is at
      `s`: the number and exactly the operators after it that bind more
      tightly than `q`, as a well-grouped tree binding more tightly than `q`. */
  lemma {:induction false} OperandChain(ts: seq<Token>, s: nat, e: nat, q: int)
    requires Payloads(ts) && ChainAt(ts, s, e) && EndsAt(ts, e) && 0 <= q
    ensures Spans(ts, s, Reach(ts, s, e, q + 1), q, OperandAt(ts, s, q))
    decreases e - s, 1
  {
    var n := Number(ts[s].value.value);
    OperandStart(ts, s, e, q);
    if s < e && Precedence(ts[s + 1].kind) > q {
      LoopChain(ts, s, e, q + 1, n);
      FoldedSpans(ts, s, Reach(ts, s, e, q + 1), q, OperandAt(ts, s, q));
    } else {
      assert Leaves(n) == [n] && Ops(n) == [];
      assert RightLeaves(ts, s, s) == [] && ChainOps(ts, s, s) == [];
    }
  }

  /** `parseExpr` on a chain of numbers and binary operators that nothing
      binding follows: it reads the whole chain and builds the well-grouped
      tree over its operands and operators. */
  lemma ChainExpr(ts: seq<Token>, i: nat, e: nat)
    requires Payloads(ts) && ChainAt(ts, i, e) && EndsAt(ts, e)
    ensures var r := ExprAt(ts, i);
      && r.out.Built?
      && r.cursor == Past(ts, e)
      && Leaves(r.out.value) == ChainLeaves(ts, i, e)
      && Ops(r.out.value) == ChainOps(ts, i, e)
      && WellGrouped(r.out.value)
  {
    var n := Number(ts[i].value.value);
    assert PrimaryAt(ts, i) == Parsed(Built(n), Past(ts, i));
    if AtEnd(ts, Past(ts, i)) {
      assert i == e;
    } else {
      LoopChain(ts, i, e, 0, n);
      ReachAll(ts, i, e, 0);
    }
  }

  /** `parseExpr` on such a chain builds exactly the tree that the grouping
      rule alone determines: any well-grouped tree over the chain's numbers
      and operators is the one it returns. */
  lemma ChainGrouping(ts: seq<Token>, i: nat, e: nat, t: Expr)
    requires Payloads(ts) && ChainAt(ts, i, e) && EndsAt(ts, e)
    requires WellGrouped(t) && Leaves(t) == ChainLeaves(ts, i, e) && Ops(t) == ChainOps(ts, i, e)
    ensures ExprAt(ts, i) == Parsed(Built(t), Past(ts, e))
  {
    ChainExpr(ts, i, e);
    GroupingUnique(ExprAt(ts, i).out.value, t);
  }

  /** Every operator below a well-grouped tree binding at least as tightly
      as `p` binds at least as tightly as `p`. */
  lemma {:induction false} OpsBind(e: Expr, p: int)
    requires WellGrouped(e) && Binds(e, p)
    ensures forall j :: 0 <= j < |Ops(e)| ==> Precedence(Ops(e)[j].kind) >= p
  {
    if e.Binary? {
      OpsBind(e.lhs, Precedence(e.op.kind));
      OpsBind(e.rhs, Precedence(e.op.kind) + 1);
      var a := Ops(e.lhs);
      forall j | 0 <= j < |Ops(e)|
        ensures Precedence(Ops(e)[j].kind) >= p
      {
        if j > |a| {
          assert Ops(e)[j] == Ops(e.rhs)[j - |a| - 1];
        } else if j < |a| {
          assert Ops(e)[j] == a[j];
        }
      }
    }
  }

  /** The root of a well-grouped tree is the rightmost of its loosest
      operators: those before it bind at least as tightly, those after it
      strictly more tightly. */
  lemma RootSplit(e: Expr)
    requires WellGrouped(e) && e.Binary?
    ensures Ops(e)[|Ops(e.lhs)|] == e.op
    ensures forall j :: 0 <= j < |Ops(e.lhs)| ==> Precedence(Ops(e)[j].kind) >= Precedence(e.op.kind)
    ensures forall j :: |Ops(e.lhs)| < j < |Ops(e)| ==> Precedence(Ops(e)[j].kind) > Precedence(e.op.kind)
  {
    var a := Ops(e.lhs);
    OpsBind(e.lhs, Precedence(e.op.kind));
    OpsBind(e.rhs, Precedence(e.op.kind) + 1);
    forall j | 0 <= j < |Ops(e)|
      ensures j < |a| ==> Ops(e)[j] == a[j]
      ensures j == |a| ==> Ops(e)[j] == e.op
      ensures j > |a| ==> Ops(e)[j] == Ops(e.rhs)[j - |a| - 1]
    {
    }
  }

  /** A well-grouped tree is determined by its operands and operators. */
  lemma {:induction false} GroupingUnique(e: Expr, f: Expr)
    requires WellGrouped(e) && WellGrouped(f)
    requires Leaves(e) == Leaves(f) && Ops(e) == Ops(f)
    ensures e == f
  {
    if !e.Binary? || !f.Binary? {
      assert |Ops(e)| == 0 && |Ops(f)| == 0;
      assert Leaves(e) == [e] && Leaves(f) == [f];
    } else {
      RootSplit(e);
      RootSplit(f);
      LeavesCount(e.lhs);
      LeavesCount(f.lhs);
      var a, b := |Ops(e.lhs)|, |Ops(f.lhs)|;
      if a < b {
        assert false;
      } else if b < a {
        assert false;
      }
      assert Ops(e.lhs) == Ops(e)[..a] == Ops(f.lhs);
      assert Ops(e.rhs) == Ops(e)[a + 1..] == Ops(f.rhs);
      assert Leaves(e.lhs) == Leaves(e)[..a + 1] == Leaves(f.lhs);
      assert Leaves(e.rhs) == Leaves(e)[a + 1..] == Leaves(f.rhs);
      GroupingUnique(e.lhs, f.lhs);
      GroupingUnique(e.rhs, f.rhs);
    }
  }

  /** Every operator of the chain from `s` to `e` has precedence `p`. */
  predicate SameLevel(ts: seq<Token>, s: nat, e: nat, p: int)
    requires ChainAt(ts, s, e)
    decreases e - s
  {
    s == e || (Precedence(ts[s + 1].kind) == p && SameLevel(ts, s + 2, e, p))
  }

  /** The chain from `s` to `e` folded to the left onto `acc`:
      `((acc o1 n1) o2 n2) ...`. */
  function FoldLeft(ts: seq<Token>, s: nat, e: nat, acc: Expr): Expr
    requires Payloads(ts) && ChainAt(ts, s, e)
    decreases e - s
  {
    if s == e then acc
    else assert ChainAt(ts, s + 2, e); FoldLeft(ts, s + 2, e, Binary(ts[s + 1], acc, Number(ts[s + 2].value.value)))
  }

  /** A left fold of operators of one precedence is well grouped, over the
      chain's numbers and operators. */
  lemma {:induction false} FoldLeftGrouped(ts: seq<Token>, s: nat, e: nat, p: int, acc: Expr)
    requires Payloads(ts) && ChainAt(ts, s, e) && SameLevel(ts, s, e, p)
    requires WellGrouped(acc) && Binds(acc, p)
    ensures Leaves(FoldLeft(ts, s, e, acc)) == Leaves(acc) + RightLeaves(ts, s, e)
    ensures Ops(FoldLeft(ts, s, e, acc)) == Ops(acc) + ChainOps(ts, s, e)
    ensures WellGrouped(FoldLeft(ts, s, e, acc))
    decreases e - s
  {
    if s < e {
      var acc2 := Binary(ts[s + 1], acc, Number(ts[s + 2].value.value));
      assert WellGrouped(acc2) && Binds(acc2, p);
      FoldLeftGrouped(ts, s + 2, e, p, acc2);
      FoldLeftStep(ts, s, e, acc, FoldLeft(ts, s + 2, e, acc2));
    } else {
      assert RightLeaves(ts, s, s) == [] && ChainOps(ts, s, s) == [];
    }
  }

  /** One step of the left fold: a tree over the accumulator joined by the
      operator after `s` and the number after it, and the rest of the chain,
      is a tree over the accumulator and the chain from `s`. */
  lemma FoldLeftStep(ts: seq<Token>, s: nat, e: nat, acc: Expr, t: Expr)
    requires Payloads(ts) && ChainAt(ts, s, e) && s < e && ChainAt(ts, s + 2, e)
    requires var acc2 := Binary(ts[s + 1], acc, Number(ts[s + 2].value.value));
      && Leaves(t) == Leaves(acc2) + RightLeaves(ts, s + 2, e)
      && Ops(t) == Ops(acc2) + ChainOps(ts, s + 2, e)
    ensures Leaves(t) == Leaves(acc) + RightLeaves(ts, s, e)
    ensures Ops(t) == Ops(acc) + ChainOps(ts, s, e)
  {
    var n := Number(ts[s + 2].value.value);
    assert Leaves(n) == [n] && Ops(n) == [];
    Regroup(Leaves(acc), n, [], RightLeaves(ts, s + 2, e), RightLeaves(ts, s + 2, e));
    Regroup(Ops(acc), ts[s + 1], [], ChainOps(ts, s + 2, e), ChainOps(ts, s + 2, e));
  }

  /** A chain whose operators all have precedence `p`, such as `a - b - c - d`,
      is grouped to the left. */
  lemma SameLevelFoldsLeft(ts: seq<Token>, i: nat, e: nat, p: int)
    requires Payloads(ts) && ChainAt(ts, i, e) && EndsAt(ts, e) && SameLevel(ts, i, e, p)
    ensures ExprAt(ts, i).out == Built(FoldLeft(ts, i, e, Number(ts[i].value.value)))
    ensures ExprAt(ts, i).cursor == Past(ts, e)
  {
    var n := Number(ts[i].value.value);
    ChainExpr(ts, i, e);
    FoldLeftGrouped(ts, i, e, p, n);
    assert Leaves(n) == [n] && Ops(n) == [];
    GroupingUnique(ExprAt(ts, i).out.value, FoldLeft(ts, i, e, n));
  }
}
