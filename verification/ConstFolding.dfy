/** The evaluator against the compiler's constant folding.  A constant
    subexpression that keeps no mutable literal is folded before it reaches the
    evaluator; one that does is evaluated at its type's width. */
module ConstFolding {
  import opened Integers
  import opened IntLiterals
  import opened Syntax
  import opened Mutations
  import opened Semantics
  import opened Congruence

  function OpOf(tok: Tok): BinOp {
    match tok
    case Plus => Add
    case Minus => Sub
    case Times => Mul
    case Bitwise(BAnd) => And
    case Bitwise(BOr) => Or
    case Bitwise(BXor) => Xor
    case Bitwise(BAndNot) => AndNot
    case ShiftL => Shl
    case ShiftR => Shr
    case Divide => Quo
    case Remainder => Rem
    case Compare(Eql) => Eq
    case Compare(Neq) => Ne
    case Compare(Lss) => Lt
    case Compare(Leq) => Le
    case Compare(Gtr) => Gt
    case Compare(Geq) => Ge
  }

  /** A constant expression of type t as the evaluator gets it. */
  function Compiled(t: IntTy, e: Const): Expr
    requires Legal(e)
  {
    if !Live(e) || e.Num? then Lit(0, IntV(t, Wrap(t, Exact(e))))
    else
      var count := e.tok.ShiftL? || e.tok.ShiftR?;
      Bin(0, OpOf(e.tok), Compiled(t, e.l), if count then Lit(0, IntV(UINT, Exact(e.r))) else Compiled(t, e.r))
  }

  lemma OneOperation(t: IntTy, tok: Tok, a: int, b: int)
    requires !Sensitive(tok) && (tok.ShiftL? ==> b >= 0)
    ensures ApplyBin(OpOf(tok), IntV(t, a), IntV(if tok.ShiftL? then UINT else t, b)) ==
            Ok(IntV(t, Wrap(t, Apply(tok, a, b))))
  {
  }

  lemma BinOfValues(c: Ctx, fuel: nat, op: BinOp, l: Expr, r: Expr, st: State, a: Value, b: Value, v: Value)
    requires Eval(c, fuel, l, st) == Val(st, a) && Eval(c, fuel, r, st) == Val(st, b) && ApplyBin(op, a, b) == Ok(v)
    ensures Eval(c, fuel, Bin(0, op, l, r), st) == Val(st, v)
  {
  }

  /** The evaluator computes what the literal operator's arithmetic says. */
  lemma {:induction false} CompiledRuns(c: Ctx, fuel: nat, t: IntTy, e: Const, st: State)
    requires Legal(e) && Safe(e)
    ensures Eval(c, fuel, Compiled(t, e), st) == Val(st, IntV(t, Run(t, e)))
  {
    if Live(e) && e.Op? {
      CompiledRuns(c, fuel, t, e.l, st);
      CompiledRuns(c, fuel, t, e.r, st);
      var a := Run(t, e.l);
      var b := if e.tok.ShiftL? then Exact(e.r) else Run(t, e.r);
      OneOperation(t, e.tok, a, b);
      var r := Compiled(t, e).r;
      BinOfValues(c, fuel, OpOf(e.tok), Compiled(t, e.l), r, st, IntV(t, a),
                  IntV(if e.tok.ShiftL? then UINT else t, b), IntV(t, Run(t, e)));
    }
  }

  /** With every literal live that the operator may rewrite, a constant
      expression runs as the constant the compiler folds it to. */
  lemma RunsAsFolded(c: Ctx, fuel: nat, t: IntTy, e: Const)
    requires Legal(e) && InRange(t, Exact(e))
    ensures Legal(Rewritten(e, false))
    ensures SimE(c, c, fuel, Compiled(t, Rewritten(e, false)), Lit(0, IntV(t, Exact(e))))
  {
    WrapSafety(t, e);
    RewrittenIsSafe(e, false);
    forall st
      ensures Eval(c, fuel, Compiled(t, Rewritten(e, false)), st) == Eval(c, fuel, Lit(0, IntV(t, Exact(e))), st)
    {
      CompiledRuns(c, fuel, t, Rewritten(e, false), st);
    }
  }
}
