/** The fragment of Go that the mutation operators act on, before and after
    rewriting.  Every node that an operator can replace carries an id, which
    stands for its identity in the syntax tree. */
module Syntax {
  import opened Integers
  import opened IntLiterals
  import opened Seqs

  datatype BinOp =
    | Add | Sub | Mul | Quo | Rem
    | And | Or | Xor | Shl | Shr | AndNot
    | Lt | Le | Gt | Ge | Eq | Ne

  predicate IsArith(op: BinOp) { op in {Add, Sub, Mul, Quo, Rem} }
  predicate IsBitwise(op: BinOp) { op in {And, Or, Xor, Shl, Shr, AndNot} }
  predicate IsCompare(op: BinOp) { op in {Lt, Le, Gt, Ge, Eq, Ne} }

  datatype Value =
    | IntV(t: IntTy, n: int)
    | BoolV(b: bool)
    | StrV(s: string)
    | RefV(r: int)
    | NilV
    | TupleV(vs: seq<Value>)

  /** The dispatchers that take evaluated arguments, with the constant
      arguments of the call. */
  datatype Disp =
    | MutInt(op: BinOp) | MutIntBit(op: BinOp) | MutIntCmp(op: BinOp)
    | MutNot | MutErr | MutIdx | MutString | MutIntLit | MutBoolLit
    | MutRetZero(zero: Value) | MutRecv(zero: Value)
    | LitOff | LitOn
    | MutSwap(a: int, b: int)

  datatype Expr =
    | Lit(id: nat, v: Value)
    | Var(id: nat, x: string)
    | Bin(id: nat, op: BinOp, l: Expr, r: Expr)
    | Logic(id: nat, isAnd: bool, l: Expr, r: Expr)
    | Not(id: nat, e: Expr)
    | Index(id: nat, base: Expr, idx: Expr)
    | Slice(id: nat, base: Expr, bounds: seq<Expr>)  // a missing bound is Absent
    | Recv(id: nat, ch: Expr)
    | Call(id: nat, f: string, args: seq<Expr>)
    | Composite(id: nat, fields: seq<string>, vals: seq<Expr>)
    | Absent
      // Forms that only mutants need: e + d for an untyped constant d, and
      // "evaluate e, then yield v".
    | AddConst(e: Expr, d: int)
    | Discard(e: Expr, v: Value)
      // Forms that only the schema uses.
    | Dispatch(d0: Disp, args: seq<Expr>, ids: seq<int>)
    | MutBool(l: Expr, closure: Expr, isAnd: bool, ids: seq<int>)
    | TagFunc(tag: Option<Expr>, tests: seq<Test>, dflt: int)

  /** The statements of a rewritten switch's tag closure.  Its local variable
      holding the tag is assigned once, so it is a let-bound value here. */
  datatype Test =
    | IfMatch(e: Expr, ret: int)                // if tag == e { return ret }
    | IfKeep(ids: seq<int>, body: seq<Test>)    // if __cMutKeep(ids...) { body }

  datatype Lhs = LVar(x: string) | LIndex(id: nat, base: Expr, idx: Expr)

  datatype Stmt =
    | ExprStmt(e: Expr)
    | CallStmt(id: nat, f: string, args: seq<Expr>)  // id is the call's
    | Assign(lhs: Lhs, rhs: Expr)
    | IncDec(id: nat, lhs: Lhs, inc: bool)
    | Compound(id: nat, op: BinOp, lhs: Lhs, rhs: Expr)
    | Send(id: nat, ch: Expr, val: Expr)
    | If(cond: Expr, thn: seq<Stmt>, els: seq<Stmt>)
    | For(cond: Expr, post: seq<Stmt>, body: seq<Stmt>)
    | Return(results: seq<Expr>)
      // `swapped` is -1 in source programs.  In the mutant that swaps clauses
      // i and i+1 it is i: the chosen entry clause is exchanged.
    | Switch(id: nat, tag: Option<Expr>, clauses: seq<Clause>, swapped: int)
    | Break | Continue | Fallthrough
    | Skip
      // Forms that only the schema uses.
    | CallSkip(closure: Stmt, ids: seq<int>)
    | MutStmt(orig: Stmt, mut: Stmt, ids: seq<int>)

  datatype Clause = Clause(pos: int, dflt: bool, list: seq<Expr>, body: seq<Stmt>)

  datatype Func = Func(params: seq<string>, body: seq<Stmt>)

  type Program = map<string, Func>

  /** The built-in operators on values.  Operands of a type the type checker
      would refuse give a run-time error of their own. */
  datatype Res = Ok(v: Value) | Bad(v: Value)

  const ILL_TYPED := Bad(StrV("ill-typed operand"))

  function BitOf(op: BinOp): BitOp {
    match op
    case And => BAnd
    case Or => BOr
    case Xor => BXor
    case _ => BAndNot
  }

  function ArithInts(op: BinOp, t: IntTy, a: int, b: int): Res {
    match op
    case Add => Ok(IntV(t, Wrap(t, a + b)))
    case Sub => Ok(IntV(t, Wrap(t, a - b)))
    case Mul => Ok(IntV(t, Wrap(t, a * b)))
    case Quo => if b == 0 then Bad(StrV("divide by zero")) else Ok(IntV(t, Wrap(t, QuoTrunc(a, b))))
    case Rem => if b == 0 then Bad(StrV("divide by zero")) else Ok(IntV(t, Wrap(t, RemTrunc(a, b))))
    case _ => Ok(IntV(t, Wrap(t, Bits(BitOf(op), a, b))))
  }

  function ShiftInt(left: bool, t: IntTy, a: int, count: int): Res {
    if count < 0 then Bad(StrV("negative shift amount"))
    else if left then Ok(IntV(t, Wrap(t, a * Pow2(count))))
    else Ok(IntV(t, Wrap(t, a / Pow2(count))))
  }

  function CompareOf(op: BinOp): Cmp {
    match op
    case Lt => Lss
    case Le => Leq
    case Gt => Gtr
    case Ge => Geq
    case Eq => Eql
    case _ => Neq
  }

  function ApplyBin(op: BinOp, a: Value, b: Value): Res {
    if op == Shl || op == Shr then
      if a.IntV? && b.IntV? then ShiftInt(op == Shl, a.t, a.n, b.n) else ILL_TYPED
    else if op == Eq then Ok(BoolV(a == b))
    else if op == Ne then Ok(BoolV(a != b))
    else if !(a.IntV? && b.IntV? && a.t == b.t) then ILL_TYPED
    else if IsCompare(op) then Ok(BoolV(CompareInts(CompareOf(op), a.n, b.n) == 1))
    else ArithInts(op, a.t, a.n, b.n)
  }

  function AddTo(a: Value, d: int): Res {
    if a.IntV? then Ok(IntV(a.t, Wrap(a.t, a.n + d))) else ILL_TYPED
  }

  /** The default clause among the first n, or -1.  Go allows at most one. */
  function DefaultOf(clauses: seq<Clause>, n: nat): (r: int)
    requires n <= |clauses|
    ensures -1 <= r < n
    ensures r != -1 ==> clauses[r].dflt
    ensures r == -1 ==> forall i :: 0 <= i < n ==> !clauses[i].dflt
  {
    if n == 0 then -1 else if clauses[n - 1].dflt then n - 1 else DefaultOf(clauses, n - 1)
  }
}
