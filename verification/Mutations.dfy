/** Operators, candidates and mutations as the rewriter passes them around. */
module Mutations {
  import opened Integers
  import opened IntLiterals
  import opened Syntax

  const INT: IntTy := IntTy(64, true)
  const UINT: IntTy := IntTy(64, false)

  datatype Operator =
    | IntArith | IntCmpBoundary | IntCmpNegate | BoolLogic | BoolNot
    | ErrReturnNil | CallDelete | StringLiteral | SliceIndex | SliceRange
    | IncDecSwap | IntCompoundAssign | IntBitwise | IntLiteral | ReturnZero
    | BoolLiteral | StructFieldZero | ChanOp | SwitchCase

  /** Candidates of operators with one key on one node share a call site. */
  datatype Key =
    | KIntArith | KIntCmp | KBoolLogic | KBoolNot | KErrReturn | KCallDelete
    | KStringLiteral | KSliceIndex | KSliceRange | KStmtSwap | KIntBitwise
    | KIntLiteral | KReturnZero | KBoolLiteral | KChanOp | KSwitchCase

  function KeyOf(op: Operator): Key {
    match op
    case IntArith => KIntArith
    case IntCmpBoundary => KIntCmp
    case IntCmpNegate => KIntCmp
    case BoolLogic => KBoolLogic
    case BoolNot => KBoolNot
    case ErrReturnNil => KErrReturn
    case CallDelete => KCallDelete
    case StringLiteral => KStringLiteral
    case SliceIndex => KSliceIndex
    case SliceRange => KSliceRange
    case IncDecSwap => KStmtSwap
    case IntCompoundAssign => KStmtSwap
    case IntBitwise => KIntBitwise
    case IntLiteral => KIntLiteral
    case ReturnZero => KReturnZero
    case BoolLiteral => KBoolLiteral
    case StructFieldZero => KReturnZero
    case ChanOp => KChanOp
    case SwitchCase => KSwitchCase
  }

  /** The keys whose operators are Wrappers: they wrap an expression of any
      shape.  Every other operator inspects the node it replaces. */
  predicate IsWrapper(k: Key) {
    k in {KErrReturn, KSliceRange, KReturnZero}
  }

  /** A candidate's replacement text. */
  datatype MutText =
    | OpText(op: BinOp) | LogicText(isAnd: bool) | IncText(inc: bool)
    | IntText(n: int) | BoolText(b: bool)
    | PlusOne | MinusOne | ZeroText | NilText | EmptyText | SwapText

  /** pos tells candidates on one switch apart: it is the `case` keyword of the
      clause that is dropped, or of the first of the two that are swapped. */
  datatype Cand = Cand(node: nat, pos: int, mutant: MutText)

  datatype Mutation = Mutation(id: int, oper: Operator, node: nat, pos: int, mutant: MutText)

  /** The candidates of one key on one node; cands[i] has ID ids[i]. */
  datatype Group = Group(key: Key, ids: seq<int>, cands: seq<Cand>)

  /** What the type checker says of an expression's static type.  A plain type
      is the predeclared one: a defined type such as `type MyInt int` has the
      kind of its underlying type and is not plain.  TString is the predeclared
      string.  PlainInt and PlainUint stand for int, and for uint and uintptr;
      the operators single out int alone. */
  datatype Ty = TInt(kind: Kind, plain: bool) | TBool(plain: bool) | TString | TError | TNilable | TOther

  /** The type checker's answers, by node id: static types, and whether an
      operator's type conditions hold at a node. */
  datatype Info = Info(ty: nat -> Ty, ok: (Operator, nat) -> bool, pos: (Operator, nat) -> int, word: Word)

  /** The value that a replacement text spells, where it replaces a value. */
  function Spelled(info: Info, m: MutText): Value {
    match m
    case IntText(n) => IntV(OnTarget(PlainInt, info.word), n)
    case BoolText(b) => BoolV(b)
    case EmptyText => StrV("")
    case _ => NilV
  }

  /** The zero value of a type. */
  function Zero(info: Info, t: Ty): Value {
    match t
    case TInt(k, _) => IntV(OnTarget(k, info.word), 0)
    case TBool(_) => BoolV(false)
    case TString => StrV("")
    case _ => NilV
  }
}
