/** The mutation operators: where each finds candidates, how each rewrites its
    node into a dispatcher call, and the mutant each candidate stands for. */
module Operators {
  import opened Integers
  import opened IntLiterals
  import opened Seqs
  import opened Syntax
  import opened Mutations

  datatype Node = NodeE(e: Expr) | NodeL(l: Lhs) | NodeS(s: Stmt)

  // ----- Inspecting a tree -----

  /** Every node of a source tree in the order a walk visits it. */
  function NodesE(e: Expr): seq<Node>
    decreases e, 0
  {
    [NodeE(e)] + (
      match e
      case Bin(_, _, l, r) => NodesE(l) + NodesE(r)
      case Logic(_, _, l, r) => NodesE(l) + NodesE(r)
      case Not(_, e1) => NodesE(e1)
      case Index(_, b, i) => NodesE(b) + NodesE(i)
      case Slice(_, b, bounds) => NodesE(b) + NodesEs(bounds)
      case Recv(_, ch) => NodesE(ch)
      case Call(_, _, args) => NodesEs(args)
      case Composite(_, _, vals) => NodesEs(vals)
      case _ => [])
  }

  function NodesEs(es: seq<Expr>): seq<Node>
    decreases es, 0
  {
    if es == [] then [] else NodesE(es[0]) + NodesEs(es[1..])
  }

  function NodesL(l: Lhs): seq<Node>
    decreases l, 0
  {
    [NodeL(l)] + (if l.LIndex? then NodesE(l.base) + NodesE(l.idx) else [])
  }

  function NodesS(s: Stmt): seq<Node>
    decreases s, 0
  {
    [NodeS(s)] + (
      match s
      case ExprStmt(e) => NodesE(e)
      case CallStmt(_, _, args) => NodesEs(args)
      case Assign(l, r) => NodesL(l) + NodesE(r)
      case IncDec(_, l, _) => NodesL(l)
      case Compound(_, _, l, r) => NodesL(l) + NodesE(r)
      case Send(_, ch, v) => NodesE(ch) + NodesE(v)
      case If(cond, thn, els) => NodesE(cond) + NodesSs(thn) + NodesSs(els)
      case For(cond, post, body) => NodesE(cond) + NodesSs(post) + NodesSs(body)
      case Return(es) => NodesEs(es)
      case Switch(_, tag, clauses, _) => (if tag.Some? then NodesE(tag.value) else []) + NodesCs(clauses)
      case _ => [])
  }

  function NodesSs(ss: seq<Stmt>): seq<Node>
    decreases ss, 0
  {
    if ss == [] then [] else NodesS(ss[0]) + NodesSs(ss[1..])
  }

  function NodesCs(cs: seq<Clause>): seq<Node>
    decreases cs, 0
  {
    if cs == [] then [] else NodesEs(cs[0].list) + NodesSs(cs[0].body) + NodesCs(cs[1..])
  }

  function NodeId(n: Node): Option<nat> {
    match n
    case NodeE(e) => ExprId(e)
    case NodeL(LIndex(id, _, _)) => Some(id)
    case NodeL(_) => None
    case NodeS(s) => StmtId(s)
  }

  function ExprId(e: Expr): Option<nat> {
    if e.Lit? || e.Var? || e.Bin? || e.Logic? || e.Not? || e.Index? || e.Slice? || e.Recv? || e.Call? || e.Composite?
    then Some(e.id) else None
  }

  function StmtId(s: Stmt): Option<nat> {
    if s.CallStmt? || s.IncDec? || s.Compound? || s.Send? || s.Switch? then Some(s.id) else None
  }

  // ----- The operators' tables -----

  function ArithSibling(op: BinOp): BinOp {
    match op
    case Add => Sub
    case Sub => Add
    case Mul => Quo
    case _ => Mul
  }

  function BitSibling(op: BinOp): BinOp {
    match op
    case And => Or
    case Shl => Shr
    case Shr => Shl
    case _ => And
  }

  function BoundarySibling(op: BinOp): BinOp {
    match op
    case Lt => Le
    case Le => Lt
    case Gt => Ge
    case _ => Gt
  }

  function Negated(op: BinOp): BinOp {
    match op
    case Lt => Ge
    case Gt => Le
    case Le => Gt
    case Ge => Lt
    case Eq => Ne
    case _ => Eq
  }

  function CompoundSibling(op: BinOp): BinOp {
    if IsArith(op) then ArithSibling(op) else BitSibling(op)
  }

  // ----- Find -----

  function Offsets(id: nat, pos: int): seq<Cand> {
    [Cand(id, pos, PlusOne), Cand(id, pos, MinusOne)]
  }

  function ZeroLabel(t: Ty): Option<MutText> {
    match t
    case TInt(PlainInt, true) => Some(IntText(0))
    case TString => Some(EmptyText)
    case TBool(true) => Some(BoolText(false))
    case TNilable => Some(NilText)
    case _ => None
  }

  /** Shapes that other operators own are left alone, as are false, true and
      nil. */
  predicate ZeroableShape(e: Expr) {
    !e.Bin? && !e.Logic? && !e.Not? && !e.Recv? && !e.Lit? && !e.Absent?
  }

  function ZeroCands(info: Info, op: Operator, e: Expr): seq<Cand> {
    if ExprId(e).None? || !ZeroableShape(e) || !info.ok(op, e.id) then []
    else match ZeroLabel(info.ty(e.id))
      case Some(m) => [Cand(e.id, info.pos(op, e.id), m)]
      case None => []
  }

  function ErrCands(info: Info, e: Expr): seq<Cand> {
    if ExprId(e).None? || (e.Lit? && e.v.NilV?) || info.ty(e.id) != TError then []
    else [Cand(e.id, info.pos(ErrReturnNil, e.id), NilText)]
  }

  function BoundCands(info: Info, e: Expr): seq<Cand> {
    if ExprId(e).None? || !info.ok(SliceRange, e.id) then [] else Offsets(e.id, info.pos(SliceRange, e.id))
  }

  /** A wrapping operator's candidates for one of the expressions it looks at. */
  function WrapCands(info: Info, op: Operator, e: Expr): seq<Cand> {
    if op == ErrReturnNil then ErrCands(info, e)
    else if op == SliceRange then BoundCands(info, e)
    else ZeroCands(info, op, e)
  }

  function Collect(info: Info, op: Operator, es: seq<Expr>): seq<Cand> {
    if es == [] then [] else WrapCands(info, op, es[0]) + Collect(info, op, es[1..])
  }

  function IntTexts(id: nat, pos: int, vs: seq<int>): seq<Cand> {
    seq(|vs|, i requires 0 <= i < |vs| => Cand(id, pos, IntText(vs[i])))
  }

  predicate HasDefault(clauses: seq<Clause>) {
    exists i :: 0 <= i < |clauses| && clauses[i].dflt
  }

  /** One drop per case clause, except an empty last one of a switch without a
      default, whose drop changes nothing. */
  function DropCands(id: nat, clauses: seq<Clause>, i: nat): seq<Cand>
    requires i <= |clauses|
    decreases |clauses| - i
  {
    if i == |clauses| then []
    else
      var c := clauses[i];
      (if c.dflt || (c.body == [] && !HasDefault(clauses) && i == |clauses| - 1) then []
       else [Cand(id, c.pos, EmptyText)]) + DropCands(id, clauses, i + 1)
  }

  /** One swap per pair of neighbours whose bodies print differently. */
  function SwapCands(same: (int, int) -> bool, id: nat, clauses: seq<Clause>, i: nat): seq<Cand>
    requires i <= |clauses|
    decreases |clauses| - i
  {
    if i + 1 >= |clauses| then []
    else (if same(clauses[i].pos, clauses[i + 1].pos) then [] else [Cand(id, clauses[i].pos, SwapText)])
         + SwapCands(same, id, clauses, i + 1)
  }

  function CandsAtE(info: Info, op: Operator, e: Expr): seq<Cand> {
    if ExprId(e).None? then [] else
    var id := e.id;
    var pos := info.pos(op, id);
    var ok := info.ok(op, id);
    match op
    case IntArith => if e.Bin? && IsArith(e.op) && ok then [Cand(id, pos, OpText(ArithSibling(e.op)))] else []
    case IntBitwise => if e.Bin? && IsBitwise(e.op) && ok then [Cand(id, pos, OpText(BitSibling(e.op)))] else []
    case IntCmpBoundary =>
      if e.Bin? && e.op in {Lt, Le, Gt, Ge} && ok then [Cand(id, pos, OpText(BoundarySibling(e.op)))] else []
    case IntCmpNegate =>
      if e.Bin? && IsCompare(e.op) && ok then [Cand(id, pos, OpText(Negated(e.op)))] else []
    case BoolLogic => if e.Logic? && ok then [Cand(id, pos, LogicText(!e.isAnd))] else []
    case BoolNot => if e.Not? && ok then [Cand(id, pos, EmptyText)] else []
    case StringLiteral =>
      if e.Lit? && e.v.StrV? && e.v.s != "" && ok then [Cand(id, pos, EmptyText)] else []
    case BoolLiteral => if e.Lit? && e.v.BoolV? && ok then [Cand(id, pos, BoolText(!e.v.b))] else []
    case IntLiteral =>
      if e.Lit? && e.v.IntV? && ok && info.ty(id).TInt?
      then IntTexts(id, pos, MutantValues(e.v.n, info.ty(id).kind)) else []
    case SliceIndex => if e.Index? && ok then Offsets(id, pos) else []
    case SliceRange => if e.Slice? then Collect(info, op, e.bounds) else []
    case StructFieldZero => if e.Composite? then Collect(info, op, e.vals) else []
    case ChanOp => if e.Recv? && ok then [Cand(id, pos, ZeroText)] else []
    case _ => []
  }

  function CandsAtS(info: Info, same: (int, int) -> bool, op: Operator, s: Stmt): seq<Cand> {
    match s
    case Return(es) => if op in {ErrReturnNil, ReturnZero} then Collect(info, op, es) else []
    case CallStmt(id, _, _) =>
      if op == CallDelete && info.ok(op, id) then [Cand(id, info.pos(op, id), EmptyText)] else []
    case IncDec(id, _, inc) =>
      if op == IncDecSwap && info.ok(op, id) then [Cand(id, info.pos(op, id), IncText(!inc))] else []
    case Compound(id, o, _, _) =>
      if op == IntCompoundAssign && (IsArith(o) || IsBitwise(o)) && info.ok(op, id)
      then [Cand(id, info.pos(op, id), OpText(CompoundSibling(o)))] else []
    case Send(id, _, _) => if op == ChanOp then [Cand(id, info.pos(op, id), EmptyText)] else []
    case Switch(id, _, clauses, _) =>
      if op == SwitchCase && info.ok(op, id) then DropCands(id, clauses, 0) + SwapCands(same, id, clauses, 0) else []
    case _ => []
  }

  function CandsAt(info: Info, same: (int, int) -> bool, op: Operator, n: Node): seq<Cand> {
    match n
    case NodeE(e) => CandsAtE(info, op, e)
    case NodeL(LIndex(id, _, _)) =>
      if op == SliceIndex && info.ok(op, id) then Offsets(id, info.pos(op, id)) else []
    case NodeL(_) => []
    case NodeS(s) => CandsAtS(info, same, op, s)
  }

  /** An operator's candidates in a file, in walk order. */
  function Find(info: Info, same: (int, int) -> bool, op: Operator, ns: seq<Node>): seq<Cand> {
    if ns == [] then [] else CandsAt(info, same, op, ns[0]) + Find(info, same, op, ns[1..])
  }

  // ----- Rewrite -----

  /** value * (1 >> sel), a term of a sized literal's sum.  Its constants take
      the literal's type from the context. */
  function Term(t: IntTy, n: int, sel: Disp, ids: seq<int>): Expr {
    Bin(0, Mul, Lit(0, IntV(t, n)), Bin(0, Shr, Lit(0, IntV(t, 1)), Dispatch(sel, [], ids)))
  }

  /** The sum over the first k candidates; a zero value adds no term. */
  function LitSum(t: IntTy, n: int, g: Group, k: nat): Expr
    requires k <= |g.cands| == |g.ids|
  {
    if k == 0 then Term(t, n, LitOff, g.ids)
    else
      var m := g.cands[k - 1].mutant;
      if !m.IntText? || m.n == 0 then LitSum(t, n, g, k - 1)
      else Bin(0, Add, LitSum(t, n, g, k - 1), Term(t, m.n, LitOn, [g.ids[k - 1]]))
  }

  /** The literal operator's group rewrite, with its accumulating loop. */
  method RewriteLiteral(plain: bool, lit: Expr, g: Group) returns (r: Expr)
    requires lit.Lit? && lit.v.IntV? && |g.cands| == |g.ids|
    ensures r == if plain then Dispatch(MutIntLit, [lit], g.ids) else LitSum(lit.v.t, lit.v.n, g, |g.cands|)
  {
    if plain {
      return Dispatch(MutIntLit, [lit], g.ids);
    }
    r := Term(lit.v.t, lit.v.n, LitOff, g.ids);
    for i := 0 to |g.cands|
      invariant r == LitSum(lit.v.t, lit.v.n, g, i)
    {
      if g.cands[i].mutant.IntText? && g.cands[i].mutant.n != 0 {
        r := Bin(0, Add, r, Term(lit.v.t, g.cands[i].mutant.n, LitOn, [g.ids[i]]));
      }
    }
  }

  /** The expression that replaces e, whose id is n, at group g's call site.
      A group whose operator cannot rewrite e's shape leaves it alone here; the
      source would panic, and Emission.ExprFits shows neither happens. */
  function ApplyE(info: Info, n: nat, g: Group, e: Expr): Expr {
    match g.key
    case KIntArith => if e.Bin? then Dispatch(MutInt(e.op), [e.l, e.r], g.ids) else e
    case KIntBitwise => if e.Bin? then Dispatch(MutIntBit(e.op), [e.l, e.r], g.ids) else e
    case KIntCmp => if e.Bin? then Dispatch(MutIntCmp(e.op), [e.l, e.r], g.ids) else e
    case KBoolLogic => if e.Logic? then MutBool(e.l, e.r, e.isAnd, g.ids) else e
    case KBoolNot => if e.Not? then Dispatch(MutNot, [e.e], g.ids) else e
    case KErrReturn => Dispatch(MutErr, [e], g.ids)
    case KStringLiteral => Dispatch(MutString, [e], g.ids)
    case KSliceIndex => if e.Index? then Index(e.id, e.base, Dispatch(MutIdx, [e.idx], g.ids)) else e
    case KSliceRange => Dispatch(MutIdx, [e], g.ids)
    case KIntLiteral =>
      if !(e.Lit? && e.v.IntV? && |g.cands| == |g.ids|) then e
      else if info.ty(n) == TInt(PlainInt, true) then Dispatch(MutIntLit, [e], g.ids)
      else LitSum(e.v.t, e.v.n, g, |g.cands|)
    case KReturnZero => Dispatch(MutRetZero(Zero(info, info.ty(n))), [e], g.ids)
    case KBoolLiteral =>
      var call := Dispatch(MutBoolLit, [e], g.ids);
      if info.ty(n) == TBool(true) then call else Bin(0, Eq, call, Lit(0, BoolV(true)))
    case KChanOp => if e.Recv? then Dispatch(MutRecv(Zero(info, info.ty(n))), [e.ch], g.ids) else e
    case _ => e
  }

  function ApplyL(g: Group, l: Lhs): Lhs {
    if g.key == KSliceIndex && l.LIndex? then LIndex(l.id, l.base, Dispatch(MutIdx, [l.idx], g.ids)) else l
  }

  /** Groups are applied first to last, each around the result so far. */
  function ApplyAllE(info: Info, n: nat, gs: seq<Group>, e: Expr): Expr {
    if gs == [] then e else ApplyE(info, n, gs[|gs| - 1], ApplyAllE(info, n, gs[..|gs| - 1], e))
  }

  function ApplyAllL(gs: seq<Group>, l: Lhs): Lhs {
    if gs == [] then l else ApplyL(gs[|gs| - 1], ApplyAllL(gs[..|gs| - 1], l))
  }

  // ----- The mutants themselves -----

  function Delta(m: MutText): int { if m == PlusOne then 1 else -1 }

  /** The expression a shape-specific mutation turns e into. */
  function AlterShapeE(info: Info, m: Mutation, e: Expr): Expr {
    match KeyOf(m.oper)
    case KIntArith => if e.Bin? && m.mutant.OpText? then e.(op := m.mutant.op) else e
    case KIntBitwise => if e.Bin? && m.mutant.OpText? then e.(op := m.mutant.op) else e
    case KIntCmp => if e.Bin? && m.mutant.OpText? then e.(op := m.mutant.op) else e
    case KBoolLogic => if e.Logic? then Logic(e.id, m.mutant == LogicText(true), e.l, e.r) else e
    case KBoolNot => if e.Not? then e.e else e
    case KStringLiteral => Lit(m.node, StrV(""))
    case KSliceIndex => if e.Index? then e.(idx := AddConst(e.idx, Delta(m.mutant))) else e
    case KIntLiteral => if e.Lit? && e.v.IntV? && m.mutant.IntText? then Lit(m.node, IntV(e.v.t, m.mutant.n)) else e
    case KBoolLiteral => if m.mutant.BoolText? then Lit(m.node, BoolV(m.mutant.b)) else e
    case KChanOp => if e.Recv? then Discard(e.ch, Zero(info, info.ty(m.node))) else e
    case _ => e
  }

  /** The expression a wrapping mutation turns e into: e is still evaluated. */
  function AlterWrapE(info: Info, m: Mutation, e: Expr): Expr {
    match KeyOf(m.oper)
    case KErrReturn => Discard(e, Spelled(info, m.mutant))
    case KSliceRange => AddConst(e, Delta(m.mutant))
    case KReturnZero => Discard(e, Spelled(info, m.mutant))
    case _ => e
  }

  function AlterE(info: Info, m: Mutation, e: Expr): Expr {
    if IsWrapper(KeyOf(m.oper)) then AlterWrapE(info, m, e) else AlterShapeE(info, m, e)
  }

  function AlterL(m: Mutation, l: Lhs): Lhs {
    if KeyOf(m.oper) == KSliceIndex && l.LIndex? then l.(idx := AddConst(l.idx, Delta(m.mutant))) else l
  }
}
