/** Which groups of mutations a node admits. */
module Fits {
  import opened Integers
  import opened Seqs
  import opened Syntax
  import opened Mutations
  import opened Operators
  import opened SwitchRewrite

  /** A group on an expression whose rewrite its shape admits. */
  ghost predicate FitsE(g: Group, e: Expr) {
    match g.key
    case KIntArith => e.Bin? && IsArith(e.op)
    case KIntBitwise => e.Bin? && IsBitwise(e.op)
    case KIntCmp => e.Bin? && IsCompare(e.op)
    case KBoolLogic => e.Logic?
    case KBoolNot => e.Not?
    case KStringLiteral => e.Lit?
    case KSliceIndex => e.Index?
    case KIntLiteral =>
      && e.Lit? && e.v.IntV? && InRange(e.v.t, e.v.n)
      && forall j :: 0 <= j < |g.cands| ==> g.cands[j].mutant.IntText? && InRange(e.v.t, g.cands[j].mutant.n)
    case KBoolLiteral => e.Lit? && e.v.BoolV?
    case KChanOp => e.Recv?
    case _ => IsWrapper(g.key)
  }

  /** The mutation's text is one that its dispatcher spells as intended. */
  ghost predicate TextFitsE(m: Mutation, e: Expr) {
    match KeyOf(m.oper)
    case KIntArith => m.mutant.OpText? && IsArith(m.mutant.op)
    case KIntBitwise => m.mutant.OpText? && IsBitwise(m.mutant.op)
    case KIntCmp => m.mutant.OpText? && IsCompare(m.mutant.op)
    case KSliceIndex => m.mutant == PlusOne || m.mutant == MinusOne
    case KSliceRange => m.mutant == PlusOne || m.mutant == MinusOne
    case KIntLiteral => m.mutant.IntText?
    case KBoolLiteral => e.Lit? && e.v.BoolV? && m.mutant == BoolText(!e.v.b)
    case _ => true
  }

  /** The text of a wrapping mutation spells what its dispatcher yields. */
  ghost predicate WrapTextFits(info: Info, m: Mutation) {
    match KeyOf(m.oper)
    case KErrReturn => m.mutant == NilText
    case KReturnZero => ZeroLabel(info.ty(m.node)) == Some(m.mutant)
    case KSliceRange => m.mutant == PlusOne || m.mutant == MinusOne
    case _ => true
  }

  /** The groups on one expression: distinct keys, and every one after the
      first a wrapper. */
  ghost predicate Stacked(gs: seq<Group>) {
    && (forall i, j :: 0 <= i < j < |gs| ==> gs[i].key != gs[j].key)
    && (forall i :: 0 < i < |gs| ==> IsWrapper(gs[i].key))
  }

  ghost predicate FitsS(g: Group, s: Stmt) {
    match g.key
    case KStmtSwap => s.IncDec? || s.Compound?
    case KChanOp => s.Send?
    case KCallDelete => s.CallStmt?
    case KSwitchCase =>
      && s.Switch? && s.swapped == -1 && ClausesOk(s.clauses) && s.clauses != []
      && SwapsInRange(g, s.clauses) && OneDropEach(g, s.clauses)
    case _ => false
  }

  /** Two drop candidates of a switch name different clauses. */
  ghost predicate OneDropEach(g: Group, clauses: seq<Clause>) {
    forall i, j :: 0 <= i < j < |g.cands| && !g.cands[i].mutant.SwapText? && !g.cands[j].mutant.SwapText? ==>
      IndexOf(clauses, g.cands[i].pos) != IndexOf(clauses, g.cands[j].pos)
  }

  ghost predicate TextFitsS(m: Mutation, s: Stmt) {
    match s
    case IncDec(_, _, inc) => m.mutant == IncText(!inc)
    case Compound(_, op, _, _) => m.mutant == OpText(CompoundSibling(op))
    case _ => true
  }

  lemma {:induction false} DropsAre(clauses: seq<Clause>, g: Group, k: nat, i: int)
    requires k <= |g.cands| == |g.ids| && OneDropEach(g, clauses)
    ensures i in Drops(clauses, g, k) <==>
              exists j :: 0 <= j < k && !g.cands[j].mutant.SwapText? && IndexOf(clauses, g.cands[j].pos) == i
    ensures forall j :: 0 <= j < k && !g.cands[j].mutant.SwapText? && IndexOf(clauses, g.cands[j].pos) == i ==>
              Drops(clauses, g, k)[i] == g.ids[j]
  {
    if k > 0 {
      DropsAre(clauses, g, k - 1, i);
    }
  }

  lemma {:induction false} IndexSame(xs: seq<Clause>, ys: seq<Clause>, pos: int)
    requires |xs| == |ys| && forall i :: 0 <= i < |xs| ==> xs[i].pos == ys[i].pos
    ensures IndexOf(xs, pos) == IndexOf(ys, pos)
  {
    if xs != [] {
      IndexSame(xs[..|xs| - 1], ys[..|ys| - 1], pos);
    }
  }

  lemma FitsSame(g: Group, s: Stmt, s1: Stmt)
    requires FitsS(g, s)
    requires s.IncDec? ==> s1.IncDec?
    requires s.Compound? ==> s1.Compound?
    requires s.Send? ==> s1.Send?
    requires s.CallStmt? ==> s1.CallStmt?
    requires s.Switch? ==>
               && s1.Switch? && s1.swapped == s.swapped && |s1.clauses| == |s.clauses|
               && forall i :: 0 <= i < |s.clauses| ==>
                    && s1.clauses[i].pos == s.clauses[i].pos && s1.clauses[i].dflt == s.clauses[i].dflt
                    && (s.clauses[i].list == [] ==> s1.clauses[i].list == [])
    ensures FitsS(g, s1)
  {
    if s.Switch? {
      forall pos {
        IndexSame(s.clauses, s1.clauses, pos);
      }
    }
  }
}
