/** The two trees that the correctness theorem compares: the schema, with every
    group's rewrite in place, and the program with one mutation applied. */
module Schema {
  import opened Seqs
  import opened Syntax
  import opened Mutations
  import opened Operators
  import opened SwitchRewrite

  type Groups = map<nat, seq<Group>>

  // ----- Statements at one call site -----

  function ApplyS(g: Group, s: Stmt): Stmt {
    match g.key
    case KStmtSwap =>
      if s.IncDec? then MutStmt(s, IncDec(s.id, s.lhs, !s.inc), g.ids)
      else if s.Compound? then MutStmt(s, Compound(s.id, CompoundSibling(s.op), s.lhs, s.rhs), g.ids)
      else s
    case KChanOp => if s.Send? then CallSkip(s, g.ids) else s
    case KCallDelete => if s.CallStmt? then CallSkip(s, g.ids) else s
    case KSwitchCase => if s.Switch? && |g.cands| == |g.ids| then RewriteSwitch(g, s) else s
    case _ => s
  }

  function ApplyAllS(gs: seq<Group>, s: Stmt): Stmt {
    if gs == [] then s else ApplyS(gs[|gs| - 1], ApplyAllS(gs[..|gs| - 1], s))
  }

  /** The statement a mutation turns s into. */
  function AlterS(m: Mutation, s: Stmt): Stmt {
    match KeyOf(m.oper)
    case KStmtSwap =>
      if s.IncDec? && m.mutant.IncText? then IncDec(s.id, s.lhs, m.mutant.inc)
      else if s.Compound? && m.mutant.OpText? then Compound(s.id, m.mutant.op, s.lhs, s.rhs)
      else s
    case KChanOp => Skip
    case KCallDelete => Skip
    case KSwitchCase =>
      if !s.Switch? || s.clauses == [] then s
      else
        var i := IndexOf(s.clauses, m.pos);
        if m.mutant.SwapText? then s.(swapped := i)
        else s.(clauses := s.clauses[i := s.clauses[i].(list := [])])
    case _ => s
  }

  // ----- The schema: a post-order rewrite -----

  function RwKidsE(info: Info, gm: Groups, e: Expr): Expr
    decreases e, 0
  {
    match e
    case Bin(id, op, l, r) => Bin(id, op, RwE(info, gm, l), RwE(info, gm, r))
    case Logic(id, a, l, r) => Logic(id, a, RwE(info, gm, l), RwE(info, gm, r))
    case Not(id, e1) => Not(id, RwE(info, gm, e1))
    case Index(id, b, i) => Index(id, RwE(info, gm, b), RwE(info, gm, i))
    case Slice(id, b, bounds) => Slice(id, RwE(info, gm, b), RwEs(info, gm, bounds))
    case Recv(id, ch) => Recv(id, RwE(info, gm, ch))
    case Call(id, f, args) => Call(id, f, RwEs(info, gm, args))
    case Composite(id, fs, vals) => Composite(id, fs, RwEs(info, gm, vals))
    case _ => e
  }

  function RwE(info: Info, gm: Groups, e: Expr): Expr
    decreases e, 1
  {
    var e1 := RwKidsE(info, gm, e);
    match ExprId(e)
    case Some(id) => if id in gm then ApplyAllE(info, id, gm[id], e1) else e1
    case None => e1
  }

  function RwEs(info: Info, gm: Groups, es: seq<Expr>): seq<Expr>
    decreases es, 0
  {
    if es == [] then [] else [RwE(info, gm, es[0])] + RwEs(info, gm, es[1..])
  }

  function RwL(info: Info, gm: Groups, l: Lhs): Lhs
    decreases l, 0
  {
    if l.LVar? then l
    else
      var l1 := LIndex(l.id, RwE(info, gm, l.base), RwE(info, gm, l.idx));
      if l.id in gm then ApplyAllL(gm[l.id], l1) else l1
  }

  function RwKidsS(info: Info, gm: Groups, s: Stmt): Stmt
    decreases s, 0
  {
    match s
    case ExprStmt(e) => ExprStmt(RwE(info, gm, e))
    case CallStmt(id, f, args) => CallStmt(id, f, RwEs(info, gm, args))
    case Assign(l, r) => Assign(RwL(info, gm, l), RwE(info, gm, r))
    case IncDec(id, l, inc) => IncDec(id, RwL(info, gm, l), inc)
    case Compound(id, op, l, r) => Compound(id, op, RwL(info, gm, l), RwE(info, gm, r))
    case Send(id, ch, v) => Send(id, RwE(info, gm, ch), RwE(info, gm, v))
    case If(cond, a, b) => If(RwE(info, gm, cond), RwSs(info, gm, a), RwSs(info, gm, b))
    case For(cond, post, body) => For(RwE(info, gm, cond), RwSs(info, gm, post), RwSs(info, gm, body))
    case Return(es) => Return(RwEs(info, gm, es))
    case Switch(id, tag, cs, swapped) =>
      Switch(id, if tag.Some? then Some(RwE(info, gm, tag.value)) else None, RwCs(info, gm, cs), swapped)
    case _ => s
  }

  function RwS(info: Info, gm: Groups, s: Stmt): Stmt
    decreases s, 1
  {
    var s1 := RwKidsS(info, gm, s);
    match StmtId(s)
    case Some(id) => if id in gm then ApplyAllS(gm[id], s1) else s1
    case None => s1
  }

  function RwSs(info: Info, gm: Groups, ss: seq<Stmt>): seq<Stmt>
    decreases ss, 0
  {
    if ss == [] then [] else [RwS(info, gm, ss[0])] + RwSs(info, gm, ss[1..])
  }

  function RwCs(info: Info, gm: Groups, cs: seq<Clause>): (r: seq<Clause>)
    ensures |r| == |cs|
    ensures forall i :: 0 <= i < |cs| ==> r[i].pos == cs[i].pos && r[i].dflt == cs[i].dflt
    ensures forall i :: 0 <= i < |cs| && cs[i].list == [] ==> r[i].list == []
    decreases cs, 0
  {
    if cs == [] then []
    else [Clause(cs[0].pos, cs[0].dflt, RwEs(info, gm, cs[0].list), RwSs(info, gm, cs[0].body))]
         + RwCs(info, gm, cs[1..])
  }

  function RwProg(info: Info, gm: Groups, p: Program): Program {
    map f | f in p :: Func(p[f].params, RwSs(info, gm, p[f].body))
  }

  // ----- One mutation applied -----

  type Target = Option<Mutation>

  predicate At(t: Target, id: Option<nat>) {
    t.Some? && id == Some(t.value.node)
  }

  function MutKidsE(info: Info, t: Target, e: Expr): Expr
    decreases e, 0
  {
    match e
    case Bin(id, op, l, r) => Bin(id, op, MutE(info, t, l), MutE(info, t, r))
    case Logic(id, a, l, r) => Logic(id, a, MutE(info, t, l), MutE(info, t, r))
    case Not(id, e1) => Not(id, MutE(info, t, e1))
    case Index(id, b, i) => Index(id, MutE(info, t, b), MutE(info, t, i))
    case Slice(id, b, bounds) => Slice(id, MutE(info, t, b), MutEs(info, t, bounds))
    case Recv(id, ch) => Recv(id, MutE(info, t, ch))
    case Call(id, f, args) => Call(id, f, MutEs(info, t, args))
    case Composite(id, fs, vals) => Composite(id, fs, MutEs(info, t, vals))
    case _ => e
  }

  function MutE(info: Info, t: Target, e: Expr): Expr
    decreases e, 1
  {
    var e1 := MutKidsE(info, t, e);
    if At(t, ExprId(e)) then AlterE(info, t.value, e1) else e1
  }

  function MutEs(info: Info, t: Target, es: seq<Expr>): seq<Expr>
    decreases es, 0
  {
    if es == [] then [] else [MutE(info, t, es[0])] + MutEs(info, t, es[1..])
  }

  function MutL(info: Info, t: Target, l: Lhs): Lhs
    decreases l, 0
  {
    if l.LVar? then l
    else
      var l1 := LIndex(l.id, MutE(info, t, l.base), MutE(info, t, l.idx));
      if At(t, Some(l.id)) then AlterL(t.value, l1) else l1
  }

  function MutKidsS(info: Info, t: Target, s: Stmt): Stmt
    decreases s, 0
  {
    match s
    case ExprStmt(e) => ExprStmt(MutE(info, t, e))
    case CallStmt(id, f, args) => CallStmt(id, f, MutEs(info, t, args))
    case Assign(l, r) => Assign(MutL(info, t, l), MutE(info, t, r))
    case IncDec(id, l, inc) => IncDec(id, MutL(info, t, l), inc)
    case Compound(id, op, l, r) => Compound(id, op, MutL(info, t, l), MutE(info, t, r))
    case Send(id, ch, v) => Send(id, MutE(info, t, ch), MutE(info, t, v))
    case If(cond, a, b) => If(MutE(info, t, cond), MutSs(info, t, a), MutSs(info, t, b))
    case For(cond, post, body) => For(MutE(info, t, cond), MutSs(info, t, post), MutSs(info, t, body))
    case Return(es) => Return(MutEs(info, t, es))
    case Switch(id, tag, cs, swapped) =>
      Switch(id, if tag.Some? then Some(MutE(info, t, tag.value)) else None, MutCs(info, t, cs), swapped)
    case _ => s
  }

  function MutS(info: Info, t: Target, s: Stmt): Stmt
    decreases s, 1
  {
    var s1 := MutKidsS(info, t, s);
    if At(t, StmtId(s)) then AlterS(t.value, s1) else s1
  }

  function MutSs(info: Info, t: Target, ss: seq<Stmt>): seq<Stmt>
    decreases ss, 0
  {
    if ss == [] then [] else [MutS(info, t, ss[0])] + MutSs(info, t, ss[1..])
  }

  function MutCs(info: Info, t: Target, cs: seq<Clause>): (r: seq<Clause>)
    ensures |r| == |cs|
    ensures forall i :: 0 <= i < |cs| ==> r[i].pos == cs[i].pos && r[i].dflt == cs[i].dflt
    ensures forall i :: 0 <= i < |cs| && cs[i].list == [] ==> r[i].list == []
    decreases cs, 0
  {
    if cs == [] then []
    else [Clause(cs[0].pos, cs[0].dflt, MutEs(info, t, cs[0].list), MutSs(info, t, cs[0].body))]
         + MutCs(info, t, cs[1..])
  }

  function MutProg(info: Info, t: Target, p: Program): Program {
    map f | f in p :: Func(p[f].params, MutSs(info, t, p[f].body))
  }

  // ----- Source programs -----

  /** Source trees hold none of the mutants' or the schema's own forms. */
  ghost predicate SourceE(e: Expr)
    decreases e, 0
  {
    match e
    case Lit(_, _) => true
    case Var(_, _) => true
    case Absent => true
    case Bin(_, _, l, r) => SourceE(l) && SourceE(r)
    case Logic(_, _, l, r) => SourceE(l) && SourceE(r)
    case Not(_, e1) => SourceE(e1)
    case Index(_, b, i) => SourceE(b) && SourceE(i)
    case Slice(_, b, bounds) => SourceE(b) && SourceEs(bounds)
    case Recv(_, ch) => SourceE(ch)
    case Call(_, _, args) => SourceEs(args)
    case Composite(_, _, vals) => SourceEs(vals)
    case _ => false
  }

  ghost predicate SourceEs(es: seq<Expr>)
    decreases es, 0
  {
    es == [] || (SourceE(es[0]) && SourceEs(es[1..]))
  }

  ghost predicate SourceL(l: Lhs)
    decreases l, 0
  {
    l.LIndex? ==> SourceE(l.base) && SourceE(l.idx)
  }

  ghost predicate PositionsDistinct(cs: seq<Clause>) {
    forall i, j :: 0 <= i < j < |cs| ==> cs[i].pos != cs[j].pos
  }

  ghost predicate SourceS(s: Stmt)
    decreases s, 0
  {
    match s
    case ExprStmt(e) => SourceE(e)
    case CallStmt(_, _, args) => SourceEs(args)
    case Assign(l, r) => SourceL(l) && SourceE(r)
    case IncDec(_, l, _) => SourceL(l)
    case Compound(_, op, l, r) => SourceL(l) && SourceE(r)
    case Send(_, ch, v) => SourceE(ch) && SourceE(v)
    case If(cond, a, b) => SourceE(cond) && SourceSs(a) && SourceSs(b)
    case For(cond, post, body) => SourceE(cond) && SourceSs(post) && SourceSs(body)
    case Return(es) => SourceEs(es)
    case Switch(_, tag, cs, swapped) =>
      && (tag.Some? ==> SourceE(tag.value)) && SourceCs(cs)
      && swapped == -1 && ClausesOk(cs) && PositionsDistinct(cs)
    case Break => true
    case Continue => true
    case Fallthrough => true
    case _ => false
  }

  ghost predicate SourceSs(ss: seq<Stmt>)
    decreases ss, 0
  {
    ss == [] || (SourceS(ss[0]) && SourceSs(ss[1..]))
  }

  ghost predicate SourceCs(cs: seq<Clause>)
    decreases cs, 0
  {
    cs == [] || (SourceEs(cs[0].list) && SourceSs(cs[0].body) && SourceCs(cs[1..]))
  }

  ghost predicate SourceProg(p: Program) {
    forall f :: f in p ==> SourceSs(p[f].body)
  }

  // ----- Without a mutation nothing changes -----

  lemma MutNoneE(info: Info, e: Expr)
    ensures MutE(info, None, e) == e
    decreases e, 0
  {
    match e
    case Bin(_, _, l, r) => MutNoneE(info, l); MutNoneE(info, r);
    case Logic(_, _, l, r) => MutNoneE(info, l); MutNoneE(info, r);
    case Not(_, e1) => MutNoneE(info, e1);
    case Index(_, b, i) => MutNoneE(info, b); MutNoneE(info, i);
    case Slice(_, b, bounds) => MutNoneE(info, b); MutNoneEs(info, bounds);
    case Recv(_, ch) => MutNoneE(info, ch);
    case Call(_, _, args) => MutNoneEs(info, args);
    case Composite(_, _, vals) => MutNoneEs(info, vals);
    case _ =>
  }

  lemma MutNoneEs(info: Info, es: seq<Expr>)
    ensures MutEs(info, None, es) == es
    decreases es, 0
  {
    if es != [] {
      MutNoneE(info, es[0]);
      MutNoneEs(info, es[1..]);
    }
  }

  lemma MutNoneL(info: Info, l: Lhs)
    ensures MutL(info, None, l) == l
  {
    if l.LIndex? {
      MutNoneE(info, l.base);
      MutNoneE(info, l.idx);
    }
  }

  lemma MutNoneS(info: Info, s: Stmt)
    ensures MutS(info, None, s) == s
    decreases s, 0
  {
    match s
    case ExprStmt(e) => MutNoneE(info, e);
    case CallStmt(_, _, args) => MutNoneEs(info, args);
    case Assign(l, r) => MutNoneL(info, l); MutNoneE(info, r);
    case IncDec(_, l, _) => MutNoneL(info, l);
    case Compound(_, _, l, r) => MutNoneL(info, l); MutNoneE(info, r);
    case Send(_, ch, v) => MutNoneE(info, ch); MutNoneE(info, v);
    case If(cond, a, b) => MutNoneE(info, cond); MutNoneSs(info, a); MutNoneSs(info, b);
    case For(cond, post, body) => MutNoneE(info, cond); MutNoneSs(info, post); MutNoneSs(info, body);
    case Return(es) => MutNoneEs(info, es);
    case Switch(_, tag, cs, _) =>
      if tag.Some? {
        MutNoneE(info, tag.value);
      }
      MutNoneCs(info, cs);
    case _ =>
  }

  lemma MutNoneSs(info: Info, ss: seq<Stmt>)
    ensures MutSs(info, None, ss) == ss
    decreases ss, 0
  {
    if ss != [] {
      MutNoneS(info, ss[0]);
      MutNoneSs(info, ss[1..]);
    }
  }

  lemma MutNoneCs(info: Info, cs: seq<Clause>)
    ensures MutCs(info, None, cs) == cs
    decreases cs, 0
  {
    if cs != [] {
      MutNoneEs(info, cs[0].list);
      MutNoneSs(info, cs[0].body);
      MutNoneCs(info, cs[1..]);
    }
  }

  lemma MutNoneProg(info: Info, p: Program)
    ensures MutProg(info, None, p) == p
  {
    forall f | f in p
      ensures MutProg(info, None, p)[f] == p[f]
    {
      MutNoneSs(info, p[f].body);
    }
  }
}
