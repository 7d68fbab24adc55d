/** A big-step evaluator, left to right, that threads local variables and a
    trace of everything observable: variable accesses, calls, memory and
    channel operations.  Memory, channels and functions outside the program
    answer as an arbitrary function of that trace. */
module Semantics {
  import opened Syntax
  import opened Mutations
  import opened Seqs

  datatype Event =
    | Read(x: string) | Write(x: string, v: Value)
    | Enter(f: string, args: seq<Value>)
    | Invoke(f: string, args: seq<Value>)
    | Load(base: Value, idx: Value) | Store(base: Value, idx: Value, v: Value)
    | SliceOf(base: Value, bounds: seq<Value>)
    | Make(fields: seq<string>, vals: seq<Value>)
    | Receive(ch: Value) | Sent(ch: Value, v: Value)

  datatype Reply = Gives(v: Value) | Faults(v: Value) | Blocks

  type World = (seq<Event>, Event) -> Reply

  datatype State = State(env: map<string, Value>, trace: seq<Event>) {
    function Log(e: Event): State { this.(trace := trace + [e]) }
  }

  datatype Why = Panicked(v: Value) | Blocked | OutOfFuel

  datatype Out<+T> = Val(st: State, v: T) | Stop(trace: seq<Event>, why: Why) {
    predicate IsFailure() { Stop? }
    function PropagateFailure<U>(): Out<U>
      requires Stop?
    {
      Stop(trace, why)
    }
    function Extract(): (State, T)
      requires Val?
    {
      (st, v)
    }
  }

  datatype Ctl = Next | Brk | Cnt | Fall | Ret(vals: seq<Value>)

  datatype Place = PVar(x: string) | PIdx(base: Value, idx: Value)

  /** What a run is relative to: the active mutant, the generated dispatchers'
      cases, the package's functions and the rest of the world. */
  datatype Ctx = Ctx(active: int, cases: map<int, Mutation>, prog: Program, world: World)

  function Lift(r: Res, st: State): Out<Value> {
    match r
    case Ok(v) => Val(st, v)
    case Bad(v) => Stop(st.trace, Panicked(v))
  }

  function Ask(c: Ctx, e: Event, st: State): Out<Value> {
    match c.world(st.trace, e)
    case Gives(v) => Val(st.Log(e), v)
    case Faults(v) => Stop(st.trace + [e], Panicked(v))
    case Blocks => Stop(st.trace + [e], Blocked)
  }

  // ----- The generated dispatchers -----

  /** The case that a dispatcher holding `opers`' mutants runs: an ID of the
      call site is active and the dispatcher has a case for it. */
  function Chosen(c: Ctx, opers: set<Operator>, ids: seq<int>): Option<MutText> {
    if c.active in ids && c.active in c.cases && c.cases[c.active].oper in opers
    then Some(c.cases[c.active].mutant) else None
  }

  predicate IsActive(c: Ctx, ids: seq<int>) { c.active in ids }

  function ArithText(t: MutText): BinOp { if t.OpText? && IsArith(t.op) then t.op else Add }
  function BitText(t: MutText): BinOp { if t.OpText? && IsBitwise(t.op) then t.op else And }
  function CmpText(t: MutText): BinOp { if t.OpText? && IsCompare(t.op) then t.op else Lt }

  const UNKNOWN_OP := Bad(StrV("unknown op"))

  function RunDisp(c: Ctx, d: Disp, vs: seq<Value>, ids: seq<int>): Res
    requires !d.MutRecv?
  {
    match d
    case MutInt(op) =>
      if |vs| != 2 then ILL_TYPED else
      (match Chosen(c, {IntArith}, ids)
       case Some(t) => ApplyBin(ArithText(t), vs[0], vs[1])
       case None => if IsArith(op) then ApplyBin(op, vs[0], vs[1]) else UNKNOWN_OP)
    case MutIntBit(op) =>
      if |vs| != 2 then ILL_TYPED else
      (match Chosen(c, {IntBitwise}, ids)
       case Some(t) => ApplyBin(BitText(t), vs[0], vs[1])
       case None => if IsBitwise(op) then ApplyBin(op, vs[0], vs[1]) else UNKNOWN_OP)
    case MutIntCmp(op) =>
      if |vs| != 2 then ILL_TYPED else
      (match Chosen(c, {IntCmpBoundary, IntCmpNegate}, ids)
       case Some(t) => ApplyBin(CmpText(t), vs[0], vs[1])
       case None => if IsCompare(op) then ApplyBin(op, vs[0], vs[1]) else UNKNOWN_OP)
    case LitOff => Ok(IntV(UINT, if IsActive(c, ids) then 1 else 0))
    case LitOn => Ok(IntV(UINT, if IsActive(c, ids) then 0 else 1))
    case _ =>
      if |vs| != 1 then ILL_TYPED else RunDisp1(c, d, vs[0], ids)
  }

  function RunDisp1(c: Ctx, d: Disp, v: Value, ids: seq<int>): Res {
    match d
    case MutNot => Ok(if Chosen(c, {BoolNot}, ids).Some? then v else BoolV(v != BoolV(true)))
    case MutErr => Ok(if Chosen(c, {ErrReturnNil}, ids).Some? then NilV else v)
    case MutIdx =>
      (match Chosen(c, {SliceIndex, SliceRange}, ids)
       case Some(PlusOne) => AddTo(v, 1)
       case Some(MinusOne) => AddTo(v, -1)
       case _ => Ok(v))
    case MutString => Ok(if IsActive(c, ids) then StrV("") else v)
    case MutIntLit =>
      (match Chosen(c, {IntLiteral}, ids)
       case Some(IntText(n)) => if v.IntV? then Ok(IntV(v.t, n)) else ILL_TYPED
       case _ => Ok(v))
    case MutBoolLit => Ok(if IsActive(c, ids) then BoolV(v != BoolV(true)) else v)
    case MutRetZero(zero) => Ok(if IsActive(c, ids) then zero else v)
    case MutSwap(a, b) =>
      Ok(if IsActive(c, ids) && v.IntV? then IntV(v.t, if v.n == a then b else if v.n == b then a else v.n) else v)
    case _ => ILL_TYPED
  }

  // ----- Places -----

  function LoadFrom(c: Ctx, p: Place, st: State): Out<Value> {
    match p
    case PVar(x) => ReadVar(x, st)
    case PIdx(b, i) => Ask(c, Load(b, i), st)
  }

  function StoreTo(c: Ctx, p: Place, v: Value, st: State): Out<Ctl> {
    match p
    case PVar(x) => Val(State(st.env[x := v], st.trace + [Write(x, v)]), Next)
    case PIdx(b, i) =>
      var (s, _) :- Ask(c, Store(b, i, v), st);
      Val(s, Next)
  }

  function ReadVar(x: string, st: State): Out<Value> {
    if x in st.env then Val(st.Log(Read(x)), st.env[x]) else Stop(st.trace, Panicked(StrV("undefined")))
  }

  function Bind(params: seq<string>, vs: seq<Value>): map<string, Value>
    requires |params| == |vs|
  {
    if params == [] then map[] else Bind(params[1..], vs[1..])[params[0] := vs[0]]
  }

  function Pack(vs: seq<Value>): Value {
    if |vs| == 1 then vs[0] else TupleV(vs)
  }

  // ----- Expressions -----

  function Eval(c: Ctx, fuel: nat, e: Expr, st: State): Out<Value>
    decreases fuel, 1, e, 0
  {
    match e
    case Lit(_, v) => Val(st, v)
    case Var(_, x) => ReadVar(x, st)
    case Bin(_, op, l, r) =>
      var (s1, a) :- Eval(c, fuel, l, st);
      var (s2, b) :- Eval(c, fuel, r, s1);
      Lift(ApplyBin(op, a, b), s2)
    case Logic(_, isAnd, l, r) => EvalLogic(c, fuel, isAnd, l, r, e, st)
    case Not(_, e1) =>
      var (s1, a) :- Eval(c, fuel, e1, st);
      Val(s1, BoolV(a != BoolV(true)))
    case Index(_, b, i) =>
      var (s1, bv) :- Eval(c, fuel, b, st);
      var (s2, iv) :- Eval(c, fuel, i, s1);
      Ask(c, Load(bv, iv), s2)
    case Slice(_, b, bounds) =>
      var (s1, bv) :- Eval(c, fuel, b, st);
      var (s2, vs) :- EvalAll(c, fuel, bounds, s1);
      Ask(c, SliceOf(bv, vs), s2)
    case Recv(_, ch) =>
      var (s1, v) :- Eval(c, fuel, ch, st);
      Ask(c, Receive(v), s1)
    case Call(_, f, args) =>
      var (s1, vs) :- EvalAll(c, fuel, args, st);
      CallFunc(c, fuel, f, vs, s1)
    case Composite(_, fields, vals) =>
      var (s1, vs) :- EvalAll(c, fuel, vals, st);
      Ask(c, Make(fields, vs), s1)
    case Absent => Val(st, NilV)
    case AddConst(e1, d) =>
      var (s1, a) :- Eval(c, fuel, e1, st);
      Lift(AddTo(a, d), s1)
    case Discard(e1, v) =>
      var (s1, _) :- Eval(c, fuel, e1, st);
      Val(s1, v)
    case Dispatch(d, args, ids) =>
      var (s1, vs) :- EvalAll(c, fuel, args, st);
      if d.MutRecv? then
        if |vs| != 1 then Lift(ILL_TYPED, s1)
        else if IsActive(c, ids) then Val(s1, d.zero)
        else Ask(c, Receive(vs[0]), s1)
      else Lift(RunDisp(c, d, vs, ids), s1)
    case MutBool(l, r, isAnd, ids) =>
      var op := match Chosen(c, {BoolLogic}, ids)
                case Some(t) => t == LogicText(true)
                case None => isAnd;
      EvalLogic(c, fuel, op, l, r, e, st)
    case TagFunc(tag, tests, dflt) =>
      var (s1, tv) :- EvalTag(c, fuel, tag, st);
      var (s2, hit) :- RunTests(c, fuel, tv, tests, s1);
      Val(s2, IntV(INT, if hit.Some? then hit.value else dflt))
  }

  /** l && r or l || r: l first, r only when l does not decide. */
  function EvalLogic(c: Ctx, fuel: nat, isAnd: bool, l: Expr, r: Expr, ghost whole: Expr, st: State): Out<Value>
    requires l < whole && r < whole
    decreases fuel, 1, whole, -1
  {
    var (s1, a) :- Eval(c, fuel, l, st);
    if (a == BoolV(true)) == isAnd then Eval(c, fuel, r, s1) else Val(s1, BoolV(!isAnd))
  }

  function EvalAll(c: Ctx, fuel: nat, es: seq<Expr>, st: State): (r: Out<seq<Value>>)
    ensures r.Val? ==> |r.v| == |es|
    decreases fuel, 1, es, 0
  {
    if es == [] then Val(st, [])
    else
      var (s1, v) :- Eval(c, fuel, es[0], st);
      var (s2, vs) :- EvalAll(c, fuel, es[1..], s1);
      Val(s2, [v] + vs)
  }

  function CallFunc(c: Ctx, fuel: nat, f: string, vs: seq<Value>, st: State): Out<Value>
    decreases fuel, 0
  {
    if f in c.prog && |c.prog[f].params| == |vs| then
      if fuel == 0 then Stop(st.trace, OutOfFuel)
      else
        var frame := State(Bind(c.prog[f].params, vs), st.trace + [Enter(f, vs)]);
        var (s1, ctl) :- ExecAll(c, fuel - 1, c.prog[f].body, frame);
        Val(State(st.env, s1.trace), if ctl.Ret? then Pack(ctl.vals) else NilV)
    else Ask(c, Invoke(f, vs), st)
  }

  function EvalTag(c: Ctx, fuel: nat, tag: Option<Expr>, st: State): Out<Option<Value>>
    decreases fuel, 1, tag, 0
  {
    match tag
    case None => Val(st, None)
    case Some(e) =>
      var (s1, v) :- Eval(c, fuel, e, st);
      Val(s1, Some(v))
  }

  /** Does a case value match?  Without a tag the switch is on true. */
  predicate Matches(tv: Option<Value>, v: Value) {
    v == (if tv.Some? then tv.value else BoolV(true))
  }

  function RunTests(c: Ctx, fuel: nat, tv: Option<Value>, tests: seq<Test>, st: State): Out<Option<int>>
    decreases fuel, 1, tests, 0
  {
    if tests == [] then Val(st, None)
    else
      var (s1, hit) :- RunTest(c, fuel, tv, tests[0], st);
      if hit.Some? then Val(s1, hit) else RunTests(c, fuel, tv, tests[1..], s1)
  }

  function RunTest(c: Ctx, fuel: nat, tv: Option<Value>, t: Test, st: State): Out<Option<int>>
    decreases fuel, 1, t, 0
  {
    match t
    case IfMatch(e, ret) =>
      var (s1, v) :- Eval(c, fuel, e, st);
      Val(s1, if Matches(tv, v) then Some(ret) else None)
    case IfKeep(ids, body) =>
      if IsActive(c, ids) then Val(st, None) else RunTests(c, fuel, tv, body, st)
  }

  // ----- Statements -----

  function EvalLhs(c: Ctx, fuel: nat, l: Lhs, st: State): Out<Place>
    decreases fuel, 1, l, 0
  {
    match l
    case LVar(x) => Val(st, PVar(x))
    case LIndex(_, b, i) =>
      var (s1, bv) :- Eval(c, fuel, b, st);
      var (s2, iv) :- Eval(c, fuel, i, s1);
      Val(s2, PIdx(bv, iv))
  }

  /** x op= v: the place is evaluated once, then v, then load, apply, store. */
  function UpdatePlace(c: Ctx, op: BinOp, p: Place, v: Value, st: State): Out<Ctl> {
    var (s1, v0) :- LoadFrom(c, p, st);
    var (s2, v1) :- Lift(ApplyBin(op, v0, v), s1);
    StoreTo(c, p, v1, s2)
  }

  function Bump(c: Ctx, d: int, p: Place, st: State): Out<Ctl> {
    var (s1, v0) :- LoadFrom(c, p, st);
    var (s2, v1) :- Lift(AddTo(v0, d), s1);
    StoreTo(c, p, v1, s2)
  }

  function Exec(c: Ctx, fuel: nat, s: Stmt, st: State): Out<Ctl>
    decreases fuel, 1, s, 0
  {
    match s
    case ExprStmt(e) =>
      var (s1, _) :- Eval(c, fuel, e, st);
      Val(s1, Next)
    case CallStmt(_, f, args) =>
      var (s1, vs) :- EvalAll(c, fuel, args, st);
      var (s2, _) :- CallFunc(c, fuel, f, vs, s1);
      Val(s2, Next)
    case Assign(lhs, rhs) =>
      var (s1, p) :- EvalLhs(c, fuel, lhs, st);
      var (s2, v) :- Eval(c, fuel, rhs, s1);
      StoreTo(c, p, v, s2)
    case IncDec(_, lhs, inc) =>
      var (s1, p) :- EvalLhs(c, fuel, lhs, st);
      Bump(c, if inc then 1 else -1, p, s1)
    case Compound(_, op, lhs, rhs) =>
      var (s1, p) :- EvalLhs(c, fuel, lhs, st);
      var (s2, v) :- Eval(c, fuel, rhs, s1);
      UpdatePlace(c, op, p, v, s2)
    case Send(_, ch, val) =>
      var (s1, cv) :- Eval(c, fuel, ch, st);
      var (s2, v) :- Eval(c, fuel, val, s1);
      var (s3, _) :- Ask(c, Sent(cv, v), s2);
      Val(s3, Next)
    case If(cond, thn, els) =>
      var (s1, v) :- Eval(c, fuel, cond, st);
      if v == BoolV(true) then ExecAll(c, fuel, thn, s1) else ExecAll(c, fuel, els, s1)
    case For(cond, post, body) =>
      var (s1, v) :- Eval(c, fuel, cond, st);
      if v != BoolV(true) then Val(s1, Next)
      else
        var (s2, ctl) :- ExecAll(c, fuel, body, s1);
        if ctl == Brk then Val(s2, Next)
        else if ctl.Ret? then Val(s2, ctl)
        else
          var (s3, _) :- ExecAll(c, fuel, post, s2);
          if fuel == 0 then Stop(s3.trace, OutOfFuel) else Exec(c, fuel - 1, s, s3)
    case Return(results) =>
      var (s1, vs) :- EvalAll(c, fuel, results, st);
      Val(s1, Ret(vs))
    case Switch(_, tag, clauses, swapped) =>
      var (s1, tv) :- EvalTag(c, fuel, tag, st);
      var (s2, hit) :- Select(c, fuel, tv, clauses, 0, s1);
      var entry := if hit.Some? then hit.value else DefaultOf(clauses, |clauses|);
      var (s3, ctl) :- ExecFrom(c, fuel, clauses, Transpose(swapped, entry), s2);
      Val(s3, if ctl == Brk then Next else ctl)
    case Break => Val(st, Brk)
    case Continue => Val(st, Cnt)
    case Fallthrough => Val(st, Fall)
    case Skip => Val(st, Next)
    case CallSkip(closure, ids) =>
      if IsActive(c, ids) then Val(st, Next)
      else
        var (s1, _) :- Exec(c, fuel, closure, st);
        Val(s1, Next)
    case MutStmt(orig, mut, ids) =>
      var (s1, _) :- Exec(c, fuel, if IsActive(c, ids) then mut else orig, st);
      Val(s1, Next)
  }

  function ExecAll(c: Ctx, fuel: nat, ss: seq<Stmt>, st: State): Out<Ctl>
    decreases fuel, 1, ss, 0
  {
    if ss == [] then Val(st, Next)
    else
      var (s1, ctl) :- Exec(c, fuel, ss[0], st);
      if ctl == Next then ExecAll(c, fuel, ss[1..], s1) else Val(s1, ctl)
  }

  /** The index of the first clause, from i on, with a matching case
      expression: top to bottom, left to right, stopping at the match. */
  function Select(c: Ctx, fuel: nat, tv: Option<Value>, clauses: seq<Clause>, i: nat, st: State): Out<Option<int>>
    requires i <= |clauses|
    decreases fuel, 1, clauses, |clauses| - i
  {
    if i == |clauses| then Val(st, None)
    else
      var (s1, hit) :- MatchList(c, fuel, tv, clauses[i].list, st);
      if hit then Val(s1, Some(i)) else Select(c, fuel, tv, clauses, i + 1, s1)
  }

  function MatchList(c: Ctx, fuel: nat, tv: Option<Value>, list: seq<Expr>, st: State): Out<bool>
    decreases fuel, 1, list, 0
  {
    if list == [] then Val(st, false)
    else
      var (s1, v) :- Eval(c, fuel, list[0], st);
      if Matches(tv, v) then Val(s1, true) else MatchList(c, fuel, tv, list[1..], s1)
  }

  /** Exchanges i and i+1, unless i is -1. */
  function Transpose(i: int, entry: int): int {
    if i < 0 then entry else if entry == i then i + 1 else if entry == i + 1 then i else entry
  }

  /** Runs the clause at entry and, while bodies end in fallthrough, the ones
      textually after it. */
  function ExecFrom(c: Ctx, fuel: nat, clauses: seq<Clause>, entry: int, st: State): Out<Ctl>
    decreases fuel, 1, clauses, if entry < 0 then 0 else if entry > |clauses| then 0 else |clauses| - entry
  {
    if entry < 0 || entry >= |clauses| then Val(st, Next)
    else
      var (s1, ctl) :- ExecAll(c, fuel, clauses[entry].body, st);
      if ctl == Fall then ExecFrom(c, fuel, clauses, entry + 1, s1) else Val(s1, ctl)
  }
}
