/** What the rewritten switch does, against Go's own selection. */
module SwitchCases {
  import opened Seqs
  import opened Syntax
  import opened Mutations
  import opened Semantics
  import opened SwitchRewrite

  // ----- What it means -----

  /** The clauses that are left to select from when the clauses whose drop ID
      is active have no expressions at all. */
  function LiveClauses(c: Ctx, clauses: seq<Clause>, drops: map<int, int>): seq<Clause> {
    seq(|clauses|, i requires 0 <= i < |clauses| =>
      if i in drops && drops[i] == c.active then clauses[i].(list := []) else clauses[i])
  }

  lemma {:induction false} TestsConcat(c: Ctx, fuel: nat, tv: Option<Value>, a: seq<Test>, b: seq<Test>, st: State)
    ensures RunTests(c, fuel, tv, a + b, st) == OrElse(c, fuel, tv, RunTests(c, fuel, tv, a, st), b)
    decreases |a|
  {
    if a == [] {
      assert a + b == b;
    } else {
      assert (a + b)[0] == a[0] && (a + b)[1..] == a[1..] + b;
      match RunTest(c, fuel, tv, a[0], st) {
        case Stop(_, _) =>
        case Val(s1, hit) => TestsConcat(c, fuel, tv, a[1..], b, s1);
      }
    }
  }

  /** A clause's match as the closure reports it: its index, or nothing. */
  function AsHit(r: Out<bool>, i: int): Out<Option<int>> {
    if r.Stop? then Stop(r.trace, r.why) else Val(r.st, if r.v then Some(i) else None)
  }

  /** Goes on with the remaining tests unless one has already matched. */
  function OrElse(c: Ctx, fuel: nat, tv: Option<Value>, r: Out<Option<int>>, rest: seq<Test>): Out<Option<int>> {
    if r.Stop? || r.v.Some? then r else RunTests(c, fuel, tv, rest, r.st)
  }

  lemma {:induction false} MatchesRun(c: Ctx, fuel: nat, tv: Option<Value>, list: seq<Expr>, i: int, st: State)
    ensures RunTests(c, fuel, tv, IfMatches(list, i), st) == AsHit(MatchList(c, fuel, tv, list, st), i)
    decreases |list|
  {
    var tests := IfMatches(list, i);
    if list != [] {
      assert tests[0] == IfMatch(list[0], i);
      assert tests[1..] == IfMatches(list[1..], i);
      match Eval(c, fuel, list[0], st) {
        case Stop(_, _) =>
        case Val(s1, v) => MatchesRun(c, fuel, tv, list[1..], i, s1);
      }
    }
  }

  lemma ClauseRun(c: Ctx, fuel: nat, tv: Option<Value>, clause: Clause, i: int, drops: map<int, int>, st: State)
    requires clause.dflt ==> clause.list == []
    ensures RunTests(c, fuel, tv, ClauseTests(clause, i, drops), st)
            == AsHit(MatchList(c, fuel, tv, if i in drops && drops[i] == c.active then [] else clause.list, st), i)
  {
    if !clause.dflt {
      MatchesRun(c, fuel, tv, clause.list, i, st);
      if i in drops {
        var t := IfKeep([drops[i]], IfMatches(clause.list, i));
        assert [t][1..] == [];
        assert RunTests(c, fuel, tv, [t], st) == RunTest(c, fuel, tv, t, st);
      }
    }
  }

  lemma ClosureStep(c: Ctx, fuel: nat, tv: Option<Value>, clauses: seq<Clause>, drops: map<int, int>, i: nat, st: State)
    requires i < |clauses| && ClausesOk(clauses)
    ensures RunTests(c, fuel, tv, TestsFrom(clauses, drops, i), st)
            == OrElse(c, fuel, tv, AsHit(MatchList(c, fuel, tv, LiveClauses(c, clauses, drops)[i].list, st), i),
                      TestsFrom(clauses, drops, i + 1))
  {
    ClauseRun(c, fuel, tv, clauses[i], i, drops, st);
    TestsConcat(c, fuel, tv, ClauseTests(clauses[i], i, drops), TestsFrom(clauses, drops, i + 1), st);
  }

  /** The closure's tests pick the clause that Go's own selection picks, with
      the same evaluations, when dropped clauses have no expressions. */
  lemma {:induction false} ClosureSelects(c: Ctx, fuel: nat, tv: Option<Value>, clauses: seq<Clause>,
                                          drops: map<int, int>, i: nat, st: State)
    requires i <= |clauses| && ClausesOk(clauses)
    ensures RunTests(c, fuel, tv, TestsFrom(clauses, drops, i), st)
            == Select(c, fuel, tv, LiveClauses(c, clauses, drops), i, st)
    decreases |clauses| - i
  {
    if i < |clauses| {
      ClosureStep(c, fuel, tv, clauses, drops, i, st);
      var r := MatchList(c, fuel, tv, LiveClauses(c, clauses, drops)[i].list, st);
      if r.Val? && !r.v {
        ClosureSelects(c, fuel, tv, clauses, drops, i + 1, r.st);
      }
    }
  }

  /** Go's selection on the index clauses returns the index itself, except for
      the default clause and -1, which it reaches by default. */
  lemma {:induction false} IndexSelects(c: Ctx, fuel: nat, clauses: seq<Clause>, idx: int, i: nat, st: State)
    requires i <= |clauses| && ClausesOk(clauses)
    ensures Select(c, fuel, Some(IntV(INT, idx)), IndexedAll(clauses), i, st)
            == Val(st, if i <= idx < |clauses| && !clauses[idx].dflt then Some(idx) else None)
    decreases |clauses| - i
  {
    if i < |clauses| {
      var list := IndexedAll(clauses)[i].list;
      var tv := Some(IntV(INT, idx));
      if clauses[i].dflt {
        assert list == [];
      } else {
        assert list == [Lit(0, IntV(INT, i))] && list[1..] == [];
        assert Eval(c, fuel, list[0], st) == Val(st, IntV(INT, i));
        assert MatchList(c, fuel, tv, list[1..], st) == Val(st, false);
      }
      assert MatchList(c, fuel, tv, list, st) == Val(st, i == idx && !clauses[i].dflt);
      IndexSelects(c, fuel, clauses, idx, i + 1, st);
    }
  }

  lemma {:induction false} SameDefault(a: seq<Clause>, b: seq<Clause>, n: nat)
    requires n <= |a| == |b|
    requires forall i :: 0 <= i < n ==> a[i].dflt == b[i].dflt
    ensures DefaultOf(a, n) == DefaultOf(b, n)
  {
    if n > 0 {
      SameDefault(a, b, n - 1);
    }
  }

  lemma {:induction false} SameBodies(c: Ctx, fuel: nat, a: seq<Clause>, b: seq<Clause>, entry: int, st: State)
    requires |a| == |b| && forall i :: 0 <= i < |a| ==> a[i].body == b[i].body
    ensures ExecFrom(c, fuel, a, entry, st) == ExecFrom(c, fuel, b, entry, st)
    decreases if entry < 0 then 0 else if entry > |a| then 0 else |a| - entry
  {
    if 0 <= entry < |a| {
      match ExecAll(c, fuel, a[entry].body, st) {
        case Stop(_, _) =>
        case Val(s1, ctl) =>
          if ctl == Fall {
            SameBodies(c, fuel, a, b, entry + 1, s1);
          }
      }
    }
  }

  // ----- Swaps -----

  function ApplySwaps(c: Ctx, swaps: seq<Swap>, idx: int): int {
    if swaps == [] then idx
    else
      var last := swaps[|swaps| - 1];
      var r := ApplySwaps(c, swaps[..|swaps| - 1], idx);
      if last.id == c.active then (if r == last.idx then last.idx + 1 else if r == last.idx + 1 then last.idx else r)
      else r
  }

  lemma EvalOne(c: Ctx, fuel: nat, e: Expr, st: State)
    ensures EvalAll(c, fuel, [e], st) ==
            match Eval(c, fuel, e, st)
            case Stop(tr, why) => Stop(tr, why)
            case Val(s1, v) => Val(s1, [v])
  {
    assert [e][1..] == [];
    match Eval(c, fuel, e, st) {
      case Stop(_, _) =>
      case Val(s1, v) => assert [v] + [] == [v];
    }
  }

  lemma {:induction false} SwapCallsRun(c: Ctx, fuel: nat, tag: Expr, swaps: seq<Swap>, st: State)
    requires Eval(c, fuel, tag, st).Val? ==> Eval(c, fuel, tag, st).v.IntV? && Eval(c, fuel, tag, st).v.t == INT
    ensures Eval(c, fuel, SwapCalls(tag, swaps), st) ==
            match Eval(c, fuel, tag, st)
            case Stop(tr, why) => Stop(tr, why)
            case Val(s1, v) => Val(s1, IntV(INT, ApplySwaps(c, swaps, v.n)))
    decreases |swaps|
  {
    if swaps != [] {
      var inner := SwapCalls(tag, swaps[..|swaps| - 1]);
      SwapCallsRun(c, fuel, tag, swaps[..|swaps| - 1], st);
      EvalOne(c, fuel, inner, st);
    }
  }

  /** The entry index the active swaps lead to, for a group with at most one
      active ID. */
  function ActiveSwap(c: Ctx, swaps: seq<Swap>): int {
    if swaps == [] then -1
    else if swaps[|swaps| - 1].id == c.active then swaps[|swaps| - 1].idx
    else ActiveSwap(c, swaps[..|swaps| - 1])
  }

  ghost predicate DistinctIds(swaps: seq<Swap>) {
    forall i, j :: 0 <= i < j < |swaps| ==> swaps[i].id != swaps[j].id
  }

  lemma {:induction false} OneSwap(c: Ctx, swaps: seq<Swap>, idx: int)
    requires DistinctIds(swaps)
    requires forall i :: 0 <= i < |swaps| ==> swaps[i].idx >= 0
    ensures ApplySwaps(c, swaps, idx) == Transpose(ActiveSwap(c, swaps), idx)
    ensures (forall i :: 0 <= i < |swaps| ==> swaps[i].id != c.active) ==> ActiveSwap(c, swaps) == -1
    ensures ActiveSwap(c, swaps) != -1 ==>
              exists i :: 0 <= i < |swaps| && swaps[i].id == c.active && swaps[i].idx == ActiveSwap(c, swaps)
  {
    if swaps != [] {
      var init := swaps[..|swaps| - 1];
      OneSwap(c, init, idx);
      assert forall i :: 0 <= i < |init| ==> init[i] == swaps[i];
    }
  }

  /** The switch that the rewritten one stands for: dropped clauses without
      expressions, and the active swap's clauses exchanged on entry. */
  function Meant(c: Ctx, g: Group, s: Stmt): Stmt
    requires s.Switch? && |g.cands| == |g.ids|
  {
    Switch(s.id, s.tag, LiveClauses(c, s.clauses, Drops(s.clauses, g, |g.cands|)),
           ActiveSwap(c, Swaps(s.clauses, g, |g.cands|)))
  }

  lemma {:induction false} SwapsFrom(clauses: seq<Clause>, g: Group, k: nat) returns (at: seq<nat>)
    requires k <= |g.cands| == |g.ids|
    ensures |at| == |Swaps(clauses, g, k)|
    ensures forall i :: 0 <= i < |at| ==>
              at[i] < k && g.cands[at[i]].mutant.SwapText?
              && Swaps(clauses, g, k)[i] == Swap(IndexOf(clauses, g.cands[at[i]].pos), g.ids[at[i]])
    ensures forall i, j :: 0 <= i < j < |at| ==> at[i] < at[j]
  {
    if k == 0 {
      at := [];
    } else {
      at := SwapsFrom(clauses, g, k - 1);
      if g.cands[k - 1].mutant.SwapText? {
        at := at + [k - 1];
      }
    }
  }

  lemma {:induction false} SelectInRange(c: Ctx, fuel: nat, tv: Option<Value>, clauses: seq<Clause>, i: nat, st: State)
    requires i <= |clauses|
    ensures var r := Select(c, fuel, tv, clauses, i, st);
            r.Val? && r.v.Some? ==> 0 <= r.v.value < |clauses|
    decreases |clauses| - i
  {
    if i < |clauses| {
      match MatchList(c, fuel, tv, clauses[i].list, st) {
        case Stop(_, _) =>
        case Val(s1, hit) =>
          if !hit {
            SelectInRange(c, fuel, tv, clauses, i + 1, s1);
          }
      }
    }
  }

  lemma SwapFacts(c: Ctx, g: Group, clauses: seq<Clause>, entry: int)
    requires |g.cands| == |g.ids| && Distinct(g.ids) && SwapsInRange(g, clauses)
    requires -1 <= entry < |clauses|
    ensures var swaps := Swaps(clauses, g, |g.cands|);
            var e2 := Transpose(ActiveSwap(c, swaps), entry);
            ApplySwaps(c, swaps, entry) == e2 && -1 <= e2 < |clauses| && (e2 == -1 <==> entry == -1)
  {
    var swaps := Swaps(clauses, g, |g.cands|);
    var at := SwapsFrom(clauses, g, |g.cands|);
    forall i, j | 0 <= i < j < |swaps|
      ensures swaps[i].id != swaps[j].id
    {
      assert at[i] < at[j];
    }
    OneSwap(c, swaps, entry);
    if ActiveSwap(c, swaps) != -1 {
      var i :| 0 <= i < |swaps| && swaps[i].id == c.active && swaps[i].idx == ActiveSwap(c, swaps);
      assert swaps[i].idx == IndexOf(clauses, g.cands[at[i]].pos);
    }
  }

  /** Entering the rewritten switch with index e2 runs clause e2, through its
      own case or through default; with -1 it runs nothing. */
  lemma EntersAt(c: Ctx, fuel: nat, clauses: seq<Clause>, e2: int, st: State)
    requires ClausesOk(clauses) && -1 <= e2 < |clauses|
    requires e2 == -1 ==> DefaultOf(clauses, |clauses|) == -1
    ensures var r := Select(c, fuel, Some(IntV(INT, e2)), IndexedAll(clauses), 0, st);
            r.Val? && r.st == st
            && (if r.v.Some? then r.v.value else DefaultOf(IndexedAll(clauses), |clauses|)) == e2
  {
    IndexSelects(c, fuel, clauses, e2, 0, st);
    SameDefault(clauses, IndexedAll(clauses), |clauses|);
  }

  /** How a switch goes on once its tag has been evaluated. */
  function AfterTag(c: Ctx, fuel: nat, tv: Option<Value>, clauses: seq<Clause>, swapped: int, st: State): Out<Ctl> {
    var (s2, hit) :- Select(c, fuel, tv, clauses, 0, st);
    var entry := if hit.Some? then hit.value else DefaultOf(clauses, |clauses|);
    var (s3, ctl) :- ExecFrom(c, fuel, clauses, Transpose(swapped, entry), s2);
    Val(s3, if ctl == Brk then Next else ctl)
  }

  lemma SwitchUnfold(c: Ctx, fuel: nat, s: Stmt, st: State)
    requires s.Switch?
    ensures Exec(c, fuel, s, st) ==
            match EvalTag(c, fuel, s.tag, st)
            case Stop(tr, why) => Stop(tr, why)
            case Val(s1, tv) => AfterTag(c, fuel, tv, s.clauses, s.swapped, s1)
  {
  }

  /** The index the tag closure and the swap calls return. */
  function TagIndex(c: Ctx, fuel: nat, tv: Option<Value>, clauses: seq<Clause>, swapped: int, st: State): Out<int> {
    var (s2, hit) :- Select(c, fuel, tv, clauses, 0, st);
    Val(s2, Transpose(swapped, if hit.Some? then hit.value else DefaultOf(clauses, |clauses|)))
  }

  lemma ClosureRun(c: Ctx, fuel: nat, tag: Option<Expr>, clauses: seq<Clause>, drops: map<int, int>, st: State)
    requires ClausesOk(clauses)
    ensures Eval(c, fuel, TagFunc(tag, TestsFrom(clauses, drops, 0), DefaultOf(clauses, |clauses|)), st) ==
            match EvalTag(c, fuel, tag, st)
            case Stop(tr, why) => Stop(tr, why)
            case Val(s1, tv) =>
              (match TagIndex(c, fuel, tv, LiveClauses(c, clauses, drops), -1, s1)
               case Stop(tr, why) => Stop(tr, why)
               case Val(s2, idx) => Val(s2, IntV(INT, idx)))
  {
    SameDefault(clauses, LiveClauses(c, clauses, drops), |clauses|);
    match EvalTag(c, fuel, tag, st) {
      case Stop(_, _) =>
      case Val(s1, tv) => ClosureSelects(c, fuel, tv, clauses, drops, 0, s1);
    }
  }

  lemma IndexInRange(c: Ctx, fuel: nat, tv: Option<Value>, clauses: seq<Clause>, k: int, st: State)
    ensures var r := TagIndex(c, fuel, tv, clauses, -1, st);
            r.Val? ==> -1 <= r.v < |clauses| && (r.v == -1 ==> DefaultOf(clauses, |clauses|) == -1)
    ensures TagIndex(c, fuel, tv, clauses, k, st) ==
              match TagIndex(c, fuel, tv, clauses, -1, st)
              case Stop(tr, why) => Stop(tr, why)
              case Val(s2, idx) => Val(s2, Transpose(k, idx))
  {
    SelectInRange(c, fuel, tv, clauses, 0, st);
  }

  lemma TagCallsRun(c: Ctx, fuel: nat, g: Group, s: Stmt, st: State)
    requires s.Switch? && ClausesOk(s.clauses)
    requires |g.cands| == |g.ids| && Distinct(g.ids) && SwapsInRange(g, s.clauses)
    ensures Eval(c, fuel, RewriteSwitch(g, s).tag.value, st) ==
            match EvalTag(c, fuel, s.tag, st)
            case Stop(tr, why) => Stop(tr, why)
            case Val(s1, tv) =>
              (match TagIndex(c, fuel, tv, Meant(c, g, s).clauses, Meant(c, g, s).swapped, s1)
               case Stop(tr, why) => Stop(tr, why)
               case Val(s2, idx) => Val(s2, IntV(INT, idx)))
  {
    var drops, swaps := Drops(s.clauses, g, |g.cands|), Swaps(s.clauses, g, |g.cands|);
    var closure := TagFunc(s.tag, TestsFrom(s.clauses, drops, 0), DefaultOf(s.clauses, |s.clauses|));
    var live := LiveClauses(c, s.clauses, drops);
    ClosureRun(c, fuel, s.tag, s.clauses, drops, st);
    SwapCallsRun(c, fuel, closure, swaps, st);
    match EvalTag(c, fuel, s.tag, st) {
      case Stop(_, _) =>
      case Val(s1, tv) =>
        IndexInRange(c, fuel, tv, live, ActiveSwap(c, swaps), s1);
        match TagIndex(c, fuel, tv, live, -1, s1) {
          case Stop(_, _) =>
          case Val(s2, idx) => SwapFacts(c, g, s.clauses, idx);
        }
    }
  }

  /** What runs once an entry clause is chosen. */
  function RunEntry(c: Ctx, fuel: nat, clauses: seq<Clause>, entry: int, st: State): Out<Ctl> {
    var (s3, ctl) :- ExecFrom(c, fuel, clauses, entry, st);
    Val(s3, if ctl == Brk then Next else ctl)
  }

  lemma AfterTagSplit(c: Ctx, fuel: nat, tv: Option<Value>, clauses: seq<Clause>, swapped: int, st: State)
    ensures AfterTag(c, fuel, tv, clauses, swapped, st) ==
            match TagIndex(c, fuel, tv, clauses, swapped, st)
            case Stop(tr, why) => Stop(tr, why)
            case Val(s2, idx) => RunEntry(c, fuel, clauses, idx, s2)
  {
  }

  lemma IndexEnters(c: Ctx, fuel: nat, tv: Option<Value>, g: Group, s: Stmt, st: State)
    requires s.Switch? && s.swapped == -1 && ClausesOk(s.clauses)
    requires |g.cands| == |g.ids| && Distinct(g.ids) && SwapsInRange(g, s.clauses)
    ensures var m := Meant(c, g, s);
            AfterTag(c, fuel, tv, m.clauses, m.swapped, st) ==
            match TagIndex(c, fuel, tv, m.clauses, m.swapped, st)
            case Stop(tr, why) => Stop(tr, why)
            case Val(s2, idx) => AfterTag(c, fuel, Some(IntV(INT, idx)), IndexedAll(s.clauses), -1, s2)
  {
    var m := Meant(c, g, s);
    AfterTagSplit(c, fuel, tv, m.clauses, m.swapped, st);
    IndexInRange(c, fuel, tv, m.clauses, m.swapped, st);
    SameDefault(s.clauses, m.clauses, |s.clauses|);
    match TagIndex(c, fuel, tv, m.clauses, -1, st) {
      case Stop(_, _) =>
      case Val(s2, entry) =>
        SwapFacts(c, g, s.clauses, entry);
        var e2 := Transpose(m.swapped, entry);
        AfterTagSplit(c, fuel, Some(IntV(INT, e2)), IndexedAll(s.clauses), -1, s2);
        EntersAt(c, fuel, s.clauses, e2, s2);
        SameBodies(c, fuel, IndexedAll(s.clauses), m.clauses, e2, s2);
    }
  }

  /** For any tag, case expressions with any effects, default position and
      fallthrough chain, the rewritten switch runs as the switch it stands for:
      the same evaluations in the same order, then the same clauses. */
  lemma SwitchCompiled(c: Ctx, fuel: nat, g: Group, s: Stmt, st: State)
    requires s.Switch? && s.swapped == -1 && ClausesOk(s.clauses)
    requires |g.cands| == |g.ids| && Distinct(g.ids) && SwapsInRange(g, s.clauses)
    ensures Exec(c, fuel, RewriteSwitch(g, s), st) == Exec(c, fuel, Meant(c, g, s), st)
  {
    SwitchUnfold(c, fuel, RewriteSwitch(g, s), st);
    SwitchUnfold(c, fuel, Meant(c, g, s), st);
    TagCallsRun(c, fuel, g, s, st);
    match EvalTag(c, fuel, s.tag, st) {
      case Stop(_, _) =>
      case Val(s1, tv) => IndexEnters(c, fuel, tv, g, s, s1);
    }
  }
}
