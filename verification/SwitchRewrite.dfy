/** The switch operator's rewrite.  All drops and swaps of a switch share one
    form: selection moves into the tag, which yields a clause index, and the
    clauses list only indices. */
module SwitchRewrite {
  import opened Seqs
  import opened Syntax
  import opened Mutations

  /** The position-to-index map: the last clause at pos, and 0, Go's zero
      value, for a position that no clause has. */
  function IndexOf(clauses: seq<Clause>, pos: int): (r: nat)
    ensures clauses != [] ==> r < |clauses|
    ensures r < |clauses| && (exists i :: 0 <= i < |clauses| && clauses[i].pos == pos) ==> clauses[r].pos == pos
  {
    if clauses == [] then 0
    else if clauses[|clauses| - 1].pos == pos then |clauses| - 1
    else
      var r := IndexOf(clauses[..|clauses| - 1], pos);
      assert forall i :: 0 <= i < |clauses| - 1 ==> clauses[..|clauses| - 1][i] == clauses[i];
      r
  }

  /** Clause index to drop ID, over the first k candidates. */
  function Drops(clauses: seq<Clause>, g: Group, k: nat): map<int, int>
    requires k <= |g.cands| == |g.ids|
  {
    if k == 0 then map[]
    else if g.cands[k - 1].mutant.SwapText? then Drops(clauses, g, k - 1)
    else Drops(clauses, g, k - 1)[IndexOf(clauses, g.cands[k - 1].pos) := g.ids[k - 1]]
  }

  datatype Swap = Swap(idx: int, id: int)

  function Swaps(clauses: seq<Clause>, g: Group, k: nat): seq<Swap>
    requires k <= |g.cands| == |g.ids|
  {
    if k == 0 then []
    else if g.cands[k - 1].mutant.SwapText?
    then Swaps(clauses, g, k - 1) + [Swap(IndexOf(clauses, g.cands[k - 1].pos), g.ids[k - 1])]
    else Swaps(clauses, g, k - 1)
  }

  function IfMatches(list: seq<Expr>, i: int): seq<Test> {
    seq(|list|, j requires 0 <= j < |list| => IfMatch(list[j], i))
  }

  /** One clause's tests; a droppable clause's are guarded by its ID. */
  function ClauseTests(c: Clause, i: int, drops: map<int, int>): seq<Test> {
    if c.dflt then []
    else if i in drops then [IfKeep([drops[i]], IfMatches(c.list, i))]
    else IfMatches(c.list, i)
  }

  function TestsFrom(clauses: seq<Clause>, drops: map<int, int>, i: nat): seq<Test>
    requires i <= |clauses|
    decreases |clauses| - i
  {
    if i == |clauses| then [] else ClauseTests(clauses[i], i, drops) + TestsFrom(clauses, drops, i + 1)
  }

  /** A clause's expression list becomes its index. */
  function Indexed(c: Clause, i: int): Clause {
    if c.dflt then c else c.(list := [Lit(0, IntV(INT, i))])
  }

  function IndexedAll(clauses: seq<Clause>): seq<Clause> {
    seq(|clauses|, i requires 0 <= i < |clauses| => Indexed(clauses[i], i))
  }

  function SwapCalls(tag: Expr, swaps: seq<Swap>): Expr {
    if swaps == [] then tag
    else
      var last := swaps[|swaps| - 1];
      Dispatch(MutSwap(last.idx, last.idx + 1), [SwapCalls(tag, swaps[..|swaps| - 1])], [last.id])
  }

  function RewriteSwitch(g: Group, s: Stmt): Stmt
    requires s.Switch? && |g.cands| == |g.ids|
  {
    var drops := Drops(s.clauses, g, |g.cands|);
    var closure := TagFunc(s.tag, TestsFrom(s.clauses, drops, 0), DefaultOf(s.clauses, |s.clauses|));
    Switch(s.id, Some(SwapCalls(closure, Swaps(s.clauses, g, |g.cands|))), IndexedAll(s.clauses), s.swapped)
  }

  /** The clauses' positions, by index. */
  method IndexClauses(clauses: seq<Clause>) returns (index: map<int, nat>)
    ensures forall p :: (if p in index then index[p] else 0) == IndexOf(clauses, p)
  {
    index := map[];
    for i := 0 to |clauses|
      invariant forall p :: (if p in index then index[p] else 0) == IndexOf(clauses[..i], p)
    {
      assert clauses[..i + 1][..i] == clauses[..i];
      index := index[clauses[i].pos := i];
    }
    assert clauses[..|clauses|] == clauses;
  }

  /** With the tests of the clauses from i on, body is the whole closure. */
  ghost predicate Continues(body: seq<Test>, clauses: seq<Clause>, drops: map<int, int>, i: nat)
    requires i <= |clauses|
  {
    body + TestsFrom(clauses, drops, i) == TestsFrom(clauses, drops, 0)
  }

  lemma {:induction false} AppendStep(body: seq<Test>, clauses: seq<Clause>, drops: map<int, int>, i: nat)
    requires i < |clauses| && Continues(body, clauses, drops, i)
    ensures Continues(body + ClauseTests(clauses[i], i, drops), clauses, drops, i + 1)
    ensures clauses[i].dflt ==> Continues(body, clauses, drops, i + 1)
  {
    Assoc(body, ClauseTests(clauses[i], i, drops), TestsFrom(clauses, drops, i + 1));
    assert clauses[i].dflt ==> body + ClauseTests(clauses[i], i, drops) == body;
  }

  lemma {:induction false} AppendEnd(body: seq<Test>, clauses: seq<Clause>, drops: map<int, int>)
    requires Continues(body, clauses, drops, |clauses|)
    ensures body == TestsFrom(clauses, drops, 0)
  {
    assert body + [] == body;
  }

  /** The tests of every clause in order, the default's index and the new
      clauses, in one pass. */
  method BuildClosure(clauses: seq<Clause>, drops: map<int, int>)
    returns (body: seq<Test>, defaultIdx: int, newClauses: seq<Clause>)
    ensures body == TestsFrom(clauses, drops, 0)
    ensures defaultIdx == DefaultOf(clauses, |clauses|)
    ensures newClauses == IndexedAll(clauses)
  {
    body, defaultIdx, newClauses := [], -1, [];
    for i := 0 to |clauses|
      invariant Continues(body, clauses, drops, i)
      invariant defaultIdx == DefaultOf(clauses, i)
      invariant newClauses == IndexedAll(clauses)[..i]
    {
      var c := clauses[i];
      AppendStep(body, clauses, drops, i);
      newClauses := newClauses + [Indexed(c, i)];
      if c.dflt {
        defaultIdx := i;
      } else {
        var tests := IfMatches(c.list, i);
        if i in drops {
          tests := [IfKeep([drops[i]], tests)];
        }
        assert tests == ClauseTests(c, i, drops);
        body := body + tests;
      }
    }
    AppendEnd(body, clauses, drops);
  }

  /** The source's group rewrite: it indexes the clauses, splits the candidates
      into drops and swaps, builds the closure and wraps the swaps around it. */
  method RewriteGroup(g: Group, s: Stmt) returns (r: Stmt)
    requires s.Switch? && |g.cands| == |g.ids|
    ensures r == RewriteSwitch(g, s)
  {
    var index := IndexClauses(s.clauses);
    var drops: map<int, int> := map[];
    var swaps: seq<Swap> := [];
    for i := 0 to |g.cands|
      invariant drops == Drops(s.clauses, g, i)
      invariant swaps == Swaps(s.clauses, g, i)
    {
      var c := g.cands[i];
      var idx := if c.pos in index then index[c.pos] else 0;
      if c.mutant.SwapText? {
        swaps := swaps + [Swap(idx, g.ids[i])];
      } else {
        drops := drops[idx := g.ids[i]];
      }
    }
    var body, defaultIdx, newClauses := BuildClosure(s.clauses, drops);
    var tag := TagFunc(s.tag, body, defaultIdx);
    for k := 0 to |swaps|
      invariant tag == SwapCalls(TagFunc(s.tag, body, defaultIdx), swaps[..k])
    {
      assert swaps[..k + 1][..k] == swaps[..k];
      tag := Dispatch(MutSwap(swaps[k].idx, swaps[k].idx + 1), [tag], [swaps[k].id]);
    }
    assert swaps[..|swaps|] == swaps;
    r := Switch(s.id, Some(tag), newClauses, s.swapped);
  }

  /** Go's rules for a clause list: at most one default clause, and it has no
      expressions. */
  ghost predicate ClausesOk(clauses: seq<Clause>) {
    && (forall i :: 0 <= i < |clauses| && clauses[i].dflt ==> clauses[i].list == [])
    && (forall i, j :: 0 <= i < j < |clauses| ==> !(clauses[i].dflt && clauses[j].dflt))
  }

  /** A swap candidate names a clause that has a next one. */
  ghost predicate SwapsInRange(g: Group, clauses: seq<Clause>) {
    forall i :: 0 <= i < |g.cands| && g.cands[i].mutant.SwapText? ==> IndexOf(clauses, g.cands[i].pos) + 1 < |clauses|
  }
}
