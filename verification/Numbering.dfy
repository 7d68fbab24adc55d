/** Numbering, fingerprinting and scoping: every candidate of a package gets an
    ID and a fingerprint before any filter runs, so both survive scoping. */
module Numbering {
  import opened Seqs
  import opened Mutations
  import opened Text

  /** What the file set, the declarations and the directives say of a
      candidate's position.  `text` is its source line as written. */
  datatype Where = Where(line: int, column: int, func: string, init: bool, cover: int,
                         ignored: bool, text: string, rawColumn: int, original: string, mutant: string)

  datatype Site = Site(path: string, base: string, oper: Operator, cand: Cand, at: Where)

  /** The parts a fingerprint hashes, in order. */
  datatype FpKey = FpKey(scope: string, oper: Operator, original: string, mutant: string,
                         line: string, column: int, n: int)

  type Hash = FpKey -> string

  /** Indentation alone, which the column is counted from. */
  function TrimIndent(s: string): string {
    if s != "" && (s[0] == ' ' || s[0] == '\t') then TrimIndent(s[1..]) else s
  }

  /** The parts before numbering. */
  function Bare(s: Site): FpKey {
    var scope := if s.at.func == "" then "file " + s.base else s.at.func;
    var trimmed := TrimIndent(s.at.text);
    FpKey(scope, s.oper, s.at.original, s.at.mutant, TrimSpace(trimmed),
          s.at.rawColumn - (|s.at.text| - |trimmed|), 0)
  }

  function KeyFor(s: Site, n: int): FpKey {
    Bare(s).(n := n)
  }

  datatype Options = Options(filter: Option<(string, int, string) -> bool>, operators: Option<set<Operator>>,
                             accepted: set<string>)

  datatype Record = Record(m: Mutation, path: string, line: int, column: int, func: string,
                           original: string, fp: string, init: bool, cover: int)

  // ----- The specification, over the sites seen so far -----

  /** How many of the sites share an unnumbered fingerprint. */
  function Occurrences(h: Hash, ss: seq<Site>, same: string): nat {
    if ss == [] then 0
    else Occurrences(h, ss[..|ss| - 1], same) + (if h(KeyFor(ss[|ss| - 1], 0)) == same then 1 else 0)
  }

  /** The numbered parts of the last site's fingerprint. */
  function LastKey(h: Hash, ss: seq<Site>): FpKey
    requires ss != []
  {
    var s := ss[|ss| - 1];
    KeyFor(s, Occurrences(h, ss, h(KeyFor(s, 0))))
  }

  predicate InScope(o: Options, path: string, line: int, func: string, oper: Operator) {
    && (o.filter.Some? ==> o.filter.value(path, line, func))
    && (o.operators.Some? ==> oper in o.operators.value)
  }

  predicate SiteInScope(o: Options, s: Site) {
    InScope(o, s.path, s.at.line, s.at.func, s.oper)
  }

  function RecordOf(s: Site, id: int, fp: string): Record {
    Record(Mutation(id, s.oper, s.cand.node, s.cand.pos, s.cand.mutant), s.path, s.at.line, s.at.column,
           s.at.func, s.at.original, fp, s.at.init, s.at.cover)
  }

  /** The emitted mutations, in candidate order. */
  function Emitted(o: Options, h: Hash, ss: seq<Site>): seq<Record> {
    if ss == [] then []
    else
      var s, fp := ss[|ss| - 1], h(LastKey(h, ss));
      Emitted(o, h, ss[..|ss| - 1])
      + (if SiteInScope(o, s) && fp !in o.accepted && !s.at.ignored then [RecordOf(s, |ss|, fp)] else [])
  }

  /** The in-scope candidates that an accepted fingerprint or a directive
      suppresses. */
  function Ignored(o: Options, h: Hash, ss: seq<Site>): nat {
    if ss == [] then 0
    else
      var s, fp := ss[|ss| - 1], h(LastKey(h, ss));
      Ignored(o, h, ss[..|ss| - 1]) + (if SiteInScope(o, s) && (fp in o.accepted || s.at.ignored) then 1 else 0)
  }

  function Fingerprints(h: Hash, ss: seq<Site>): set<string> {
    if ss == [] then {} else Fingerprints(h, ss[..|ss| - 1]) + {h(LastKey(h, ss))}
  }

  // ----- The source's loops -----

  /** The running state of the rewriter's candidate loops. */
  class Counter {
    const o: Options
    const h: Hash
    var mutID: nat
    var ignored: nat
    var occurrences: map<string, nat>
    var matched: set<string>
    var mutations: seq<Record>

    constructor (o: Options, h: Hash)
      ensures this.o == o && this.h == h
      ensures mutID == 0 && ignored == 0 && occurrences == map[] && matched == {} && mutations == []
    {
      this.o, this.h := o, h;
      mutID, ignored, occurrences, matched, mutations := 0, 0, map[], {}, [];
    }

    /** The state is the one that numbering the sites ss leaves. */
    ghost predicate Counts(ss: seq<Site>)
      reads this
    {
      && mutID == |ss|
      && ignored == Ignored(o, h, ss)
      && (forall k :: (if k in occurrences then occurrences[k] else 0) == Occurrences(h, ss, k))
      && matched == Fingerprints(h, ss) * o.accepted
      && mutations == Emitted(o, h, ss)
    }

    /** One candidate: numbered and fingerprinted first, then filtered. */
    method Add(s: Site, ghost before: seq<Site>)
      requires Counts(before)
      modifies this
      ensures Counts(before + [s])
    {
      ghost var ss := before + [s];
      assert ss[..|ss| - 1] == before;
      mutID := mutID + 1;
      var same := h(KeyFor(s, 0));
      var count := (if same in occurrences then occurrences[same] else 0) + 1;
      assert Occurrences(h, ss, same) == count && LastKey(h, ss) == KeyFor(s, count);
      occurrences := occurrences[same := count];
      var fp := h(KeyFor(s, count));
      var accepted := fp in o.accepted;
      if accepted {
        matched := matched + {fp};
      }
      if o.filter.Some? && !o.filter.value(s.path, s.at.line, s.at.func) {
        return;
      }
      if o.operators.Some? && s.oper !in o.operators.value {
        return;
      }
      if accepted || s.at.ignored {
        ignored := ignored + 1;
        return;
      }
      mutations := mutations + [RecordOf(s, mutID, fp)];
    }

    /** An operator's candidates in one file, in order. */
    method AddAll(found: seq<Site>, ghost before: seq<Site>)
      requires Counts(before)
      modifies this
      ensures Counts(before + found)
    {
      assert before + found[..0] == before;
      for i := 0 to |found|
        invariant Counts(before + found[..i])
      {
        Add(found[i], before + found[..i]);
        assert before + found[..i] + [found[i]] == before + found[..i + 1];
      }
      assert found[..|found|] == found;
    }

    /** Every operator's candidates in one file. */
    method AddFile(ops: seq<seq<Site>>, ghost before: seq<Site>)
      requires Counts(before)
      modifies this
      ensures Counts(before + Concat(ops))
    {
      ghost var done := before;
      for j := 0 to |ops|
        invariant done == before + Concat(ops[..j])
        invariant Counts(done)
      {
        AddAll(ops[j], done);
        ConcatSnoc(ops, j, before);
        done := done + ops[j];
      }
      assert ops[..|ops|] == ops;
    }
  }

  function Concat(sss: seq<seq<Site>>): seq<Site> {
    if sss == [] then [] else Concat(sss[..|sss| - 1]) + sss[|sss| - 1]
  }

  lemma ConcatSnoc(sss: seq<seq<Site>>, j: nat, before: seq<Site>)
    requires j < |sss|
    ensures before + Concat(sss[..j + 1]) == before + Concat(sss[..j]) + sss[j]
  {
    assert sss[..j + 1][..j] == sss[..j];
  }

  function ConcatAll(ssss: seq<seq<seq<Site>>>): seq<Site> {
    if ssss == [] then [] else ConcatAll(ssss[..|ssss| - 1]) + Concat(ssss[|ssss| - 1])
  }

  /** Files in path order, operators in registration order, candidates in the
      order found.  The stale accepted fingerprints are those no candidate of
      the package has, in scope or not. */
  method NumberAll(o: Options, h: Hash, files: seq<seq<seq<Site>>>)
    returns (mutations: seq<Record>, ignored: nat, stale: set<string>)
    ensures mutations == Emitted(o, h, ConcatAll(files))
    ensures ignored == Ignored(o, h, ConcatAll(files))
    ensures stale == o.accepted - Fingerprints(h, ConcatAll(files))
  {
    var c := new Counter(o, h);
    for i := 0 to |files|
      invariant c.o == o && c.h == h
      invariant c.Counts(ConcatAll(files[..i]))
    {
      c.AddFile(files[i], ConcatAll(files[..i]));
      assert files[..i + 1][..i] == files[..i];
    }
    assert files[..|files|] == files;
    mutations, ignored, stale := c.mutations, c.ignored, o.accepted - c.matched;
  }

  // ----- What it guarantees -----

  function Everything(): Options { Options(None, None, {}) }

  function Kept(o: Options, rs: seq<Record>): seq<Record> {
    if rs == [] then []
    else
      var r := rs[|rs| - 1];
      Kept(o, rs[..|rs| - 1])
      + (if InScope(o, r.path, r.line, r.func, r.m.oper) && r.fp !in o.accepted then [r] else [])
  }

  lemma KeptSnoc(o: Options, rs: seq<Record>, r: Record)
    ensures Kept(o, rs + [r]) ==
            Kept(o, rs) + (if InScope(o, r.path, r.line, r.func, r.m.oper) && r.fp !in o.accepted then [r] else [])
  {
    assert (rs + [r])[..|rs|] == rs;
  }

  /** A scoped run reports exactly the mutations of the unscoped run that its
      filter, operators and accepted fingerprints let through, with the same
      IDs and fingerprints, in the same order. */
  lemma {:induction false} ScopingKeepsIdentity(o: Options, h: Hash, ss: seq<Site>)
    ensures Emitted(o, h, ss) == Kept(o, Emitted(Everything(), h, ss))
  {
    if ss != [] {
      var init, s, fp := ss[..|ss| - 1], ss[|ss| - 1], h(LastKey(h, ss));
      ScopingKeepsIdentity(o, h, init);
      var all, r := Emitted(Everything(), h, init), RecordOf(s, |ss|, fp);
      assert Emitted(Everything(), h, ss) == if s.at.ignored then all else all + [r];
      KeptSnoc(o, all, r);
    }
  }

  function InScopeCount(o: Options, ss: seq<Site>): nat {
    if ss == [] then 0
    else InScopeCount(o, ss[..|ss| - 1]) + (if SiteInScope(o, ss[|ss| - 1]) then 1 else 0)
  }

  /** No in-scope candidate is lost: it is reported or counted as ignored. */
  lemma {:induction false} NothingLost(o: Options, h: Hash, ss: seq<Site>)
    ensures |Emitted(o, h, ss)| + Ignored(o, h, ss) == InScopeCount(o, ss)
  {
    if ss != [] {
      NothingLost(o, h, ss[..|ss| - 1]);
    }
  }

  ghost predicate IsCandidate(ss: seq<Site>, m: Mutation) {
    1 <= m.id <= |ss|
    && var s := ss[m.id - 1]; m == Mutation(m.id, s.oper, s.cand.node, s.cand.pos, s.cand.mutant)
  }

  ghost predicate Increasing(es: seq<Record>) {
    forall i, j :: 0 <= i < j < |es| ==> es[i].m.id < es[j].m.id
  }

  /** Each emitted mutation is its ID's candidate, and IDs increase. */
  lemma {:induction false} EmittedFrom(o: Options, h: Hash, ss: seq<Site>)
    ensures forall i :: 0 <= i < |Emitted(o, h, ss)| ==> IsCandidate(ss, Emitted(o, h, ss)[i].m)
    ensures Increasing(Emitted(o, h, ss))
  {
    if ss != [] {
      var init := ss[..|ss| - 1];
      EmittedFrom(o, h, init);
      var es, before := Emitted(o, h, ss), Emitted(o, h, init);
      forall i | 0 <= i < |es|
        ensures IsCandidate(ss, es[i].m) && (i < |before| ==> es[i] == before[i])
      {
        if i < |before| {
          assert IsCandidate(init, before[i].m);
        }
      }
      forall i, j | 0 <= i < j < |es|
        ensures es[i].m.id < es[j].m.id
      {
        assert IsCandidate(init, before[i].m);
      }
    }
  }

  lemma {:induction false} OccurrencesGrow(h: Hash, ss: seq<Site>, i: nat, same: string)
    requires i <= |ss|
    ensures Occurrences(h, ss[..i], same) <= Occurrences(h, ss, same)
    decreases |ss| - i
  {
    if i < |ss| {
      OccurrencesGrow(h, ss, i + 1, same);
      assert ss[..i + 1][..i] == ss[..i];
    } else {
      assert ss[..i] == ss;
    }
  }

  /** The parts hashed for any two candidates of a package differ, whatever the
      hash: candidates whose unnumbered fingerprints agree, by collision or
      not, share one increasing counter. */
  lemma FingerprintKeysDistinct(h: Hash, ss: seq<Site>, i: nat, j: nat)
    requires i < j < |ss|
    ensures LastKey(h, ss[..i + 1]) != LastKey(h, ss[..j + 1])
  {
    var a, b := ss[..i + 1], ss[..j + 1];
    assert a[|a| - 1] == ss[i] && b[|b| - 1] == ss[j];
    assert LastKey(h, a).(n := 0) == KeyFor(ss[i], 0) && LastKey(h, b).(n := 0) == KeyFor(ss[j], 0);
    if KeyFor(ss[i], 0) == KeyFor(ss[j], 0) {
      var same := h(KeyFor(ss[j], 0));
      assert b[..j] == ss[..j] && ss[..j][..i + 1] == a;
      OccurrencesGrow(h, ss[..j], i + 1, same);
      assert LastKey(h, a).n < LastKey(h, b).n;
    }
  }

  // ----- What a fingerprint depends on -----

  lemma {:induction false} OccurrencesPlus(h: Hash, a: seq<Site>, b: seq<Site>, same: string)
    ensures Occurrences(h, a + b, same) == Occurrences(h, a, same) + Occurrences(h, b, same)
    decreases |b|
  {
    if b == [] {
      assert a + b == a;
    } else {
      assert (a + b)[..|a + b| - 1] == a + b[..|b| - 1];
      OccurrencesPlus(h, a, b[..|b| - 1], same);
    }
  }

  lemma {:induction false} NoOccurrence(h: Hash, xs: seq<Site>, same: string)
    requires forall x :: x in xs ==> h(KeyFor(x, 0)) != same
    ensures Occurrences(h, xs, same) == 0
  {
    if xs != [] {
      assert xs[|xs| - 1] in xs;
      NoOccurrence(h, xs[..|xs| - 1], same);
    }
  }

  lemma {:induction false} OccurrencesSnoc(h: Hash, ss: seq<Site>, s: Site, same: string)
    ensures Occurrences(h, ss + [s], same) == Occurrences(h, ss, same) + (if h(KeyFor(s, 0)) == same then 1 else 0)
  {
    var all := ss + [s];
    assert all[..|all| - 1] == ss && all[|all| - 1] == s;
  }

  lemma {:induction false} LastKeySnoc(h: Hash, ss: seq<Site>, s: Site)
    ensures LastKey(h, ss + [s]) == KeyFor(s, Occurrences(h, ss, h(KeyFor(s, 0))) + 1)
  {
    var all := ss + [s];
    OccurrencesSnoc(h, ss, s, h(KeyFor(s, 0)));
    assert all[|all| - 1] == s;
  }

  /** Candidates that are not identical to s, wherever in the package they are
      added, leave its fingerprint alone. */
  lemma {:induction false} FingerprintStable(h: Hash, a: seq<Site>, xs: seq<Site>, b: seq<Site>, s: Site)
    requires forall x :: x in xs ==> h(KeyFor(x, 0)) != h(KeyFor(s, 0))
    ensures LastKey(h, a + xs + b + [s]) == LastKey(h, a + b + [s])
  {
    var same := h(KeyFor(s, 0));
    LastKeySnoc(h, a + xs + b, s);
    LastKeySnoc(h, a + b, s);
    OccurrencesPlus(h, a + xs, b, same);
    OccurrencesPlus(h, a, xs, same);
    OccurrencesPlus(h, a, b, same);
    NoOccurrence(h, xs, same);
  }

  /** Identical candidates are numbered from 1, in order. */
  lemma {:induction false} NumberedFromOne(h: Hash, a: seq<Site>, s: Site, b: seq<Site>, t: Site)
    requires h(KeyFor(s, 0)) == h(KeyFor(t, 0))
    requires forall x :: x in a + b ==> h(KeyFor(x, 0)) != h(KeyFor(s, 0))
    ensures LastKey(h, a + [s]).n == 1 && LastKey(h, a + [s] + b + [t]).n == 2
  {
    var same := h(KeyFor(s, 0));
    assert forall x :: x in a ==> x in a + b;
    assert forall x :: x in b ==> x in a + b;
    LastKeySnoc(h, a, s);
    LastKeySnoc(h, a + [s] + b, t);
    OccurrencesPlus(h, a + [s], b, same);
    OccurrencesPlus(h, a, [s], same);
    NoOccurrence(h, a, same);
    NoOccurrence(h, b, same);
    assert [s][..0] == [];
  }

  lemma {:induction false} IndentTrims(indent: string, text: string)
    requires forall k :: 0 <= k < |indent| ==> indent[k] == ' ' || indent[k] == '\t'
    ensures TrimIndent(indent + text) == TrimIndent(text)
  {
    if indent == "" {
      assert indent + text == text;
    } else {
      assert (indent + text)[1..] == indent[1..] + text;
      IndentTrims(indent[1..], text);
    }
  }

  /** A fingerprint is of the scope, the operator, the change, the trimmed line
      and the column within it: moving the line, indenting it further, or a
      directive or filter elsewhere makes no difference, ... */
  lemma {:induction false} FingerprintIgnores(s: Site, moved: Site, indent: string)
    requires forall k :: 0 <= k < |indent| ==> indent[k] == ' ' || indent[k] == '\t'
    requires moved.oper == s.oper && moved.at.func == s.at.func && moved.base == s.base
    requires moved.at.original == s.at.original && moved.at.mutant == s.at.mutant
    requires moved.at.text == indent + s.at.text && moved.at.rawColumn == s.at.rawColumn + |indent|
    ensures forall n: nat :: KeyFor(moved, n) == KeyFor(s, n)
  {
    IndentTrims(indent, s.at.text);
  }

  /** ... while each of those parts does: candidates that differ in one of them
      are not identical. */
  lemma {:induction false} FingerprintTells(s: Site, t: Site, n: nat)
    requires KeyFor(s, n) == KeyFor(t, n)
    ensures s.oper == t.oper && s.at.original == t.at.original && s.at.mutant == t.at.mutant
    ensures s.at.func != "" && t.at.func != "" ==> s.at.func == t.at.func
    ensures s.at.func == "" && t.at.func == "" ==> s.base == t.base
    ensures TrimSpace(TrimIndent(s.at.text)) == TrimSpace(TrimIndent(t.at.text))
    ensures s.at.rawColumn - (|s.at.text| - |TrimIndent(s.at.text)|) ==
            t.at.rawColumn - (|t.at.text| - |TrimIndent(t.at.text)|)
  {
    if s.at.func == "" && t.at.func == "" {
      assert ("file " + s.base)[|"file "|..] == s.base && ("file " + t.base)[|"file "|..] == t.base;
    }
  }

  /** The last candidate adds its record, if any, to those of the others. */
  lemma {:induction false} RecordedSoFar(o: Options, h: Hash, ss: seq<Site>)
    requires ss != []
    ensures var s, before, all := ss[|ss| - 1], Emitted(o, h, ss[..|ss| - 1]), Emitted(o, h, ss);
            var fp := h(LastKey(h, ss));
            && (forall r :: r in before ==> r.m.id < |ss|)
            && (forall r :: r in all <==>
                  || r in before
                  || (SiteInScope(o, s) && fp !in o.accepted && !s.at.ignored && r == RecordOf(s, |ss|, fp)))
  {
    var init := ss[..|ss| - 1];
    EmittedFrom(o, h, init);
    var before := Emitted(o, h, init);
    forall r | r in before
      ensures r.m.id < |ss|
    {
      var k :| 0 <= k < |before| && before[k] == r;
      assert IsCandidate(init, before[k].m);
    }
  }

  /** A candidate is recorded, with its own position and texts, exactly if the
      filter and the operator selection admit it and neither an accepted
      fingerprint nor a directive suppresses it. */
  lemma {:induction false} RecordedIff(o: Options, h: Hash, ss: seq<Site>, i: nat)
    requires i < |ss|
    ensures var s, fp := ss[i], h(LastKey(h, ss[..i + 1]));
            && ((exists r :: r in Emitted(o, h, ss) && r.m.id == i + 1) <==>
                  && (o.filter.Some? ==> o.filter.value(s.path, s.at.line, s.at.func))
                  && (o.operators.Some? ==> s.oper in o.operators.value)
                  && fp !in o.accepted && !s.at.ignored)
            && (forall r :: r in Emitted(o, h, ss) && r.m.id == i + 1 ==>
                  && r.m == Mutation(i + 1, s.oper, s.cand.node, s.cand.pos, s.cand.mutant)
                  && r.path == s.path && r.line == s.at.line && r.column == s.at.column && r.func == s.at.func
                  && r.original == s.at.original && r.fp == fp && r.init == s.at.init && r.cover == s.at.cover)
  {
    var init, n := ss[..|ss| - 1], |ss| - 1;
    RecordedSoFar(o, h, ss);
    if i < n {
      RecordedIff(o, h, init, i);
      assert init[..i + 1] == ss[..i + 1] && init[i] == ss[i];
    } else {
      assert ss[..i + 1] == ss;
    }
  }

  // ----- Where a candidate is -----

  datatype Span = Span(start: int, end: int, line: int)

  predicate Holds(s: Span, pos: int) { s.start <= pos < s.end }

  /** The statement line of the innermost case list holding pos: the one that
      starts last.  0 when pos is in none. */
  method CaseStmtLine(spans: seq<Span>, pos: int) returns (line: int)
    requires forall i :: 0 <= i < |spans| ==> spans[i].start > 0
    ensures (forall i :: 0 <= i < |spans| ==> !Holds(spans[i], pos)) ==> line == 0
    ensures (exists i :: 0 <= i < |spans| && Holds(spans[i], pos)) ==>
              exists i :: 0 <= i < |spans| && Holds(spans[i], pos) && spans[i].line == line
                          && (forall j :: 0 <= j < |spans| && Holds(spans[j], pos) ==> spans[j].start <= spans[i].start)
                          && (forall j :: 0 <= j < i && Holds(spans[j], pos) ==> spans[j].start < spans[i].start)
  {
    line := 0;
    var start := 0;
    ghost var best := -1;
    for k := 0 to |spans|
      invariant -1 <= best < k
      invariant best == -1 ==> line == 0 && start == 0 && forall i :: 0 <= i < k ==> !Holds(spans[i], pos)
      invariant best >= 0 ==> Holds(spans[best], pos) && line == spans[best].line && start == spans[best].start
      invariant best >= 0 ==> forall j :: 0 <= j < k && Holds(spans[j], pos) ==> spans[j].start <= start
      invariant best >= 0 ==> forall j :: 0 <= j < best && Holds(spans[j], pos) ==> spans[j].start < start
    {
      if pos >= spans[k].start && pos < spans[k].end && spans[k].start > start {
        line, start := spans[k].line, spans[k].start;
        best := k;
      }
    }
  }
}
