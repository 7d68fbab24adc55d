/** Per-test coverage: which tests run which line, and how often. */
module Coverage {
  import opened Seqs

  /** A test is its rank in the order of the names. */
  type Test = nat

  datatype FileLine = FileLine(file: string, line: int)

  /** A cover block one test's run executed; file is its base name. */
  datatype Block = Block(file: string, first: int, last: int, count: nat)

  datatype Hit = Hit(name: Test, hits: nat)

  type Counts = map<FileLine, map<Test, nat>>

  const SCHEMA_FILE := "kanly_schema.go"

  predicate Spans(b: Block, key: FileLine) {
    b.file != SCHEMA_FILE && b.file == key.file && b.first <= key.line <= b.last
  }

  // ----- Merging the runs -----

  function CountAt(out: Counts, key: FileLine, name: Test): Option<nat> {
    if key in out && name in out[key] then Some(out[key][name]) else None
  }

  function Plus(c: Option<nat>, n: nat): Option<nat> {
    match c
    case None => Some(n)
    case Some(m) => Some(m + n)
  }

  /** A count once the blocks of one run are added. */
  function Tally(c: Option<nat>, blocks: seq<Block>, key: FileLine): Option<nat> {
    if blocks == [] then c
    else
      var n := |blocks| - 1;
      var before := Tally(c, blocks[..n], key);
      if Spans(blocks[n], key) then Plus(before, blocks[n].count) else before
  }

  function Total(inventory: seq<Test>, runs: seq<seq<Block>>, n: nat, key: FileLine, name: Test): Option<nat>
    requires n <= |inventory| == |runs|
  {
    if n == 0 then None
    else
      var before := Total(inventory, runs, n - 1, key, name);
      if inventory[n - 1] == name then Tally(before, runs[n - 1], key) else before
  }

  method AddBlock(out: Counts, name: Test, b: Block) returns (r: Counts)
    requires b.file != SCHEMA_FILE
    ensures forall key, t :: CountAt(r, key, t) ==
              if t == name && Spans(b, key) then Plus(CountAt(out, key, t), b.count) else CountAt(out, key, t)
  {
    r := out;
    var ln := b.first;
    while ln <= b.last
      invariant ln >= b.first
      invariant ln <= b.last + 1 || ln == b.first
      invariant forall key, t :: CountAt(r, key, t) ==
                  if t == name && Spans(b, key) && key.line < ln then Plus(CountAt(out, key, t), b.count)
                  else CountAt(out, key, t)
      decreases b.last - ln
    {
      var key := FileLine(b.file, ln);
      var tests: map<Test, nat> := if key in r then r[key] else map[];
      r := r[key := tests[name := b.count + if name in tests then tests[name] else 0]];
      ln := ln + 1;
    }
  }

  /** Walks the inventory in order, whatever order the runs finished in. */
  method Merge(inventory: seq<Test>, runs: seq<seq<Block>>) returns (out: Counts)
    requires |inventory| == |runs|
    ensures forall key, t :: CountAt(out, key, t) == Total(inventory, runs, |runs|, key, t)
  {
    out := map[];
    for i := 0 to |runs|
      invariant forall key, t :: CountAt(out, key, t) == Total(inventory, runs, i, key, t)
    {
      ghost var start := out;
      for k := 0 to |runs[i]|
        invariant forall key, t :: CountAt(out, key, t) ==
                    if t == inventory[i] then Tally(CountAt(start, key, t), runs[i][..k], key)
                    else CountAt(start, key, t)
      {
        assert runs[i][..k + 1][..k] == runs[i][..k];
        if runs[i][k].file != SCHEMA_FILE {
          out := AddBlock(out, inventory[i], runs[i][k]);
        }
      }
      assert runs[i][..|runs[i]|] == runs[i];
    }
  }

  // ----- What the counts mean -----

  predicate Touches(blocks: seq<Block>, key: FileLine) {
    exists k :: 0 <= k < |blocks| && Spans(blocks[k], key)
  }

  /** One of the test's runs executed a block that spans the line. */
  predicate Executes(inventory: seq<Test>, runs: seq<seq<Block>>, key: FileLine, name: Test)
    requires |inventory| == |runs|
  {
    exists i :: 0 <= i < |runs| && inventory[i] == name && Touches(runs[i], key)
  }

  /** Over the runs of one test, the counts of the blocks on the line. */
  function SumOf(inventory: seq<Test>, runs: seq<seq<Block>>, key: FileLine, name: Test): nat
    requires |inventory| == |runs|
  {
    if runs == [] then 0
    else (if inventory[0] == name then Sum(runs[0], key) else 0) + SumOf(inventory[1..], runs[1..], key, name)
  }

  function Sum(blocks: seq<Block>, key: FileLine): nat {
    if blocks == [] then 0 else (if Spans(blocks[0], key) then blocks[0].count else 0) + Sum(blocks[1..], key)
  }

  lemma {:induction false} SumSnoc(blocks: seq<Block>, b: Block, key: FileLine)
    ensures Sum(blocks + [b], key) == Sum(blocks, key) + if Spans(b, key) then b.count else 0
  {
    if blocks == [] {
      assert blocks + [b] == [b];
    } else {
      assert (blocks + [b])[1..] == blocks[1..] + [b];
      SumSnoc(blocks[1..], b, key);
    }
  }

  lemma {:induction false} TallyMeans(c: Option<nat>, blocks: seq<Block>, key: FileLine)
    ensures var r := Tally(c, blocks, key);
            && (r.Some? <==> c.Some? || Touches(blocks, key))
            && (if r.Some? then r.value == (if c.Some? then c.value else 0) + Sum(blocks, key)
                else Sum(blocks, key) == 0)
  {
    if blocks != [] {
      var n := |blocks| - 1;
      TallyMeans(c, blocks[..n], key);
      SumSnoc(blocks[..n], blocks[n], key);
      assert blocks == blocks[..n] + [blocks[n]];
    }
  }

  lemma {:induction false} SumOfSnoc(inventory: seq<Test>, runs: seq<seq<Block>>, t: Test, run: seq<Block>,
                                     key: FileLine, name: Test)
    requires |inventory| == |runs|
    ensures SumOf(inventory + [t], runs + [run], key, name) ==
            SumOf(inventory, runs, key, name) + if t == name then Sum(run, key) else 0
  {
    if runs == [] {
      assert runs + [run] == [run] && inventory + [t] == [t];
    } else {
      assert (runs + [run])[1..] == runs[1..] + [run] && (inventory + [t])[1..] == inventory[1..] + [t];
      SumOfSnoc(inventory[1..], runs[1..], t, run, key, name);
    }
  }

  lemma {:induction false} TotalMeansFirst(inventory: seq<Test>, runs: seq<seq<Block>>, n: nat, key: FileLine,
                                           name: Test)
    requires n <= |inventory| == |runs|
    ensures var r := Total(inventory, runs, n, key, name);
            && (r.Some? <==> Executes(inventory[..n], runs[..n], key, name))
            && SumOf(inventory[..n], runs[..n], key, name) == if r.Some? then r.value else 0
  {
    if n > 0 {
      TotalMeansFirst(inventory, runs, n - 1, key, name);
      TallyMeans(Total(inventory, runs, n - 1, key, name), runs[n - 1], key);
      SumOfSnoc(inventory[..n - 1], runs[..n - 1], inventory[n - 1], runs[n - 1], key, name);
      assert inventory[..n] == inventory[..n - 1] + [inventory[n - 1]] && runs[..n] == runs[..n - 1] + [runs[n - 1]];
      assert forall i :: 0 <= i < n - 1 ==> runs[..n][i] == runs[..n - 1][i];
    }
  }

  /** A test counts for a line exactly when a run of it executed a block there,
      and then with the sum over those blocks. */
  lemma TotalMeans(inventory: seq<Test>, runs: seq<seq<Block>>, key: FileLine, name: Test)
    requires |inventory| == |runs|
    ensures var r := Total(inventory, runs, |runs|, key, name);
            && (r.Some? <==> Executes(inventory, runs, key, name))
            && (r.Some? ==> r.value == SumOf(inventory, runs, key, name))
  {
    TotalMeansFirst(inventory, runs, |runs|, key, name);
    assert inventory[..|runs|] == inventory && runs[..|runs|] == runs;
  }

  // ----- The tests of a line, in name order -----

  predicate ByName(hits: seq<Hit>) {
    forall j, k :: 0 <= j < k < |hits| ==> hits[j].name < hits[k].name
  }

  function InsertHit(h: Hit, hits: seq<Hit>): (r: seq<Hit>)
    requires ByName(hits) && forall k :: 0 <= k < |hits| ==> hits[k].name != h.name
    ensures ByName(r)
    ensures forall g :: g in r <==> g == h || g in hits
  {
    if hits == [] || h.name < hits[0].name then [h] + hits
    else
      var r := InsertHit(h, hits[1..]);
      assert hits == [hits[0]] + hits[1..];
      assert forall k :: 0 <= k < |r| ==> r[k] in r;
      [hits[0]] + r
  }

  ghost predicate Lists(hits: seq<Hit>, counts: map<Test, nat>) {
    ByName(hits) && forall h :: h in hits <==> h.name in counts && counts[h.name] == h.hits
  }

  /** Whatever order the map yields its tests in. */
  method SortHits(counts: map<Test, nat>) returns (hits: seq<Hit>)
    ensures Lists(hits, counts)
  {
    hits := [];
    var rest := counts.Keys;
    while rest != {}
      invariant rest <= counts.Keys
      invariant ByName(hits)
      invariant forall h :: h in hits <==> h.name in counts.Keys - rest && counts[h.name] == h.hits
      decreases rest
    {
      var t :| t in rest;
      rest := rest - {t};
      assert forall k :: 0 <= k < |hits| ==> hits[k] in hits;
      hits := InsertHit(Hit(t, counts[t]), hits);
    }
  }

  ghost predicate Collected(inventory: seq<Test>, runs: seq<seq<Block>>, cov: map<FileLine, seq<Hit>>)
    requires |inventory| == |runs|
  {
    && (forall key :: key in cov ==> ByName(cov[key]))
    && forall key, h :: h in HitsAt(cov, key) <==> Total(inventory, runs, |runs|, key, h.name) == Some(h.hits)
  }

  function HitsAt(cov: map<FileLine, seq<Hit>>, key: FileLine): seq<Hit> {
    if key in cov then cov[key] else []
  }

  /** The per-test coverage of a package: what each line's tests are. */
  method Collect(inventory: seq<Test>, runs: seq<seq<Block>>) returns (result: map<FileLine, seq<Hit>>)
    requires |inventory| == |runs|
    ensures Collected(inventory, runs, result)
  {
    var out := Merge(inventory, runs);
    result := map[];
    var rest := out.Keys;
    while rest != {}
      invariant rest <= out.Keys
      invariant result.Keys == out.Keys - rest
      invariant forall key :: key in result ==> Lists(result[key], out[key])
      decreases rest
    {
      var key :| key in rest;
      rest := rest - {key};
      var hits := SortHits(out[key]);
      result := result[key := hits];
    }
    forall key, h
      ensures h in HitsAt(result, key) <==> CountAt(out, key, h.name) == Some(h.hits)
    {
    }
  }

  // ----- The tests that cover a mutant -----

  function Names(hits: seq<Hit>): (r: seq<Test>)
    ensures |r| == |hits| && forall k :: 0 <= k < |r| ==> r[k] == hits[k].name
  {
    seq(|hits|, k requires 0 <= k < |hits| => hits[k].name)
  }

  predicate Named(hits: seq<Hit>, name: Test) {
    name in Names(hits)
  }

  lemma NamesPlus(a: seq<Hit>, b: seq<Hit>)
    ensures Names(a + b) == Names(a) + Names(b)
  {
  }

  /** The first hit of each name. */
  function FirstHits(hits: seq<Hit>): seq<Hit> {
    if hits == [] then []
    else
      var n := |hits| - 1;
      if Named(hits[..n], hits[n].name) then FirstHits(hits[..n]) else FirstHits(hits[..n]) + [hits[n]]
  }

  method UnionHits(a: seq<Hit>, b: seq<Hit>) returns (out: seq<Hit>)
    ensures out == FirstHits(a + b)
  {
    var hits := a + b;
    var seen: set<Test> := {};
    out := [];
    for i := 0 to |hits|
      invariant forall t :: t in seen <==> Named(hits[..i], t)
      invariant out == FirstHits(hits[..i])
    {
      assert hits[..i + 1] == hits[..i] + [hits[i]];
      NamesPlus(hits[..i], [hits[i]]);
      if hits[i].name !in seen {
        seen := seen + {hits[i].name};
        out := out + [hits[i]];
      }
    }
    assert hits[..|hits|] == hits;
  }

  lemma {:induction false} FirstHitsMeans(hits: seq<Hit>)
    ensures Distinct(Names(FirstHits(hits)))
    ensures forall t :: Named(FirstHits(hits), t) <==> Named(hits, t)
    ensures forall h :: h in FirstHits(hits) ==> h in hits
  {
    if hits != [] {
      var n := |hits| - 1;
      FirstHitsMeans(hits[..n]);
      assert hits == hits[..n] + [hits[n]];
      NamesPlus(hits[..n], [hits[n]]);
      var first := FirstHits(hits[..n]);
      NamesPlus(first, [hits[n]]);
      assert Names([hits[n]]) == [hits[n].name];
      forall t
        ensures Named(FirstHits(hits), t) <==> Named(hits, t)
      {
        assert Named(first, t) <==> Named(hits[..n], t);
      }
    }
  }

  /** The tests that run a mutant's line or its cover line. */
  method CoveringTests(cov: map<FileLine, seq<Hit>>, file: string, line: int, coverLine: int) returns (names: seq<Test>)
    ensures names == Names(FirstHits(HitsAt(cov, FileLine(file, line)) + HitsAt(cov, FileLine(file, coverLine))))
  {
    var hits := UnionHits(HitsAt(cov, FileLine(file, line)), HitsAt(cov, FileLine(file, coverLine)));
    names := Names(hits);
  }

  lemma LineTests(inventory: seq<Test>, runs: seq<seq<Block>>, cov: map<FileLine, seq<Hit>>, key: FileLine, t: Test)
    requires |inventory| == |runs| && Collected(inventory, runs, cov)
    ensures Named(HitsAt(cov, key), t) <==> Executes(inventory, runs, key, t)
  {
    TotalMeans(inventory, runs, key, t);
    var r := Total(inventory, runs, |runs|, key, t);
    if r.Some? {
      assert Hit(t, r.value) in HitsAt(cov, key);
    }
    forall k | 0 <= k < |HitsAt(cov, key)| && HitsAt(cov, key)[k].name == t
      ensures r.Some?
    {
      assert HitsAt(cov, key)[k] in HitsAt(cov, key);
    }
  }

  /** A block of one of t's runs, outside the generated file, spans the line. */
  ghost predicate RanOn(inventory: seq<Test>, runs: seq<seq<Block>>, line: FileLine, t: Test, i: nat, k: nat)
    requires |inventory| == |runs|
  {
    && i < |runs| && k < |runs[i]| && inventory[i] == t
    && runs[i][k].file == line.file && runs[i][k].file != "kanly_schema.go"
    && runs[i][k].first <= line.line && line.line <= runs[i][k].last
  }

  lemma ExecutesRan(inventory: seq<Test>, runs: seq<seq<Block>>, line: FileLine, t: Test)
    requires |inventory| == |runs|
    ensures Executes(inventory, runs, line, t) <==> exists i, k :: RanOn(inventory, runs, line, t, i, k)
  {
    if Executes(inventory, runs, line, t) {
      var i :| 0 <= i < |runs| && inventory[i] == t && Touches(runs[i], line);
      var k :| 0 <= k < |runs[i]| && Spans(runs[i][k], line);
      assert RanOn(inventory, runs, line, t, i, k);
    }
    forall i: nat, k: nat | RanOn(inventory, runs, line, t, i, k)
      ensures Executes(inventory, runs, line, t)
    {
      assert Spans(runs[i][k], line) && Touches(runs[i], line);
    }
  }

  /** From the profiles to a mutant: each covering test is listed once, and a
      test covers exactly if its run executed a block on the mutant's line or
      on its cover line. */
  lemma CoveringMeans(inventory: seq<Test>, runs: seq<seq<Block>>, cov: map<FileLine, seq<Hit>>,
                      line: FileLine, coverLine: FileLine, t: Test)
    requires |inventory| == |runs| && Collected(inventory, runs, cov)
    ensures var names := Names(FirstHits(HitsAt(cov, line) + HitsAt(cov, coverLine)));
            && Distinct(names)
            && (t in names <==> || (exists i, k :: RanOn(inventory, runs, line, t, i, k))
                                || (exists i, k :: RanOn(inventory, runs, coverLine, t, i, k)))
  {
    var a, b := HitsAt(cov, line), HitsAt(cov, coverLine);
    FirstHitsMeans(a + b);
    LineTests(inventory, runs, cov, line, t);
    LineTests(inventory, runs, cov, coverLine, t);
    ExecutesRan(inventory, runs, line, t);
    ExecutesRan(inventory, runs, coverLine, t);
    NamesPlus(a, b);
    assert Named(FirstHits(a + b), t) <==> Named(a + b, t);
  }
}
