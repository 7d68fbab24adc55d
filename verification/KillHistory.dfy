/** The kill cache over any history of runs.  The assumption is that a test's
    failure is a function G of the mutant's key and the test's source hash,
    when it has both, and that a suite times out only if none of its tests is
    known to fail. */
module KillHistory {
  import opened Seqs
  import opened Verdicts
  import opened KillCache
  import opened MutantLoop

  type Truth = (string, string, string) -> bool  // key, test, source hash

  /** The test is known to kill mutant i. */
  predicate KnownKill(s: Session, g: Truth, i: nat, name: string)
    requires i < |s.mutants|
  {
    var key, h := s.mutants[i].key, HashOf(s.testHash, name);
    key != "" && h != "" && g(key, name, h)
  }

  predicate Keyed(s: Session, i: nat, name: string)
    requires i < |s.mutants|
  {
    s.mutants[i].key != "" && HashOf(s.testHash, name) != ""
  }

  /** A process over the tests of suite j reports only real failures and
      misses none that is known. */
  ghost predicate HonestProcess(s: Session, g: Truth, i: nat, j: nat, a: Attempt)
    requires WellFormed(s) && i < |s.mutants| && j < |s.suites|
  {
    var out := s.run(i, j, a);
    && out.status in {Survived, Killed, Timeout}
    && (forall k :: 0 <= k < |out.killers| && Keyed(s, i, ResultName(s.suites[j], out.killers[k])) ==>
          KnownKill(s, g, i, ResultName(s.suites[j], out.killers[k])))
    && (forall k :: 0 <= k < |Tests(s, i)[j]| && KnownKill(s, g, i, ResultName(s.suites[j], Tests(s, i)[j][k])) ==>
          out.status == Killed)
  }

  ghost predicate Honest(s: Session, g: Truth) {
    WellFormed(s) && forall i, j, a :: 0 <= i < |s.mutants| && 0 <= j < |s.suites| ==> HonestProcess(s, g, i, j, a)
  }

  /** Every stored killer really kills under its stored key and hash. */
  ghost predicate Sound(m: Store, g: Truth) {
    forall fp :: fp in m ==> SoundEntry(m[fp], g)
  }

  ghost predicate SoundEntry(e: Entry, g: Truth) {
    e.key != "" && forall name :: name in e.killers ==> e.killers[name] != "" && g(e.key, name, e.killers[name])
  }

  // ----- What runs store -----

  lemma {:induction false} KillersKnown(s: Session, g: Truth, i: nat, a: Attempt, n: nat)
    requires Honest(s, g) && i < |s.mutants| && n <= |s.suites|
    ensures forall name :: name in Killers(s.suites, Tests(s, i), RunOf(s, i, a), n) && Keyed(s, i, name) ==>
              KnownKill(s, g, i, name)
  {
    if n > 0 {
      KillersKnown(s, g, i, a, n - 1);
      assert HonestProcess(s, g, i, n - 1, a);
    }
  }

  lemma FinalKillersKnown(s: Session, g: Truth, i: nat)
    requires Honest(s, g) && i < |s.mutants|
    ensures var r := Final(s, i, map[]);
            forall name :: name in r.killing && Keyed(s, i, name) ==> KnownKill(s, g, i, name)
  {
    forall a: Attempt
      ensures forall name :: name in Judge(s, i, a).killers && Keyed(s, i, name) ==> KnownKill(s, g, i, name)
    {
      KillersKnown(s, g, i, a, Stop(Tests(s, i), RunOf(s, i, a), s.failFast, 0));
    }
  }

  function Fps(s: Session): seq<string> {
    seq(|s.mutants|, i requires 0 <= i < |s.mutants| => s.mutants[i].fp)
  }

  function Keys(s: Session): seq<string> {
    seq(|s.mutants|, i requires 0 <= i < |s.mutants| => s.mutants[i].key)
  }

  /** What a run with the given cache adds to it. */
  function Changes(s: Session, cache: Store): Store
    requires WellFormed(s)
  {
    Updates(Results(s, Usable(s, cache)), Fps(s), Keys(s), s.testHash)
  }

  /** The killers a list of results stores are known kills. */
  predicate Stores(s: Session, g: Truth, i: nat, r: Result)
    requires i < |s.mutants|
  {
    Fresh(r, s.mutants[i].key) ==> forall name :: name in r.killing && Keyed(s, i, name) ==> KnownKill(s, g, i, name)
  }

  lemma {:induction false} UpdatesSound(s: Session, g: Truth, results: seq<Result>, n: nat)
    requires n <= |results| == |s.mutants|
    requires forall i :: 0 <= i < n ==> Stores(s, g, i, results[i])
    ensures Sound(Updates(results[..n], Fps(s)[..n], Keys(s)[..n], s.testHash), g)
  {
    if n > 0 {
      UpdatesSound(s, g, results, n - 1);
      assert results[..n][..n - 1] == results[..n - 1];
      assert Fps(s)[..n][..n - 1] == Fps(s)[..n - 1] && Keys(s)[..n][..n - 1] == Keys(s)[..n - 1];
      assert Stores(s, g, n - 1, results[n - 1]);
    }
  }

  lemma RunKeepsSound(s: Session, g: Truth, cache: Store)
    requires Honest(s, g) && Sound(cache, g)
    ensures Sound(Updated(cache, Changes(s, cache)), g)
  {
    var results := Results(s, Usable(s, cache));
    forall i | 0 <= i < |results|
      ensures Stores(s, g, i, results[i])
    {
      FinalKillersKnown(s, g, i);
      FinalFresh(s, i, Usable(s, cache));
    }
    UpdatesSound(s, g, results, |results|);
    assert results[..|results|] == results && Fps(s)[..|results|] == Fps(s) && Keys(s)[..|results|] == Keys(s);
  }

  /** A result that is not reused is what a run without a cache reports. */
  lemma FinalFresh(s: Session, i: nat, stored: Store)
    requires WellFormed(s) && i < |s.mutants|
    ensures Final(s, i, stored).cached || Final(s, i, stored) == Final(s, i, map[])
  {
  }

  lemma {:induction false} UpdatesAt(results: seq<Result>, fps: seq<string>, keys: seq<string>,
                                     testHash: map<string, string>, i: nat)
    requires |results| == |fps| == |keys| && i < |results| && Distinct(fps)
    ensures var u := Updates(results, fps, keys, testHash);
            && (fps[i] in u <==> Fresh(results[i], keys[i]))
            && (fps[i] in u ==> u[fps[i]] == NewEntry(results[i], keys[i], testHash))
  {
    var n := |results| - 1;
    if i < n {
      UpdatesAt(results[..n], fps[..n], keys[..n], testHash, i);
    } else {
      OtherFingerprints(results[..n], fps[..n], keys[..n], testHash, fps[n]);
    }
  }

  lemma {:induction false} OtherFingerprints(results: seq<Result>, fps: seq<string>, keys: seq<string>,
                                             testHash: map<string, string>, fp: string)
    requires |results| == |fps| == |keys| && fp !in fps
    ensures fp !in Updates(results, fps, keys, testHash)
  {
    if results != [] {
      var n := |results| - 1;
      assert fps[n] in fps && forall f :: f in fps[..n] ==> f in fps;
      OtherFingerprints(results[..n], fps[..n], keys[..n], testHash, fp);
    }
  }

  /** A run replaces exactly the entries of its fresh verdicts: a kill with a
      readable killer is stored, any other verdict forgets the mutant. */
  lemma RunReplaces(s: Session, cache: Store, i: nat)
    requires WellFormed(s) && i < |s.mutants| && Distinct(Fps(s))
    ensures var m, fp, r := Updated(cache, Changes(s, cache)), s.mutants[i].fp, Final(s, i, Usable(s, cache));
            if Fresh(r, s.mutants[i].key)
            then (fp in m <==> r.status == Killed && exists name :: name in r.killing && HashOf(s.testHash, name) != "")
                 && (fp in m ==> m[fp] == NewEntry(r, s.mutants[i].key, s.testHash))
            else EntryOf(m, fp) == EntryOf(cache, fp)
  {
    var r := Final(s, i, Usable(s, cache));
    UpdatesAt(Results(s, Usable(s, cache)), Fps(s), Keys(s), s.testHash, i);
    var killers := KillerHashes(r.killing, s.testHash);
    assert forall name :: name in r.killing && HashOf(s.testHash, name) != "" ==> name in killers;
  }

  /** A fingerprint outside the run keeps what the cache had for it. */
  lemma OutOfScopeKept(s: Session, cache: Store, fp: string)
    requires WellFormed(s) && fp !in Fps(s)
    ensures EntryOf(Updated(cache, Changes(s, cache)), fp) == EntryOf(cache, fp)
  {
    OtherFingerprints(Results(s, Usable(s, cache)), Fps(s), Keys(s), s.testHash, fp);
  }

  // ----- Reuse agrees with a run without a cache -----

  /** A known kill among the covering tests is a kill however it is run. */
  lemma KnownKillKills(s: Session, g: Truth, i: nat, name: string, a: Attempt)
    requires Honest(s, g) && i < |s.mutants| && name in Covers(s, i) && KnownKill(s, g, i, name)
    ensures Judge(s, i, a).status == Killed
  {
    var j, k := CoveringFrom(s, i, |s.suites|, name);
    assert HonestProcess(s, g, i, j, a);
    assert Ends(Tests(s, i), RunOf(s, i, a), j, Killed);
  }

  lemma ReusedIsKnown(s: Session, g: Truth, cache: Store, i: nat)
    requires Honest(s, g) && Sound(cache, g) && i < |s.mutants| && Reused(s, i, cache) != ""
    ensures Reused(s, i, cache) in Covers(s, i) && KnownKill(s, g, i, Reused(s, i, cache))
  {
    assert s.mutants[i].fp in cache;
    assert SoundEntry(cache[s.mutants[i].fp], g);
  }

  /** A reused result has the covering tests of a fresh one, and its one killer
      is a known kill; any other result is the fresh one. */
  lemma ReusedResult(s: Session, g: Truth, cache: Store, i: nat)
    requires Honest(s, g) && Sound(cache, g) && i < |s.mutants|
    ensures var r, anew := Final(s, i, Usable(s, cache)), Final(s, i, map[]);
            if r.cached
            then && r.covering == anew.covering && |r.killing| == 1 && r.killing[0] in Covers(s, i)
                 && KnownKill(s, g, i, r.killing[0])
            else r == anew
  {
    var stored := Usable(s, cache);
    if Covers(s, i) != [] && Reused(s, i, stored) != "" {
      ReusedIsKnown(s, g, stored, i);
    }
  }

  /** With a sound cache every mutant gets the status a run of everything
      afresh gives it. */
  lemma ReuseAgrees(s: Session, g: Truth, cache: Store, i: nat)
    requires Honest(s, g) && Sound(cache, g) && i < |s.mutants|
    ensures Final(s, i, Usable(s, cache)).status == Final(s, i, map[]).status
  {
    var stored := Usable(s, cache);
    if Covers(s, i) != [] && Reused(s, i, stored) != "" {
      ReusedIsKnown(s, g, stored, i);
      KnownKillKills(s, g, i, Reused(s, i, stored), Parallel);
    }
  }

  // ----- Histories -----

  /** What happens to a package's stored kills: a run, which may fail to write
      them, or their loss. */
  datatype Event = Ran(s: Session, writable: bool) | Lost

  ghost predicate HonestHistory(h: seq<Event>, g: Truth) {
    forall k :: 0 <= k < |h| && h[k].Ran? ==> Honest(h[k].s, g)
  }

  ghost function CacheAfter(h: seq<Event>, g: Truth): Store
    requires HonestHistory(h, g)
  {
    if h == [] then map[]
    else
      var n := |h| - 1;
      var before := CacheAfter(h[..n], g);
      match h[n]
      case Lost => map[]
      case Ran(s, writable) =>
        assert Honest(h[n].s, g);
        if writable then Updated(before, Changes(s, before)) else before
  }

  lemma {:induction false} HistorySound(h: seq<Event>, g: Truth)
    requires HonestHistory(h, g)
    ensures Sound(CacheAfter(h, g), g)
  {
    if h != [] {
      var n := |h| - 1;
      HistorySound(h[..n], g);
      if h[n].Ran? {
        assert Honest(h[n].s, g);
        RunKeepsSound(h[n].s, g, CacheAfter(h[..n], g));
      }
    }
  }

  /** After any history of runs, edits, scopes and losses, a run that reuses
      kills reports every mutant's status and covering tests as a run without
      the cache does; a result it reuses has a known killer, and any other is
      the whole result of the run without the cache. */
  lemma ReuseIsInvisible(h: seq<Event>, s: Session, g: Truth, i: nat)
    requires HonestHistory(h, g) && Honest(s, g) && i < |s.mutants|
    ensures var r, anew := Final(s, i, Usable(s, CacheAfter(h, g))), Final(s, i, map[]);
            && r.status == anew.status && r.covering == anew.covering
            && (if r.cached
                then s.failFast && !s.verifyKills && |r.killing| == 1 && KnownKill(s, g, i, r.killing[0])
                else r == anew)
  {
    HistorySound(h, g);
    ReusedResult(s, g, CacheAfter(h, g), i);
    ReuseAgrees(s, g, CacheAfter(h, g), i);
  }
}
