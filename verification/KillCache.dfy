/** The kill cache: which kills of earlier runs may stand for a new one. */
module KillCache {
  import opened Seqs
  import opened Verdicts

  /** The mutant's key when it was killed, and each killer's source hash. */
  datatype Entry = Entry(key: string, killers: map<string, string>)

  type Store = map<string, Entry>

  /** A test without a readable source has the empty hash. */
  function HashOf(testHash: map<string, string>, name: string): string {
    if name in testHash then testHash[name] else ""
  }

  // ----- Reading the cache -----

  predicate Reusable(e: Entry, key: string, testHash: map<string, string>, name: string) {
    && key != "" && e.key == key
    && name in e.killers && e.killers[name] != "" && e.killers[name] == HashOf(testHash, name)
  }

  function EntryOf(stored: Store, fp: string): Entry {
    if fp in stored then stored[fp] else Entry("", map[])
  }

  /** The first covering test whose earlier kill still stands, or "". */
  function ReusedKiller(e: Entry, key: string, testHash: map<string, string>, covering: seq<string>): (r: string)
    ensures r != "" ==> r in covering && Reusable(e, key, testHash, r)
    ensures r == "" ==> forall name :: name in covering && name != "" ==> !Reusable(e, key, testHash, name)
  {
    if covering == [] then ""
    else if Reusable(e, key, testHash, covering[0]) && covering[0] != "" then covering[0]
    else ReusedKiller(e, key, testHash, covering[1..])
  }

  // ----- Writing the cache -----

  function KillerHashes(killing: seq<string>, testHash: map<string, string>): map<string, string> {
    map name | name in killing && HashOf(testHash, name) != "" :: HashOf(testHash, name)
  }

  predicate Fresh(r: Result, key: string) {
    key != "" && !r.cached
  }

  function NewEntry(r: Result, key: string, testHash: map<string, string>): Entry {
    Entry(key, if r.status == Killed then KillerHashes(r.killing, testHash) else map[])
  }

  function Updates(results: seq<Result>, fps: seq<string>, keys: seq<string>, testHash: map<string, string>): Store
    requires |results| == |fps| == |keys|
  {
    if results == [] then map[]
    else
      var n := |results| - 1;
      var before := Updates(results[..n], fps[..n], keys[..n], testHash);
      if Fresh(results[n], keys[n]) then before[fps[n] := NewEntry(results[n], keys[n], testHash)] else before
  }

  method HashKillers(killing: seq<string>, testHash: map<string, string>) returns (killers: map<string, string>)
    ensures killers == KillerHashes(killing, testHash)
  {
    killers := map[];
    for k := 0 to |killing|
      invariant killers == KillerHashes(killing[..k], testHash)
    {
      var h := HashOf(testHash, killing[k]);
      if h != "" {
        killers := killers[killing[k] := h];
      }
      assert killing[..k + 1] == killing[..k] + [killing[k]];
    }
    assert killing[..|killing|] == killing;
  }

  /** The entries a run changes: an entry for each fresh verdict, with killers
      only if it is a kill. */
  method KillUpdates(results: seq<Result>, fps: seq<string>, keys: seq<string>, testHash: map<string, string>)
    returns (changed: Store)
    requires |results| == |fps| == |keys|
    ensures changed == Updates(results, fps, keys, testHash)
  {
    changed := map[];
    for i := 0 to |results|
      invariant changed == Updates(results[..i], fps[..i], keys[..i], testHash)
    {
      var r := results[i];
      assert results[..i + 1][..i] == results[..i] && fps[..i + 1][..i] == fps[..i] && keys[..i + 1][..i] == keys[..i];
      if keys[i] == "" || r.cached {
        continue;
      }
      var killers: map<string, string> := map[];
      if r.status == Killed {
        killers := HashKillers(r.killing, testHash);
      }
      changed := changed[fps[i] := Entry(keys[i], killers)];
    }
    assert results[..|results|] == results && fps[..|fps|] == fps && keys[..|keys|] == keys;
  }

  /** A changed fingerprint ends up with its new entry, or with none if nothing
      kills it any more; the others are left alone. */
  function Updated(m: Store, changed: Store): Store {
    map fp | fp in m.Keys + changed.Keys && (fp in changed ==> changed[fp].killers != map[])
           :: if fp in changed then changed[fp] else m[fp]
  }

  /** One stored map for each package. */
  class Cache {
    var files: map<string, Store>

    constructor ()
      ensures files == map[]
    {
      files := map[];
    }

    function Load(pkg: string): Store
      reads this
    {
      if pkg in files then files[pkg] else map[]
    }

    /** Writes the changed entries; a file that cannot be written is left. */
    method Update(pkg: string, changed: Store, writable: bool)
      modifies this
      ensures Load(pkg) == if writable then Updated(old(Load(pkg)), changed) else old(Load(pkg))
      ensures forall p :: p != pkg ==> Load(p) == old(Load(p))
    {
      if changed == map[] {
        assert Updated(Load(pkg), changed) == Load(pkg);
        return;
      }
      var m := Load(pkg);
      var rest := changed.Keys;
      while rest != {}
        invariant rest <= changed.Keys
        invariant m == Updated(Load(pkg), changed - rest)
        decreases rest
      {
        var fp :| fp in rest;
        rest := rest - {fp};
        if changed[fp].killers == map[] {
          m := m - {fp};
        } else {
          m := m[fp := changed[fp]];
        }
      }
      assert changed - {} == changed;
      if writable {
        files := files[pkg := m];
      }
    }
  }

  // ----- What a key covers -----

  /** A top-level declaration: its lines and its source. */
  datatype Decl = Decl(first: nat, last: nat, text: string)

  predicate Spans(d: Decl, line: nat) {
    d.first <= line <= d.last
  }

  /** The last of the first n declarations on the line. */
  function Holder(decls: seq<Decl>, n: nat, line: nat): (r: Option<nat>)
    requires n <= |decls|
    ensures r.Some? ==> r.value < n
  {
    if n == 0 then None
    else if Spans(decls[n - 1], line) then Some(n - 1)
    else Holder(decls, n - 1, line)
  }

  function LineHash(decls: seq<Decl>, n: nat, whole: string, hash: string -> string, line: nat): string
    requires n <= |decls|
  {
    match Holder(decls, n, line)
    case None => whole
    case Some(d) => hash(decls[d].text)
  }

  lemma LineHashStep(decls: seq<Decl>, n: nat, whole: string, hash: string -> string, line: nat)
    requires n < |decls|
    ensures LineHash(decls, n + 1, whole, hash, line) ==
            if Spans(decls[n], line) then hash(decls[n].text) else LineHash(decls, n, whole, hash, line)
  {
  }

  /** No declaration spans a line past the last one.  A //line directive can
      say that one does: 3 lines with `//line x.go:1000` before the second. */
  predicate InFile(decls: seq<Decl>, lineCount: nat) {
    forall d :: 0 <= d < |decls| && decls[d].first <= decls[d].last ==> decls[d].last <= lineCount
  }

  /** The hash each line contributes to its mutants' keys.  None is the index
      out of range that a declaration past the last line causes. */
  method DeclHashes(decls: seq<Decl>, lineCount: nat, whole: string, hash: string -> string)
    returns (r: Option<array<string>>)
    ensures r.Some? <==> InFile(decls, lineCount)
    ensures r.Some? ==>
              && r.value.Length == lineCount + 1
              && forall l :: 0 <= l <= lineCount ==> r.value[l] == LineHash(decls, |decls|, whole, hash, l)
  {
    var lines := new string[lineCount + 1](_ => whole);
    for i := 0 to |decls|
      invariant InFile(decls[..i], lineCount)
      invariant forall l :: 0 <= l <= lineCount ==> lines[l] == LineHash(decls, i, whole, hash, l)
    {
      var d := decls[i];
      var l := d.first;
      while l <= d.last
        invariant d.first <= l && (l <= d.last + 1 || l == d.first)
        invariant l > d.first ==> l <= lineCount + 1
        invariant forall m :: 0 <= m <= lineCount ==>
                    lines[m] == if d.first <= m < l then hash(d.text) else LineHash(decls, i, whole, hash, m)
      {
        if l > lineCount {
          return None;
        }
        lines[l] := hash(d.text);
        l := l + 1;
      }
      forall m: nat | m <= lineCount
        ensures lines[m] == LineHash(decls, i + 1, whole, hash, m)
      {
        LineHashStep(decls, i, whole, hash, m);
      }
    }
    assert decls[..|decls|] == decls;
    return Some(lines);
  }

  /** A //line directive at the top of a file can put a short file's
      declarations past its last line. */
  lemma LineDirectiveOverruns(text: string)
    ensures !InFile([Decl(1000, 1001, text)], 3)
  {
    assert [Decl(1000, 1001, text)][0].last == 1001;
  }

  lemma {:induction false} HolderIs(decls: seq<Decl>, n: nat, d: nat, line: nat)
    requires d < n <= |decls|
    ensures Holder(decls, n, line) == Some(d) <==>
              Spans(decls[d], line) && forall e :: d < e < n ==> !Spans(decls[e], line)
  {
    if d < n - 1 {
      HolderIs(decls, n - 1, d, line);
    }
  }

  /** A mutant's key is said to hold the source of its own declaration, d.  It
      does exactly when d spans the line reported for the mutant and no later
      declaration does. */
  lemma {:induction false} KeyHoldsOwn(decls: seq<Decl>, d: nat, line: nat)
    requires d < |decls|
    ensures Holder(decls, |decls|, line) == Some(d) <==>
              Spans(decls[d], line) && forall e :: d < e < |decls| ==> !Spans(decls[e], line)
  {
    HolderIs(decls, |decls|, d, line);
  }

  function Edited(decls: seq<Decl>, d: nat, text: string): seq<Decl>
    requires d < |decls|
  {
    decls[d := decls[d].(text := text)]
  }

  lemma {:induction false} EditKeepsHolder(decls: seq<Decl>, d: nat, text: string, n: nat, line: nat)
    requires d < |decls| && n <= |decls|
    ensures Holder(Edited(decls, d, text), n, line) == Holder(decls, n, line)
  {
    if n > 0 {
      EditKeepsHolder(decls, d, text, n - 1, line);
    }
  }

  /** What that means for reuse: an edit of d within its lines leaves the
      mutant's line hash as it was exactly when another declaration holds the
      line.  The whole file's hash, like that of d, changes with its text. */
  lemma EditGoesUnseen(decls: seq<Decl>, d: nat, old': string, new': string, whole: string -> string,
                       hash: string -> string, line: nat)
    requires d < |decls| && hash(old') != hash(new') && whole(old') != whole(new')
    ensures var was, now := Edited(decls, d, old'), Edited(decls, d, new');
            LineHash(was, |was|, whole(old'), hash, line) == LineHash(now, |now|, whole(new'), hash, line)
            <==> Holder(decls, |decls|, line).Some? && Holder(decls, |decls|, line) != Some(d)
  {
    EditKeepsHolder(decls, d, old', |decls|, line);
    EditKeepsHolder(decls, d, new', |decls|, line);
  }

  predicate SourceOrder(decls: seq<Decl>) {
    forall d, e :: 0 <= d < e < |decls| ==> decls[d].first <= decls[d].last <= decls[e].first <= decls[e].last
  }

  /** In a file without //line directives, the later declaration is one that
      starts on the mutant's line. */
  lemma {:induction false} KeyHoldsOwnInOrder(decls: seq<Decl>, d: nat, line: nat)
    requires SourceOrder(decls) && d < |decls| && Spans(decls[d], line)
    ensures Holder(decls, |decls|, line) == Some(d) <==> forall e :: d < e < |decls| ==> decls[e].first != line
  {
    KeyHoldsOwn(decls, d, line);
    forall e | d < e < |decls|
      ensures Spans(decls[e], line) <==> decls[e].first == line
    {
      assert decls[d].last <= decls[e].first <= decls[e].last;
    }
  }

  /** With //line directives it need not start there: with one before each of
      two functions both report lines 2 to 5, and a mutant of the first on
      line 3 gets the second's source in its key.  With one inside a body,
      a function need not span its own mutant's line. */
  lemma {:induction false} KeyMissesOwn(a: string, b: string)
    ensures var twice := [Decl(2, 5, a), Decl(2, 5, b)];
            Spans(twice[0], 3) && twice[1].first != 3 && Holder(twice, 2, 3) == Some(1)
    ensures Holder([Decl(2, 9, a)], 1, 40) == None
  {
    assert Spans(Decl(2, 5, b), 3);
  }
}
