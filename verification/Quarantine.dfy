/** Undoing what mutants leave behind: the files and directories created since
    a snapshot are moved out, each under one root. */
module Quarantine {

  /** A path is its components below the guarded directory. */
  type Path = seq<string>

  datatype FileState = FileState(size: int, modTime: int, isDir: bool)

  type Tree = map<Path, FileState>

  function Parent(p: Path): Path
    requires p != []
  {
    p[..|p| - 1]
  }

  /** Below root, or root itself. */
  predicate Under(p: Path, root: Path) {
    root <= p
  }

  /** Every entry's directory is an entry too. */
  ghost predicate Closed(files: Tree) {
    forall p :: p in files ==> p != [] && (|p| > 1 ==> Parent(p) in files)
  }

  /** What a listing covers: the entries of the directory itself and everything
      under its testdata. */
  predicate Guarded(p: Path) {
    |p| == 1 || (|p| > 1 && p[0] == "testdata")
  }

  function Listing(files: Tree): Tree {
    map p | p in files && Guarded(p) :: files[p]
  }

  lemma ListingClosed(files: Tree)
    requires Closed(files)
    ensures Closed(Listing(files))
  {
  }

  // ----- The roots -----

  /** A path that is new, and whose directory is not. */
  predicate IsRoot(before: Tree, now: Tree, p: Path) {
    p in now && p !in before && p != [] && !(Parent(p) in now && Parent(p) !in before)
  }

  lemma {:induction false} OldBelow(before: Tree, p: Path, root: Path)
    requires Closed(before) && p in before && Under(p, root) && root != []
    ensures root in before
    decreases |p|
  {
    if |p| > |root| {
      OldBelow(before, Parent(p), root);
    } else {
      assert p == root;
    }
  }

  /** The roots form an antichain. */
  lemma RootsApart(before: Tree, now: Tree, p: Path, q: Path)
    requires Closed(before) && Closed(now) && IsRoot(before, now, p) && IsRoot(before, now, q) && p != q
    ensures !Under(p, q)
  {
    if Under(p, q) {
      assert Under(Parent(p), q);
      if Parent(p) in before {
        OldBelow(before, Parent(p), q);
      }
    }
  }

  /** The root over a new path. */
  function RootOf(before: Tree, now: Tree, p: Path): (r: Path)
    requires p in now && p !in before && [] !in now
    ensures Under(p, r) && IsRoot(before, now, r)
    decreases |p|
  {
    if Parent(p) in now && Parent(p) !in before then RootOf(before, now, Parent(p)) else p
  }

  /** Every new path has exactly one root, and no older path has any. */
  lemma RootsPartition(before: Tree, now: Tree, p: Path)
    requires Closed(before) && Closed(now)
    ensures p in now && p !in before ==>
              exists r :: IsRoot(before, now, r) && Under(p, r)
                          && forall q :: IsRoot(before, now, q) && Under(p, q) ==> q == r
    ensures p in before ==> forall q :: IsRoot(before, now, q) ==> !Under(p, q)
  {
    if p in now && p !in before {
      var r := RootOf(before, now, p);
      forall q | IsRoot(before, now, q) && Under(p, q)
        ensures q == r
      {
        if q != r {
          if |q| <= |r| {
            assert Under(r, q);
            RootsApart(before, now, r, q);
          } else {
            assert Under(q, r);
            RootsApart(before, now, q, r);
          }
        }
      }
    }
    if p in before {
      forall q | IsRoot(before, now, q)
        ensures !Under(p, q)
      {
        if Under(p, q) {
          OldBelow(before, p, q);
        }
      }
    }
  }

  // ----- Restoring -----

  /** What renaming a path into the quarantine does: it moves, it has been
      removed meanwhile, or it cannot be moved. */
  datatype Outcome = Moves | Gone | Stuck

  datatype Restored = Restored(moved: set<Path>, unmoved: set<Path>, changed: set<Path>)

  predicate Beneath(p: Path, roots: set<Path>) {
    exists r :: r in roots && Under(p, r)
  }

  function Outside(files: Tree, roots: set<Path>): Tree {
    map p | p in files && !Beneath(p, roots) :: files[p]
  }

  function Inside(files: Tree, roots: set<Path>): Tree {
    map p | p in files && Beneath(p, roots) :: files[p]
  }

  function Roots(before: Tree, now: Tree): set<Path> {
    set p | p in now && IsRoot(before, now, p)
  }

  function Ending(roots: set<Path>, rename: Path -> Outcome, o: Outcome): set<Path> {
    set p | p in roots && rename(p) == o
  }

  /** Modified or deleted since the snapshot. */
  predicate HasChanged(before: Tree, now: Tree, p: Path)
    requires p in before
  {
    p !in now || (!before[p].isDir && (now[p].size != before[p].size || now[p].modTime != before[p].modTime))
  }

  ghost predicate Apart(roots: set<Path>) {
    forall p, q :: p in roots && q in roots && p != q ==> !Under(p, q)
  }

  lemma ApartInside(files: Tree, roots: set<Path>, path: Path)
    requires Apart(roots + {path}) && path !in roots
    ensures Inside(Outside(files, roots), {path}) == Inside(files, {path})
  {
    forall p | p in files && Under(p, path)
      ensures !Beneath(p, roots)
    {
      if r :| r in roots && Under(p, r) {
        assert if |r| <= |path| then Under(path, r) else Under(r, path);
      }
    }
  }

  lemma OutsideMore(files: Tree, roots: set<Path>, path: Path)
    ensures Outside(Outside(files, roots), {path}) == Outside(files, roots + {path})
    ensures Inside(files, roots) + Inside(files, {path}) == Inside(files, roots + {path})
  {
    assert forall p :: Beneath(p, roots + {path}) <==> Beneath(p, roots) || Under(p, path);
    assert forall p :: Beneath(p, {path}) <==> Under(p, path);
  }

  // ----- What restoring achieves -----

  function NewRoots(before: Tree, now: Tree): set<Path> {
    Roots(Listing(before), Listing(now))
  }

  lemma AllApart(before: Tree, now: Tree)
    requires Closed(before) && Closed(now)
    ensures Apart(Roots(before, now))
  {
    forall p, q | p in Roots(before, now) && q in Roots(before, now) && p != q
      ensures !Under(p, q)
    {
      RootsApart(before, now, p, q);
    }
  }

  /** Nothing older moves, wherever it lies. */
  lemma OldStays(before: Tree, now: Tree, p: Path)
    requires Closed(before) && Closed(now) && p in before
    ensures !Beneath(p, NewRoots(before, now))
  {
    forall r | r in NewRoots(before, now)
      ensures !Under(p, r)
    {
      if Under(p, r) {
        OldBelow(before, p, r);
      }
    }
  }

  lemma NewMoves(before: Tree, now: Tree, p: Path)
    requires Closed(before) && Closed(now) && p in now && Guarded(p) && p !in before
    ensures Beneath(p, NewRoots(before, now))
  {
    var r := RootOf(Listing(before), Listing(now), p);
    assert r in NewRoots(before, now);
  }

  lemma Conserved(files: Tree, roots: set<Path>)
    ensures Outside(files, roots).Keys !! Inside(files, roots).Keys
    ensures Outside(files, roots) + Inside(files, roots) == files
  {
  }

  /** What is left once the roots but those in `unmoved` are gone. */
  lemma LeftBehind(before: Tree, now: Tree, unmoved: set<Path>, p: Path)
    requires Closed(before) && Closed(now) && p in now
    ensures var left := Outside(now, NewRoots(before, now) - unmoved);
            && (p in before ==> p in left)
            && (p in left && Guarded(p) && p !in before ==> Beneath(p, unmoved))
  {
    if p in before {
      OldStays(before, now, p);
    } else if Guarded(p) {
      NewMoves(before, now, p);
    }
  }

  /** The guarded directory and where its new files go. */
  class Checkout {
    var files: Tree
    var quarantined: Tree

    constructor (files: Tree)
      ensures this.files == files && quarantined == map[]
    {
      this.files, quarantined := files, map[];
    }

    /** The paths to move: new, and not moved with a new directory. */
    static method Created(before: Tree, now: Tree) returns (created: set<Path>)
      requires [] !in now
      ensures created == Roots(before, now)
    {
      created := {};
      var rest := now.Keys;
      while rest != {}
        invariant rest <= now.Keys
        invariant created == set p | p in now.Keys - rest && IsRoot(before, now, p)
        decreases rest
      {
        var path :| path in rest;
        rest := rest - {path};
        if path in before {
          continue;
        }
        if Parent(path) in now && Parent(path) !in before {
          continue;
        }
        created := created + {path};
      }
    }

    static method Changed(before: Tree, now: Tree) returns (changed: set<Path>)
      ensures changed == set p | p in before && HasChanged(before, now, p)
    {
      changed := {};
      var rest := before.Keys;
      while rest != {}
        invariant rest <= before.Keys
        invariant changed == set p | p in before.Keys - rest && HasChanged(before, now, p)
        decreases rest
      {
        var path :| path in rest;
        rest := rest - {path};
        if HasChanged(before, now, path) {
          changed := changed + {path};
        }
      }
    }

    /** Moves each root, whatever the order. */
    method MoveOut(created: set<Path>, rename: Path -> Outcome) returns (moved: set<Path>, unmoved: set<Path>)
      requires quarantined == map[]
      modifies this
      ensures moved == Ending(created, rename, Moves) && unmoved == Ending(created, rename, Stuck)
      ensures files == Outside(old(files), created - unmoved)
      ensures Apart(created) ==> quarantined == Inside(old(files), moved)
    {
      moved, unmoved := {}, {};
      var rest := created;
      while rest != {}
        invariant rest <= created
        invariant moved == Ending(created - rest, rename, Moves) && unmoved == Ending(created - rest, rename, Stuck)
        invariant files == Outside(old(files), created - rest - unmoved)
        invariant Apart(created) ==> quarantined == Inside(old(files), moved)
        decreases rest
      {
        var path :| path in rest;
        ghost var taken := created - rest - unmoved;
        OutsideMore(old(files), taken, path);
        OutsideMore(old(files), moved, path);
        if Apart(created) {
          ApartInside(old(files), taken, path);
        }
        rest := rest - {path};
        match rename(path) {
          case Moves =>
            quarantined := quarantined + Inside(files, {path});
            files := Outside(files, {path});
            moved := moved + {path};
            assert created - rest - unmoved == taken + {path};
          case Gone =>
            files := Outside(files, {path});
            assert created - rest - unmoved == taken + {path};
          case Stuck =>
            unmoved := unmoved + {path};
            assert created - rest - unmoved == taken;
        }
      }
    }

    /** Moves everything created since the listing `before` was taken. */
    method Restore(before: Tree, rename: Path -> Outcome) returns (r: Restored)
      requires quarantined == map[] && [] !in files
      modifies this
      ensures var roots, now := Roots(before, Listing(old(files))), Listing(old(files));
              && r.moved == Ending(roots, rename, Moves)
              && r.unmoved == Ending(roots, rename, Stuck)
              && r.changed == (set p | p in before && HasChanged(before, now, p))
              && files == Outside(old(files), roots - r.unmoved)
              && (Apart(roots) || (Closed(before) && Closed(now)) ==> quarantined == Inside(old(files), r.moved))
    {
      var now := Listing(files);
      if Closed(before) && Closed(now) {
        AllApart(before, now);
      }
      var created := Created(before, now);
      var moved, unmoved := MoveOut(created, rename);
      var changed := Changed(before, now);
      r := Restored(moved, unmoved, changed);
    }

    /** Restoring a directory whose snapshot was taken when it held `before`,
        whatever was created, changed or removed since. */
    method RestoreGuarded(ghost before: Tree, snapshot: Tree, rename: Path -> Outcome) returns (r: Restored)
      requires snapshot == Listing(before) && Closed(before) && Closed(files) && quarantined == map[]
      modifies this
      // nothing older moves
      ensures forall p :: p in before && p in old(files) ==> p in files && files[p] == old(files)[p]
      // what is new and left lies under a root that could not be moved
      ensures forall p :: p in files && Guarded(p) && p !in before ==> Beneath(p, r.unmoved)
      // no file is lost
      ensures (forall p :: rename(p) != Gone) ==> files.Keys !! quarantined.Keys && files + quarantined == old(files)
      // when every move succeeds, the guarded paths are those that were there before
      ensures (forall p :: rename(p) == Moves) ==>
                r.unmoved == {} && forall p :: Guarded(p) ==> (p in files <==> p in old(files) && p in before)
      // what is reported as changed: in the directory itself or under testdata, gone or, a file, with another
      // size or time
      ensures forall p :: p in r.changed <==>
                && p in before && (|p| == 1 || p[0] == "testdata")
                && (p !in old(files) || (!before[p].isDir && (old(files)[p].size != before[p].size
                                                              || old(files)[p].modTime != before[p].modTime)))
      // with nothing reported, every older entry is there, and every file as it was
      ensures r.changed == {} ==>
                forall p :: p in before && (|p| == 1 || p[0] == "testdata") ==>
                  && p in files
                  && (before[p].isDir || (files[p].size == before[p].size && files[p].modTime == before[p].modTime))
    {
      ghost var roots := NewRoots(before, files);
      ListingClosed(before);
      ListingClosed(files);
      r := Restore(snapshot, rename);
      forall p | p in old(files)
        ensures p in before ==> p in files
        ensures p in files && Guarded(p) && p !in before ==> Beneath(p, r.unmoved)
      {
        LeftBehind(before, old(files), r.unmoved, p);
      }
      if forall p :: rename(p) != Gone {
        assert roots - r.unmoved == r.moved;
        Conserved(old(files), r.moved);
      }
    }
  }
}
