/** The edit distance behind the suggestions for a misspelt function name. */
module EditDistance {

  function Min3(a: int, b: int, c: int): int {
    var m := if b < a then b else a;
    if c < m then c else m
  }

  function Init<T>(s: seq<T>): seq<T>
    requires s != []
  {
    s[..|s| - 1]
  }

  function Last<T>(s: seq<T>): T
    requires s != []
  {
    s[|s| - 1]
  }

  /** The distance between the first i elements of a and the first j of b. */
  function Cell<T(==)>(a: seq<T>, b: seq<T>, i: nat, j: nat): nat
    requires i <= |a| && j <= |b|
  {
    if i == 0 then j
    else if j == 0 then i
    else Min3(Cell(a, b, i, j - 1) + 1, Cell(a, b, i - 1, j) + 1,
              Cell(a, b, i - 1, j - 1) + if a[i - 1] == b[j - 1] then 0 else 1)
  }

  function Dist<T(==)>(a: seq<T>, b: seq<T>): nat {
    Cell(a, b, |a|, |b|)
  }

  lemma {:induction false} CellOfPrefix<T>(a: seq<T>, b: seq<T>, c: seq<T>, d: seq<T>, i: nat, j: nat)
    requires c <= a && d <= b && i <= |c| && j <= |d|
    ensures Cell(a, b, i, j) == Cell(c, d, i, j)
  {
    if i > 0 && j > 0 {
      CellOfPrefix(a, b, c, d, i, j - 1);
      CellOfPrefix(a, b, c, d, i - 1, j);
      CellOfPrefix(a, b, c, d, i - 1, j - 1);
    }
  }

  lemma {:induction false} PrefixDist<T>(a: seq<T>, b: seq<T>, c: seq<T>, d: seq<T>)
    requires c <= a && d <= b
    ensures Cell(a, b, |c|, |d|) == Dist(c, d)
  {
    CellOfPrefix(a, b, c, d, |c|, |d|);
  }

  lemma {:induction false} CellStep<T>(a: seq<T>, b: seq<T>, i: nat, j: nat, left: nat, up: nat, corner: nat)
    requires 0 < i <= |a| && 0 < j <= |b|
    requires left == Cell(a, b, i, j - 1) && up == Cell(a, b, i - 1, j) && corner == Cell(a, b, i - 1, j - 1)
    ensures Cell(a, b, i, j) == Min3(left + 1, up + 1, corner + if a[i - 1] == b[j - 1] then 0 else 1)
  {
  }

  lemma {:induction false} Shorter<T>(a: seq<T>, b: seq<T>)
    requires a != [] && b != []
    ensures Cell(a, b, |a|, |b| - 1) == Dist(a, Init(b))
    ensures Cell(a, b, |a| - 1, |b|) == Dist(Init(a), b)
    ensures Cell(a, b, |a| - 1, |b| - 1) == Dist(Init(a), Init(b))
  {
    PrefixDist(a, b, a, Init(b));
    PrefixDist(a, b, Init(a), b);
    PrefixDist(a, b, Init(a), Init(b));
  }

  lemma {:induction false} Unfold<T>(a: seq<T>, b: seq<T>)
    ensures a == [] ==> Dist(a, b) == |b|
    ensures b == [] ==> Dist(a, b) == |a|
    ensures a != [] && b != [] ==>
              Dist(a, b) == Min3(Dist(a, Init(b)) + 1, Dist(Init(a), b) + 1,
                                 Dist(Init(a), Init(b)) + if Last(a) == Last(b) then 0 else 1)
  {
    if a != [] && b != [] {
      Shorter(a, b);
      CellStep(a, b, |a|, |b|, Dist(a, Init(b)), Dist(Init(a), b), Dist(Init(a), Init(b)));
    }
  }

  /** The first n cells of row i. */
  ghost predicate Row<T>(a: seq<T>, b: seq<T>, i: nat, row: seq<nat>, n: nat) {
    n <= |row| == |b| + 1 && i <= |a| && forall k :: 0 <= k < n ==> row[k] == Cell(a, b, i, k)
  }

  lemma {:induction false} RowStep<T>(a: seq<T>, b: seq<T>, i: nat, prev: seq<nat>, curr: seq<nat>, j: nat, d: nat)
    requires 0 < i && 0 < j <= |b| && Row(a, b, i - 1, prev, |b| + 1) && Row(a, b, i, curr, j)
    requires d == Min3(curr[j - 1] + 1, prev[j] + 1, prev[j - 1] + if a[i - 1] == b[j - 1] then 0 else 1)
    ensures Row(a, b, i, curr[j := d], j + 1)
  {
  }

  /** Two rows, exchanged after each element of a. */
  method Levenshtein<T(==)>(a: seq<T>, b: seq<T>) returns (r: nat)
    ensures r == Dist(a, b)
  {
    if |a| == 0 {
      return |b|;
    }
    if |b| == 0 {
      return |a|;
    }
    var prev, curr := new nat[|b| + 1](j => j), new nat[|b| + 1];
    for i := 1 to |a| + 1
      invariant prev.Length == curr.Length == |b| + 1 && prev != curr && fresh(prev) && fresh(curr)
      invariant Row(a, b, i - 1, prev[..], |b| + 1)
    {
      curr[0] := i;
      for j := 1 to |b| + 1
        invariant Row(a, b, i - 1, prev[..], |b| + 1)
        invariant Row(a, b, i, curr[..], j)
      {
        var cost := if a[i - 1] == b[j - 1] then 0 else 1;
        RowStep(a, b, i, prev[..], curr[..], j, Min3(curr[j - 1] + 1, prev[j] + 1, prev[j - 1] + cost));
        curr[j] := Min3(curr[j - 1] + 1, prev[j] + 1, prev[j - 1] + cost);
      }
      prev, curr := curr, prev;
    }
    return prev[|b|];
  }

  // ----- It counts edits -----

  datatype Edit<T> = Insert(at: nat, x: T) | Delete(at: nat) | Replace(at: nat, x: T)

  predicate Fits<T>(s: seq<T>, e: Edit<T>) {
    if e.Insert? then e.at <= |s| else e.at < |s|
  }

  function Edited<T>(s: seq<T>, e: Edit<T>): seq<T>
    requires Fits(s, e)
  {
    match e
    case Insert(i, x) => s[..i] + [x] + s[i..]
    case Delete(i) => s[..i] + s[i + 1..]
    case Replace(i, x) => s[i := x]
  }

  /** The edits turn a into b, one after another. */
  predicate Turns<T(==)>(a: seq<T>, edits: seq<Edit<T>>, b: seq<T>)
    decreases |edits|
  {
    if edits == [] then a == b else Fits(a, edits[0]) && Turns(Edited(a, edits[0]), edits[1..], b)
  }

  lemma {:induction false} TurnsThen<T>(a: seq<T>, s: seq<Edit<T>>, b: seq<T>, t: seq<Edit<T>>, c: seq<T>)
    requires Turns(a, s, b) && Turns(b, t, c)
    ensures Turns(a, s + t, c)
    decreases |s|
  {
    if s == [] {
      assert s + t == t;
    } else {
      assert (s + t)[1..] == s[1..] + t;
      TurnsThen(Edited(a, s[0]), s[1..], b, t, c);
    }
  }

  /** The same edits in front of a further last element. */
  lemma {:induction false} TurnsSnoc<T>(a: seq<T>, s: seq<Edit<T>>, b: seq<T>, x: T)
    requires Turns(a, s, b)
    ensures Turns(a + [x], s, b + [x])
    decreases |s|
  {
    if s != [] {
      assert Edited(a + [x], s[0]) == Edited(a, s[0]) + [x];
      TurnsSnoc(Edited(a, s[0]), s[1..], b, x);
    }
  }

  lemma One<T>(a: seq<T>, e: Edit<T>)
    requires Fits(a, e)
    ensures Turns(a, [e], Edited(a, e))
  {
    assert [e][1..] == [];
  }

  /** As many edits as the distance are enough. */
  lemma {:induction false} Enough<T>(a: seq<T>, b: seq<T>) returns (s: seq<Edit<T>>)
    ensures Turns(a, s, b) && |s| == Dist(a, b)
    decreases |a| + |b|
  {
    Unfold(a, b);
    if a == [] && b == [] {
      return [];
    }
    if b != [] {
      assert b == Init(b) + [Last(b)];
      if a == [] || Dist(a, b) == Dist(a, Init(b)) + 1 {
        var t := Enough(a, Init(b));
        var e := Insert(|Init(b)|, Last(b));
        assert Edited(Init(b), e) == b;
        One(Init(b), e);
        TurnsThen(a, t, Init(b), [e], b);
        return t + [e];
      }
    }
    assert a == Init(a) + [Last(a)];
    if b == [] || Dist(a, b) == Dist(Init(a), b) + 1 {
      var t := Enough(Init(a), b);
      var e := Delete(|a| - 1);
      assert Edited(a, e) == Init(a);
      One(a, e);
      TurnsThen(a, [e], Init(a), t, b);
      return [e] + t;
    }
    var t := Enough(Init(a), Init(b));
    TurnsSnoc(Init(a), t, Init(b), Last(a));
    if Last(a) == Last(b) {
      return t;
    }
    var e := Replace(|b| - 1, Last(b));
    var m := Init(b) + [Last(a)];
    assert Edited(m, e) == b;
    One(m, e);
    TurnsThen(a, t, m, [e], b);
    return t + [e];
  }

  /** Dropping the last element changes the distance by at most one. */
  lemma {:induction false} DropLast<T>(a: seq<T>, b: seq<T>)
    requires a != []
    ensures Dist(a, b) - 1 <= Dist(Init(a), b) <= Dist(a, b) + 1
    decreases |b|
  {
    Unfold(a, b);
    Unfold(Init(a), b);
    if b != [] {
      DropLast(a, Init(b));
    }
  }

  /** Two sequences within one edit of each other, as far as distances tell. */
  ghost predicate Near<T(!new)>(a: seq<T>, c: seq<T>) {
    forall b: seq<T> :: Dist(c, b) <= Dist(a, b) + 1
  }

  lemma {:induction false} NearSnoc<T(!new)>(a: seq<T>, c: seq<T>, x: T, b: seq<T>)
    requires Near(a, c)
    ensures Dist(c + [x], b) <= Dist(a + [x], b) + 1
    decreases |b|
  {
    assert Init(a + [x]) == a && Init(c + [x]) == c;
    Unfold(a + [x], b);
    Unfold(c + [x], b);
    Unfold(a, []);
    Unfold(c, []);
    assert Dist(c, []) <= Dist(a, []) + 1;
    if b != [] {
      NearSnoc(a, c, x, Init(b));
      assert Dist(c, b) <= Dist(a, b) + 1 && Dist(c, Init(b)) <= Dist(a, Init(b)) + 1;
    }
  }

  lemma {:induction false} ReplaceLast<T>(a: seq<T>, x: T, b: seq<T>)
    requires a != []
    ensures Dist(Init(a) + [x], b) <= Dist(a, b) + 1
    decreases |b|
  {
    var c := Init(a) + [x];
    assert Init(c) == Init(a);
    Unfold(a, b);
    Unfold(c, b);
    if b != [] {
      ReplaceLast(a, x, Init(b));
    }
  }

  lemma Inner<T>(a: seq<T>, e: Edit<T>)
    requires a != [] && Fits(Init(a), e)
    ensures Fits(a, e) && Edited(a, e) == Edited(Init(a), e) + [Last(a)]
  {
    if e.Insert? {
      assert a[e.at..] == Init(a)[e.at..] + [Last(a)];
    } else if e.Delete? {
      assert a[e.at + 1..] == Init(a)[e.at + 1..] + [Last(a)];
    }
  }

  /** One edit moves a sequence by at most one. */
  lemma {:induction false} EditIsNear<T(!new)>(a: seq<T>, e: Edit<T>)
    requires Fits(a, e)
    ensures Near(a, Edited(a, e))
    decreases |a|
  {
    var c := Edited(a, e);
    forall b: seq<T>
      ensures Dist(c, b) <= Dist(a, b) + 1
    {
      if e.Insert? && e.at == |a| {
        assert Init(c) == a;
        DropLast(c, b);
      } else if e.Delete? && e.at == |a| - 1 {
        assert c == Init(a);
        DropLast(a, b);
      } else if e.Replace? && e.at == |a| - 1 {
        assert c == Init(a) + [e.x];
        ReplaceLast(a, e.x, b);
      } else {
        EditIsNear(Init(a), e);
        Inner(a, e);
        assert a == Init(a) + [Last(a)];
        NearSnoc(Init(a), Edited(Init(a), e), Last(a), b);
      }
    }
  }

  lemma {:induction false} SelfZero<T>(a: seq<T>)
    ensures Dist(a, a) == 0
    decreases |a|
  {
    Unfold(a, a);
    if a != [] {
      SelfZero(Init(a));
    }
  }

  /** Fewer edits are not enough. */
  lemma {:induction false} NoFewer<T(!new)>(a: seq<T>, s: seq<Edit<T>>, b: seq<T>)
    requires Turns(a, s, b)
    ensures Dist(a, b) <= |s|
    decreases |s|
  {
    if s == [] {
      SelfZero(a);
    } else {
      NoFewer(Edited(a, s[0]), s[1..], b);
      var back := Undo(a, s[0]);
      Undone(a, s[0]);
      EditIsNear(Edited(a, s[0]), back);
      assert Dist(Edited(Edited(a, s[0]), back), b) <= Dist(Edited(a, s[0]), b) + 1;
    }
  }

  function Undo<T>(a: seq<T>, e: Edit<T>): (r: Edit<T>)
    requires Fits(a, e)
  {
    match e
    case Insert(i, _) => Delete(i)
    case Delete(i) => Insert(i, a[i])
    case Replace(i, _) => Replace(i, a[i])
  }

  lemma Undone<T>(a: seq<T>, e: Edit<T>)
    requires Fits(a, e)
    ensures Fits(Edited(a, e), Undo(a, e)) && Edited(Edited(a, e), Undo(a, e)) == a
  {
    var c := Edited(a, e);
    if e.Insert? {
      assert c[..e.at] == a[..e.at] && c[e.at + 1..] == a[e.at..];
    } else if e.Delete? {
      assert c[..e.at] == a[..e.at] && c[e.at..] == a[e.at + 1..];
    }
  }

  /** Edits in reverse, undone. */
  lemma {:induction false} Reverse<T>(a: seq<T>, s: seq<Edit<T>>, b: seq<T>) returns (t: seq<Edit<T>>)
    requires Turns(a, s, b)
    ensures Turns(b, t, a) && |t| == |s|
    decreases |s|
  {
    if s == [] {
      return [];
    }
    var u := Reverse(Edited(a, s[0]), s[1..], b);
    var back := Undo(a, s[0]);
    Undone(a, s[0]);
    One(Edited(a, s[0]), back);
    TurnsThen(b, u, Edited(a, s[0]), [back], a);
    return u + [back];
  }

  /** The distance is the least number of edits, and so a metric. */
  lemma LeastEdits<T(!new)>(a: seq<T>, b: seq<T>)
    ensures exists s :: Turns(a, s, b) && |s| == Dist(a, b)
    ensures forall s :: Turns(a, s, b) ==> Dist(a, b) <= |s|
  {
    var s := Enough(a, b);
    forall s | Turns(a, s, b)
      ensures Dist(a, b) <= |s|
    {
      NoFewer(a, s, b);
    }
  }

  lemma Metric<T(!new)>(a: seq<T>, b: seq<T>, c: seq<T>)
    ensures Dist(a, b) == 0 <==> a == b
    ensures Dist(a, b) == Dist(b, a)
    ensures Dist(a, c) <= Dist(a, b) + Dist(b, c)
  {
    SelfZero(a);
    var s := Enough(a, b);
    var t := Reverse(a, s, b);
    NoFewer(b, t, a);
    var s' := Enough(b, a);
    var t' := Reverse(b, s', a);
    NoFewer(a, t', b);
    var u := Enough(b, c);
    TurnsThen(a, s, b, u, c);
    NoFewer(a, s + u, c);
  }
}
