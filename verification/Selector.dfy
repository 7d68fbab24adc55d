/** Positional arguments: a package pattern and an optional function list. */
module Selector {
  import opened Text

  datatype Spec = Spec(pattern: string, funcs: seq<string>)

  datatype Error =
    | EmptyPattern | EmptyList | GlobWithFuncs | EmptyName | UnbalancedOpen | UnbalancedClose

  datatype Result<+T> = Ok(value: T) | Err(error: Error)

  // ----- The first separator outside parentheses -----

  /** Depth after c; a stray ')' leaves it at zero. */
  function Deeper(c: char, depth: nat): nat {
    if c == '(' then depth + 1 else if c == ')' && depth > 0 then depth - 1 else depth
  }

  function DepthAfter(s: string, depth: nat): nat {
    if s == "" then depth else DepthAfter(s[1..], Deeper(s[0], depth))
  }

  predicate Separates(c: char, depth: nat, sep: char) {
    c != '(' && c != ')' && c == sep && depth == 0
  }

  /** No ')' without a '(' before it. */
  predicate NoStray(s: string, depth: nat) {
    s == "" || (!(s[0] == ')' && depth == 0) && NoStray(s[1..], Deeper(s[0], depth)))
  }

  /** No separator outside parentheses. */
  predicate Clear(s: string, depth: nat, sep: char) {
    s == "" || (!Separates(s[0], depth, sep) && Clear(s[1..], Deeper(s[0], depth), sep))
  }

  lemma {:induction false} ScanPlus(a: string, b: string, depth: nat, sep: char)
    ensures DepthAfter(a + b, depth) == DepthAfter(b, DepthAfter(a, depth))
    ensures Clear(a + b, depth, sep) <==> Clear(a, depth, sep) && Clear(b, DepthAfter(a, depth), sep)
    ensures NoStray(a + b, depth) <==> NoStray(a, depth) && NoStray(b, DepthAfter(a, depth))
    decreases |a|
  {
    if a == "" {
      assert a + b == b;
    } else {
      assert (a + b)[1..] == a[1..] + b;
      ScanPlus(a[1..], b, Deeper(a[0], depth), sep);
    }
  }

  /** The index of the first separator outside parentheses, or -1. */
  function Find(s: string, depth: nat, sep: char): (r: int)
    ensures -1 <= r < |s|
  {
    if s == "" then -1
    else if Separates(s[0], depth, sep) then 0
    else
      var r := Find(s[1..], Deeper(s[0], depth), sep);
      if r < 0 then -1 else r + 1
  }

  lemma {:induction false} FindClear(s: string, depth: nat, sep: char)
    requires Clear(s, depth, sep)
    ensures Find(s, depth, sep) == -1
  {
    if s != "" {
      FindClear(s[1..], Deeper(s[0], depth), sep);
    }
  }

  lemma {:induction false} FindIs(p: string, rest: string, depth: nat, sep: char)
    requires Clear(p, depth, sep) && rest != "" && Separates(rest[0], DepthAfter(p, depth), sep)
    ensures Find(p + rest, depth, sep) == |p|
    decreases |p|
  {
    if p == "" {
      assert p + rest == rest;
    } else {
      assert (p + rest)[1..] == p[1..] + rest;
      FindIs(p[1..], rest, Deeper(p[0], depth), sep);
    }
  }

  method SplitOutsideParens(s: string, sep: char) returns (r: int)
    ensures r == Find(s, 0, sep)
    ensures r < 0 <==> Clear(s, 0, sep)
    ensures r >= 0 ==> Clear(s[..r], 0, sep) && Separates(s[r], DepthAfter(s[..r], 0), sep)
  {
    var depth: nat := 0;
    for i := 0 to |s|
      invariant depth == DepthAfter(s[..i], 0) && Clear(s[..i], 0, sep)
    {
      ScanPlus(s[..i], [s[i]], 0, sep);
      assert s[..i + 1] == s[..i] + [s[i]];
      assert [s[i]][1..] == "";
      match s[i]
      case '(' => depth := depth + 1;
      case ')' =>
        if depth > 0 {
          depth := depth - 1;
        }
      case _ =>
        if s[i] == sep && depth == 0 {
          ScanPlus(s[..i], s[i..], 0, sep);
          FindIs(s[..i], s[i..], 0, sep);
          assert s[..i] + s[i..] == s;
          return i;
        }
    }
    assert s[..|s|] == s;
    FindClear(s, 0, sep);
    return -1;
  }

  // ----- The function list -----

  function Finish(name: string): Result<string> {
    var p := TrimSpace(name);
    if p == "" then Err(EmptyName) else Ok(p)
  }

  /** Splits at the commas outside parentheses; name is the text of the
      current entry so far. */
  function SplitList(name: string, rest: string, depth: nat): Result<seq<string>>
    decreases |rest|
  {
    if rest == "" then
      if depth != 0 then Err(UnbalancedOpen)
      else match Finish(name)
        case Err(e) => Err(e)
        case Ok(p) => Ok([p])
    else if rest[0] == ')' && depth == 0 then Err(UnbalancedClose)
    else if rest[0] == ',' && depth == 0 then
      match Finish(name)
      case Err(e) => Err(e)
      case Ok(p) => Cons(p, SplitList("", rest[1..], 0))
    else SplitList(name + [rest[0]], rest[1..], Deeper(rest[0], depth))
  }

  function Cons(p: string, r: Result<seq<string>>): Result<seq<string>> {
    match r
    case Err(e) => Err(e)
    case Ok(ps) => Ok([p] + ps)
  }

  function After(parts: seq<string>, r: Result<seq<string>>): Result<seq<string>> {
    match r
    case Err(e) => Err(e)
    case Ok(ps) => Ok(parts + ps)
  }

  method SplitFuncList(s: string) returns (r: Result<seq<string>>)
    ensures r == SplitList("", s, 0)
  {
    var parts: seq<string> := [];
    var start, depth: nat := 0, 0;
    assert s[0..] == s && s[0..0] == "" && forall ps: seq<string> :: [] + ps == ps;
    for i := 0 to |s|
      invariant start <= i
      invariant SplitList("", s, 0) == After(parts, SplitList(s[start..i], s[i..], depth))
    {
      assert s[i..][1..] == s[i + 1..] && s[start..i] + [s[i]] == s[start..i + 1];
      match s[i]
      case '(' => depth := depth + 1;
      case ')' =>
        if depth == 0 {
          return Err(UnbalancedClose);
        }
        depth := depth - 1;
      case ',' =>
        if depth == 0 {
          var p := TrimSpace(s[start..i]);
          if p == "" {
            return Err(EmptyName);
          }
          assert forall ps :: parts + ([p] + ps) == (parts + [p]) + ps;
          parts := parts + [p];
          start := i + 1;
          assert s[start..i + 1] == "";
        }
      case _ =>
    }
    assert s[|s|..] == "" && s[start..|s|] == s[start..];
    if depth != 0 {
      return Err(UnbalancedOpen);
    }
    var p := TrimSpace(s[start..]);
    if p == "" {
      return Err(EmptyName);
    }
    return Ok(parts + [p]);
  }

  // ----- One argument -----

  predicate HasEllipsis(s: string) {
    s != "" && ("..." <= s || HasEllipsis(s[1..]))
  }

  function ParseOne(arg: string): Result<Spec> {
    var idx := Find(arg, 0, ':');
    if idx < 0 then Ok(Spec(arg, []))
    else
      var pattern, rest := TrimSpace(arg[..idx]), TrimSpace(arg[idx + 1..]);
      if pattern == "" then Err(EmptyPattern)
      else if rest == "" then Err(EmptyList)
      else if HasEllipsis(pattern) then Err(GlobWithFuncs)
      else match SplitList("", rest, 0)
        case Err(e) => Err(e)
        case Ok(funcs) => Ok(Spec(pattern, funcs))
  }

  function Join(parts: seq<string>): string {
    if parts == [] then "" else if |parts| == 1 then parts[0] else parts[0] + "," + Join(parts[1..])
  }

  /** How the report describes a selector. */
  function Print(s: Spec): string {
    if s.funcs != [] then s.pattern + ":" + Join(s.funcs) else s.pattern
  }

  // ----- Patterns of several packages -----

  lemma {:induction false} EllipsisInside(a: string, b: string)
    ensures HasEllipsis(a + "..." + b)
  {
    var s := a + "..." + b;
    if a == "" {
      assert s == "..." + b;
    } else {
      assert s[1..] == a[1..] + "..." + b;
      EllipsisInside(a[1..], b);
    }
  }

  lemma {:induction false} EllipsisSplits(s: string) returns (a: string, b: string)
    requires HasEllipsis(s)
    ensures s == a + "..." + b
  {
    if "..." <= s {
      a, b := "", s[3..];
    } else {
      a, b := EllipsisSplits(s[1..]);
      a := [s[0]] + a;
    }
  }

  /** Exactly a pattern with "..." in it takes no list of functions. */
  lemma {:induction false} GlobRefused(arg: string, idx: nat)
    requires Find(arg, 0, ':') == idx < |arg| && TrimSpace(arg[..idx]) != "" && TrimSpace(arg[idx + 1..]) != ""
    ensures ParseOne(arg) == Err(GlobWithFuncs) <==> exists a, b :: TrimSpace(arg[..idx]) == a + "..." + b
  {
    var pattern := TrimSpace(arg[..idx]);
    if HasEllipsis(pattern) {
      var a, b := EllipsisSplits(pattern);
    }
    forall a, b | pattern == a + "..." + b
      ensures HasEllipsis(pattern)
    {
      EllipsisInside(a, b);
    }
    ListErrors("", TrimSpace(arg[idx + 1..]), 0);
  }

  lemma {:induction false} ListErrors(name: string, rest: string, depth: nat)
    ensures SplitList(name, rest, depth) != Err(GlobWithFuncs)
    decreases |rest|
  {
    if rest != "" && !(rest[0] == ')' && depth == 0) {
      if rest[0] == ',' && depth == 0 {
        ListErrors("", rest[1..], 0);
      } else {
        ListErrors(name + [rest[0]], rest[1..], Deeper(rest[0], depth));
      }
    }
  }

  // ----- Printing and parsing back -----

  /** What a parsed function name looks like. */
  predicate Name(p: string) {
    p != "" && Trimmed(p) && NoStray(p, 0) && DepthAfter(p, 0) == 0 && Clear(p, 0, ',')
  }

  /** What a parsed argument looks like. */
  predicate Valid(s: Spec) {
    Clear(s.pattern, 0, ':') &&
    (s.funcs != [] ==>
       && s.pattern != "" && Trimmed(s.pattern) && DepthAfter(s.pattern, 0) == 0 && !HasEllipsis(s.pattern)
       && forall k :: 0 <= k < |s.funcs| ==> Name(s.funcs[k]))
  }

  lemma {:induction false} BlankScan(w: string, depth: nat, sep: char)
    requires Blank(w) && !IsSpace(sep)
    ensures DepthAfter(w, depth) == depth && Clear(w, depth, sep) && NoStray(w, depth)
  {
    if w != "" {
      BlankScan(w[1..], depth, sep);
    }
  }

  /** Trimming does not change how a text scans. */
  lemma TrimScan(s: string, sep: char)
    requires !IsSpace(sep)
    ensures DepthAfter(TrimSpace(s), 0) == DepthAfter(s, 0)
    ensures Clear(TrimSpace(s), 0, sep) <==> Clear(s, 0, sep)
    ensures NoStray(TrimSpace(s), 0) <==> NoStray(s, 0)
  {
    var pre, post := TrimSplits(s);
    BlankScan(pre, 0, sep);
    ScanPlus(pre + TrimSpace(s), post, 0, sep);
    ScanPlus(pre, TrimSpace(s), 0, sep);
    BlankScan(post, DepthAfter(s, 0), sep);
    BlankScan(post, DepthAfter(pre + TrimSpace(s), 0), sep);
  }

  lemma {:induction false} FindFound(s: string, depth: nat, sep: char)
    requires Find(s, depth, sep) >= 0
    ensures var i := Find(s, depth, sep); Clear(s[..i], depth, sep) && Separates(s[i], DepthAfter(s[..i], depth), sep)
  {
    if !Separates(s[0], depth, sep) {
      FindFound(s[1..], Deeper(s[0], depth), sep);
      var i := Find(s, depth, sep);
      assert s[..i][1..] == s[1..][..i - 1];
    }
  }

  lemma {:induction false} FindNone(s: string, depth: nat, sep: char)
    requires Find(s, depth, sep) < 0
    ensures Clear(s, depth, sep)
  {
    if s != "" {
      FindNone(s[1..], Deeper(s[0], depth), sep);
    }
  }

  /** Every name in an accepted list is one that could be listed again. */
  lemma {:induction false} ListedNames(name: string, rest: string, depth: nat)
    requires SplitList(name, rest, depth).Ok?
    requires NoStray(name, 0) && DepthAfter(name, 0) == depth && Clear(name, 0, ',')
    ensures var ps := SplitList(name, rest, depth).value; ps != [] && forall k :: 0 <= k < |ps| ==> Name(ps[k])
    decreases |rest|
  {
    if rest == "" || (rest[0] == ',' && depth == 0) {
      TrimScan(name, ',');
      var pre, post := TrimSplits(name);
      if rest != "" {
        ListedNames("", rest[1..], 0);
      }
    } else {
      ScanPlus(name, [rest[0]], 0, ',');
      assert [rest[0]][1..] == "";
      ListedNames(name + [rest[0]], rest[1..], Deeper(rest[0], depth));
    }
  }

  lemma {:induction false} ReadName(name: string, p: string, rest: string, depth: nat)
    requires NoStray(p, depth) && Clear(p, depth, ',')
    ensures SplitList(name, p + rest, depth) == SplitList(name + p, rest, DepthAfter(p, depth))
    decreases |p|
  {
    if p == "" {
      assert p + rest == rest && name + p == name;
    } else {
      assert (p + rest)[1..] == p[1..] + rest;
      assert name + [p[0]] + p[1..] == name + p;
      ReadName(name + [p[0]], p[1..], rest, Deeper(p[0], depth));
    }
  }

  lemma {:induction false} JoinTrimmed(parts: seq<string>)
    requires parts != [] && forall k :: 0 <= k < |parts| ==> Name(parts[k])
    ensures Join(parts) != "" && Trimmed(Join(parts))
    decreases |parts|
  {
    assert Name(parts[0]);
    if |parts| > 1 {
      JoinTrimmed(parts[1..]);
    }
  }

  lemma LastName(p: string)
    requires Name(p)
    ensures SplitList("", p, 0) == Ok([p])
  {
    ReadName("", p, "", 0);
    TrimmedStays(p);
    assert p + "" == p && "" + p == p;
  }

  lemma NextName(p: string, rest: string)
    requires Name(p)
    ensures SplitList("", p + "," + rest, 0) == Cons(p, SplitList("", rest, 0))
  {
    var more := "," + rest;
    ReadName("", p, more, 0);
    TrimmedStays(p);
    assert p + "," + rest == p + more && more[1..] == rest && "" + p == p;
  }

  lemma {:induction false} JoinSplits(parts: seq<string>)
    requires parts != [] && forall k :: 0 <= k < |parts| ==> Name(parts[k])
    ensures SplitList("", Join(parts), 0) == Ok(parts)
    decreases |parts|
  {
    assert Name(parts[0]);
    if |parts| == 1 {
      LastName(parts[0]);
      assert parts == [parts[0]];
    } else {
      JoinSplits(parts[1..]);
      NextName(parts[0], Join(parts[1..]));
      assert parts == [parts[0]] + parts[1..];
    }
  }

  /** Whatever is accepted is a valid selector. */
  lemma ParsedValid(arg: string)
    requires ParseOne(arg).Ok?
    ensures Valid(ParseOne(arg).value)
  {
    var idx := Find(arg, 0, ':');
    if idx < 0 {
      FindNone(arg, 0, ':');
    } else {
      FindFound(arg, 0, ':');
      TrimScan(arg[..idx], ':');
      var pre, post := TrimSplits(arg[..idx]);
      ListedNames("", TrimSpace(arg[idx + 1..]), 0);
    }
  }

  /** A valid selector is printed as an argument that means the same. */
  lemma PrintParses(s: Spec)
    requires Valid(s)
    ensures ParseOne(Print(s)) == Ok(s)
  {
    if s.funcs == [] {
      FindClear(s.pattern, 0, ':');
    } else {
      var more := ":" + Join(s.funcs);
      assert Print(s) == s.pattern + more && more[1..] == Join(s.funcs);
      FindIs(s.pattern, more, 0, ':');
      JoinSplits(s.funcs);
      JoinTrimmed(s.funcs);
      TrimmedStays(s.pattern);
      TrimmedStays(Join(s.funcs));
      assert Print(s)[..|s.pattern|] == s.pattern && Print(s)[|s.pattern| + 1..] == Join(s.funcs);
    }
  }

  /** Every accepted argument is printed and parsed back to the same. */
  lemma RoundTrip(arg: string)
    requires ParseOne(arg).Ok?
    ensures ParseOne(Print(ParseOne(arg).value)) == ParseOne(arg)
  {
    ParsedValid(arg);
    PrintParses(ParseOne(arg).value);
  }

  // ----- White space -----

  lemma {:induction false} BlankBefore(pre: string, name: string, rest: string, depth: nat)
    requires Blank(pre)
    ensures SplitList(pre + name, rest, depth) == SplitList(name, rest, depth)
    decreases |rest|
  {
    TrimIgnores(pre, name, "");
    if rest != "" {
      assert pre + name + [rest[0]] == pre + (name + [rest[0]]);
      BlankBefore(pre, name + [rest[0]], rest[1..], Deeper(rest[0], depth));
    }
  }

  lemma {:induction false} BlankRead(name: string, w: string, rest: string, depth: nat)
    requires Blank(w)
    ensures SplitList(name, w + rest, depth) == SplitList(name + w, rest, depth)
    decreases |w|
  {
    BlankScan(w, depth, ',');
    ReadName(name, w, rest, depth);
  }

  lemma {:induction false} BlankAfter(name: string, rest: string, post: string, depth: nat)
    requires Blank(post)
    ensures SplitList(name, rest + post, depth) == SplitList(name, rest, depth)
    decreases |rest|
  {
    if rest == "" {
      assert rest + post == post + "";
      BlankRead(name, post, "", depth);
      TrimIgnores("", name, post);
    } else {
      assert (rest + post)[1..] == rest[1..] + post;
      if !(rest[0] == ')' && depth == 0) {
        if rest[0] == ',' && depth == 0 {
          BlankAfter("", rest[1..], post, 0);
        } else {
          BlankAfter(name + [rest[0]], rest[1..], post, Deeper(rest[0], depth));
        }
      }
    }
  }

  /** A name with white space around it. */
  datatype Padded = Padded(pre: string, name: string, post: string)

  ghost predicate WellPadded(p: Padded) {
    Blank(p.pre) && Blank(p.post) && Name(p.name)
  }

  function Texts(ps: seq<Padded>): (r: seq<string>)
    ensures |r| == |ps|
  {
    if ps == [] then [] else [ps[0].pre + ps[0].name + ps[0].post] + Texts(ps[1..])
  }

  function Names(ps: seq<Padded>): seq<string> {
    if ps == [] then [] else [ps[0].name] + Names(ps[1..])
  }

  lemma {:induction false} PaddedRead(p: Padded, rest: string)
    requires WellPadded(p)
    ensures SplitList("", p.pre + p.name + p.post + rest, 0) == SplitList(p.name + p.post, rest, 0)
  {
    var tail := p.post + rest;
    assert p.pre + p.name + p.post + rest == p.pre + (p.name + tail);
    BlankRead("", p.pre, p.name + tail, 0);
    assert "" + p.pre == p.pre + "";
    BlankBefore(p.pre, "", p.name + tail, 0);
    ReadName("", p.name, tail, 0);
    assert "" + p.name == p.name;
    BlankRead(p.name, p.post, rest, 0);
  }

  lemma {:induction false} PaddedLast(p: Padded)
    requires WellPadded(p)
    ensures SplitList("", p.pre + p.name + p.post, 0) == Ok([p.name])
  {
    TrimIgnores("", p.name, p.post);
    TrimmedStays(p.name);
    PaddedRead(p, "");
    assert p.pre + p.name + p.post + "" == p.pre + p.name + p.post;
  }

  lemma {:induction false} PaddedNext(p: Padded, rest: string)
    requires WellPadded(p)
    ensures SplitList("", p.pre + p.name + p.post + "," + rest, 0) == Cons(p.name, SplitList("", rest, 0))
  {
    TrimIgnores("", p.name, p.post);
    TrimmedStays(p.name);
    var more := "," + rest;
    PaddedRead(p, more);
    assert more[1..] == rest && p.pre + p.name + p.post + "," + rest == p.pre + p.name + p.post + more;
  }

  /** A list of names with any white space around each is read as the names. */
  lemma {:induction false} PaddedSplits(ps: seq<Padded>)
    requires ps != [] && forall k :: 0 <= k < |ps| ==> WellPadded(ps[k])
    ensures SplitList("", Join(Texts(ps)), 0) == Ok(Names(ps))
  {
    var p := ps[0];
    assert WellPadded(p);
    if |ps| == 1 {
      PaddedLast(p);
      var ts := Texts(ps);
      assert |ts| == 1 && ts[0] == p.pre + p.name + p.post;
      assert Join(ts) == ts[0];
      assert ps[1..] == [] && Names(ps) == [p.name];
    } else {
      PaddedSplits(ps[1..]);
      PaddedNext(p, Join(Texts(ps[1..])));
      assert Texts(ps)[1..] == Texts(ps[1..]) && |Texts(ps)| > 1;
    }
  }

  lemma {:induction false} TrimmedSplits(list: string)
    ensures SplitList("", TrimSpace(list), 0) == SplitList("", list, 0)
  {
    var pre, post := TrimSplits(list);
    var inner := TrimSpace(list);
    assert list == pre + (inner + post);
    BlankRead("", pre, inner + post, 0);
    assert "" + pre == pre + "";
    BlankBefore(pre, "", inner + post, 0);
    BlankAfter("", inner, post, 0);
  }

  lemma {:induction false} PaddedPattern(pre: string, pattern: string, post: string)
    requires Blank(pre) && Blank(post) && Trimmed(pattern) && Clear(pattern, 0, ':') && DepthAfter(pattern, 0) == 0
    ensures var left := pre + pattern + post;
            TrimSpace(left) == pattern && Clear(left, 0, ':') && DepthAfter(left, 0) == 0
  {
    BlankScan(pre, 0, ':');
    ScanPlus(pre, pattern, 0, ':');
    BlankScan(post, 0, ':');
    ScanPlus(pre + pattern, post, 0, ':');
    TrimIgnores(pre, pattern, "");
    TrimIgnores("", pre + pattern, post);
    TrimmedStays(pattern);
  }

  /** White space around the pattern and around every name is ignored, as in
      "./calc : Add, Sub". */
  lemma {:induction false} BlanksIgnored(pre: string, pattern: string, post: string, ps: seq<Padded>)
    requires Blank(pre) && Blank(post) && ps != [] && forall k :: 0 <= k < |ps| ==> WellPadded(ps[k])
    requires Valid(Spec(pattern, Names(ps)))
    ensures ParseOne(pre + pattern + post + ":" + Join(Texts(ps))) == Ok(Spec(pattern, Names(ps)))
  {
    var left, list := pre + pattern + post, Join(Texts(ps));
    PaddedPattern(pre, pattern, post);
    var more := ":" + list;
    assert left + ":" + list == left + more && more[1..] == list;
    FindIs(left, more, 0, ':');
    assert (left + more)[..|left|] == left && (left + more)[|left| + 1..] == list;
    TrimmedSplits(list);
    PaddedSplits(ps);
  }
}
