/** The parts of Python's `posixpath` python-jss uses: `basename`,
    `join` and `splitext`. */
module Paths {
  import opened Text

  /** `s.rfind(c)`: the last index holding `c`, or -1. */
  function RFind(s: string, c: char): (i: int)
    ensures -1 <= i < |s|
    ensures i >= 0 ==> s[i] == c
    ensures forall j :: i < j < |s| ==> s[j] != c
  {
    if s == [] then -1
    else if s[|s| - 1] == c then |s| - 1
    else RFind(s[..|s| - 1], c)
  }

  /** `posixpath.basename(p)`: everything after the last '/'. */
  function Basename(p: string): (r: string)
    ensures '/' !in r
    ensures |r| <= |p| && p[|p| - |r|..] == r
  {
    p[RFind(p, '/') + 1..]
  }

  /** `posixpath.join(a, b)` for one further component. */
  function Join(a: string, b: string): string {
    if |b| > 0 && b[0] == '/' then b
    else if a == [] || a[|a| - 1] == '/' then a + b
    else a + "/" + b
  }

  /** `posixpath.join(a, b, c)`. */
  function Join3(a: string, b: string, c: string): string {
    Join(Join(a, b), c)
  }

  /** A '/'-free suffix that follows a '/' (or is everything) is the basename. */
  lemma BasenameOfSuffix(p: string, b: string)
    requires |b| <= |p| && p[|p| - |b|..] == b && '/' !in b
    requires |p| == |b| || p[|p| - |b| - 1] == '/'
    ensures Basename(p) == b
  {
    var k := RFind(p, '/');
    forall i | |p| - |b| <= i < |p| ensures p[i] != '/' {
      assert p[i] == b[i - (|p| - |b|)];
    }
    assert k < |p| - |b|;
  }

  /** Appending a component without '/' makes it the basename of the result. */
  lemma BasenameOfJoin(a: string, b: string)
    requires b != [] && '/' !in b
    ensures Basename(Join(a, b)) == b
  {
    var j := Join(a, b);
    if a != [] && a[|a| - 1] != '/' {
      assert j == (a + "/") + b;
    } else {
      assert j == a + b;
    }
    BasenameOfSuffix(j, b);
  }

  /** `posixpath.dirname(p)`: everything up to the last '/', with its
      trailing '/'s removed unless it is nothing but '/'s. */
  function Dirname(p: string): (r: string)
    ensures |r| <= |p| && p[..|r|] == r
  {
    var head := p[..RFind(p, '/') + 1];
    if forall i :: 0 <= i < |head| ==> head[i] == '/' then head else TrimSlashes(head)
  }

  /** `s.rstrip('/')`. */
  function TrimSlashes(s: string): (r: string)
    ensures |r| <= |s| && s[..|r|] == r
    ensures r == [] || r[|r| - 1] != '/'
    ensures forall i :: |r| <= i < |s| ==> s[i] == '/'
  {
    if s != [] && s[|s| - 1] == '/' then TrimSlashes(s[..|s| - 1]) else s
  }

  /** A component without '/' joined onto a path that does not end in '/'
      has that path as its directory. */
  lemma DirnameOfJoin(a: string, b: string)
    requires a != [] && a[|a| - 1] != '/' && '/' !in b
    ensures Dirname(Join(a, b)) == a
  {
    var j := Join(a, b);
    assert j == a + "/" + b;
    RFindUnique(j, '/', |a|);
    var head := j[..|a| + 1];
    assert head == a + "/";
    assert head[|a| - 1] != '/';
    assert TrimSlashes(head) == TrimSlashes(a);
  }

  /** Joining a non-empty component without '/' never ends in '/'. */
  lemma JoinEndsInComponent(a: string, b: string)
    requires b != [] && '/' !in b
    ensures var j := Join(a, b); j != [] && j[|j| - 1] == b[|b| - 1]
  {
  }

  /** `posixpath.splitext(p)`: the extension starts at the last '.' of the
      last path component, provided that component has a character other
      than '.' before it; leading dots never start an extension. */
  function SplitExt(p: string): (r: (string, string))
    ensures r.0 + r.1 == p
    ensures r.1 == [] || (r.1[0] == '.' && '.' !in r.1[1..] && '/' !in r.1)
  {
    var sepIndex := RFind(p, '/');
    var dotIndex := RFind(p, '.');
    if dotIndex > sepIndex && HasStem(p, sepIndex, dotIndex) then
      assert p[..dotIndex] + p[dotIndex..] == p;
      assert forall j :: 1 <= j < |p[dotIndex..]| ==> p[dotIndex..][j] == p[dotIndex + j];
      (p[..dotIndex], p[dotIndex..])
    else (p, "")
  }

  /** Some character strictly between `from` and `to` is not a dot. */
  predicate HasStem(p: string, from: int, to: int)
    requires -1 <= from && to <= |p|
  {
    exists j :: from < j < to && p[j] != '.'
  }

  function Ext(p: string): string {
    SplitExt(p).1
  }

  /** When the last dot comes after the last '/' and a stem precedes it, the
      extension is everything from that dot. */
  lemma ExtAtLastDot(p: string, n: int)
    requires 0 <= n < |p| && RFind(p, '.') == n && RFind(p, '/') < n
    requires HasStem(p, RFind(p, '/'), n)
    ensures Ext(p) == p[n..]
  {
  }

  /** A dot followed only by characters that are neither '.' nor '/' is the
      last dot, and comes after the last '/'. */
  lemma LastDotAt(p: string, n: int)
    requires 0 <= n < |p| && p[n..][0] == '.'
    requires forall k :: 1 <= k < |p| - n ==> p[n..][k] != '.' && p[n..][k] != '/'
    ensures RFind(p, '.') == n && RFind(p, '/') < n
  {
    forall k | n < k < |p| ensures p[k] != '.' && p[k] != '/' {
      assert p[k] == p[n..][k - n];
    }
  }

  lemma ExtIs(p: string)
    ensures Ext(p) == if RFind(p, '.') > RFind(p, '/') && HasStem(p, RFind(p, '/'), RFind(p, '.'))
      then p[RFind(p, '.')..] else ""
  {
  }

  /** `RFind` is the only index that is -1 or holds `c` with no `c` after it. */
  lemma RFindUnique(s: string, c: char, i: int)
    requires -1 <= i < |s| && (i >= 0 ==> s[i] == c)
    requires forall j :: i < j < |s| ==> s[j] != c
    ensures RFind(s, c) == i
  {
  }

  lemma StemShift(p: string, sep: int, dot: int)
    requires -1 <= sep < dot <= |p|
    ensures HasStem(p[sep + 1..], -1, dot - sep - 1) == HasStem(p, sep, dot)
  {
    var b := p[sep + 1..];
    if HasStem(p, sep, dot) {
      var j :| sep < j < dot && p[j] != '.';
      assert b[j - sep - 1] == p[j];
    }
    if HasStem(b, -1, dot - sep - 1) {
      var j :| -1 < j < dot - sep - 1 && b[j] != '.';
      assert p[j + sep + 1] == b[j];
    }
  }

  lemma RFindsOfBasename(p: string)
    ensures RFind(Basename(p), '/') == -1
    ensures RFind(Basename(p), '.') ==
      if RFind(p, '.') > RFind(p, '/') then RFind(p, '.') - RFind(p, '/') - 1 else -1
  {
    RFindUnique(Basename(p), '/', -1);
    DotOfBasename(p, RFind(p, '/'), RFind(p, '.'));
  }

  lemma DotOfBasename(p: string, sep: int, dot: int)
    requires sep == RFind(p, '/') && dot == RFind(p, '.')
    ensures RFind(p[sep + 1..], '.') == if dot > sep then dot - sep - 1 else -1
  {
    var b := p[sep + 1..];
    var db := if dot > sep then dot - sep - 1 else -1;
    forall j | db < j < |b| ensures b[j] != '.' {
      assert b[j] == p[sep + 1 + j];
      assert sep + 1 + j > dot;
    }
    if db >= 0 {
      assert b[db] == p[dot];
    }
    RFindUnique(b, '.', db);
  }

  /** The extension only depends on the last path component. */
  lemma ExtOfBasename(p: string)
    ensures Ext(Basename(p)) == Ext(p)
  {
    var sep := RFind(p, '/');
    var dot := RFind(p, '.');
    var b := Basename(p);
    assert b == p[sep + 1..];
    RFindsOfBasename(p);
    ExtIs(p);
    ExtIs(b);
    if dot > sep {
      StemShift(p, sep, dot);
      assert b[dot - sep - 1..] == p[dot..];
    }
  }
}
