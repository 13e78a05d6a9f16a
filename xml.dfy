/** The part of `xml.etree.ElementTree` that python-jss relies on, with XML
    elements as values: a tag, optional text and tail, and the children in
    order (attributes play no part in the library and are left out).
    Paths are the simple `a/b/c` form of ElementPath that the library uses:
    each step selects the children with that tag. An element is addressed by
    the child indices that lead to it from the root, and an in-place edit of
    a found element is an update of the tree at that address. The
    pretty-printer `indent` that python-jss carries three times (jss.py,
    jss_helper.py and jss/casper.py) is `Indented`/`Indent` here. */
module Xml {
  import opened Errors
  import opened Text

  datatype Element = Element(tag: string, text: Option<string>, tail: Option<string>, children: seq<Element>)

  /** `ElementTree.Element(tag)` with its text set. */
  function Leaf(tag: string, text: Option<string>): Element {
    Element(tag, text, None, [])
  }

  // ---------------------------------------------------------------------------
  // Paths and addresses

  /** A child-index path from the root to one of its descendants. */
  predicate ValidAddr(e: Element, addr: seq<nat>)
    decreases |addr|
  {
    addr == [] || (addr[0] < |e.children| && ValidAddr(e.children[addr[0]], addr[1..]))
  }

  /** The element at an address. */
  function At(e: Element, addr: seq<nat>): Element
    requires ValidAddr(e, addr)
    decreases |addr|
  {
    if addr == [] then e else At(e.children[addr[0]], addr[1..])
  }

  /** The tree with the element at `addr` replaced by `x`. */
  function Update(e: Element, addr: seq<nat>, x: Element): (r: Element)
    requires ValidAddr(e, addr)
    ensures r.tag == (if addr == [] then x.tag else e.tag)
    ensures addr != [] ==> |r.children| == |e.children| && r.text == e.text && r.tail == e.tail
    decreases |addr|
  {
    if addr == [] then x
    else
      var k := addr[0];
      e.(children := e.children[k := Update(e.children[k], addr[1..], x)])
  }

  /** The address leads through children whose tags are the path's steps. */
  predicate Along(e: Element, addr: seq<nat>, path: seq<string>)
    decreases |addr|
  {
    |addr| == |path| &&
    (addr == [] ||
     (addr[0] < |e.children| && e.children[addr[0]].tag == path[0] &&
      Along(e.children[addr[0]], addr[1..], path[1..])))
  }

  /** The index of `e.find(tag)` for a one-step path: the first child with
      that tag (see ChildIndexFirst). */
  function ChildIndex(e: Element, tag: string): (r: Option<nat>)
    ensures r.Some? ==> r.value < |e.children| && e.children[r.value].tag == tag
  {
    ChildFrom(e.children, tag, 0)
  }

  function ChildFrom(cs: seq<Element>, tag: string, k: nat): (r: Option<nat>)
    requires k <= |cs|
    ensures r.Some? ==> k <= r.value < |cs| && cs[r.value].tag == tag
    decreases |cs| - k
  {
    if k == |cs| then None else if cs[k].tag == tag then Some(k) else ChildFrom(cs, tag, k + 1)
  }

  lemma {:induction false} ChildFromFirst(cs: seq<Element>, tag: string, k: nat)
    requires k <= |cs|
    ensures ChildFrom(cs, tag, k).Some? ==> forall j :: k <= j < ChildFrom(cs, tag, k).value ==> cs[j].tag != tag
    ensures ChildFrom(cs, tag, k).None? <==> forall j :: k <= j < |cs| ==> cs[j].tag != tag
    decreases |cs| - k
  {
    if k < |cs| {
      ChildFromFirst(cs, tag, k + 1);
    }
  }

  /** No child before the one `ChildIndex` gives has the tag, and it gives
      None exactly when no child has it. */
  lemma ChildIndexFirst(e: Element, tag: string)
    ensures ChildIndex(e, tag).Some? ==> forall j :: 0 <= j < ChildIndex(e, tag).value ==> e.children[j].tag != tag
    ensures ChildIndex(e, tag).None? <==> forall j :: 0 <= j < |e.children| ==> e.children[j].tag != tag
  {
    ChildFromFirst(e.children, tag, 0);
  }

  /** The address of `e.find(path)`: the first element the path selects in
      document order, or None. */
  function FindAddr(e: Element, path: seq<string>): (r: Option<seq<nat>>)
    ensures r.Some? ==> ValidAddr(e, r.value) && Along(e, r.value, path)
    decreases |path|, 1, 0
  {
    if path == [] then Some([]) else FirstIn(e, path, 0)
  }

  /** The first match of `path` among `e`'s children from index `k` on. */
  function FirstIn(e: Element, path: seq<string>, k: nat): (r: Option<seq<nat>>)
    requires path != [] && k <= |e.children|
    ensures r.Some? ==> ValidAddr(e, r.value) && Along(e, r.value, path) && k <= r.value[0]
    decreases |path|, 0, |e.children| - k
  {
    if k == |e.children| then None
    else if e.children[k].tag == path[0] && FindAddr(e.children[k], path[1..]).Some? then
      Some([k] + FindAddr(e.children[k], path[1..]).value)
    else FirstIn(e, path, k + 1)
  }

  /** `e.findall(path)`: every element the path selects, in document order. */
  function FindAll(e: Element, path: seq<string>): (r: seq<Element>)
    decreases |path|, 1, 0
  {
    if path == [] then [e] else AllIn(e, path, 0)
  }

  function AllIn(e: Element, path: seq<string>, k: nat): seq<Element>
    requires path != [] && k <= |e.children|
    decreases |path|, 0, |e.children| - k
  {
    if k == |e.children| then []
    else (if e.children[k].tag == path[0] then FindAll(e.children[k], path[1..]) else [])
         + AllIn(e, path, k + 1)
  }

  /** `e.find(path)`. */
  function Find(e: Element, path: seq<string>): Option<Element> {
    match FindAddr(e, path)
    case None => None
    case Some(a) => Some(At(e, a))
  }

  /** `e.findtext(path)`: None when nothing matches, otherwise the text of
      the match or "" when it has none. */
  function FindText(e: Element, path: seq<string>): Option<string> {
    match Find(e, path)
    case None => None
    case Some(x) => Some(if x.text.Some? then x.text.value else "")
  }

  /** A path string such as "general/name" as its steps. */
  function Path(s: string): seq<string> {
    Split(s, "/")
  }

  /** `find` is the first element of `findall`, and finds nothing exactly
      when `findall` is empty. */
  lemma {:induction false} FindIsFirst(e: Element, path: seq<string>)
    ensures FindAddr(e, path).None? <==> FindAll(e, path) == []
    ensures FindAddr(e, path).Some? ==> At(e, FindAddr(e, path).value) == FindAll(e, path)[0]
    decreases |path|, 1, 0
  {
    if path != [] {
      FirstIsFirst(e, path, 0);
    }
  }

  lemma {:induction false} FirstIsFirst(e: Element, path: seq<string>, k: nat)
    requires path != [] && k <= |e.children|
    ensures FirstIn(e, path, k).None? <==> AllIn(e, path, k) == []
    ensures FirstIn(e, path, k).Some? ==> At(e, FirstIn(e, path, k).value) == AllIn(e, path, k)[0]
    decreases |path|, 0, |e.children| - k
  {
    if k < |e.children| {
      var c := e.children[k];
      FindIsFirst(c, path[1..]);
      FirstIsFirst(e, path, k + 1);
      var a := FirstIn(e, path, k);
      if c.tag == path[0] && FindAddr(c, path[1..]).Some? {
        assert a.value[1..] == FindAddr(c, path[1..]).value;
      }
    }
  }

  /** Every element `findall` selects carries the path's last tag. */
  lemma {:induction false} FindAllTags(e: Element, path: seq<string>)
    requires path != []
    ensures forall x :: x in FindAll(e, path) ==> x.tag == path[|path| - 1]
    decreases |path|, 1, 0
  {
    AllInTags(e, path, 0);
  }

  lemma {:induction false} AllInTags(e: Element, path: seq<string>, k: nat)
    requires path != [] && k <= |e.children|
    ensures forall x :: x in AllIn(e, path, k) ==> x.tag == path[|path| - 1]
    decreases |path|, 0, |e.children| - k
  {
    if k < |e.children| {
      var c := e.children[k];
      if c.tag == path[0] && |path| > 1 {
        FindAllTags(c, path[1..]);
      }
      AllInTags(e, path, k + 1);
    }
  }

  /** An update leaves the element at its address equal to the new one. */
  lemma {:induction false} AtUpdate(e: Element, addr: seq<nat>, x: Element)
    requires ValidAddr(e, addr)
    ensures ValidAddr(Update(e, addr, x), addr) && At(Update(e, addr, x), addr) == x
    decreases |addr|
  {
    if addr != [] {
      AtUpdate(e.children[addr[0]], addr[1..], x);
    }
  }

  /** Neither address lies on the path to the other. */
  predicate Apart(a: seq<nat>, b: seq<nat>) {
    exists i :: 0 <= i < |a| && i < |b| && a[..i] == b[..i] && a[i] != b[i]
  }

  /** An update changes nothing off its own branch. */
  lemma {:induction false} UpdateElsewhere(e: Element, addr: seq<nat>, x: Element, b: seq<nat>)
    requires ValidAddr(e, addr) && ValidAddr(e, b) && Apart(addr, b)
    ensures ValidAddr(Update(e, addr, x), b) && At(Update(e, addr, x), b) == At(e, b)
    decreases |addr|
  {
    var i :| 0 <= i < |addr| && i < |b| && addr[..i] == b[..i] && addr[i] != b[i];
    var k := addr[0];
    var e' := Update(e, addr, x);
    if i == 0 {
      assert e'.children[b[0]] == e.children[b[0]];
    } else {
      assert b[0] == k by { assert addr[..i][0] == b[..i][0]; }
      assert addr[1..][..i - 1] == b[1..][..i - 1] by {
        assert addr[1..][..i - 1] == addr[..i][1..];
        assert b[1..][..i - 1] == b[..i][1..];
      }
      UpdateElsewhere(e.children[k], addr[1..], x, b[1..]);
    }
  }

  /** The first child with the tag is the one `ChildIndex` gives. */
  lemma ChildIndexIs(e: Element, tag: string, k: nat)
    requires k < |e.children| && e.children[k].tag == tag
    requires forall j :: 0 <= j < k ==> e.children[j].tag != tag
    ensures ChildIndex(e, tag) == Some(k)
  {
    ChildIndexFirst(e, tag);
  }

  /** A one-step `find` selects the first child with the tag. */
  lemma FindChild(e: Element, tag: string)
    ensures FindAddr(e, [tag]) == (if ChildIndex(e, tag).Some? then Some([ChildIndex(e, tag).value]) else None)
  {
    FirstChild(e, tag, 0);
  }

  /** A one-step `findtext` reads the first child with the tag. */
  lemma FindTextChild(e: Element, tag: string)
    ensures ChildIndex(e, tag).None? ==> FindText(e, [tag]).None?
    ensures ChildIndex(e, tag).Some? ==>
      var x := e.children[ChildIndex(e, tag).value];
      FindText(e, [tag]) == Some(if x.text.Some? then x.text.value else "")
  {
    FindChild(e, tag);
    if ChildIndex(e, tag).Some? {
      var k := ChildIndex(e, tag).value;
      assert [k][1..] == [];
      assert At(e, [k]) == At(e.children[k], []);
    }
  }

  /** Appending a child moves no earlier child: a tag already present is
      found where it was, and a new tag is found at the appended child. */
  lemma AppendedChildIndex(x: Element, c: Element, t: string)
    ensures ChildIndex(Appended(x, c), t) ==
      (if ChildIndex(x, t).Some? then ChildIndex(x, t) else if c.tag == t then Some(|x.children|) else None)
  {
    var r := Appended(x, c);
    ChildIndexFirst(x, t);
    ChildIndexFirst(r, t);
    if ChildIndex(x, t).Some? {
      ChildIndexIs(r, t, ChildIndex(x, t).value);
    } else if c.tag == t {
      ChildIndexIs(r, t, |x.children|);
    }
  }

  /** `findtext` of another tag is not changed by appending a child. */
  lemma FindTextAppended(x: Element, c: Element, t: string)
    requires c.tag != t
    ensures FindText(Appended(x, c), [t]) == FindText(x, [t])
  {
    AppendedChildIndex(x, c, t);
    FindTextChild(x, t);
    FindTextChild(Appended(x, c), t);
  }

  lemma {:induction false} FirstChild(e: Element, tag: string, k: nat)
    requires k <= |e.children|
    ensures FirstIn(e, [tag], k) == (if ChildFrom(e.children, tag, k).Some? then Some([ChildFrom(e.children, tag, k).value]) else None)
    decreases |e.children| - k
  {
    if k < |e.children| {
      FirstChild(e, tag, k + 1);
      assert [tag][1..] == [];
      assert FindAddr(e.children[k], []) == Some([]);
      assert [k] + [] == [k];
    }
  }

  /** The address of a descendant's descendant is the two addresses joined. */
  lemma {:induction false} AtConcat(e: Element, a: seq<nat>, b: seq<nat>)
    requires ValidAddr(e, a) && ValidAddr(At(e, a), b)
    ensures ValidAddr(e, a + b) && At(e, a + b) == At(At(e, a), b)
    decreases |a|
  {
    if a != [] {
      assert (a + b)[0] == a[0] && (a + b)[1..] == a[1..] + b;
      AtConcat(e.children[a[0]], a[1..], b);
    } else {
      assert a + b == b;
    }
  }

  lemma {:induction false} AlongConcat(e: Element, a: seq<nat>, p: seq<string>, b: seq<nat>, q: seq<string>)
    requires Along(e, a, p) && ValidAddr(e, a) && Along(At(e, a), b, q)
    ensures Along(e, a + b, p + q)
    decreases |a|
  {
    if a != [] {
      assert (a + b)[0] == a[0] && (a + b)[1..] == a[1..] + b;
      assert (p + q)[0] == p[0] && (p + q)[1..] == p[1..] + q;
      AlongConcat(e.children[a[0]], a[1..], p[1..], b, q);
    } else {
      assert a + b == b && p + q == q;
    }
  }

  /** Replacing an element by one with the same tag keeps every address
      through it on its path. */
  lemma {:induction false} UpdateAlong(e: Element, a: seq<nat>, p: seq<string>, x: Element)
    requires ValidAddr(e, a) && Along(e, a, p) && x.tag == At(e, a).tag
    ensures Along(Update(e, a, x), a, p)
    decreases |a|
  {
    if |a| > 1 {
      UpdateAlong(e.children[a[0]], a[1..], p[1..], x);
    }
  }

  /** Every element on an address that follows a path is selected by
      `findall` of that path. */
  lemma {:induction false} AlongInFindAll(e: Element, a: seq<nat>, path: seq<string>)
    requires Along(e, a, path) && ValidAddr(e, a)
    ensures At(e, a) in FindAll(e, path)
    decreases |path|, 1, 0
  {
    if path != [] {
      AlongInAllIn(e, a, path, 0);
    }
  }

  lemma {:induction false} AlongInAllIn(e: Element, a: seq<nat>, path: seq<string>, k: nat)
    requires Along(e, a, path) && ValidAddr(e, a) && path != [] && k <= a[0]
    ensures At(e, a) in AllIn(e, path, k)
    decreases |path|, 0, |e.children| - k
  {
    if k == a[0] {
      AlongInFindAll(e.children[k], a[1..], path[1..]);
    } else {
      AlongInAllIn(e, a, path, k + 1);
    }
  }

  /** `find` sees only tags and the tree's shape. */
  lemma {:induction false} FindAddrSkeleton(x: Element, y: Element, path: seq<string>)
    requires Skeleton(x) == Skeleton(y)
    ensures FindAddr(x, path) == FindAddr(y, path)
    decreases |path|, 1, 0
  {
    if path != [] {
      FirstInSkeleton(x, y, path, 0);
    }
  }

  lemma {:induction false} FirstInSkeleton(x: Element, y: Element, path: seq<string>, k: nat)
    requires Skeleton(x) == Skeleton(y) && path != [] && k <= |x.children|
    ensures FirstIn(x, path, k) == FirstIn(y, path, k)
    decreases |path|, 0, |x.children| - k
  {
    if k < |x.children| {
      assert Skeleton(x).children[k] == Skeleton(x.children[k]);
      assert Skeleton(y).children[k] == Skeleton(y.children[k]);
      FindAddrSkeleton(x.children[k], y.children[k], path[1..]);
      FirstInSkeleton(x, y, path, k + 1);
    }
  }

  /** Replacing an element by one of the same shape keeps the tree's shape. */
  lemma {:induction false} UpdateSkeleton(e: Element, a: seq<nat>, x: Element)
    requires ValidAddr(e, a) && Skeleton(x) == Skeleton(At(e, a))
    ensures Skeleton(Update(e, a, x)) == Skeleton(e)
    decreases |a|
  {
    if a != [] {
      var k := a[0];
      UpdateSkeleton(e.children[k], a[1..], x);
      var r := Update(e, a, x);
      forall j | 0 <= j < |e.children| ensures Skeleton(r.children[j]) == Skeleton(e.children[j]) {
      }
    }
  }

  /** The address leads through the path's first steps, so the path may
      select the element there or elements below it. */
  predicate Through(e: Element, a: seq<nat>, path: seq<string>) {
    |a| < |path| && Along(e, a, path[..|a|])
  }

  lemma ThroughChild(e: Element, a: seq<nat>, path: seq<string>)
    requires a != [] && path != [] && a[0] < |e.children| && e.children[a[0]].tag == path[0]
    ensures Through(e, a, path) <==> Through(e.children[a[0]], a[1..], path[1..])
  {
    if |a| < |path| {
      assert path[..|a|][0] == path[0];
      assert path[..|a|][1..] == path[1..][..|a| - 1];
    }
  }

  /** Replacing an element by one with the same tag changes what `find`
      selects only for paths that lead through it. */
  lemma {:induction false} FindAddrUpdate(e: Element, a: seq<nat>, x: Element, path: seq<string>)
    requires ValidAddr(e, a) && x.tag == At(e, a).tag && !Through(e, a, path)
    ensures FindAddr(Update(e, a, x), path) == FindAddr(e, path)
    decreases |path|, 1, 0
  {
    if path != [] {
      assert a != [] by {
        assert path[..0] == [];
      }
      FirstInUpdate(e, a, x, path, 0);
    }
  }

  lemma {:induction false} FirstInUpdate(e: Element, a: seq<nat>, x: Element, path: seq<string>, k: nat)
    requires ValidAddr(e, a) && x.tag == At(e, a).tag && !Through(e, a, path)
    requires a != [] && path != [] && k <= |e.children|
    ensures FirstIn(Update(e, a, x), path, k) == FirstIn(e, path, k)
    decreases |path|, 0, |e.children| - k
  {
    var u := Update(e, a, x);
    if k < |e.children| {
      FirstInUpdate(e, a, x, path, k + 1);
      if k == a[0] {
        var c := e.children[k];
        assert u.children[k] == Update(c, a[1..], x);
        if c.tag == path[0] {
          ThroughChild(e, a, path);
          FindAddrUpdate(c, a[1..], x, path[1..]);
        }
      } else {
        assert u.children[k] == e.children[k];
      }
    }
  }

  /** An address follows one path at most. */
  lemma {:induction false} AlongSame(e: Element, a: seq<nat>, p: seq<string>, q: seq<string>)
    requires Along(e, a, p) && Along(e, a, q)
    ensures p == q
    decreases |a|
  {
    if a != [] {
      AlongSame(e.children[a[0]], a[1..], p[1..], q[1..]);
      assert p == [p[0]] + p[1..] && q == [q[0]] + q[1..];
    }
  }

  /** The first steps of an address follow the first steps of its path. */
  lemma {:induction false} AlongPrefix(e: Element, a: seq<nat>, p: seq<string>, n: nat)
    requires Along(e, a, p) && n <= |a|
    ensures Along(e, a[..n], p[..n])
    decreases |a|
  {
    if n > 0 {
      AlongPrefix(e.children[a[0]], a[1..], p[1..], n - 1);
      assert a[..n][1..] == a[1..][..n - 1] && p[..n][1..] == p[1..][..n - 1];
    }
  }

  /** When an address lies on the way to another, their paths are related
      the same way. */
  lemma PrefixAddrPrefixPath(e: Element, b: seq<nat>, q: seq<string>, a: seq<nat>, p: seq<string>)
    requires Along(e, b, q) && Along(e, a, p)
    ensures b <= a ==> q <= p
  {
    if b <= a {
      AlongPrefix(e, a, p, |b|);
      assert a[..|b|] == b;
      AlongSame(e, b, q, p[..|b|]);
    }
  }

  /** An address that leads through another path's address means the path
      has that address's path as its start. */
  lemma ThroughPrefix(e: Element, b: seq<nat>, q: seq<string>, p: seq<string>)
    requires Along(e, b, q)
    ensures Through(e, b, p) ==> q <= p
  {
    if Through(e, b, p) {
      AlongSame(e, b, q, p[..|b|]);
    }
  }

  /** Two addresses either part somewhere or one lies on the way to the
      other. */
  lemma {:induction false} ApartOrPrefix(a: seq<nat>, b: seq<nat>)
    ensures Apart(a, b) || a <= b || b <= a
  {
    if a != [] && b != [] {
      if a[0] != b[0] {
        assert a[..0] == b[..0];
      } else {
        ApartOrPrefix(a[1..], b[1..]);
        if Apart(a[1..], b[1..]) {
          var i :| 0 <= i < |a[1..]| && i < |b[1..]| && a[1..][..i] == b[1..][..i] && a[1..][i] != b[1..][i];
          assert a[..i + 1] == [a[0]] + a[1..][..i];
          assert b[..i + 1] == [b[0]] + b[1..][..i];
        } else {
          assert a == [a[0]] + a[1..] && b == [b[0]] + b[1..];
        }
      }
    }
  }

  /** An element that something lies below has children. */
  lemma {:induction false} BelowHasChildren(e: Element, a: seq<nat>, b: seq<nat>)
    requires ValidAddr(e, a) && ValidAddr(e, b)
    ensures a < b ==> At(e, a).children != []
    decreases |a|
  {
    if a < b && a != [] {
      assert b[0] == a[0] && a[1..] < b[1..];
      BelowHasChildren(e.children[a[0]], a[1..], b[1..]);
    }
  }

  /** The element a path leads to carries the path's last tag. */
  lemma {:induction false} AlongTag(e: Element, a: seq<nat>, p: seq<string>)
    requires ValidAddr(e, a) && Along(e, a, p) && p != []
    ensures At(e, a).tag == p[|p| - 1]
    decreases |a|
  {
    if |a| > 1 {
      AlongTag(e.children[a[0]], a[1..], p[1..]);
    }
  }

  // ---------------------------------------------------------------------------
  // Edits of one element

  /** `element.clear()`: children, text and tail all go. */
  function Cleared(x: Element): (r: Element)
    ensures r.tag == x.tag && r.text.None? && r.tail.None? && r.children == []
  {
    Element(x.tag, None, None, [])
  }

  /** `element.append(child)`. */
  function Appended(x: Element, child: Element): (r: Element)
    ensures r.tag == x.tag && r.text == x.text && r.tail == x.tail
    ensures r.children == x.children + [child]
  {
    x.(children := x.children + [child])
  }

  /** `element.remove(x.children[k])`: ElementTree removes the first child
      equal to the argument, which is child `k` when `k` is the first such. */
  function Removed(x: Element, k: nat): (r: Element)
    requires k < |x.children|
    ensures r.tag == x.tag && r.text == x.text && r.tail == x.tail
    ensures r.children == x.children[..k] + x.children[k + 1..]
  {
    x.(children := x.children[..k] + x.children[k + 1..])
  }

  /** `element.text = t`. */
  function WithText(x: Element, t: Option<string>): (r: Element)
    ensures r.tag == x.tag && r.text == t && r.tail == x.tail && r.children == x.children
  {
    x.(text := t)
  }

  /** `ElementTree.SubElement(x, tag)` and the element's new value. */
  function SubElement(x: Element, tag: string): (r: Element)
    ensures r.children == x.children + [Element(tag, None, None, [])]
  {
    Appended(x, Element(tag, None, None, []))
  }

  // ---------------------------------------------------------------------------
  // Indentation

  const Pad: string := "    "

  /** `n` times the four-space pad. */
  function Pads(n: nat): (r: string)
    ensures |r| == 4 * n && forall i :: 0 <= i < |r| ==> r[i] == ' '
  {
    if n == 0 then "" else Pads(n - 1) + Pad
  }

  /** `not s or not s.strip()`: no text, or only whitespace. */
  predicate Blank(s: Option<string>) {
    s.None? || forall i :: 0 <= i < |s.value| ==> IsSpace(s.value[i])
  }

  /** A newline followed by `n` pads. */
  function Newline(n: nat): (r: string)
    ensures |r| > 0 && r[0] == '\n'
  {
    "\n" + Pads(n)
  }

  /** The tail `indent` gives to a blank tail at `level`: below the root,
      the pad of the parent's children when a sibling follows and the
      parent's own pad after the last child; at the root, a newline and one
      pad when `more_sibs` is passed, a bare newline otherwise. */
  function TailAt(level: nat, moreSibs: bool): string {
    if level == 0 then (if moreSibs then Newline(1) else Newline(0))
    else if moreSibs then Newline(level) else Newline(level - 1)
  }

  /** `indent(elem, level, more_sibs)` as the tree it leaves behind. */
  function Indented(e: Element, level: nat, moreSibs: bool): (r: Element)
    ensures r.tag == e.tag && |r.children| == |e.children|
    decreases e
  {
    if |e.children| > 0 then
      Element(e.tag,
        if Blank(e.text) then Some(Newline(level + 1)) else e.text,
        if Blank(e.tail) then Some(TailAt(level, moreSibs)) else e.tail,
        seq(|e.children|, j requires 0 <= j < |e.children| =>
          Indented(e.children[j], level + 1, j < |e.children| - 1)))
    else
      Element(e.tag, e.text,
        if level > 0 && Blank(e.tail) then Some(TailAt(level, moreSibs)) else e.tail,
        [])
  }

  /** The recursive, in-place pretty-printer: the counter loop over the
      children hands `more_sibs` to every child but the last. */
  method Indent(e: Element, level: nat, moreSibs: bool) returns (r: Element)
    ensures r == Indented(e, level, moreSibs)
    decreases e
  {
    var n := |e.children|;
    if n == 0 {
      r := e;
      if level > 0 && Blank(e.tail) {
        r := r.(tail := Some(TailAt(level, moreSibs)));
      }
      return;
    }
    r := e;
    if Blank(e.text) {
      r := r.(text := Some(Newline(level + 1)));
    }
    var kids: seq<Element> := [];
    var count := 0;
    while count < n
      invariant 0 <= count <= n && |kids| == count
      invariant forall j :: 0 <= j < count ==> kids[j] == Indented(e.children[j], level + 1, j < n - 1)
    {
      var kid := Indent(e.children[count], level + 1, count < n - 1);
      kids := kids + [kid];
      count := count + 1;
    }
    r := r.(children := kids);
    if Blank(e.tail) {
      r := r.(tail := Some(TailAt(level, moreSibs)));
    }
  }

  /** The text rule: an element with children and blank text gets a newline
      and one pad more than its level; any other text stays as it is. */
  lemma IndentText(e: Element, level: nat, moreSibs: bool)
    ensures |e.children| > 0 && Blank(e.text) ==>
      Indented(e, level, moreSibs).text == Some("\n" + Pads(level + 1))
    ensures !(|e.children| > 0 && Blank(e.text)) ==> Indented(e, level, moreSibs).text == e.text
  {
  }

  /** The tail rule: below the root a blank tail becomes a newline and
      `level` pads when a sibling follows, `level - 1` pads after the last
      child; a non-blank tail stays. */
  lemma IndentTail(e: Element, level: nat, moreSibs: bool)
    ensures level > 0 && Blank(e.tail) ==>
      Indented(e, level, moreSibs).tail == Some("\n" + Pads(if moreSibs then level else level - 1))
    ensures !Blank(e.tail) ==> Indented(e, level, moreSibs).tail == e.tail
    ensures level == 0 && |e.children| > 0 && Blank(e.tail) ==>
      Indented(e, 0, moreSibs).tail == Some(if moreSibs then "\n    " else "\n")
    ensures level == 0 && |e.children| == 0 ==> Indented(e, 0, moreSibs).tail == e.tail
  {
    assert Pads(0) == "" && Pads(1) == Pads(0) + Pad;
    assert Newline(0) == "\n" && Newline(1) == "\n    ";
  }

  /** A root without children is left untouched. */
  lemma IndentChildlessRoot(e: Element)
    requires e.children == []
    ensures Indented(e, 0, false) == e
  {
  }

  /** Child `j` is indented one level deeper, told whether a sibling follows. */
  lemma IndentChildren(e: Element, level: nat, moreSibs: bool, j: nat)
    requires j < |e.children|
    ensures Indented(e, level, moreSibs).children[j] == Indented(e.children[j], level + 1, j < |e.children| - 1)
  {
  }

  /** The tree without its text and tails. */
  function Skeleton(e: Element): (r: Element)
    ensures r.tag == e.tag && |r.children| == |e.children|
    decreases e
  {
    Element(e.tag, None, None,
      seq(|e.children|, j requires 0 <= j < |e.children| => Skeleton(e.children[j])))
  }

  /** Indentation changes only whitespace: tags and the tree's shape stay. */
  lemma {:induction false} IndentKeepsSkeleton(e: Element, level: nat, moreSibs: bool)
    ensures Skeleton(Indented(e, level, moreSibs)) == Skeleton(e)
    decreases e
  {
    var r := Indented(e, level, moreSibs);
    forall j | 0 <= j < |e.children|
      ensures Skeleton(r.children[j]) == Skeleton(e.children[j])
    {
      IndentKeepsSkeleton(e.children[j], level + 1, j < |e.children| - 1);
    }
  }

  lemma NewlineBlank(n: nat)
    ensures Blank(Some(Newline(n)))
  {
  }

  /** Indenting an indented tree changes nothing: every text and tail that
      indentation writes is blank and is written again the same way. */
  lemma {:induction false} IndentIdempotent(e: Element, level: nat, moreSibs: bool)
    ensures Indented(Indented(e, level, moreSibs), level, moreSibs) == Indented(e, level, moreSibs)
    decreases e
  {
    var r := Indented(e, level, moreSibs);
    NewlineBlank(level + 1);
    NewlineBlank(level);
    NewlineBlank(if level == 0 then 0 else level - 1);
    forall j | 0 <= j < |e.children|
      ensures Indented(r.children[j], level + 1, j < |e.children| - 1) == r.children[j]
    {
      IndentIdempotent(e.children[j], level + 1, j < |e.children| - 1);
    }
  }
}
