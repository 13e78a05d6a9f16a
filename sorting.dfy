/** Python 2's `list.sort(key=...)` as the list classes use it: every key is
    computed first, then the list is reordered stably by key. Keys are
    compared the way Python 2 compares None, numbers and strings: None
    before every number, numbers before every string, numbers by value and
    strings by character codes. */
module Sorting {

  /** A sort key: None, an integer or a string. */
  datatype Key = Absent | Num(i: int) | Text(s: string)

  /** Python 2 string comparison: lexicographic by character code. */
  predicate StrLe(a: string, b: string)
    decreases |a|
  {
    a == [] || (b != [] && (a[0] < b[0] || (a[0] == b[0] && StrLe(a[1..], b[1..]))))
  }

  lemma {:induction false} StrLeTotal(a: string, b: string)
    ensures StrLe(a, b) || StrLe(b, a)
    decreases |a|
  {
    if a != [] && b != [] && a[0] == b[0] {
      StrLeTotal(a[1..], b[1..]);
    }
  }

  lemma {:induction false} StrLeTrans(a: string, b: string, c: string)
    requires StrLe(a, b) && StrLe(b, c)
    ensures StrLe(a, c)
    decreases |a|
  {
    if a != [] && a[0] == b[0] && b[0] == c[0] {
      StrLeTrans(a[1..], b[1..], c[1..]);
    }
  }

  lemma {:induction false} StrLeAntisymmetric(a: string, b: string)
    requires StrLe(a, b) && StrLe(b, a)
    ensures a == b
    decreases |a|
  {
    if a != [] {
      StrLeAntisymmetric(a[1..], b[1..]);
      assert a == [a[0]] + a[1..] && b == [b[0]] + b[1..];
    }
  }

  /** The order of keys. */
  predicate KeyLe(a: Key, b: Key) {
    match a
    case Absent => true
    case Num(i) => (b.Num? && i <= b.i) || b.Text?
    case Text(s) => b.Text? && StrLe(s, b.s)
  }

  /** Keys are totally ordered, and two keys that are each no larger than the
      other are the same key. */
  lemma KeyLeTotal(a: Key, b: Key)
    ensures KeyLe(a, b) || KeyLe(b, a)
    ensures KeyLe(a, b) && KeyLe(b, a) ==> a == b
  {
    if a.Text? && b.Text? {
      StrLeTotal(a.s, b.s);
      if StrLe(a.s, b.s) && StrLe(b.s, a.s) {
        StrLeAntisymmetric(a.s, b.s);
      }
    }
  }

  lemma KeyLeTrans(a: Key, b: Key, c: Key)
    requires KeyLe(a, b) && KeyLe(b, c)
    ensures KeyLe(a, c)
  {
    if a.Text? {
      StrLeTrans(a.s, b.s, c.s);
    }
  }

  /** The elements are in key order. */
  predicate Sorted<T>(s: seq<(Key, T)>) {
    forall i, j :: 0 <= i < j < |s| ==> KeyLe(s[i].0, s[j].0)
  }

  /** The elements with key `k`, in their order. */
  function WithKey<T>(s: seq<(Key, T)>, k: Key): seq<(Key, T)> {
    if s == [] then []
    else (if s[0].0 == k then [s[0]] else []) + WithKey(s[1..], k)
  }

  /** `x` goes before the first element whose key is not smaller. */
  function Insert<T>(x: (Key, T), t: seq<(Key, T)>): seq<(Key, T)> {
    if t == [] || KeyLe(x.0, t[0].0) then [x] + t
    else [t[0]] + Insert(x, t[1..])
  }

  /** The sorted list: each element goes, from the back, in front of the
      elements not smaller than it. */
  function SortBy<T>(s: seq<(Key, T)>): seq<(Key, T)> {
    if s == [] then [] else Insert(s[0], SortBy(s[1..]))
  }

  lemma {:induction false} InsertElements<T>(x: (Key, T), t: seq<(Key, T)>)
    ensures multiset(Insert(x, t)) == multiset([x] + t)
  {
    if t != [] && !KeyLe(x.0, t[0].0) {
      InsertElements(x, t[1..]);
      assert t == [t[0]] + t[1..];
    }
  }

  lemma {:induction false} InsertSorted<T>(x: (Key, T), t: seq<(Key, T)>)
    requires Sorted(t)
    ensures Sorted(Insert(x, t))
  {
    var r := Insert(x, t);
    if t == [] {
    } else if KeyLe(x.0, t[0].0) {
      forall j | 0 < j < |r| ensures KeyLe(r[0].0, r[j].0) {
        if j > 1 {
          KeyLeTrans(x.0, t[0].0, t[j - 1].0);
        }
      }
    } else {
      InsertSorted(x, t[1..]);
      InsertElements(x, t[1..]);
      var rest := Insert(x, t[1..]);
      KeyLeTotal(x.0, t[0].0);
      forall j | 0 <= j < |rest| ensures KeyLe(t[0].0, rest[j].0) {
        assert rest[j] in multiset([x] + t[1..]);
        if rest[j] != x {
          assert rest[j] in t[1..];
        }
      }
    }
  }

  lemma {:induction false} InsertWithKey<T>(x: (Key, T), t: seq<(Key, T)>, k: Key)
    ensures WithKey(Insert(x, t), k) == (if x.0 == k then [x] else []) + WithKey(t, k)
  {
    if t == [] || KeyLe(x.0, t[0].0) {
      assert ([x] + t)[1..] == t;
    } else {
      InsertWithKey(x, t[1..], k);
      assert ([t[0]] + Insert(x, t[1..]))[1..] == Insert(x, t[1..]);
      if t[0].0 == k && x.0 == k {
        KeyLeTotal(x.0, t[0].0);
      }
    }
  }

  /** Sorting reorders the list: the same elements, each as often. */
  lemma {:induction false} SortByPermutes<T>(s: seq<(Key, T)>)
    ensures multiset(SortBy(s)) == multiset(s)
  {
    if s != [] {
      SortByPermutes(s[1..]);
      InsertElements(s[0], SortBy(s[1..]));
      assert s == [s[0]] + s[1..];
    }
  }

  /** The sorted list is in key order. */
  lemma {:induction false} SortBySorted<T>(s: seq<(Key, T)>)
    ensures Sorted(SortBy(s))
  {
    if s != [] {
      SortBySorted(s[1..]);
      InsertSorted(s[0], SortBy(s[1..]));
    }
  }

  /** The sort is stable: the elements sharing a key keep their order. */
  lemma {:induction false} SortByStable<T>(s: seq<(Key, T)>, k: Key)
    ensures WithKey(SortBy(s), k) == WithKey(s, k)
  {
    if s != [] {
      SortByStable(s[1..], k);
      InsertWithKey(s[0], SortBy(s[1..]), k);
    }
  }

  /** The keyed elements, as Python pairs each element with its key. */
  function Zip<T>(keys: seq<Key>, items: seq<T>): (r: seq<(Key, T)>)
    requires |keys| == |items|
    ensures |r| == |items| && forall i :: 0 <= i < |r| ==> r[i] == (keys[i], items[i])
  {
    seq(|items|, i requires 0 <= i < |items| => (keys[i], items[i]))
  }

  /** The elements without their keys. */
  function Values<T>(s: seq<(Key, T)>): (r: seq<T>)
    ensures |r| == |s| && forall i :: 0 <= i < |r| ==> r[i] == s[i].1
  {
    seq(|s|, i requires 0 <= i < |s| => s[i].1)
  }

  /** `items.sort(key=...)` once every key has been computed. */
  function SortedByKeys<T>(keys: seq<Key>, items: seq<T>): seq<T>
    requires |keys| == |items|
  {
    Values(SortBy(Zip(keys, items)))
  }

  lemma {:induction false} InsertValues<T>(x: (Key, T), t: seq<(Key, T)>)
    ensures multiset(Values(Insert(x, t))) == multiset{x.1} + multiset(Values(t))
  {
    if t != [] && !KeyLe(x.0, t[0].0) {
      InsertValues(x, t[1..]);
      assert Values([t[0]] + Insert(x, t[1..])) == [t[0].1] + Values(Insert(x, t[1..]));
      assert Values(t) == [t[0].1] + Values(t[1..]);
    } else {
      assert Values([x] + t) == [x.1] + Values(t);
    }
  }

  lemma {:induction false} SortByValues<T>(s: seq<(Key, T)>)
    ensures multiset(Values(SortBy(s))) == multiset(Values(s))
  {
    if s != [] {
      SortByValues(s[1..]);
      InsertValues(s[0], SortBy(s[1..]));
      assert Values(s) == [s[0].1] + Values(s[1..]);
    }
  }

  /** Sorting by keys computed from the items themselves leaves the items
      reordered, each as often, and in the order of their keys. */
  lemma SortedByKeyOf<T>(keys: seq<Key>, items: seq<T>, key: T -> Key)
    requires |keys| == |items| && forall i :: 0 <= i < |items| ==> keys[i] == key(items[i])
    ensures var r := SortedByKeys(keys, items);
      multiset(r) == multiset(items) &&
      forall i, j :: 0 <= i < j < |r| ==> KeyLe(key(r[i]), key(r[j]))
  {
    var z := Zip(keys, items);
    var s := SortBy(z);
    SortByValues(z);
    assert Values(z) == items;
    SortBySorted(z);
    SortByPermutes(z);
    forall i | 0 <= i < |s| ensures s[i].0 == key(s[i].1) {
      assert s[i] in multiset(z);
    }
  }
}
