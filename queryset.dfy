/** jss/queryset.py: QuerySet, a list of objects of one class that keeps
    itself sorted by id, can sort by name, marks its members uncached, and
    asks the uncached ones to retrieve themselves. The members' own
    retrieval is not modelled: RetrieveAll reports which members it asks. */
module QuerySet {
  import opened Errors
  import opened Text
  import opened Xml
  import opened JamfSoftwareServer
  import opened JssObjectList
  import opened Sorting

  /** A member: its class name, its id and name as the object reports them,
      and whether it holds retrieved data (only the truth of `cached` is
      read here). */
  class Member {
    const className: string
    const id: Option<string>
    const name: Option<string>
    var cached: bool

    constructor (className: string, id: Option<string>, name: Option<string>, cached: bool)
      ensures this.className == className && this.id == id && this.name == name && this.cached == cached
    {
      this.className := className;
      this.id := id;
      this.name := name;
      this.cached := cached;
    }
  }

  /** `int(k.id)`, the key of `sort()`. */
  function IdKeyOf(m: Member): (r: Result<Key>)
    ensures r.Ok? <==> m.id.Some? && ParseInt(m.id.value).Some?
    ensures r.Ok? ==> r.value == Num(ParseInt(m.id.value).value)
  {
    match m.id
    case None => Err(TypeError("int() argument must be a string or a number, not 'NoneType'"))
    case Some(s) =>
      match ParseInt(s)
      case None => Err(ValueError("invalid literal for int() with base 10"))
      case Some(n) => Ok(Num(n))
  }

  /** `k.name.upper()`, the key of `sort_by_name()`. */
  function NameKeyOf(m: Member): (r: Result<Key>)
    ensures r.Ok? <==> m.name.Some?
    ensures r.Ok? ==> r.value == Text(Upper(m.name.value))
  {
    match m.name
    case None => Err(AttributeError("upper"))
    case Some(s) => Ok(Text(Upper(s)))
  }

  function MemberKeys(items: seq<Member>, byName: bool): (r: Result<seq<Key>>)
    ensures r.Ok? ==> |r.value| == |items|
  {
    Gather(seq(|items|, i requires 0 <= i < |items| => if byName then NameKeyOf(items[i]) else IdKeyOf(items[i])))
  }

  function MemberKey(byName: bool, m: Member): Key {
    var k := if byName then NameKeyOf(m) else IdKeyOf(m);
    if k.Ok? then k.value else Absent
  }

  /** Sorting members by their computed keys reorders them into key order. */
  lemma SortedMembers(items: seq<Member>, byName: bool)
    requires MemberKeys(items, byName).Ok?
    ensures var r := SortedByKeys(MemberKeys(items, byName).value, items);
      multiset(r) == multiset(items) &&
      forall i, j :: 0 <= i < j < |r| ==> KeyLe(MemberKey(byName, r[i]), MemberKey(byName, r[j]))
  {
    var keys := MemberKeys(items, byName).value;
    forall i | 0 <= i < |items| ensures keys[i] == MemberKey(byName, items[i]) {
    }
    SortedByKeyOf(keys, items, m => MemberKey(byName, m));
  }

  /** After `sort_by_name()` the upper-cased names are in order. */
  lemma SortedByUpperName(items: seq<Member>)
    requires MemberKeys(items, true).Ok?
    ensures var r := SortedByKeys(MemberKeys(items, true).value, items);
      forall i, j :: 0 <= i < j < |r| ==>
        r[i].name.Some? && r[j].name.Some? && StrLe(Upper(r[i].name.value), Upper(r[j].name.value))
  {
    var keys := MemberKeys(items, true).value;
    var r := SortedByKeys(keys, items);
    SortedMembers(items, true);
    forall i | 0 <= i < |r| ensures r[i].name.Some? {
      assert r[i] in multiset(items);
      var k :| 0 <= k < |items| && items[k] == r[i];
      assert NameKeyOf(items[k]) == Ok(keys[k]);
    }
  }

  /** All members are of one class: `len({i.__class__ for i in objects}) == 1`. */
  predicate OneClass(objects: seq<Member>) {
    forall i :: 0 <= i < |objects| ==> objects[i].className == objects[0].className
  }

  /** The members that are not cached, in list order. */
  function Uncached(items: seq<Member>): (r: seq<Member>)
    reads set m | m in items
    ensures forall m :: m in r ==> m in items && !m.cached
    ensures |r| <= |items|
  {
    if items == [] then []
    else (if items[0].cached then [] else [items[0]]) + Uncached(items[1..])
  }

  /** Every uncached member is asked. */
  lemma {:induction false} UncachedAll(items: seq<Member>, m: Member)
    requires m in items && !m.cached
    ensures m in Uncached(items)
  {
    if items[0] != m {
      UncachedAll(items[1..], m);
    }
  }

  lemma {:induction false} UncachedSnoc(items: seq<Member>, m: Member)
    ensures Uncached(items + [m]) == Uncached(items) + (if m.cached then [] else [m])
  {
    if items != [] {
      assert (items + [m])[1..] == items[1..] + [m];
      UncachedSnoc(items[1..], m);
    } else {
      assert [] + [m] == [m];
    }
  }

  class QuerySet {
    var items: seq<Member>
    var containedClass: Option<string>

    constructor Of(items: seq<Member>, containedClass: Option<string>)
      ensures this.items == items && this.containedClass == containedClass
    {
      this.items := items;
      this.containedClass := containedClass;
    }

    /** `sort()` (`byName` false) and `sort_by_name()` (`byName` true). A
      key that cannot be computed raises and leaves the order as it was. */
    method Sort(byName: bool) returns (r: Outcome)
      modifies this
      ensures containedClass == old(containedClass)
      ensures MemberKeys(old(items), byName).Err? ==>
        r == Raised(MemberKeys(old(items), byName).error) && items == old(items)
      ensures MemberKeys(old(items), byName).Ok? ==>
        r == Done && items == SortedByKeys(MemberKeys(old(items), byName).value, old(items)) &&
        multiset(items) == multiset(old(items)) &&
        forall i, j :: 0 <= i < j < |items| ==> KeyLe(MemberKey(byName, items[i]), MemberKey(byName, items[j]))
    {
      var keys := MemberKeys(items, byName);
      if keys.Err? {
        return Raised(keys.error);
      }
      SortedMembers(items, byName);
      items := SortedByKeys(keys.value, items);
      r := Done;
    }

    /** `invalidate()`: every member is marked uncached; the list itself,
      and every object not in it, is left alone. */
    method Invalidate()
      modifies set m | m in items
      ensures forall m :: m in items ==> !m.cached
      ensures items == old(items)
    {
      var i := 0;
      while i < |items|
        invariant 0 <= i <= |items|
        invariant forall j :: 0 <= j < i ==> !items[j].cached
      {
        items[i].cached := false;
        i := i + 1;
      }
    }

    /** `retrieve_all()`: the members asked to retrieve, in list order:
      exactly those not cached. */
    method RetrieveAll() returns (asked: seq<Member>)
      ensures asked == Uncached(items)
    {
      asked := [];
      var i := 0;
      while i < |items|
        invariant 0 <= i <= |items|
        invariant asked == Uncached(items[..i])
      {
        UncachedSnoc(items[..i], items[i]);
        assert items[..i + 1] == items[..i] + [items[i]];
        if !items[i].cached {
          asked := asked + [items[i]];
        }
        i := i + 1;
      }
      assert items[..i] == items;
    }

    /** `names()` and `ids()`: the members' names and ids, in list order. */
    function Names(): (r: seq<Option<string>>)
      reads this
      ensures |r| == |items| && forall i :: 0 <= i < |items| ==> r[i] == items[i].name
    {
      seq(|items|, i requires 0 <= i < |items| reads this => items[i].name)
    }

    function Ids(): (r: seq<Option<string>>)
      reads this
      ensures |r| == |items| && forall i :: 0 <= i < |items| ==> r[i] == items[i].id
    {
      seq(|items|, i requires 0 <= i < |items| reads this => items[i].id)
    }
  }

  /** `QuerySet(objects)`: ValueError for members of several classes, then
      sorted by id (which raises when an id is not a number); the contained
      class is the first object's class, None when there is none. */
  method NewQuerySet(objects: seq<Member>) returns (r: Result<QuerySet>)
    ensures !OneClass(objects) ==> r == Err(ValueError(""))
    ensures OneClass(objects) && MemberKeys(objects, false).Err? ==> r == Err(MemberKeys(objects, false).error)
    ensures OneClass(objects) && MemberKeys(objects, false).Ok? ==>
      r.Ok? && fresh(r.value) &&
      r.value.items == SortedByKeys(MemberKeys(objects, false).value, objects) &&
      r.value.containedClass == (if objects == [] then None else Some(objects[0].className))
  {
    if !OneClass(objects) {
      return Err(ValueError(""));
    }
    var q := new QuerySet.Of(objects, None);
    var sorted := q.Sort(false);
    if sorted.Raised? {
      return Err(sorted.error);
    }
    q.containedClass := if objects == [] then None else Some(objects[0].className);
    r := Ok(q);
  }

  /** The id and name a listing entry gives the object built from it. */
  function EntryField(d: ListData, key: string): (r: Option<string>)
    ensures key in d ==> r == d[key]
    ensures key !in d ==> r.None?
  {
    if key in d then d[key] else None
  }

  /** The member built from one listing entry: of the listed class,
      uncached, with the entry's id and name. */
  predicate FromEntry(m: Member, className: string, entry: Element)
    reads m
  {
    var d := TagTexts(entry.children);
    m.className == className && !m.cached && m.id == EntryField(d, "id") && m.name == EntryField(d, "name")
  }

  /** A member built from an entry has the text of the entry's last `id`
      child as its id, and no id when the entry has no `id` child. */
  lemma FromEntryId(m: Member, className: string, entry: Element, i: nat)
    requires FromEntry(m, className, entry)
    requires i < |entry.children| && entry.children[i].tag == "id"
    requires forall j :: i < j < |entry.children| ==> entry.children[j].tag != "id"
    ensures m.id == entry.children[i].text
  {
    TagTextsLast(entry.children, i);
  }

  lemma FromEntryNoId(m: Member, className: string, entry: Element)
    requires FromEntry(m, className, entry)
    requires forall j :: 0 <= j < |entry.children| ==> entry.children[j].tag != "id"
    ensures m.id.None?
  {
  }

  /** `[obj_class(jss, data=i) for i in identities]` over the kept
      children. */
  method BuildMembers(className: string, kept: seq<Element>) returns (objects: seq<Member>)
    ensures |objects| == |kept| && forall j :: 0 <= j < |kept| ==> FromEntry(objects[j], className, kept[j])
  {
    objects := [];
    var i := 0;
    while i < |kept|
      invariant 0 <= i <= |kept| && |objects| == i
      invariant forall j :: 0 <= j < i ==> FromEntry(objects[j], className, kept[j])
    {
      var d := TagTexts(kept[i].children);
      var m := new Member(className, EntryField(d, "id"), EntryField(d, "name"), false);
      objects := objects + [m];
      i := i + 1;
    }
  }

  /** Whether a listing entry has an `id` child whose text `int()` takes. */
  predicate NumericEntryId(entry: Element) {
    var id := EntryField(TagTexts(entry.children), "id");
    id.Some? && ParseInt(id.value).Some?
  }

  /** `QuerySet.from_response(obj_class, response)`: one uncached member
      per kept child, from its tag-to-text entry; then the constructor,
      which sorts them by id. All members share the class, so the
      mixed-class ValueError cannot arise; the sort raises exactly when an
      entry's id is missing or not a number. */
  method FromResponse(className: string, response: Element) returns (r: Result<QuerySet>)
    ensures var kept := Kept(response.children);
      r.Ok? <==> forall j :: 0 <= j < |kept| ==> NumericEntryId(kept[j])
    ensures var kept := Kept(response.children);
      r.Ok? ==> (|r.value.items| == |kept| &&
        r.value.containedClass == (if kept == [] then None else Some(className)) &&
        (forall m :: m in r.value.items ==> exists j :: 0 <= j < |kept| && FromEntry(m, className, kept[j])) &&
        forall i, j :: 0 <= i < j < |r.value.items| ==>
          KeyLe(MemberKey(false, r.value.items[i]), MemberKey(false, r.value.items[j])))
  {
    var kept := Kept(response.children);
    var objects := BuildMembers(className, kept);
    assert OneClass(objects);
    var keys := seq(|objects|, i requires 0 <= i < |objects| => IdKeyOf(objects[i]));
    assert seq(|objects|, i requires 0 <= i < |objects| => if false then NameKeyOf(objects[i]) else IdKeyOf(objects[i])) == keys;
    assert MemberKeys(objects, false) == Gather(keys);
    assert (forall i :: 0 <= i < |keys| ==> keys[i].Ok?) <==> (forall j :: 0 <= j < |kept| ==> NumericEntryId(kept[j])) by {
      forall i | 0 <= i < |keys|
        ensures keys[i].Ok? <==> NumericEntryId(kept[i])
      {
        assert FromEntry(objects[i], className, kept[i]);
      }
    }
    r := NewQuerySet(objects);
    if r.Ok? {
      var items := r.value.items;
      SortedMembers(objects, false);
      assert multiset(items) == multiset(objects);
      assert |items| == |objects| by {
        assert |multiset(items)| == |multiset(objects)|;
      }
      forall m | m in items
        ensures exists j :: 0 <= j < |kept| && FromEntry(m, className, kept[j])
      {
        assert m in multiset(objects);
        var j :| 0 <= j < |objects| && objects[j] == m;
        assert FromEntry(objects[j], className, kept[j]);
      }
    }
  }
}
