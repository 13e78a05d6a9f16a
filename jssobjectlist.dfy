/** jss/jssobjectlist.py (the same two classes appear again in jss/jss.py):
    JSSListData, the tag-to-text dictionary a listing GET gives for one
    object, and JSSObjectList, the list of them that sorts itself and asks
    the factory for the full objects. A retrieval is modelled up to the
    factory's lookup (the request it would make). */
module JssObjectList {
  import opened Errors
  import opened Text
  import opened Xml
  import opened JssObject
  import opened JamfSoftwareServer
  import opened Sorting

  /** A JSSListData: the dictionary of one listed object's fields. */
  type ListData = map<string, Option<string>>

  /** `{i.tag: i.text for i in entry}`: a later child with the same tag
      overwrites an earlier one. */
  function TagTexts(cs: seq<Element>): (r: ListData)
    ensures forall k :: k in r <==> exists i :: 0 <= i < |cs| && cs[i].tag == k
    decreases |cs|
  {
    if cs == [] then map[]
    else TagTexts(cs[..|cs| - 1])[cs[|cs| - 1].tag := cs[|cs| - 1].text]
  }

  /** Each tag maps to the text of its last child. */
  lemma {:induction false} TagTextsLast(cs: seq<Element>, i: nat)
    requires i < |cs| && forall j :: i < j < |cs| ==> cs[j].tag != cs[i].tag
    ensures cs[i].tag in TagTexts(cs) && TagTexts(cs)[cs[i].tag] == cs[i].text
    decreases |cs|
  {
    if i < |cs| - 1 {
      TagTextsLast(cs[..|cs| - 1], i);
    }
  }

  /** The `id` property: `int(self["id"])`. A missing key is a KeyError, a
      missing text a TypeError, text that is not a number a ValueError. */
  function ListId(d: ListData): (r: Result<int>)
    ensures r.Ok? <==> "id" in d && d["id"].Some? && ParseInt(d["id"].value).Some?
    ensures "id" !in d ==> r == Err(KeyError("id"))
  {
    if "id" !in d then Err(KeyError("id"))
    else match d["id"]
      case None => Err(TypeError("int() argument must be a string or a number, not 'NoneType'"))
      case Some(s) =>
        match ParseInt(s)
        case None => Err(ValueError("invalid literal for int() with base 10"))
        case Some(n) => Ok(n)
  }

  /** A listing entry whose (last) `id` child holds a decimal number gives
      that number as its id. */
  lemma ListIdOfListing(cs: seq<Element>, i: nat, n: int)
    requires i < |cs| && cs[i].tag == "id" && cs[i].text == Some(IntToString(n))
    requires forall j :: i < j < |cs| ==> cs[j].tag != "id"
    ensures ListId(TagTexts(cs)) == Ok(n)
  {
    TagTextsLast(cs, i);
    ParseIntToString(n);
  }

  /** The `name` property: `self["name"]`, a KeyError when missing. */
  function ListName(d: ListData): (r: Result<Option<string>>)
    ensures r.Ok? <==> "name" in d
    ensures r.Ok? ==> r.value == d["name"]
  {
    if "name" in d then Ok(d["name"]) else Err(KeyError("name"))
  }

  /** `int(id_)` for the argument of `retrieve_by_id`. */
  function IntArg(data: Data): (r: Result<int>)
    ensures data.DInt? ==> r == Ok(data.i)
    ensures data.DStr? ==> (r.Ok? <==> ParseInt(data.s).Some?)
    ensures data.DStr? && r.Ok? ==> r.value == ParseInt(data.s).value
  {
    match data
    case DInt(i) => Ok(i)
    case DBool(b) => Ok(if b then 1 else 0)
    case DStr(s) =>
      (match ParseInt(s)
       case None => Err(ValueError("invalid literal for int() with base 10"))
       case Some(n) => Ok(n))
    case _ => Err(TypeError("int() argument must be a string or a number"))
  }

  /** The sort key of an entry's id, and of its name. */
  function IdKey(d: ListData): Result<Key> {
    match ListId(d)
    case Err(x) => Err(x)
    case Ok(n) => Ok(Num(n))
  }

  function NameKey(d: ListData): Result<Key> {
    match ListName(d)
    case Err(x) => Err(x)
    case Ok(None) => Ok(Absent)
    case Ok(Some(s)) => Ok(Text(s))
  }

  /** The keys of every entry, computed before any reordering. */
  function KeysOf(items: seq<ListData>, byName: bool): (r: Result<seq<Key>>)
    ensures r.Ok? ==> |r.value| == |items|
  {
    Gather(seq(|items|, i requires 0 <= i < |items| => if byName then NameKey(items[i]) else IdKey(items[i])))
  }

  /** The key of an entry whose key can be computed. */
  function KeyOf(byName: bool, d: ListData): Key {
    var k := if byName then NameKey(d) else IdKey(d);
    if k.Ok? then k.value else Absent
  }

  /** `sort()` and `sort_by_name()` once the keys have been computed: the
      entries reordered, each as often, in the order of their keys. */
  lemma SortedEntries(items: seq<ListData>, byName: bool)
    requires KeysOf(items, byName).Ok?
    ensures var r := SortedByKeys(KeysOf(items, byName).value, items);
      multiset(r) == multiset(items) &&
      forall i, j :: 0 <= i < j < |r| ==> KeyLe(KeyOf(byName, r[i]), KeyOf(byName, r[j]))
  {
    var keys := KeysOf(items, byName).value;
    forall i | 0 <= i < |items| ensures keys[i] == KeyOf(byName, items[i]) {
    }
    SortedByKeyOf(keys, items, d => KeyOf(byName, d));
  }

  /** Sorting by id puts the ids in ascending order. */
  lemma SortedIdsAscend(items: seq<ListData>)
    requires KeysOf(items, false).Ok?
    ensures var r := SortedByKeys(KeysOf(items, false).value, items);
      forall i, j :: 0 <= i < j < |r| ==>
        ListId(r[i]).Ok? && ListId(r[j]).Ok? && ListId(r[i]).value <= ListId(r[j]).value
  {
    var keys := KeysOf(items, false).value;
    var r := SortedByKeys(keys, items);
    SortedEntries(items, false);
    forall i | 0 <= i < |r| ensures ListId(r[i]).Ok? {
      assert r[i] in multiset(items);
      var k :| 0 <= k < |items| && items[k] == r[i];
      assert IdKey(items[k]) == Ok(keys[k]);
    }
  }

  /** `retrieve()` of one entry: the factory's `get_object(obj_class, id)`,
      with the subset `retrieve_all` passes along. */
  function RetrieveOne(cls: ObjectClass, d: ListData, subset: SubsetArg): (r: Result<Lookup>)
    ensures ListId(d).Err? ==> r == Err(ListId(d).error)
  {
    match ListId(d)
    case Err(x) => Err(x)
    case Ok(n) => GetObject(cls, DInt(n), subset)
  }

  /** Without a subset an entry is fetched by its id url, one object. */
  lemma RetrieveOneById(cls: ObjectClass, d: ListData, n: int)
    requires cls.canGet && !cls.flat && ListId(d) == Ok(n)
    ensures RetrieveOne(cls, d, SubsetNone) == Ok(OneAt(cls.url + cls.idUrl + IntToString(n), false))
  {
    NumericStringIsId(cls, n);
  }

  /** `get_individual_object` appends "general" to the caller's subset list
      in place, so the second and later entries of `retrieve_all` see the
      list already extended; they still make the same request. */
  lemma SubsetAppendHarmless(cls: ObjectClass, d: ListData, l: seq<string>)
    requires l != []
    ensures RetrieveOne(cls, d, SubsetList(WithGeneral(l))) == RetrieveOne(cls, d, SubsetList(l))
  {
    assert WithGeneral(WithGeneral(l)) == WithGeneral(l);
  }

  /** The entries whose id is `n`, in list order. */
  function WithId(items: seq<ListData>, n: int): (r: seq<ListData>)
    ensures forall x :: x in r ==> x in items && ListId(x) == Ok(n)
  {
    if items == [] then []
    else (if ListId(items[0]) == Ok(n) then [items[0]] else []) + WithId(items[1..], n)
  }

  /** Every entry with id `n` is among them. */
  lemma {:induction false} WithIdAll(items: seq<ListData>, n: int, x: ListData)
    requires x in items && ListId(x) == Ok(n)
    ensures x in WithId(items, n)
  {
    if items[0] != x {
      WithIdAll(items[1..], n, x);
    }
  }

  /** `[item for item in self if item.id == int(id_)]`: each entry's id is
      read, then `id_` converted, so an empty list never converts it. */
  function Matching(items: seq<ListData>, want: Data): (r: Result<seq<ListData>>)
    ensures items == [] ==> r == Ok([])
    ensures items != [] ==>
      (r.Ok? <==> IntArg(want).Ok? && forall i :: 0 <= i < |items| ==> ListId(items[i]).Ok?)
    ensures r.Ok? && items != [] ==> r.value == WithId(items, IntArg(want).value)
  {
    if items == [] then Ok([])
    else match ListId(items[0])
      case Err(x) => Err(x)
      case Ok(n) =>
        match IntArg(want)
        case Err(x) => Err(x)
        case Ok(w) =>
          match Matching(items[1..], want)
          case Err(x) =>
            assert items[1..][0] == items[1];
            Err(x)
          case Ok(rest) =>
            assert forall i :: 1 <= i < |items| ==> items[i] == items[1..][i - 1];
            Ok((if n == w then [items[0]] else []) + rest)
  }

  /** The lookup for each entry, in list order. */
  function RetrieveEach(cls: ObjectClass, items: seq<ListData>, subset: SubsetArg): (r: seq<Result<Lookup>>)
    ensures |r| == |items| && forall i :: 0 <= i < |items| ==> r[i] == RetrieveOne(cls, items[i], subset)
  {
    seq(|items|, i requires 0 <= i < |items| => RetrieveOne(cls, items[i], subset))
  }

  /** An entry with id `n` that no other entry shares is all `WithId`
      finds. */
  lemma {:induction false} WithIdOnly(items: seq<ListData>, n: int, k: nat)
    requires k < |items| && ListId(items[k]) == Ok(n)
    requires forall i :: 0 <= i < |items| && i != k ==> ListId(items[i]) != Ok(n)
    ensures WithId(items, n) == [items[k]]
  {
    if k == 0 {
      WithIdNone(items[1..], n);
    } else {
      WithIdOnly(items[1..], n, k - 1);
    }
  }

  lemma {:induction false} WithIdNone(items: seq<ListData>, n: int)
    requires forall i :: 0 <= i < |items| ==> ListId(items[i]) != Ok(n)
    ensures WithId(items, n) == []
  {
    if items != [] {
      WithIdNone(items[1..], n);
    }
  }

  /** A list of entries kept in place and sorted in place. */
  class JSSObjectList {
    const cls: ObjectClass
    var items: seq<ListData>

    constructor (cls: ObjectClass, objects: seq<ListData>)
      ensures this.cls == cls && items == objects
    {
      this.cls := cls;
      items := objects;
    }

    /** `sort()` (`byName` false) and `sort_by_name()` (`byName` true):
      when a key cannot be computed the list is left as it was and the
      error raised; otherwise the list is reordered by key. */
    method Sort(byName: bool) returns (r: Outcome)
      modifies this
      ensures KeysOf(old(items), byName).Err? ==>
        r == Raised(KeysOf(old(items), byName).error) && items == old(items)
      ensures KeysOf(old(items), byName).Ok? ==>
        r == Done && items == SortedByKeys(KeysOf(old(items), byName).value, old(items)) &&
        multiset(items) == multiset(old(items)) &&
        forall i, j :: 0 <= i < j < |items| ==> KeyLe(KeyOf(byName, items[i]), KeyOf(byName, items[j]))
    {
      var keys := KeysOf(items, byName);
      if keys.Err? {
        return Raised(keys.error);
      }
      SortedEntries(items, byName);
      items := SortedByKeys(keys.value, items);
      r := Done;
    }

    /** `retrieve(index)`: Python indexing, negative indices from the end. */
    function Retrieve(index: int): (r: Result<Lookup>)
      reads this
      ensures !(-|items| <= index < |items|) ==> r == Err(IndexError)
      ensures 0 <= index < |items| ==> r == RetrieveOne(cls, items[index], SubsetNone)
      ensures -|items| <= index < 0 ==> r == RetrieveOne(cls, items[|items| + index], SubsetNone)
    {
      if 0 <= index < |items| then RetrieveOne(cls, items[index], SubsetNone)
      else if -|items| <= index < 0 then RetrieveOne(cls, items[|items| + index], SubsetNone)
      else Err(IndexError)
    }

    /** `retrieve_by_id(id_)`: the object only when exactly one entry has
      that id, otherwise None. */
    function RetrieveById(want: Data): (r: Result<Option<Lookup>>)
      reads this
      ensures items == [] ==> r == Ok(None)
      ensures Matching(items, want).Err? ==> r == Err(Matching(items, want).error)
      ensures Matching(items, want).Ok? && items != [] ==>
        var n := IntArg(want).value;
        (r.Ok? && r.value.Some? <==> |WithId(items, n)| == 1 && RetrieveOne(cls, WithId(items, n)[0], SubsetNone).Ok?) &&
        (|WithId(items, n)| != 1 ==> r == Ok(None))
    {
      match Matching(items, want)
      case Err(x) => Err(x)
      case Ok(found) =>
        if |found| == 1 then
          match RetrieveOne(cls, found[0], SubsetNone)
          case Err(x) => Err(x)
          case Ok(l) => Ok(Some(l))
        else Ok(None)
    }

    /** `retrieve_all(subset)`: one lookup per entry, in list order, each
      with the same subset. */
    function RetrieveAll(subset: SubsetArg): (r: Result<seq<Lookup>>)
      reads this
      ensures r.Ok? <==> forall i :: 0 <= i < |items| ==> RetrieveOne(cls, items[i], subset).Ok?
      ensures r.Ok? ==> (|r.value| == |items| &&
        forall i :: 0 <= i < |items| ==> r.value[i] == RetrieveOne(cls, items[i], subset).value)
    {
      Gather(RetrieveEach(cls, items, subset))
    }
  }

  /** When exactly one entry has the id, it is that entry that is fetched. */
  lemma RetrieveTheOnlyMatch(l: JSSObjectList, want: Data, k: nat)
    requires k < |l.items| && IntArg(want).Ok? && ListId(l.items[k]) == Ok(IntArg(want).value)
    requires forall i :: 0 <= i < |l.items| ==> ListId(l.items[i]).Ok?
    requires forall i :: 0 <= i < |l.items| && i != k ==> ListId(l.items[i]) != ListId(l.items[k])
    ensures l.RetrieveById(want) == (match RetrieveOne(l.cls, l.items[k], SubsetNone)
      case Err(x) => Err(x)
      case Ok(v) => Ok(Some(v)))
  {
    WithIdOnly(l.items, IntArg(want).value, k);
  }
}
