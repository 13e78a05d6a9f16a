/** The object layer of jss/jssobject.py. A JSSObject is an XML element
    (the library subclasses ElementTree's Element) that also carries the
    attributes of its class: the resource url, which HTTP methods the class
    allows, how GET urls search for an object and the template of keys a new
    object starts with. The element is the object's state: `set_bool`, the
    list edits and `save` change it in place, so the object is a class whose
    `element` field those methods reassign, each proved against a function
    on the old element. */
module JssObject {
  import opened Errors
  import opened Text
  import opened Xml

  // ---------------------------------------------------------------------------
  // Classes and their attributes

  /** The subclasses whose identity the library tests with `isinstance`. */
  datatype Kind =
    | Computer | ComputerGroup | MobileDevice | MobileDeviceGroup
    | Building | Department | Package | Category | Policy | LdapServer
    | OtherKind

  /** A value in `data_keys`: the default text of a key, or a dict of keys
      below it, its items in the order they are visited. */
  datatype KeyValue = KText(text: Option<string>) | KDict(items: seq<(string, KeyValue)>)

  /** The class attributes of a JSSObject subclass. `flat` marks the
      JSSFlatObject subclasses, which override `_new`, `get_url` and `url`. */
  datatype ObjectClass = ObjectClass(
    name: string, kind: Kind, url: string,
    canList: bool, canGet: bool, canPut: bool, canPost: bool, canDelete: bool,
    idUrl: string, namePath: string, container: string,
    defaultSearch: string, searchTypes: map<string, string>,
    listType: string, dataKeys: seq<(string, KeyValue)>, flat: bool)

  /** A subclass that keeps JSSObject's defaults and sets its own name, url
      and list type. */
  function Container(name: string, kind: Kind, url: string, listType: string): ObjectClass {
    ObjectClass(name, kind, url, true, true, true, true, true, "/id/", "", "",
      "name", map["name" := "/name/"], listType, [], false)
  }

  /** A JSSFlatObject subclass: no search types and the flat overrides. */
  function Flat(name: string, url: string): ObjectClass {
    ObjectClass(name, OtherKind, url, true, true, true, true, true, "/id/", "", "",
      "name", map[], "JSSObject", [], true)
  }

  // ---------------------------------------------------------------------------
  // GET urls

  /** The `data` argument of `get_url` and of the constructor, by Python type. */
  datatype Data = DNone | DInt(i: int) | DBool(b: bool) | DStr(s: string) | DElement(e: Element) | DOther

  /** `int(data)`, or None where it raises ValueError or TypeError. A bool is
      an int in Python 2. */
  function AsInt(data: Data): (r: Option<int>)
    ensures data.DInt? ==> r == Some(data.i)
    ensures data.DStr? ==> r == ParseInt(data.s)
    ensures data.DNone? || data.DElement? || data.DOther? ==> r.None?
  {
    match data
    case DInt(i) => Some(i)
    case DBool(b) => Some(if b then 1 else 0)
    case DStr(s) => ParseInt(s)
    case _ => None
  }

  /** `"%s" % data` where the flat error message shows it. */
  function Shown(data: Data): string {
    match data
    case DNone => "None"
    case DInt(i) => IntToString(i)
    case DBool(b) => if b then "True" else "False"
    case DStr(s) => s
    case _ => ""
  }

  /** `cls.get_url(data)`: an id url for anything `int` accepts, the class
      url for None, a `key=value` search, or a search by the default search
      type; JSSFlatObject accepts only None. */
  function GetUrl(cls: ObjectClass, data: Data): (r: Result<string>)
    ensures r.Ok? ==> cls.url <= r.value
    ensures cls.flat ==> (r.Ok? <==> data.DNone?)
    ensures cls.flat && r.Ok? ==> r.value == cls.url
    ensures !cls.flat && data.DNone? ==> r == Ok(cls.url)
    ensures data.DElement? || data.DOther? ==> r.Err?
  {
    if cls.flat then
      if data.DNone? then Ok(cls.url) else Err(UnsupportedSearchMethod(Shown(data)))
    else match AsInt(data)
      case Some(n) => Ok(cls.url + cls.idUrl + IntToString(n))
      case None =>
        match data
        case DNone => Ok(cls.url)
        case DStr(s) =>
          if '=' in s then
            var parts := Split(s, "=");
            if |parts| != 2 then Err(ValueError("too many values to unpack"))
            else if parts[0] in cls.searchTypes then Ok(cls.url + cls.searchTypes[parts[0]] + parts[1])
            else Err(UnsupportedSearchMethod(parts[0]))
          else if cls.defaultSearch in cls.searchTypes then
            Ok(cls.url + cls.searchTypes[cls.defaultSearch] + s)
          else Err(KeyError(cls.defaultSearch))
        case _ => Err(ValueError(""))
  }

  /** A decimal string is an id, exactly as the number itself. */
  lemma NumericStringIsId(cls: ObjectClass, n: int)
    requires !cls.flat
    ensures GetUrl(cls, DStr(IntToString(n))) == GetUrl(cls, DInt(n))
    ensures GetUrl(cls, DInt(n)) == Ok(cls.url + cls.idUrl + IntToString(n))
  {
    ParseIntToString(n);
  }

  /** `"key=value"` searches by that key's search type, and raises
      JSSUnsupportedSearchMethodError for a key the class does not know. */
  lemma SearchByKey(cls: ObjectClass, key: string, value: string)
    requires !cls.flat && '=' !in key && '=' !in value
    ensures key in cls.searchTypes ==>
      GetUrl(cls, DStr(key + "=" + value)) == Ok(cls.url + cls.searchTypes[key] + value)
    ensures key !in cls.searchTypes ==>
      GetUrl(cls, DStr(key + "=" + value)) == Err(UnsupportedSearchMethod(key))
  {
    var s := key + "=" + value;
    assert s[|key|] == '=';
    ParseIntRejects(s, '=');
    assert Join([key, value], "=") == s;
    SplitJoin([key, value], '=');
  }

  /** More than one `=` makes the two-way unpacking raise ValueError. */
  lemma TwoEqualsRaise(cls: ObjectClass, a: string, b: string, c: string)
    requires !cls.flat && '=' !in a && '=' !in b && '=' !in c
    ensures GetUrl(cls, DStr(a + "=" + b + "=" + c)).Err?
    ensures GetUrl(cls, DStr(a + "=" + b + "=" + c)).error.ValueError?
  {
    var s := a + "=" + b + "=" + c;
    assert s[|a|] == '=';
    ParseIntRejects(s, '=');
    assert Join([a, b, c], "=") == s by {
      assert [a, b, c] == [a] + [b, c] && [b, c] == [b] + [c];
      JoinCons(a, [b, c], "=");
      JoinCons(b, [c], "=");
    }
    SplitJoin([a, b, c], '=');
  }

  /** Any other string is searched for with the default search type. */
  lemma SearchByDefault(cls: ObjectClass, s: string)
    requires !cls.flat && '=' !in s && ParseInt(s).None?
    ensures cls.defaultSearch in cls.searchTypes ==>
      GetUrl(cls, DStr(s)) == Ok(cls.url + cls.searchTypes[cls.defaultSearch] + s)
    ensures cls.defaultSearch !in cls.searchTypes ==>
      GetUrl(cls, DStr(s)) == Err(KeyError(cls.defaultSearch))
  {
  }

  /** `get_post_url()`: the id url of id 0. */
  function GetPostUrl(cls: ObjectClass): (r: string)
    ensures !cls.flat ==> Ok(r) == GetUrl(cls, DInt(0))
  {
    cls.url + cls.idUrl + "0"
  }

  // ---------------------------------------------------------------------------
  // Names, ids and the object's url

  /** A Python string that is neither None nor empty. */
  predicate Truthy(s: Option<string>) {
    s.Some? && s.value != ""
  }

  /** Python's `a or b` on two strings that may be None. */
  function Or(a: Option<string>, b: Option<string>): (r: Option<string>)
    ensures Truthy(a) ==> r == a
    ensures !Truthy(a) ==> r == b
  {
    if Truthy(a) then a else b
  }

  /** The `name` property: the root's name, else general/name; LDAPServer
      keeps it in connection/name. */
  function NameOf(cls: ObjectClass, e: Element): Option<string> {
    if cls.kind == LdapServer then FindText(e, ["connection", "name"])
    else Or(FindText(e, ["name"]), FindText(e, ["general", "name"]))
  }

  /** The `id` property, found the same way as the name. */
  function IdOf(cls: ObjectClass, e: Element): Option<string> {
    if cls.kind == LdapServer then FindText(e, ["connection", "id"])
    else Or(FindText(e, ["id"]), FindText(e, ["general", "id"]))
  }

  /** The `url` property: the id url when the object has an id, else None;
      a flat object's url is its class url. */
  function UrlOf(cls: ObjectClass, e: Element): (r: Option<string>)
    ensures r.Some? <==> cls.flat || Truthy(IdOf(cls, e))
    ensures cls.flat ==> r == Some(cls.url)
  {
    if cls.flat then Some(cls.url)
    else if Truthy(IdOf(cls, e)) then Some(cls.url + cls.idUrl + IdOf(cls, e).value)
    else None
  }

  /** An object whose id is a number in its usual decimal form has the url
      that `get_url` gives for that number. */
  lemma UrlIsIdUrl(cls: ObjectClass, e: Element, n: int)
    requires !cls.flat && IdOf(cls, e) == Some(IntToString(n))
    ensures UrlOf(cls, e).Some? && Ok(UrlOf(cls, e).value) == GetUrl(cls, DInt(n))
  {
  }

  /** `as_list_data()`: an element of the class's list type holding the
      object's id and then its name. */
  function AsListData(cls: ObjectClass, e: Element): (r: Element)
    ensures r.tag == cls.listType && |r.children| == 2
    ensures FindText(r, ["id"]) == Some(if IdOf(cls, e).Some? then IdOf(cls, e).value else "")
    ensures FindText(r, ["name"]) == Some(if NameOf(cls, e).Some? then NameOf(cls, e).value else "")
  {
    var r := Element(cls.listType, None, None, [Leaf("id", IdOf(cls, e)), Leaf("name", NameOf(cls, e))]);
    ChildIndexIs(r, "id", 0);
    ChildIndexIs(r, "name", 1);
    FindChild(r, "id");
    FindChild(r, "name");
    assert [0][1..] == [] && [1][1..] == [];
    r
  }

  // ---------------------------------------------------------------------------
  // Values written into the XML

  /** A Python value handed to the library as a keyword argument, a
      `set_bool` value or a `remove_object_from_list` target. A JSSObject is
      represented by its name and id. */
  datatype Value =
    | VNone | VBool(b: bool) | VInt(i: int) | VStr(s: string)
    | VObject(name: Option<string>, id: Option<string>) | VOther

  /** How the library writes a boolean. */
  function BoolText(b: bool): (r: string)
    ensures r == "true" || r == "false"
    ensures r == "true" <==> b
  {
    if b then "true" else "false"
  }

  /** The conversion `_set_xml_from_keys` applies to a keyword argument
      before it becomes text. */
  function Converted(v: Value): (r: Option<string>)
    ensures v.VBool? ==> r == Some(BoolText(v.b))
    ensures v.VNone? ==> r == Some("")
    ensures v.VInt? ==> r.Some? && ParseInt(r.value) == Some(v.i)
    ensures v.VObject? ==> r == v.name
    ensures v.VStr? ==> r == Some(v.s)
  {
    match v
    case VBool(b) => Some(BoolText(b))
    case VNone => Some("")
    case VInt(i) => ParseIntToString(i); Some(IntToString(i))
    case VObject(name, _) => name
    case VStr(s) => Some(s)
    case VOther => None
  }

  /** `kwargs.get(key, val)` after the conversion. */
  function TextFor(key: string, val: Option<string>, kwargs: map<string, Value>): (r: Option<string>)
    ensures key in kwargs ==> r == Converted(kwargs[key])
    ensures key !in kwargs ==> r == val
  {
    if key in kwargs then Converted(kwargs[key]) else val
  }

  // ---------------------------------------------------------------------------
  // Building a new object from its keys

  /** Where `root.find(key)` is, or where `SubElement(root, key)` puts it. */
  function Slot(root: Element, key: string): (k: nat)
    ensures k <= |root.children|
  {
    match ChildIndex(root, key)
    case Some(k) => k
    case None => |root.children|
  }

  /** `_set_xml_from_keys(root, (key, val), **kwargs)`: find the key's child
      or create it, then either set its text or recurse into the dict. Only
      that child changes, and it keeps its tag. */
  function SetKey(root: Element, key: string, val: KeyValue, kwargs: map<string, Value>): (r: Element)
    ensures r.tag == root.tag && r.text == root.text && r.tail == root.tail
    ensures |r.children| == |root.children| + (if ChildIndex(root, key).Some? then 0 else 1)
    ensures r.children[Slot(root, key)].tag == key
    ensures val.KText? ==> r.children[Slot(root, key)].text == TextFor(key, val.text, kwargs)
    decreases val, 1
  {
    var k := Slot(root, key);
    var t := if ChildIndex(root, key).Some? then root else SubElement(root, key);
    var child := t.children[k];
    var child' := match val
      case KText(v) => WithText(child, TextFor(key, v, kwargs))
      case KDict(items) => SetItems(child, val, |items|, kwargs);
    t.(children := t.children[k := child'])
  }

  /** The items of a dict value, the first `n` of them, set one after the
      other below `target`. */
  function SetItems(target: Element, d: KeyValue, n: nat, kwargs: map<string, Value>): (r: Element)
    requires d.KDict? && n <= |d.items|
    ensures r.tag == target.tag && r.text == target.text && r.tail == target.tail
    decreases d, 0, n
  {
    if n == 0 then target
    else
      assert d.items[n - 1] in d.items;
      SetKey(SetItems(target, d, n - 1, kwargs), d.items[n - 1].0, d.items[n - 1].1, kwargs)
  }

  /** Every child but the key's is left as it was. */
  lemma SetKeyElsewhere(root: Element, key: string, val: KeyValue, kwargs: map<string, Value>, j: nat)
    requires j < |root.children| && j != Slot(root, key)
    ensures SetKey(root, key, val, kwargs).children[j] == root.children[j]
  {
  }

  /** After `SetKey` the key's child is the first with that tag, and every
      tag that had a child still has one. */
  lemma SetKeyFinds(root: Element, key: string, val: KeyValue, kwargs: map<string, Value>)
    ensures var r := SetKey(root, key, val, kwargs);
      ChildIndex(r, key) == Some(Slot(root, key)) &&
      forall t :: ChildIndex(root, t).Some? ==> ChildIndex(r, t).Some?
  {
    var r := SetKey(root, key, val, kwargs);
    var k := Slot(root, key);
    forall j | 0 <= j < k ensures r.children[j].tag != key {
      ChildIndexFirst(root, key);
      SetKeyElsewhere(root, key, val, kwargs, j);
    }
    ChildIndexIs(r, key, k);
    forall t | ChildIndex(root, t).Some? ensures ChildIndex(r, t).Some? {
      var j := ChildIndex(root, t).value;
      if j != k {
        SetKeyElsewhere(root, key, val, kwargs, j);
      }
      ChildIndexFirst(r, t);
    }
  }

  /** Setting a dict's items leaves a child for every item's key, and keeps
      a child for every tag that had one. */
  lemma {:induction false} SetItemsFinds(target: Element, d: KeyValue, n: nat, kwargs: map<string, Value>)
    requires d.KDict? && n <= |d.items|
    ensures var r := SetItems(target, d, n, kwargs);
      (forall i :: 0 <= i < n ==> ChildIndex(r, d.items[i].0).Some?) &&
      forall t :: ChildIndex(target, t).Some? ==> ChildIndex(r, t).Some?
  {
    if n > 0 {
      SetItemsFinds(target, d, n - 1, kwargs);
      SetKeyFinds(SetItems(target, d, n - 1, kwargs), d.items[n - 1].0, d.items[n - 1].1, kwargs);
    }
  }

  /** A dict value leaves its key's child with a child for every item. */
  lemma SetKeyDict(root: Element, key: string, items: seq<(string, KeyValue)>, kwargs: map<string, Value>)
    ensures var r := SetKey(root, key, KDict(items), kwargs);
      forall i :: 0 <= i < |items| ==> ChildIndex(r.children[Slot(root, key)], items[i].0).Some?
  {
    var k := Slot(root, key);
    var t := if ChildIndex(root, key).Some? then root else SubElement(root, key);
    SetItemsFinds(t.children[k], KDict(items), |items|, kwargs);
  }

  /** A child `SetKey` did not touch keeps its place and its value. */
  lemma SetKeyKeeps(root: Element, key: string, val: KeyValue, kwargs: map<string, Value>, t: string)
    requires t != key
    ensures ChildIndex(SetKey(root, key, val, kwargs), t) == ChildIndex(root, t)
  {
    var r := SetKey(root, key, val, kwargs);
    var k := Slot(root, key);
    ChildIndexFirst(root, t);
    if ChildIndex(root, t).Some? {
      var j := ChildIndex(root, t).value;
      forall i | 0 <= i <= j ensures r.children[i].tag == (if i == k then key else root.children[i].tag) {
        if i != k { SetKeyElsewhere(root, key, val, kwargs, i); }
      }
      ChildIndexIs(r, t, j);
    } else {
      forall i | 0 <= i < |r.children| ensures r.children[i].tag != t {
        if i != k { SetKeyElsewhere(root, key, val, kwargs, i); }
      }
      ChildIndexFirst(r, t);
    }
  }

  /** `_set_xml_from_keys` reuses a child that is already there: the second
      call changes no child count, and the text it writes is the same. */
  lemma SetKeyTwice(root: Element, key: string, v: Option<string>, kwargs: map<string, Value>)
    ensures var once := SetKey(root, key, KText(v), kwargs);
      var twice := SetKey(once, key, KText(v), kwargs);
      |twice.children| == |once.children| && twice == once
  {
    var once := SetKey(root, key, KText(v), kwargs);
    var twice := SetKey(once, key, KText(v), kwargs);
    SetKeyFinds(root, key, KText(v), kwargs);
    assert Slot(once, key) == Slot(root, key);
    assert twice.children == once.children;
  }

  /** The element that carries the name of a new object: the steps of
      `_name_path`, or a `name` child at the root when the class has none. */
  function NameSteps(cls: ObjectClass): (r: seq<string>)
    ensures |r| >= 1
  {
    if cls.namePath == "" then ["name"] else Path(cls.namePath)
  }

  /** The chain of elements along the name steps, the last holding the name. */
  function NameTree(steps: seq<string>, name: string): (r: Element)
    requires |steps| >= 1
    ensures r.tag == steps[0]
    decreases |steps|
  {
    if |steps| == 1 then Leaf(steps[0], Some(name))
    else Element(steps[0], None, None, [NameTree(steps[1..], name)])
  }

  /** A new object of the class with its name set, before its data keys. */
  function Named(cls: ObjectClass, name: string): Element {
    Element(cls.listType, None, None, [NameTree(NameSteps(cls), name)])
  }

  /** `cls(jss, name, **kwargs)` for a class that can be created: the name,
      every data key in turn, and for Package (jss/jssobjects.py:592-609) a
      `filename` element equal to the name. */
  function Created(cls: ObjectClass, name: string, kwargs: map<string, Value>): (r: Element)
    ensures r.tag == cls.listType
  {
    var e := SetItems(Named(cls, name), KDict(cls.dataKeys), |cls.dataKeys|, kwargs);
    if cls.kind == Package then Appended(e, Leaf("filename", Some(name))) else e
  }

  /** A new object has a child for every data key, and its name step. */
  lemma NewObjectHasKeys(cls: ObjectClass, name: string, kwargs: map<string, Value>)
    ensures var r := Created(cls, name, kwargs);
      ChildIndex(r, NameSteps(cls)[0]).Some? &&
      forall i :: 0 <= i < |cls.dataKeys| ==> ChildIndex(r, cls.dataKeys[i].0).Some?
  {
    var n0 := Named(cls, name);
    ChildIndexIs(n0, NameSteps(cls)[0], 0);
    SetItemsFinds(n0, KDict(cls.dataKeys), |cls.dataKeys|, kwargs);
    var e := SetItems(n0, KDict(cls.dataKeys), |cls.dataKeys|, kwargs);
    var r := Created(cls, name, kwargs);
    forall t | ChildIndex(e, t).Some? ensures ChildIndex(r, t).Some? {
      assert r.children[ChildIndex(e, t).value].tag == t;
      ChildIndexFirst(r, t);
    }
  }

  /** Data keys that do not name a child leave that child of the new object
      where the name step put it. */
  lemma {:induction false} KeysKeep(root: Element, d: KeyValue, n: nat, kwargs: map<string, Value>, t: string)
    requires d.KDict? && n <= |d.items|
    requires forall i :: 0 <= i < n ==> d.items[i].0 != t
    ensures ChildIndex(SetItems(root, d, n, kwargs), t) == ChildIndex(root, t)
    ensures ChildIndex(root, t).Some? ==>
      SetItems(root, d, n, kwargs).children[ChildIndex(root, t).value] == root.children[ChildIndex(root, t).value]
  {
    if n > 0 {
      KeysKeep(root, d, n - 1, kwargs, t);
      var prev := SetItems(root, d, n - 1, kwargs);
      var (key, val) := d.items[n - 1];
      assert SetItems(root, d, n, kwargs) == SetKey(prev, key, val, kwargs);
      SetKeyKeeps(prev, key, val, kwargs, t);
      if ChildIndex(prev, t).Some? {
        SetKeyElsewhere(prev, key, val, kwargs, ChildIndex(prev, t).value);
      }
    }
  }

  /** A new object of a class without a name path carries its name at the
      root, as long as no data key is itself called `name`. */
  lemma NewObjectNamed(cls: ObjectClass, name: string, kwargs: map<string, Value>)
    requires cls.namePath == "" && cls.kind != LdapServer && name != ""
    requires forall i :: 0 <= i < |cls.dataKeys| ==> cls.dataKeys[i].0 != "name"
    ensures NameOf(cls, Created(cls, name, kwargs)) == Some(name)
  {
    var n0 := Named(cls, name);
    ChildIndexIs(n0, "name", 0);
    KeysKeep(n0, KDict(cls.dataKeys), |cls.dataKeys|, kwargs, "name");
    var e := SetItems(n0, KDict(cls.dataKeys), |cls.dataKeys|, kwargs);
    assert e.children[0] == Leaf("name", Some(name));
    var r := Created(cls, name, kwargs);
    assert r.children[0] == e.children[0];
    ChildIndexIs(r, "name", 0);
    FindTextChild(r, "name");
  }

  /** A new Package's `filename` element holds its name. */
  lemma NewPackageFilename(cls: ObjectClass, name: string, kwargs: map<string, Value>)
    requires cls.kind == Package && cls.namePath == ""
    requires forall i :: 0 <= i < |cls.dataKeys| ==> cls.dataKeys[i].0 != "filename"
    ensures FindText(Created(cls, name, kwargs), ["filename"]) == Some(name)
  {
    var n0 := Named(cls, name);
    ChildIndexFirst(n0, "filename");
    KeysKeep(n0, KDict(cls.dataKeys), |cls.dataKeys|, kwargs, "filename");
    var e := SetItems(n0, KDict(cls.dataKeys), |cls.dataKeys|, kwargs);
    ChildIndexFirst(e, "filename");
    var r := Created(cls, name, kwargs);
    assert r == Appended(e, Leaf("filename", Some(name)));
    assert forall j :: 0 <= j < |e.children| ==> r.children[j] == e.children[j];
    ChildIndexIs(r, "filename", |e.children|);
    FindTextChild(r, "filename");
  }

  /** What the constructor builds from its `data` argument: a new object for
      a name, a copy of an element's tag and children, TypeError otherwise. */
  function Initial(cls: ObjectClass, data: Data, kwargs: map<string, Value>): (r: Result<Element>)
    ensures data.DStr? ==> (r.Ok? <==> !cls.flat)
    ensures data.DStr? && !cls.flat ==> r.value.tag == cls.listType
    ensures data.DElement? ==> r == Ok(Adopted(data.e))
    ensures !data.DStr? && !data.DElement? ==> r.Err? && r.error.TypeError?
  {
    match data
    case DStr(name) =>
      if cls.flat then Err(CannotCreate)
      else Ok(Created(cls, name, kwargs))
    case DElement(e) => Ok(Adopted(e))
    case _ => Err(TypeError(BadData))
  }

  const CannotCreate: Error := PostError(None, "This object type cannot be created.")

  const BadData := "JSSObjects data argument must be of type xml.etree.ElemenTree.Element, or a string for the name."

  /** The object made from an element: its tag and its children. */
  function Adopted(e: Element): (r: Element)
    ensures r.tag == e.tag && r.children == e.children && r.text.None? && r.tail.None?
  {
    Element(e.tag, None, None, e.children)
  }

  // ---------------------------------------------------------------------------
  // Edits at a location

  /** The tree after an edit that may have raised before changing anything. */
  function After(e: Element, r: Result<Element>): Element {
    if r.Ok? then r.value else e
  }

  function OutcomeOf(r: Result<Element>): (o: Outcome)
    ensures o.Done? <==> r.Ok?
    ensures r.Err? ==> o == Raised(r.error)
  {
    if r.Ok? then Done else Raised(r.error)
  }

  const InvalidPath: Error := ValueError("Invalid path!")

  /** The boolean `set_bool` makes of its value: a string counts as True
      when its upper case is "TRUE"; other types are refused. */
  function BoolOf(v: Value): (r: Option<bool>)
    ensures r.Some? <==> v.VBool? || v.VStr?
    ensures r == Some(true) <==> v == VBool(true) || (v.VStr? && Upper(v.s) == "TRUE")
  {
    match v
    case VBool(b) => Some(b)
    case VStr(s) => Some(Upper(s) == "TRUE")
    case _ => None
  }

  /** `set_bool(location, value)`. */
  function SetBoolAt(e: Element, location: string, value: Value): (r: Result<Element>)
    ensures FindAddr(e, Path(location)).None? ==> r == Err(InvalidPath)
    ensures FindAddr(e, Path(location)).Some? ==> (r.Ok? <==> BoolOf(value).Some?)
  {
    match FindAddr(e, Path(location))
    case None => Err(InvalidPath)
    case Some(a) =>
      match BoolOf(value)
      case None => Err(ValueError(""))
      case Some(b) => Ok(Update(e, a, WithText(At(e, a), Some(BoolText(b)))))
  }

  /** After `set_bool` the location reads "true" or "false" as the value
      says, the tree keeps its shape, and nothing off the location changes. */
  lemma SetBoolWrites(e: Element, location: string, value: Value)
    requires SetBoolAt(e, location, value).Ok?
    ensures var e' := SetBoolAt(e, location, value).value;
      FindText(e', Path(location)) == Some(BoolText(BoolOf(value).value)) &&
      Skeleton(e') == Skeleton(e) &&
      forall b :: ValidAddr(e, b) && Apart(FindAddr(e, Path(location)).value, b) ==>
        ValidAddr(e', b) && At(e', b) == At(e, b)
  {
    var a := FindAddr(e, Path(location)).value;
    var x := WithText(At(e, a), Some(BoolText(BoolOf(value).value)));
    var e' := Update(e, a, x);
    UpdateSkeleton(e, a, x);
    FindAddrSkeleton(e', e, Path(location));
    AtUpdate(e, a, x);
    forall b | ValidAddr(e, b) && Apart(a, b) ensures ValidAddr(e', b) && At(e', b) == At(e, b) {
      UpdateElsewhere(e, a, x, b);
    }
  }

  /** `clear_list(location)` with the location's steps: the element there
      loses its children, text and tail. */
  function ClearAt(e: Element, path: seq<string>): (r: Result<Element>)
    ensures r.Err? <==> FindAddr(e, path).None?
    ensures r.Err? ==> r.error == InvalidPath
    ensures r.Ok? ==> var a := FindAddr(e, path).value;
      ValidAddr(r.value, a) && At(r.value, a).children == [] && At(r.value, a).tag == At(e, a).tag
  {
    match FindAddr(e, path)
    case None => Err(InvalidPath)
    case Some(a) => AtUpdate(e, a, Cleared(At(e, a))); Ok(Update(e, a, Cleared(At(e, a))))
  }

  /** Whether a list entry is the one `remove_object_from_list` looks for:
      by id for a JSSObject, by id or name for a string, and for an int (a
      bool is one) by its decimal text. */
  predicate Matches(item: Element, target: Value) {
    match target
    case VObject(_, id) => FindText(item, ["id"]) == id
    case VBool(b) => FindText(item, ["id"]) == Some(if b then "True" else "False")
    case VInt(i) => FindText(item, ["id"]) == Some(IntToString(i))
    case VStr(s) => FindText(item, ["id"]) == Some(s) || FindText(item, ["name"]) == Some(s)
    case _ => false
  }

  /** The target types `remove_object_from_list` handles; for any other the
      list of results is never bound. */
  predicate Searchable(target: Value) {
    target.VObject? || target.VBool? || target.VInt? || target.VStr?
  }

  /** Which of the children match. */
  function MatchFlags(cs: seq<Element>, target: Value): (r: seq<bool>)
    ensures |r| == |cs| && forall i :: 0 <= i < |cs| ==> (r[i] <==> Matches(cs[i], target))
  {
    seq(|cs|, i requires 0 <= i < |cs| => Matches(cs[i], target))
  }

  /** The indices among the first `n` flags that are set, in order: the
      `results` list of `remove_object_from_list`. */
  function Hits(flags: seq<bool>, n: nat): (r: seq<nat>)
    requires n <= |flags|
    ensures forall i :: 0 <= i < |r| ==> r[i] < n
  {
    if n == 0 then [] else Hits(flags, n - 1) + (if flags[n - 1] then [n - 1] else [])
  }

  const ManyMatches: Error := ValueError("There is more than one matching object at that path!")

  /** `remove_object_from_list(target, location)`. */
  function RemoveAt(e: Element, location: string, target: Value): (r: Result<Element>)
    ensures FindAddr(e, Path(location)).None? ==> r == Err(InvalidPath)
    ensures FindAddr(e, Path(location)).Some? && !Searchable(target) ==> r == Err(NameError("results"))
  {
    match FindAddr(e, Path(location))
    case None => Err(InvalidPath)
    case Some(a) =>
      if !Searchable(target) then Err(NameError("results"))
      else
        var x := At(e, a);
        var hits := Hits(MatchFlags(x.children, target), |x.children|);
        if |hits| == 1 then Ok(Update(e, a, Removed(x, hits[0])))
        else if |hits| > 1 then Err(ManyMatches)
        else Ok(e)
  }

  /** No entry of `cs` matches. */
  predicate NoneMatch(cs: seq<Element>, target: Value) {
    forall k :: 0 <= k < |cs| ==> !Matches(cs[k], target)
  }

  /** Entry `j` and no other entry of `cs` matches. */
  predicate OnlyMatch(cs: seq<Element>, target: Value, j: nat) {
    j < |cs| && Matches(cs[j], target) && forall k :: 0 <= k < |cs| && k != j ==> !Matches(cs[k], target)
  }

  lemma {:induction false} HitsNone(flags: seq<bool>, n: nat)
    requires n <= |flags| && forall i :: 0 <= i < |flags| ==> !flags[i]
    ensures Hits(flags, n) == []
  {
    if n > 0 {
      HitsNone(flags, n - 1);
    }
  }

  lemma {:induction false} HitsOnly(flags: seq<bool>, j: nat, n: nat)
    requires n <= |flags| && forall i :: 0 <= i < |flags| ==> (flags[i] <==> i == j)
    ensures Hits(flags, n) == (if j < n then [j] else [])
  {
    if n > 0 {
      HitsOnly(flags, j, n - 1);
    }
  }

  lemma {:induction false} HitsSome(flags: seq<bool>, j: nat, n: nat)
    requires j < n <= |flags| && flags[j]
    ensures |Hits(flags, n)| >= 1
  {
    if j < n - 1 {
      HitsSome(flags, j, n - 1);
    }
  }

  lemma {:induction false} HitsTwo(flags: seq<bool>, j: nat, k: nat, n: nat)
    requires j < k < n <= |flags| && flags[j] && flags[k]
    ensures |Hits(flags, n)| >= 2
  {
    if k < n - 1 {
      HitsTwo(flags, j, k, n - 1);
    } else {
      HitsSome(flags, j, n - 1);
    }
  }

  lemma RemovedNoneMatch(x: Element, target: Value, j: nat)
    requires OnlyMatch(x.children, target, j)
    ensures NoneMatch(Removed(x, j).children, target)
  {
    var rest := Removed(x, j).children;
    forall i | 0 <= i < |rest| ensures !Matches(rest[i], target) {
      if i < j {
        assert rest[i] == x.children[i];
      } else {
        assert rest[i] == x.children[i + 1];
      }
    }
  }

  /** With exactly one matching entry, that entry and nothing else goes, and
      no matching entry is left. */
  lemma RemoveExactlyOne(e: Element, location: string, target: Value, j: nat)
    requires FindAddr(e, Path(location)).Some? && Searchable(target)
    requires OnlyMatch(At(e, FindAddr(e, Path(location)).value).children, target, j)
    ensures var a := FindAddr(e, Path(location)).value;
      var x := At(e, a);
      RemoveAt(e, location, target) == Ok(Update(e, a, Removed(x, j))) &&
      NoneMatch(Removed(x, j).children, target)
  {
    var a := FindAddr(e, Path(location)).value;
    var x := At(e, a);
    HitsOnly(MatchFlags(x.children, target), j, |x.children|);
    RemovedNoneMatch(x, target, j);
  }

  /** With no matching entry the tree is left as it was. */
  lemma RemoveNothing(e: Element, location: string, target: Value)
    requires FindAddr(e, Path(location)).Some? && Searchable(target)
    requires NoneMatch(At(e, FindAddr(e, Path(location)).value).children, target)
    ensures RemoveAt(e, location, target) == Ok(e)
  {
    var x := At(e, FindAddr(e, Path(location)).value);
    HitsNone(MatchFlags(x.children, target), |x.children|);
  }

  /** Two matching entries raise ValueError. */
  lemma RemoveAmbiguous(e: Element, location: string, target: Value, j: nat, k: nat)
    requires FindAddr(e, Path(location)).Some? && Searchable(target)
    requires var x := At(e, FindAddr(e, Path(location)).value);
      j < k < |x.children| && Matches(x.children[j], target) && Matches(x.children[k], target)
    ensures RemoveAt(e, location, target) == Err(ManyMatches)
  {
    var x := At(e, FindAddr(e, Path(location)).value);
    HitsTwo(MatchFlags(x.children, target), j, k, |x.children|);
  }

  /** The first of the children from `k` on whose id text equals `id`. */
  function IdFrom(cs: seq<Element>, id: Option<string>, k: nat): (r: Option<nat>)
    requires k <= |cs|
    ensures r.Some? ==> k <= r.value < |cs| && FindText(cs[r.value], ["id"]) == id
    ensures r.Some? ==> forall j :: k <= j < r.value ==> FindText(cs[j], ["id"]) != id
    ensures r.None? <==> forall j :: k <= j < |cs| ==> FindText(cs[j], ["id"]) != id
    decreases |cs| - k
  {
    if k == |cs| then None
    else if FindText(cs[k], ["id"]) == id then Some(k)
    else IdFrom(cs, id, k + 1)
  }

  /** `add_object_to_path(obj, location)` with the object's list entry and
      id: the entry is appended at the location, and the result is the
      address of the first entry there whose id text equals the id, which
      Python takes with `[0]`. The append happens even when that raises. */
  function AddToPath(e: Element, location: string, entry: Element, id: Option<string>): (r: (Element, Result<seq<nat>>))
    ensures FindAddr(e, Path(location)).None? ==> r == (e, Err(InvalidPath))
    ensures FindAddr(e, Path(location)).Some? ==>
      var a := FindAddr(e, Path(location)).value;
      r.0 == Update(e, a, Appended(At(e, a), entry)) &&
      (r.1.Ok? ==> ValidAddr(r.0, r.1.value) && FindText(At(r.0, r.1.value), ["id"]) == id)
    ensures r.1.Err? ==> r.1.error == InvalidPath || r.1.error == IndexError
  {
    match FindAddr(e, Path(location))
    case None => (e, Err(InvalidPath))
    case Some(a) =>
      var x := Appended(At(e, a), entry);
      var e' := Update(e, a, x);
      AtUpdate(e, a, x);
      match IdFrom(x.children, id, 0)
      case None => (e', Err(IndexError))
      case Some(k) =>
        AtConcat(e', a, [k]);
        (e', Ok(a + [k]))
  }

  /** An entry whose id text is the object's id is always found again, so an
      object with an id never raises IndexError. */
  lemma AddWithIdFinds(e: Element, location: string, entry: Element, s: string)
    requires FindAddr(e, Path(location)).Some? && FindText(entry, ["id"]) == Some(s)
    ensures AddToPath(e, location, entry, Some(s)).1.Ok?
  {
    var a := FindAddr(e, Path(location)).value;
    var x := Appended(At(e, a), entry);
    assert x.children[|x.children| - 1] == entry;
  }

  /** An object without an id is looked up by None, which only an entry
      without an `id` child matches: IndexError exactly when every entry
      already there has one. */
  lemma AddWithoutId(e: Element, location: string, entry: Element)
    requires FindAddr(e, Path(location)).Some? && FindText(entry, ["id"]).Some?
    ensures var x := At(e, FindAddr(e, Path(location)).value);
      AddToPath(e, location, entry, None).1.Err? <==>
        forall j :: 0 <= j < |x.children| ==> FindText(x.children[j], ["id"]).Some?
  {
    var a := FindAddr(e, Path(location)).value;
    var x := Appended(At(e, a), entry);
    assert forall j :: 0 <= j < |At(e, a).children| ==> x.children[j] == At(e, a).children[j];
    assert x.children[|x.children| - 1] == entry;
  }

  // ---------------------------------------------------------------------------
  // Saving and deleting

  const Placeholder := "No category assigned"

  function FixText(t: Option<string>): (r: Option<string>)
    ensures r != Some(Placeholder)
    ensures t != Some(Placeholder) ==> r == t
  {
    if t == Some(Placeholder) then Some("") else t
  }

  function FixName(c: Element): (r: Element)
    ensures r.tag == c.tag && r.tail == c.tail && r.children == c.children
  {
    if c.tag == "name" then c.(text := FixText(c.text)) else c
  }

  /** A `category` child of the root and the `name` children below it with
      the placeholder text replaced by "". */
  function FixCategory(c: Element): (r: Element)
    ensures r.tag == c.tag && r.tail == c.tail && |r.children| == |c.children|
  {
    if c.tag == "category" then
      c.(text := FixText(c.text),
         children := seq(|c.children|, i requires 0 <= i < |c.children| => FixName(c.children[i])))
    else c
  }

  /** The tree `save` sends with a PUT. */
  function Uncategorised(e: Element): (r: Element)
    ensures r.tag == e.tag && r.text == e.text && r.tail == e.tail && |r.children| == |e.children|
  {
    e.(children := seq(|e.children|, j requires 0 <= j < |e.children| => FixCategory(e.children[j])))
  }

  /** Before a PUT no `category` or `category/name` text is the placeholder,
      every other text is kept, and the tree keeps its shape. */
  lemma NoPlaceholderLeft(e: Element)
    ensures var r := Uncategorised(e);
      Skeleton(r) == Skeleton(e) &&
      forall j :: 0 <= j < |r.children| && r.children[j].tag == "category" ==>
        r.children[j].text != Some(Placeholder) &&
        forall i :: 0 <= i < |r.children[j].children| && r.children[j].children[i].tag == "name" ==>
          r.children[j].children[i].text != Some(Placeholder)
    ensures var r := Uncategorised(e);
      forall j :: 0 <= j < |r.children| && e.children[j].text != Some(Placeholder) ==>
        r.children[j].text == e.children[j].text
  {
    var r := Uncategorised(e);
    forall j | 0 <= j < |e.children| ensures Skeleton(r.children[j]) == Skeleton(e.children[j]) {
      var c := e.children[j];
      var d := r.children[j];
      forall i | 0 <= i < |c.children| ensures Skeleton(d.children[i]) == Skeleton(c.children[i]) {
      }
    }
  }

  /** The request `save` sends: a PUT to the object's url, a POST to the
      class's post url, or JSSMethodNotAllowedError. */
  datatype SaveRequest = Put(putUrl: Option<string>, body: Element) | Post(postUrl: string, body: Element)

  /** Which request `save` makes: PUT when the class can put and either
      cannot list or the object has an id, otherwise POST when it can post. */
  function SaveRoute(cls: ObjectClass, e: Element): (r: Result<SaveRequest>)
    ensures (r.Ok? && r.value.Put?) <==> cls.canPut && (!cls.canList || Truthy(IdOf(cls, e)))
    ensures (r.Ok? && r.value.Post?) <==> !(cls.canPut && (!cls.canList || Truthy(IdOf(cls, e)))) && cls.canPost
    ensures r.Err? ==> r.error == MethodNotAllowed(cls.name)
    ensures r.Ok? && r.value.Put? ==> r.value == Put(UrlOf(cls, e), Uncategorised(e))
    ensures r.Ok? && r.value.Post? ==> r.value == Post(GetPostUrl(cls), e)
  {
    if cls.canPut && (!cls.canList || Truthy(IdOf(cls, e))) then Ok(Put(UrlOf(cls, e), Uncategorised(e)))
    else if cls.canPost then Ok(Post(GetPostUrl(cls), e))
    else Err(MethodNotAllowed(cls.name))
  }

  /** A class that can neither put nor post cannot be saved, and a class
      that can put always puts an object with an id. */
  lemma SaveRoutes(cls: ObjectClass, e: Element)
    ensures !cls.canPut && !cls.canPost ==> SaveRoute(cls, e).Err?
    ensures cls.canPut && Truthy(IdOf(cls, e)) ==> SaveRoute(cls, e).Ok? && SaveRoute(cls, e).value.Put?
    ensures cls.canPut && !cls.flat && Truthy(IdOf(cls, e)) ==> SaveRoute(cls, e).value.putUrl.Some?
  {
  }

  /** `delete()`: JSSMethodNotAllowedError before any request when the class
      cannot delete, else a DELETE of the object's url. */
  function DeleteRequest(cls: ObjectClass, e: Element): (r: Result<Option<string>>)
    ensures r.Err? <==> !cls.canDelete
    ensures r.Err? ==> r.error == MethodNotAllowed(cls.name)
    ensures r.Ok? ==> r.value == UrlOf(cls, e)
  {
    if !cls.canDelete then Err(MethodNotAllowed(cls.name)) else Ok(UrlOf(cls, e))
  }

  // ---------------------------------------------------------------------------
  // Groups (JSSGroupObject)

  /** The `is_smart` property. */
  predicate IsSmart(e: Element)
    ensures IsSmart(e) <==> Find(e, ["is_smart"]).Some? && Find(e, ["is_smart"]).value.text == Some("true")
  {
    FindText(e, ["is_smart"]) == Some("true")
  }

  /** The `is_smart` setter: `set_bool`, then a `criteria` child when the
      value is the bool True and there is none yet. */
  function SmartSet(e: Element, value: Value): (r: Result<Element>)
    ensures r.Err? <==> SetBoolAt(e, "is_smart", value).Err?
  {
    match SetBoolAt(e, "is_smart", value)
    case Err(x) => Err(x)
    case Ok(e') =>
      if value == VBool(true) && ChildIndex(e', "criteria").None? then Ok(SubElement(e', "criteria"))
      else Ok(e')
  }

  lemma PathIsSmart()
    ensures Path("is_smart") == ["is_smart"]
  {
    assert Join(["is_smart"], "/") == "is_smart";
    SplitJoin(["is_smart"], '/');
  }

  /** After the setter the group is smart exactly when the value said true,
      and setting the bool True leaves a `criteria` child; the string "true"
      sets the flag but adds no criteria. */
  lemma SmartSetEffect(e: Element, value: Value)
    requires SmartSet(e, value).Ok?
    ensures IsSmart(SmartSet(e, value).value) <==> BoolOf(value) == Some(true)
    ensures value == VBool(true) ==> ChildIndex(SmartSet(e, value).value, "criteria").Some?
    ensures value.VStr? ==> SmartSet(e, value) == SetBoolAt(e, "is_smart", value)
  {
    PathIsSmart();
    SetBoolWrites(e, "is_smart", value);
    var e' := SetBoolAt(e, "is_smart", value).value;
    var r := SmartSet(e, value).value;
    if r != e' {
      var c := Element("criteria", None, None, []);
      assert r == Appended(e', c);
      FindTextAppended(e', c, "is_smart");
      AppendedChildIndex(e', c, "criteria");
    }
  }

  const SmartGroupDevice: Error := ValueError("Devices may not be added to smart groups.")

  /** `add_device(device, container)`: only a static group (is_smart text
      "false") takes devices; otherwise ValueError. */
  function AddDeviceTo(e: Element, container: string, entry: Element, id: Option<string>): (r: (Element, Result<seq<nat>>))
    ensures FindText(e, ["is_smart"]) != Some("false") ==>
      r == (e, Err(SmartGroupDevice))
    ensures FindText(e, ["is_smart"]) == Some("false") ==> r == AddToPath(e, container, entry, id)
  {
    if FindText(e, ["is_smart"]) == Some("false") then AddToPath(e, container, entry, id)
    else (e, Err(SmartGroupDevice))
  }

  /** The list path for a device, by the device's tag. */
  function MemberPath(deviceTag: string): Option<string> {
    if deviceTag == "computer" then Some("computers/computer")
    else if deviceTag == "mobile_device" then Some("mobile_devices/mobile_device")
    else None
  }

  /** `has_member(device)`: whether an entry of the group's device list has
      the device's id; ValueError for a device that is neither a computer
      nor a mobile device. */
  function HasMember(e: Element, deviceTag: string, deviceId: Option<string>): (r: Result<bool>)
    ensures r.Err? <==> MemberPath(deviceTag).None?
    ensures r.Ok? ==> (r.value <==>
      exists x :: x in FindAll(e, Path(MemberPath(deviceTag).value)) && FindText(x, ["id"]) == deviceId)
  {
    match MemberPath(deviceTag)
    case None => Err(ValueError(""))
    case Some(p) => Ok(exists x :: x in FindAll(e, Path(p)) && FindText(x, ["id"]) == deviceId)
  }

  lemma PathComputers()
    ensures Path("computers") == ["computers"]
  {
    assert Join(["computers"], "/") == "computers";
    SplitJoin(["computers"], '/');
  }

  lemma PathComputerList()
    ensures Path("computers/computer") == ["computers", "computer"]
  {
    JoinCons("computers", ["computer"], "/");
    assert ["computers"] + ["computer"] == ["computers", "computer"];
    assert Join(["computers", "computer"], "/") == "computers/computer";
    SplitJoin(["computers", "computer"], '/');
  }

  /** A computer added to a static group's `computers` list is a member of
      the group afterwards. */
  lemma AddedComputerIsMember(g: Element, entry: Element, s: string)
    requires FindText(g, ["is_smart"]) == Some("false")
    requires FindAddr(g, ["computers"]).Some?
    requires entry.tag == "computer" && FindText(entry, ["id"]) == Some(s)
    ensures var (g', r) := AddDeviceTo(g, "computers", entry, Some(s));
      r.Ok? && HasMember(g', "computer", Some(s)) == Ok(true)
  {
    PathComputers();
    PathComputerList();
    AddWithIdFinds(g, "computers", entry, s);
    var a := FindAddr(g, ["computers"]).value;
    var x := Appended(At(g, a), entry);
    var g' := Update(g, a, x);
    var n := |x.children| - 1;
    AtUpdate(g, a, x);
    UpdateAlong(g, a, ["computers"], x);
    assert Along(At(g', a), [n], ["computer"]) by {
      assert x.children[n] == entry;
      assert [n][1..] == [] && ["computer"][1..] == [];
    }
    assert ValidAddr(At(g', a), [n]) by {
      assert [n][1..] == [];
    }
    AlongConcat(g', a, ["computers"], [n], ["computer"]);
    AtConcat(g', a, [n]);
    assert At(g', a + [n]) == entry by {
      assert At(x, [n]) == At(x.children[n], []) by { assert [n][1..] == []; }
    }
    AlongInFindAll(g', a + [n], ["computers", "computer"]);
  }

  // ---------------------------------------------------------------------------
  // The object itself

  class JSSObject {
    const cls: ObjectClass
    var element: Element

    /** `cls(jss, element)`: the element's tag and children. */
    constructor FromElement(cls: ObjectClass, data: Element)
      ensures this.cls == cls && element == Adopted(data)
    {
      this.cls := cls;
      element := Adopted(data);
    }

    /** `cls(jss, name, **kwargs)`: `_new` fills the name and then each data
      key in turn. */
    constructor FromName(cls: ObjectClass, name: string, kwargs: map<string, Value>)
      requires !cls.flat
      ensures this.cls == cls && element == Created(cls, name, kwargs)
    {
      var e := Named(cls, name);
      var keys := KDict(cls.dataKeys);
      var i := 0;
      while i < |cls.dataKeys|
        invariant 0 <= i <= |cls.dataKeys|
        invariant e == SetItems(Named(cls, name), keys, i, kwargs)
      {
        e := SetKey(e, cls.dataKeys[i].0, cls.dataKeys[i].1, kwargs);
        i := i + 1;
      }
      if cls.kind == Package {
        e := Appended(e, Leaf("filename", Some(name)));
      }
      this.cls := cls;
      element := e;
    }

    /** The constructor's dispatch on the type of `data`. */
    static method Create(cls: ObjectClass, data: Data, kwargs: map<string, Value>) returns (r: Result<JSSObject>)
      ensures r.Ok? <==> Initial(cls, data, kwargs).Ok?
      ensures r.Err? ==> r.error == Initial(cls, data, kwargs).error
      ensures r.Ok? ==> fresh(r.value) && r.value.cls == cls && r.value.element == Initial(cls, data, kwargs).value
    {
      if data.DStr? && cls.flat {
        r := Err(CannotCreate);
      } else if data.DStr? {
        var o := new JSSObject.FromName(cls, data.s, kwargs);
        r := Ok(o);
      } else if data.DElement? {
        var o := new JSSObject.FromElement(cls, data.e);
        r := Ok(o);
      } else {
        r := Err(TypeError(BadData));
      }
    }

    method SetBool(location: string, value: Value) returns (r: Outcome)
      modifies this
      ensures r == OutcomeOf(SetBoolAt(old(element), location, value))
      ensures element == After(old(element), SetBoolAt(old(element), location, value))
    {
      var res := SetBoolAt(element, location, value);
      element := After(element, res);
      r := OutcomeOf(res);
    }

    method RemoveObjectFromList(target: Value, location: string) returns (r: Outcome)
      modifies this
      ensures r == OutcomeOf(RemoveAt(old(element), location, target))
      ensures element == After(old(element), RemoveAt(old(element), location, target))
    {
      var res := RemoveAt(element, location, target);
      element := After(element, res);
      r := OutcomeOf(res);
    }

    method ClearList(location: string) returns (r: Outcome)
      modifies this
      ensures r == OutcomeOf(ClearAt(old(element), Path(location)))
      ensures element == After(old(element), ClearAt(old(element), Path(location)))
    {
      var res := ClearAt(element, Path(location));
      element := After(element, res);
      r := OutcomeOf(res);
    }

    /** `add_object_to_path(obj, location)`; the result is the address of
      the entry Python returns. */
    method AddObjectToPath(obj: JSSObject, location: string) returns (r: Result<seq<nat>>)
      modifies this
      ensures var entry := AsListData(obj.cls, old(obj.element));
        var res := AddToPath(old(element), location, entry, IdOf(obj.cls, old(obj.element)));
        element == res.0 && r == res.1
    {
      var entry := AsListData(obj.cls, obj.element);
      var res := AddToPath(element, location, entry, IdOf(obj.cls, obj.element));
      element := res.0;
      r := res.1;
    }

    /** The `is_smart` setter of JSSGroupObject. */
    method SetIsSmart(value: Value) returns (r: Outcome)
      modifies this
      ensures r == OutcomeOf(SmartSet(old(element), value))
      ensures element == After(old(element), SmartSet(old(element), value))
    {
      r := SetBool("is_smart", value);
      if r.Done? && value == VBool(true) && ChildIndex(element, "criteria").None? {
        element := SubElement(element, "criteria");
      }
    }

    /** `add_device(device, container)` of JSSGroupObject. */
    method AddDevice(device: JSSObject, container: string) returns (r: Result<seq<nat>>)
      modifies this
      ensures var entry := AsListData(device.cls, old(device.element));
        var res := AddDeviceTo(old(element), container, entry, IdOf(device.cls, old(device.element)));
        element == res.0 && r == res.1
    {
      if FindText(element, ["is_smart"]) == Some("false") {
        r := AddObjectToPath(device, container);
      } else {
        r := Err(SmartGroupDevice);
      }
    }

    /** The placeholder rewrite `save` does before a PUT, one child of the
      root at a time. */
    method Uncategorise()
      modifies this
      ensures element == Uncategorised(old(element))
    {
      var i := 0;
      while i < |element.children|
        invariant 0 <= i <= |element.children| == |old(element).children|
        invariant element.tag == old(element).tag && element.text == old(element).text && element.tail == old(element).tail
        invariant forall j :: 0 <= j < i ==> element.children[j] == FixCategory(old(element).children[j])
        invariant forall j :: i <= j < |element.children| ==> element.children[j] == old(element).children[j]
      {
        element := element.(children := element.children[i := FixCategory(element.children[i])]);
        i := i + 1;
      }
      assert element.children == Uncategorised(old(element)).children;
    }

    /** `save()`. The request goes out and `reply` is the data the JSS sends
      back (the GET after a PUT, the created object after a POST) or the
      error it raises; on success the object's children are replaced by the
      reply's. */
    method Save(reply: Result<Element>) returns (request: Result<SaveRequest>, r: Outcome)
      modifies this
      ensures request == SaveRoute(cls, old(element))
      ensures request.Err? ==> r == Raised(request.error) && element == old(element)
      ensures request.Ok? && reply.Err? ==> r == Raised(reply.error) && element == request.value.body
      ensures request.Ok? && reply.Ok? ==>
        (r == Done && element == Element(old(element).tag, None, None, reply.value.children))
    {
      if cls.canPut && (!cls.canList || Truthy(IdOf(cls, element))) {
        var url := UrlOf(cls, element);
        Uncategorise();
        request := Ok(Put(url, element));
      } else if cls.canPost {
        request := Ok(Post(GetPostUrl(cls), element));
      } else {
        request := Err(MethodNotAllowed(cls.name));
        r := Raised(request.error);
        return;
      }
      match reply
      case Err(x) =>
        r := Raised(x);
      case Ok(updated) =>
        element := Element(element.tag, None, None, updated.children);
        r := Done;
    }
  }
}
