/** jss.py at the top of the repository: the first, script-sized wrapper of
    the JSS API. A JSS keeps its API url and credentials and builds the url
    of each request; its statuses 401, 404 and 409 become exceptions; a
    JSSObject fetches its XML by id, creates itself from an XML string, or
    wraps what it is given. No request is made here: each function takes
    the reply's status, text and parsed XML as parameters. */
module JssScript {
  import opened Errors
  import opened Text
  import opened Xml
  import opened JssObject
  import J = JamfSoftwareServer

  // ---------------------------------------------------------------------------
  // Object types

  /** The JSSObject subclasses the script defines. */
  datatype Kind = Category | Computer | ComputerGroup | MobileDevice
    | MobileDeviceConfigurationProfile | MobileDeviceGroup | Policy

  /** Each subclass's `_url`. */
  function KindUrl(k: Kind): (r: string)
    ensures |r| > 1 && r[0] == '/' && r[|r| - 1] == 's'
  {
    match k
    case Category => "/categories"
    case Computer => "/computers"
    case ComputerGroup => "/computergroups"
    case MobileDevice => "/mobiledevices"
    case MobileDeviceConfigurationProfile => "/mobiledeviceconfigurationprofiles"
    case MobileDeviceGroup => "/mobiledevicegroups"
    case Policy => "/policies"
  }

  /** No two object types share a URL. */
  lemma KindUrlDistinct(a: Kind, b: Kind)
    requires a != b
    ensures KindUrl(a) != KindUrl(b)
  {
  }

  // ---------------------------------------------------------------------------
  // The JSS

  /** `"%s" % x` of a value that may be None. */
  function Formatted(x: Option<string>): (r: string)
    ensures x.Some? ==> r == x.value
    ensures x.None? ==> r == "None"
  {
    if x.Some? then x.value else "None"
  }

  /** What JSSPrefs read from the preferences: `prefs.get` gives None for a
      missing key. */
  datatype Prefs = Prefs(url: Option<string>, user: Option<string>, password: Option<string>)

  /** A JSS: `_url`, the credentials and the flags every request uses. */
  datatype Jss = Jss(apiUrl: string, user: Option<string>, password: Option<string>, sslVerify: bool, verbose: bool)

  const Resource := "/JSSResource"

  /** `JSS(jss_prefs, url, user, password, ssl_verify, verbose)`: a JSSPrefs
      object, when given, supplies the url, the user and the password. */
  function NewJss(prefs: Option<Prefs>, url: Option<string>, user: Option<string>, password: Option<string>,
                  sslVerify: bool, verbose: bool): (r: Jss)
    ensures var u := if prefs.Some? then prefs.value.url else url;
      |r.apiUrl| == |Formatted(u)| + 12 && r.apiUrl[..|Formatted(u)|] == Formatted(u) &&
      r.apiUrl[|Formatted(u)|..] == Resource
    ensures r.user == (if prefs.Some? then prefs.value.user else user)
    ensures r.password == (if prefs.Some? then prefs.value.password else password)
    ensures r.sslVerify == sslVerify && r.verbose == verbose
  {
    var (u, n, p) := if prefs.Some? then (prefs.value.url, prefs.value.user, prefs.value.password)
                     else (url, user, password);
    Jss(Formatted(u) + Resource, n, p, sslVerify, verbose)
  }

  /** With preferences, the explicit url, user and password are ignored. */
  lemma PrefsOverride(prefs: Prefs, url: Option<string>, user: Option<string>, password: Option<string>,
                      url2: Option<string>, user2: Option<string>, password2: Option<string>,
                      sslVerify: bool, verbose: bool)
    ensures NewJss(Some(prefs), url, user, password, sslVerify, verbose)
      == NewJss(Some(prefs), url2, user2, password2, sslVerify, verbose)
  {
  }

  /** The url the JSS was given reads back from its API url; without one it
      is the text "None". */
  lemma ApiUrlOf(url: Option<string>, user: Option<string>, password: Option<string>)
    ensures NewJss(None, url, user, password, true, false).apiUrl == Formatted(url) + Resource
    ensures url.None? ==> NewJss(None, url, user, password, true, false).apiUrl == "None/JSSResource"
  {
    var r := NewJss(None, url, user, password, true, false);
    assert r.apiUrl == r.apiUrl[..|Formatted(url)|] + r.apiUrl[|Formatted(url)|..];
  }

  // ---------------------------------------------------------------------------
  // Urls

  /** `raw_get(path)`: the path below the API url. */
  function RawGetUrl(j: Jss, path: string): (r: string)
    ensures j.apiUrl <= r && r[|j.apiUrl|..] == path
  {
    j.apiUrl + path
  }

  /** `get(obj_class, id_)`: the type's url below the API url, followed by
      "/id/" and `str(id_)` when an id is given (`id` is that text). */
  function GetUrl(j: Jss, k: Kind, id: Option<string>): (r: string)
    ensures r == RawGetUrl(j, KindUrl(k)) + (if id.Some? then "/id/" + id.value else "")
  {
    if id.Some? then j.apiUrl + KindUrl(k) + "/id/" + id.value else j.apiUrl + KindUrl(k)
  }

  /** `post(obj_class, data)`: the JSS creates an object when asked for id 0. */
  function PostUrl(j: Jss, k: Kind): (r: string)
    ensures r == GetUrl(j, k, Some("0"))
  {
    j.apiUrl + KindUrl(k) + "/id/0"
  }

  /** The listing url is a proper prefix of every object url, and the id
      reads back from the end of an object url. */
  lemma GetUrlId(j: Jss, k: Kind, n: int)
    ensures var list := GetUrl(j, k, None); var one := GetUrl(j, k, Some(IntToString(n)));
      list < one && one[|list|..|list| + 4] == "/id/" && ParseInt(one[|list| + 4..]) == Some(n)
  {
    var list := GetUrl(j, k, None);
    var one := GetUrl(j, k, Some(IntToString(n)));
    assert one == list + ("/id/" + IntToString(n));
    assert one[|list| + 4..] == IntToString(n);
    ParseIntToString(n);
  }

  // ---------------------------------------------------------------------------
  // Replies

  /** `get_request(url)` given the reply: 401 and 404 raise; any other
      status has its text parsed as XML, which raises ParseError when it
      is not XML. */
  function GetReply(url: string, status: int, parsed: Option<Element>): (r: Result<Element>)
    ensures status == 401 ==> r == Err(AuthenticationError)
    ensures status == 404 ==> r == Err(GetError(None, "Object " + url + " does not exist!"))
    ensures status != 401 && status != 404 ==> (r.Ok? <==> parsed.Some?)
    ensures status != 401 && status != 404 && parsed.None? ==> r == Err(XmlParseError)
    ensures r.Ok? ==> r.value == parsed.value
  {
    if status == 401 then Err(AuthenticationError)
    else if status == 404 then Err(GetError(None, "Object " + url + " does not exist!"))
    else if parsed.None? then Err(XmlParseError)
    else Ok(parsed.value)
  }

  /** `post` given the reply: 401 and 409 raise, anything else hands back
      the reply's text. */
  function PostReply(status: int, text: string): (r: Result<string>)
    ensures status == 401 ==> r == Err(AuthenticationError)
    ensures status == 409 ==> r == Err(CreationError)
    ensures status != 401 && status != 409 ==> r == Ok(text)
  {
    if status == 401 then Err(AuthenticationError)
    else if status == 409 then Err(CreationError)
    else Ok(text)
  }

  /** Only those three statuses are errors: a 500 reply, for one, is parsed
      like a 200 one. */
  lemma OnlyKnownStatusesRaise(url: string, status: int, e: Element, text: string)
    ensures GetReply(url, status, Some(e)).Err? <==> status == 401 || status == 404
    ensures PostReply(status, text).Err? <==> status == 401 || status == 409
  {
  }

  /** `delete` given the reply: only 404 raises. */
  function DeleteReply(status: int): (r: Outcome)
    ensures r.Raised? <==> status == 404
    ensures r.Raised? ==> r.error == DeletionError
  {
    if status == 404 then Raised(DeletionError) else Done
  }

  // ---------------------------------------------------------------------------
  // Listing

  /** An object of a type with its XML. */
  datatype Obj = Obj(kind: Kind, xml: Element)

  /** `list(obj_class)` given the listing: one object per child that is not
      "size", in order, each wrapping that child. */
  function ListObjects(k: Kind, reply: Element): (r: seq<Obj>)
    ensures |r| <= |reply.children|
    ensures forall i :: 0 <= i < |r| ==> r[i].kind == k && r[i].xml in reply.children && r[i].xml.tag != "size"
  {
    var kept := J.Kept(reply.children);
    assert forall i :: 0 <= i < |kept| ==> kept[i] in reply.children && kept[i].tag != "size" by {
      forall i | 0 <= i < |kept| ensures kept[i] in reply.children && kept[i].tag != "size" {
        J.KeptMembers(reply.children, i);
      }
    }
    seq(|kept|, i requires 0 <= i < |kept| => Obj(k, kept[i]))
  }

  /** Every child but "size" is listed, and the children listed before
      the last keep their order. */
  lemma ListObjectsAll(k: Kind, reply: Element, x: Element, more: seq<Element>)
    ensures x in reply.children && x.tag != "size" ==> Obj(k, x) in ListObjects(k, reply)
    ensures var grown := reply.(children := reply.children + more);
      ListObjects(k, reply) <= ListObjects(k, grown)
  {
    if x in reply.children && x.tag != "size" {
      J.KeptAll(reply.children, x);
      var kept := J.Kept(reply.children);
      var i :| 0 <= i < |kept| && kept[i] == x;
      assert ListObjects(k, reply)[i] == Obj(k, x);
    }
    J.KeptAppend(reply.children, more);
  }

  // ---------------------------------------------------------------------------
  // Objects

  /** The id in the reply to a POST: the digits of the first
      `<id>digits</id>`, or AttributeError (`None.group`) when there is
      none. They are the number the newer library reads. */
  function CreatedId(results: string): (r: Result<string>)
    ensures r.Err? <==> J.PostedId(results).Err?
    ensures r.Ok? ==> |r.value| > 0 && AllDigits(r.value) && DigitsValue(r.value) == J.PostedId(results).value
  {
    match J.FirstIdFrom(results, 0)
    case None => Err(AttributeError("group"))
    case Some(p) => Ok(results[p + 4..p + 4 + J.DigitRun(results, p + 4)])
  }

  /** The id read from the first match, at `p`. */
  lemma CreatedIdAt(t: string, p: nat, d: string)
    requires AllDigits(d) && |d| > 0 && p + 4 + |d| + 5 <= |t|
    requires t[p..p + 4] == J.IdOpen && t[p + 4..p + 4 + |d|] == d && t[p + 4 + |d|..p + 4 + |d| + 5] == J.IdClose
    requires forall q :: 0 <= q < p ==> !J.IdMatchAt(t, q)
    ensures CreatedId(t) == Ok(d)
  {
    J.IdMatchOf(t, p, d);
    J.FirstIdIs(t, 0, p);
  }

  /** The id of a created object reads back from the reply as its text. */
  lemma CreatedIdRoundTrip(before: string, n: nat, after: string)
    requires '<' !in before
    ensures CreatedId(before + J.IdOpen + NatToString(n) + J.IdClose + after) == Ok(NatToString(n))
  {
    var d := NatToString(n);
    DigitsOfNat(n);
    var t := before + J.IdOpen + d + J.IdClose + after;
    var p := |before|;
    assert t == before + J.IdOpen + (d + J.IdClose + after);
    J.Piece(before, J.IdOpen, d + J.IdClose + after);
    assert t == (before + J.IdOpen) + d + (J.IdClose + after);
    J.Piece(before + J.IdOpen, d, J.IdClose + after);
    assert t == (before + J.IdOpen + d) + J.IdClose + after;
    J.Piece(before + J.IdOpen + d, J.IdClose, after);
    J.NoMatchIn(t, before);
    CreatedIdAt(t, p, d);
  }

  /** What `JSSObject(jss, data)` asks of the JSS: None, an int (a bool
      too) fetches, a string is XML to create from, and anything else is
      taken as the object's XML. */
  datatype Init = Fetch(url: string) | CreateThenFetch(postUrl: string, body: string) | Wrap(data: Data)

  function InitPlan(j: Jss, k: Kind, data: Data): (r: Init)
    ensures data.DNone? ==> r == Fetch(GetUrl(j, k, None))
    ensures data.DInt? ==> r == Fetch(GetUrl(j, k, Some(IntToString(data.i))))
    ensures data.DBool? ==> r == Fetch(GetUrl(j, k, Some(if data.b then "True" else "False")))
    ensures data.DStr? ==> r == CreateThenFetch(PostUrl(j, k), data.s)
    ensures data.DElement? || data.DOther? ==> r == Wrap(data)
  {
    match data
    case DNone => Fetch(GetUrl(j, k, None))
    case DInt(_) => Fetch(GetUrl(j, k, Some(Shown(data))))
    case DBool(_) => Fetch(GetUrl(j, k, Some(Shown(data))))
    case DStr(s) => CreateThenFetch(PostUrl(j, k), s)
    case _ => Wrap(data)
  }

  /** The url fetched after the POST: `get(cls, id_)` with the id the
      reply holds. */
  function CreatedUrl(j: Jss, k: Kind, status: int, results: string): (r: Result<string>)
    ensures status == 401 ==> r == Err(AuthenticationError)
    ensures status == 409 ==> r == Err(CreationError)
    ensures status != 401 && status != 409 ==> (r.Ok? <==> CreatedId(results).Ok?)
    ensures r.Ok? ==> r.value == GetUrl(j, k, Some(CreatedId(results).value))
  {
    match PostReply(status, results)
    case Err(e) => Err(e)
    case Ok(t) =>
      match CreatedId(t)
      case Err(e) => Err(e)
      case Ok(id) => Ok(GetUrl(j, k, Some(id)))
  }

  /** Creating an object fetches it from the url that constructing one by
      the new id fetches; a number and its decimal text part ways, since
      the text is XML to create from. */
  lemma CreateThenFetchById(j: Jss, k: Kind, before: string, n: nat, after: string)
    requires '<' !in before
    ensures CreatedUrl(j, k, 201, before + J.IdOpen + NatToString(n) + J.IdClose + after)
      == Ok(InitPlan(j, k, DInt(n)).url)
    ensures InitPlan(j, k, DStr(IntToString(n))).CreateThenFetch?
  {
    CreatedIdRoundTrip(before, n, after);
  }

  /** `name()` and `id()`: the text of `general/<field>`, AttributeError
      when the element is missing. */
  function GeneralText(xml: Element, field: string): (r: Result<Option<string>>)
    ensures r.Err? <==> Find(xml, ["general", field]).None?
    ensures r.Ok? ==> r.value == Find(xml, ["general", field]).value.text
  {
    match Find(xml, ["general", field])
    case None => Err(AttributeError("text"))
    case Some(x) => Ok(x.text)
  }

  /** An object whose first child is "general", itself starting with the
      field, gives that field's text. */
  lemma GeneralTextOf(xml: Element, field: string, text: Option<string>)
    requires |xml.children| > 0 && xml.children[0].tag == "general"
    requires |xml.children[0].children| > 0 && xml.children[0].children[0] == Leaf(field, text)
    ensures GeneralText(xml, field) == Ok(text)
  {
    var g := xml.children[0];
    assert g.children[0].tag == field;
    assert [field][1..] == [];
    assert FindAddr(g.children[0], []) == Some([]);
    assert FirstIn(g, [field], 0) == Some([0] + []);
    assert [0] + [] == [0] && [field] != [];
    assert FindAddr(g, [field]) == Some([0]);
    assert ["general", field][1..] == [field];
    assert FirstIn(xml, ["general", field], 0) == Some([0] + [0]);
    assert At(xml, [0, 0]) == g.children[0];
  }

  /** `delete(obj)`: the object's url by the text of its `general/id`
      (`str` of None when that has no text). */
  function DeleteUrl(j: Jss, k: Kind, xml: Element): (r: Result<string>)
    ensures r.Err? <==> GeneralText(xml, "id").Err?
    ensures r.Ok? ==> r.value == GetUrl(j, k, Some(Formatted(GeneralText(xml, "id").value)))
  {
    match GeneralText(xml, "id")
    case Err(e) => Err(e)
    case Ok(t) => Ok(j.apiUrl + KindUrl(k) + "/id/" + Formatted(t))
  }

  /** Deleting a fetched object targets the url it was fetched from. */
  lemma DeleteWhereFetched(j: Jss, k: Kind, xml: Element, n: int)
    requires |xml.children| > 0 && xml.children[0].tag == "general"
    requires |xml.children[0].children| > 0 && xml.children[0].children[0] == Leaf("id", Some(IntToString(n)))
    ensures DeleteUrl(j, k, xml) == Ok(InitPlan(j, k, DInt(n)).url)
  {
    GeneralTextOf(xml, "id", Some(IntToString(n)));
  }

  /** What `JSS.<Type>(id_)` asks for: the listing, or one object. */
  datatype Lookup = Listing(url: string) | One(init: Init)

  function ListOrObject(j: Jss, k: Kind, id: Data): (r: Lookup)
    ensures id.DNone? ==> r == Listing(GetUrl(j, k, None))
    ensures !id.DNone? ==> r == One(InitPlan(j, k, id))
  {
    if id.DNone? then Listing(GetUrl(j, k, None)) else One(InitPlan(j, k, id))
  }

  /** Without an id the type lists, and a JSSObject made without data
      fetches that same listing url as its one XML. */
  lemma ListingOrListObject(j: Jss, k: Kind)
    ensures ListOrObject(j, k, DNone).url == InitPlan(j, k, DNone).url
  {
  }
}
