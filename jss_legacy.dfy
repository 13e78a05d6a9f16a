/** jss/jss.py: the older JSS connection and object factory. It keeps the
    user and password on the JSS itself, formats the HTTP error itself, URL
    quotes only the GET path, POSTs new objects from the factory, and builds
    listings as tag-to-text entries. Its JSSListData and JSSObjectList are
    the ones modelled in jss/jssobjectlist.py. */
module JssLegacy {
  import opened Errors
  import opened Text
  import opened Xml
  import opened JssObject
  import opened JamfSoftwareServer
  import opened JssObjectList

  /** The older JSS: a requests session made at construction, which is
      handed the credentials once. */
  class LegacyJSS {
    var baseUrl: string
    var user: string
    var password: string
    var session: Session
    var verbose: bool
    var jssMigrated: bool
    var repoPrefs: seq<map<string, string>>

    /** `JSS(url=..., user=..., password=..., repo_prefs=..., ssl_verify=...)`
        of the older layer: missing or empty repository preferences become
        `[]`. */
    constructor (url: string, user: string, password: string, repoPrefs: Option<seq<map<string, string>>>,
                 sslVerify: bool, verbose: bool, jssMigrated: bool)
      ensures baseUrl == BaseUrl(url) && this.user == user && this.password == password
      ensures fresh(session) && session.auth == Some((user, password)) && session.verify == sslVerify
      ensures this.repoPrefs == (if repoPrefs.Some? then repoPrefs.value else [])
      ensures this.verbose == verbose && this.jssMigrated == jssMigrated
    {
      baseUrl := BaseUrl(url);
      this.repoPrefs := if repoPrefs.Some? && repoPrefs.value != [] then repoPrefs.value else [];
      this.user := user;
      this.password := password;
      this.verbose := verbose;
      this.jssMigrated := jssMigrated;
      var s := new Session(None, true);
      s.auth := Some((user, password));
      s.verify := sslVerify;
      session := s;
    }

    method SetBaseUrl(url: string)
      modifies this
      ensures baseUrl == BaseUrl(url)
      ensures user == old(user) && password == old(password) && session == old(session)
      ensures verbose == old(verbose) && jssMigrated == old(jssMigrated) && repoPrefs == old(repoPrefs)
    {
      baseUrl := BaseUrl(url);
    }

    /** The `ssl_verify` setter writes through to the session. */
    method SetSslVerify(value: bool)
      modifies session
      ensures session.verify == value && session.auth == old(session.auth)
    {
      session.verify := value;
    }
  }

  /** The message `_error_handler` gives the exception, from the status and
      the response's text as `convert_response_to_text` renders it. */
  function ErrorMessage(status: int, text: string): (r: string)
    ensures var code := IntToString(status);
      |r| >= 15 + |code| && r[..15] == "Response Code: " && r[15..15 + |code|] == code
  {
    "Response Code: " + IntToString(status) + "\tResponse: " + text
  }

  /** The status can be read back from the message. */
  lemma ErrorMessageStatus(status: int, text: string)
    ensures ParseInt(ErrorMessage(status, text)[15..15 + |IntToString(status)|]) == Some(status)
  {
    ParseIntToString(status);
  }

  /** `_error_handler(exception_cls, response)`: the verb's exception with
      the formatted message and `status_code` set. */
  function HandledError(verb: Verb, status: int, text: string): (r: Error)
    ensures (r.GetError? || r.PostError? || r.PutError? || r.DeleteError?) &&
      r.status == Some(status) && r.message == ErrorMessage(status, text)
    ensures verb == GET <==> r.GetError?
    ensures verb == POST <==> r.PostError?
    ensures verb == PUT <==> r.PutError?
    ensures verb == DELETE <==> r.DeleteError?
  {
    var m := ErrorMessage(status, text);
    match verb
    case GET => GetError(Some(status), m)
    case POST => PostError(Some(status), m)
    case PUT => PutError(Some(status), m)
    case DELETE => DeleteError(Some(status), m)
  }

  /** The status check of get, post, put and delete: `_error_handler` for
      400 and above. */
  function LegacyChecked(verb: Verb, status: int, text: string): (r: Outcome)
    ensures r.Raised? <==> status >= 400
    ensures r.Raised? ==> r.error == HandledError(verb, status, text)
  {
    if status >= 400 then Raised(HandledError(verb, status, text)) else Done
  }

  /** The url `get` requests: the path is UTF-8 encoded and URL quoted
      (keeping "/"); post, put and delete append the path as it is. */
  function LegacyGetUrl(baseUrl: string, path: string): (r: string)
    ensures ApiUrl(baseUrl) <= r && PercentDecode(r[|ApiUrl(baseUrl)|..]) == Some(Utf8(path))
  {
    QuoteRoundTrip(path, "/");
    ApiUrl(baseUrl) + Quote(path, "/")
  }

  /** `get(url_path)` given the status, the text and what parsing it gave. */
  function LegacyGetReply(status: int, text: string, parsed: Option<Element>): (r: Result<Element>)
    ensures status >= 400 ==> r == Err(HandledError(GET, status, text))
    ensures status < 400 ==> (r.Ok? <==> parsed.Some?)
    ensures status < 400 && parsed.None? ==> r == Err(GetError(None, "Error Parsing XML:\n" + text))
    ensures r.Ok? ==> r.value == parsed.value
  {
    if status >= 400 then Err(HandledError(GET, status, text))
    else if parsed.None? then Err(GetError(None, "Error Parsing XML:\n" + text))
    else Ok(parsed.value)
  }

  /** `post(obj_class, url_path, data)` up to the id of the new object. */
  function LegacyPostReply(status: int, text: string): (r: Result<nat>)
    ensures status >= 400 ==> r == Err(HandledError(POST, status, text))
    ensures status < 400 ==> r == PostedId(text)
  {
    if status >= 400 then Err(HandledError(POST, status, text)) else PostedId(text)
  }

  /** What the older factory does: look up existing objects, or POST a new
      one to the class's post url. */
  datatype Request = Existing(lookup: Lookup) | Create(url: string, element: Element)

  /** `get_object(obj_class, data, subset)` of jss/jss.py. Only `str`, `int`
      and `unicode` data (by exact type, so not a bool) look up one object;
      an Element is POSTed when the class allows it. */
  function LegacyGetObject(cls: ObjectClass, data: Data, subset: SubsetArg): (r: Result<Request>)
    ensures Subset(subset).Err? ==> r == Err(TypeError(""))
    ensures Subset(subset).Ok? && data.DElement? ==>
      r == (if cls.canPost then Ok(Create(GetPostUrl(cls), data.e)) else Err(MethodNotAllowed(RefusedName)))
    ensures Subset(subset).Ok? && (data.DBool? || data.DOther?) ==> r == Err(ValueError(""))
  {
    match Subset(subset)
    case Err(x) => Err(x)
    case Ok(s) =>
      match data
      case DNone => Lift(ListLookup(cls, s))
      case DStr(_) => Lift(IndividualLookup(cls, data, s))
      case DInt(_) => Lift(IndividualLookup(cls, data, s))
      case DElement(e) =>
        if cls.canPost then Ok(Create(GetPostUrl(cls), e)) else Err(MethodNotAllowed(RefusedName))
      case _ => Err(ValueError(""))
  }

  function Lift(l: Result<Lookup>): (r: Result<Request>)
    ensures l.Ok? <==> r.Ok?
    ensures l.Ok? ==> r.value == Existing(l.value)
    ensures l.Err? ==> r.error == l.error
  {
    match l
    case Err(x) => Err(x)
    case Ok(v) => Ok(Existing(v))
  }

  /** For None, strings and numbers both factories make the same lookup;
      they part on booleans (a lookup in the newer one, ValueError here)
      and on Elements (a new object without a request there, a POST here). */
  lemma FactoriesAgree(cls: ObjectClass, data: Data, subset: SubsetArg)
    ensures data.DNone? || data.DStr? || data.DInt? ==>
      LegacyGetObject(cls, data, subset) == Lift(GetObject(cls, data, subset))
    ensures Subset(subset).Ok? && data.DBool? ==>
      LegacyGetObject(cls, data, subset).Err? && GetObject(cls, data, subset) == IndividualLookup(cls, data, Subset(subset).value)
  {
  }

  /** `_build_jss_object_list(response, obj_class)`: one tag-to-text entry
      per kept child, in order. */
  function LegacyObjectList(e: Element): (r: seq<ListData>)
    ensures |r| == |Kept(e.children)|
    ensures forall i :: 0 <= i < |r| ==> r[i] == TagTexts(Kept(e.children)[i].children)
  {
    var kept := Kept(e.children);
    seq(|kept|, i requires 0 <= i < |kept| => TagTexts(kept[i].children))
  }

  /** A listing with a "size" child and entries carrying ids gives entries
      whose ids read back, in the listing's order. */
  lemma LegacyListingIds(size: Element, entries: seq<Element>, ids: seq<int>, tag: string)
    requires size.tag == "size" && |entries| == |ids|
    requires forall i :: 0 <= i < |entries| ==>
      entries[i].tag != "size" && entries[i].children == [Leaf("id", Some(IntToString(ids[i])))]
    ensures var r := LegacyObjectList(Element(tag, None, None, [size] + entries));
      |r| == |ids| && forall i :: 0 <= i < |r| ==> ListId(r[i]) == Ok(ids[i])
  {
    assert ([size] + entries)[1..] == entries;
    KeptOnly(entries);
    forall i | 0 <= i < |entries| ensures ListId(TagTexts(entries[i].children)) == Ok(ids[i]) {
      ListIdOfListing(entries[i].children, 0, ids[i]);
    }
  }

  /** Children none of which is "size" are all kept. */
  lemma {:induction false} KeptOnly(cs: seq<Element>)
    requires forall i :: 0 <= i < |cs| ==> cs[i].tag != "size"
    ensures Kept(cs) == cs
  {
    if cs != [] {
      KeptOnly(cs[1..]);
      assert cs == [cs[0]] + cs[1..];
    }
  }

  /** What follows a successful POST: the factory fetches the new object by
      the id the reply holds. */
  lemma PostThenFetch(cls: ObjectClass, before: string, n: nat, after: string)
    requires '<' !in before && cls.canGet && !cls.flat
    ensures LegacyPostReply(201, before + IdOpen + NatToString(n) + IdClose + after) == Ok(n)
    ensures LegacyGetObject(cls, DInt(n), SubsetNone) == Ok(Existing(OneAt(cls.url + cls.idUrl + IntToString(n), false)))
  {
    PostedIdRoundTrip(before, n, after);
    NumericStringIsId(cls, n);
  }
}
