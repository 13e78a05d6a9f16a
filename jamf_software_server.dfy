/** jss/jamf_software_server.py: the JSS connection (its base url, the
    credentials kept on the network adapter, the adapter swap), the status
    handling of its requests, the id a POST answers with, and the
    JSSObjectFactory that turns a `data` argument into a request and the
    reply into objects. The requests themselves are not made: the status
    and the parsed reply are parameters. */
module JamfSoftwareServer {
  import opened Errors
  import opened Text
  import opened Xml
  import opened JssObject

  // ---------------------------------------------------------------------------
  // The connection

  /** The network adapter a JSS talks through. Only its credentials and its
      `verify` flag are modelled; `auth` is None for an adapter without
      any. */
  class Session {
    var auth: Option<(string, string)>
    var verify: bool

    constructor (auth: Option<(string, string)>, verify: bool)
      ensures this.auth == auth && this.verify == verify
    {
      this.auth := auth;
      this.verify := verify;
    }
  }

  /** The `base_url` setter: every trailing "/" is dropped. */
  function BaseUrl(url: string): (r: string)
    ensures r <= url && (r == [] || r[|r| - 1] != '/')
    ensures forall i :: |r| <= i < |url| ==> url[i] == '/'
  {
    RStripChar(url, '/')
  }

  /** Setting the base url twice changes nothing more. */
  lemma BaseUrlIdempotent(url: string)
    ensures BaseUrl(BaseUrl(url)) == BaseUrl(url)
  {
  }

  /** `_url`: the API endpoints below the base url. */
  function ApiUrl(baseUrl: string): (r: string)
    ensures |r| == |baseUrl| + 12 && r[..|baseUrl|] == baseUrl && r[|baseUrl|..] == "/JSSResource"
  {
    baseUrl + "/JSSResource"
  }

  /** However many slashes the configured url ends with, the API url has
      exactly one before "JSSResource". */
  lemma ApiUrlOneSlash(url: string)
    requires BaseUrl(url) != []
    ensures var base := BaseUrl(url); var r := ApiUrl(base);
      r[|base|] == '/' && r[|base| - 1] != '/'
  {
  }

  /** The new credentials when the `user` setter is given `value`: the
      password is kept, and is "" when the adapter had no credentials. */
  function WithUser(auth: Option<(string, string)>, value: string): (r: (string, string))
    ensures r.0 == value
    ensures r.1 == (if auth.Some? then auth.value.1 else "")
  {
    (value, if auth.Some? then auth.value.1 else "")
  }

  /** The same for the `password` setter, which keeps the user. */
  function WithPassword(auth: Option<(string, string)>, value: string): (r: (string, string))
    ensures r.1 == value
    ensures r.0 == (if auth.Some? then auth.value.0 else "")
  {
    (if auth.Some? then auth.value.0 else "", value)
  }

  /** Setting the user and then the password gives exactly those
      credentials, whatever the adapter held before. */
  lemma UserThenPassword(auth: Option<(string, string)>, user: string, password: string)
    ensures WithPassword(Some(WithUser(auth, user)), password) == (user, password)
  {
  }

  /** The `user` and `password` getters, which index the adapter's
      credentials and raise TypeError when it has none. */
  function AuthPart(auth: Option<(string, string)>, first: bool): (r: Result<string>)
    ensures r.Ok? <==> auth.Some?
    ensures auth.Some? ==> r.value == (if first then auth.value.0 else auth.value.1)
  {
    match auth
    case None => Err(TypeError("'NoneType' object has no attribute '__getitem__'"))
    case Some((u, p)) => Ok(if first then u else p)
  }

  /** The JSS object: its base url, its adapter, and the flags passed to it. */
  class JSS {
    var baseUrl: string
    var session: Session
    var verbose: bool
    var jssMigrated: bool
    var repoPrefs: seq<map<string, string>>

    /** `JSS(url=..., user=..., password=..., repo_prefs=..., ssl_verify=...)`:
      a fresh CurlAdapter (no user, no password, verify on) then the
      setters; missing or empty repository preferences become `[]`. */
    constructor (url: string, user: string, password: string, repoPrefs: Option<seq<map<string, string>>>,
                 sslVerify: bool, verbose: bool, jssMigrated: bool)
      ensures baseUrl == BaseUrl(url) && fresh(session)
      ensures session.auth == Some((user, password)) && session.verify == sslVerify
      ensures this.repoPrefs == (if repoPrefs.Some? then repoPrefs.value else [])
      ensures this.verbose == verbose && this.jssMigrated == jssMigrated
    {
      baseUrl := BaseUrl(url);
      this.repoPrefs := if repoPrefs.Some? && repoPrefs.value != [] then repoPrefs.value else [];
      var s := new Session(Some(("", "")), true);
      s.auth := Some(WithUser(s.auth, user));
      s.auth := Some(WithPassword(s.auth, password));
      s.verify := sslVerify;
      session := s;
      this.verbose := verbose;
      this.jssMigrated := jssMigrated;
    }

    method SetBaseUrl(url: string)
      modifies this
      ensures baseUrl == BaseUrl(url)
      ensures session == old(session) && verbose == old(verbose) && jssMigrated == old(jssMigrated)
      ensures repoPrefs == old(repoPrefs)
    {
      baseUrl := BaseUrl(url);
    }

    /** The `user` setter. */
    method SetUser(value: string)
      modifies session
      ensures session.auth == Some(WithUser(old(session.auth), value))
      ensures session.verify == old(session.verify)
    {
      session.auth := Some(WithUser(session.auth, value));
    }

    /** The `password` setter. */
    method SetPassword(value: string)
      modifies session
      ensures session.auth == Some(WithPassword(old(session.auth), value))
      ensures session.verify == old(session.verify)
    {
      session.auth := Some(WithPassword(session.auth, value));
    }

    /** `mount_network_adapter(adapter)`: the current user, password and
      verify flag are read (raising TypeError if the current adapter has
      no credentials) and handed to the new adapter, which replaces the
      old one. */
    method MountNetworkAdapter(adapter: Session) returns (r: Outcome)
      modifies this, adapter
      ensures old(session.auth).None? ==>
        r.Raised? && session == old(session) && unchanged(adapter) && unchanged(old(session))
      ensures old(session.auth).Some? ==>
        r == Done && session == adapter &&
        adapter.auth == old(session.auth) && adapter.verify == old(session.verify)
      ensures baseUrl == old(baseUrl) && repoPrefs == old(repoPrefs)
      ensures verbose == old(verbose) && jssMigrated == old(jssMigrated)
    {
      var user := AuthPart(session.auth, true);
      var password := AuthPart(session.auth, false);
      if user.Err? {
        r := Raised(user.error);
        return;
      }
      var verify := session.verify;
      session := adapter;
      SetUser(user.value);
      SetPassword(password.value);
      session.verify := verify;
      r := Done;
    }
  }

  // ---------------------------------------------------------------------------
  // Requests

  datatype Verb = GET | POST | PUT | DELETE

  /** The exception each verb raises for an error status, carrying it. */
  function StatusError(verb: Verb, status: int): Error {
    match verb
    case GET => GetError(Some(status), "")
    case POST => PostError(Some(status), "")
    case PUT => PutError(Some(status), "")
    case DELETE => DeleteError(Some(status), "")
  }

  /** The status check every request makes: 400 and above raise the verb's
      own error with the status attached. */
  function Checked(verb: Verb, status: int): (r: Outcome)
    ensures r.Raised? <==> status >= 400
    ensures r.Raised? ==> r.error == StatusError(verb, status) && r.error.status == Some(status)
  {
    if status >= 400 then Raised(StatusError(verb, status)) else Done
  }

  /** The url a request goes to: the API url and the path. */
  function RequestUrl(baseUrl: string, path: string): (r: string)
    ensures ApiUrl(baseUrl) <= r && r[|ApiUrl(baseUrl)|..] == path
  {
    ApiUrl(baseUrl) + path
  }

  /** `get(url_path)`: the reply's XML, given the status and what parsing
      the content gave (None when it is not XML). */
  function GetReply(status: int, parsed: Option<Element>, content: string): (r: Result<Element>)
    ensures status >= 400 ==> r == Err(StatusError(GET, status))
    ensures status < 400 ==> (r.Ok? <==> parsed.Some?)
    ensures r.Ok? ==> r.value == parsed.value
  {
    if status >= 400 then Err(StatusError(GET, status))
    else if parsed.None? then Err(GetError(None, "Error Parsing XML:\n" + content))
    else Ok(parsed.value)
  }

  /** The length of the run of digits at `p`. */
  function DigitRun(t: string, p: nat): (n: nat)
    requires p <= |t|
    ensures p + n <= |t| && AllDigits(t[p..p + n])
    ensures p + n == |t| || !IsDigit(t[p + n])
    decreases |t| - p
  {
    if p < |t| && IsDigit(t[p]) then
      var n := 1 + DigitRun(t, p + 1);
      assert t[p..p + n] == [t[p]] + t[p + 1..p + n];
      n
    else 0
  }

  const IdOpen := "<id>"
  const IdClose := "</id>"

  /** The pattern `<id>([0-9]+)</id>` matches at `p`. A digit run is
      followed by "</id>" only as a whole, since '<' is not a digit, so
      this is the only way the pattern can match there. */
  predicate IdMatchAt(t: string, p: nat) {
    p + 4 <= |t| && t[p..p + 4] == IdOpen &&
    var n := DigitRun(t, p + 4);
    n > 0 && p + 4 + n + 5 <= |t| && t[p + 4 + n..p + 4 + n + 5] == IdClose
  }

  /** The first position from `p` on where the pattern matches. */
  function FirstIdFrom(t: string, p: nat): (r: Option<nat>)
    requires p <= |t|
    ensures r.Some? ==> p <= r.value < |t| && IdMatchAt(t, r.value)
    decreases |t| - p
  {
    if p == |t| then None
    else if IdMatchAt(t, p) then Some(p)
    else FirstIdFrom(t, p + 1)
  }

  /** `re.search` finds the leftmost match, and nothing when there is none. */
  lemma {:induction false} FirstIdLeftmost(t: string, p: nat)
    requires p <= |t|
    ensures FirstIdFrom(t, p).Some? ==> forall q :: p <= q < FirstIdFrom(t, p).value ==> !IdMatchAt(t, q)
    ensures FirstIdFrom(t, p).None? ==> forall q :: p <= q < |t| ==> !IdMatchAt(t, q)
    decreases |t| - p
  {
    if p < |t| && !IdMatchAt(t, p) {
      FirstIdLeftmost(t, p + 1);
    }
  }

  /** The id `post` reads from the reply: the digits of the first match, or
      AttributeError (on `None.group`) when there is none. */
  function PostedId(text: string): (r: Result<nat>)
    ensures r.Err? <==> FirstIdFrom(text, 0).None?
  {
    match FirstIdFrom(text, 0)
    case None => Err(AttributeError("group"))
    case Some(p) => Ok(IdValue(text, p))
  }

  /** The number the digits after "<id>" at `p` spell. */
  function IdValue(t: string, p: nat): nat
    requires p + 4 <= |t|
  {
    DigitsValue(t[p + 4..p + 4 + DigitRun(t, p + 4)])
  }

  /** `post(obj_class, url_path, data)` up to the id of the new object,
      which it then fetches with `get_object(obj_class, id)`. */
  function PostReply(status: int, text: string): (r: Result<nat>)
    ensures status >= 400 ==> r == Err(StatusError(POST, status))
    ensures status < 400 ==> r == PostedId(text)
  {
    if status >= 400 then Err(StatusError(POST, status)) else PostedId(text)
  }

  /** A digit run followed by something that is not a digit. */
  lemma {:induction false} DigitRunOf(t: string, p: nat, d: string)
    requires AllDigits(d) && p + |d| <= |t| && t[p..p + |d|] == d
    requires p + |d| == |t| || !IsDigit(t[p + |d|])
    ensures DigitRun(t, p) == |d|
    decreases |d|
  {
    if d != [] {
      assert t[p + 1..p + 1 + |d[1..]|] == d[1..];
      DigitRunOf(t, p + 1, d[1..]);
    }
  }

  /** "<id>", digits and "</id>" at `p` are a match of the pattern. */
  lemma IdMatchOf(t: string, p: nat, d: string)
    requires AllDigits(d) && |d| > 0 && p + 4 + |d| + 5 <= |t|
    requires t[p..p + 4] == IdOpen && t[p + 4..p + 4 + |d|] == d && t[p + 4 + |d|..p + 4 + |d| + 5] == IdClose
    ensures IdMatchAt(t, p) && DigitRun(t, p + 4) == |d|
  {
    assert t[p + 4 + |d|] == t[p + 4 + |d|..p + 4 + |d| + 5][0];
    DigitRunOf(t, p + 4, d);
  }

  /** No match starts inside a prefix without '<'. */
  lemma NoMatchIn(t: string, before: string)
    requires before <= t && '<' !in before
    ensures forall q :: 0 <= q < |before| ==> !IdMatchAt(t, q)
  {
    forall q | 0 <= q < |before| ensures !IdMatchAt(t, q) {
      assert t[q] == before[q];
      if q + 4 <= |t| {
        assert t[q..q + 4][0] == t[q];
      }
    }
  }

  /** The first match is at `p` when there is one at `p` and none before. */
  lemma {:induction false} FirstIdIs(t: string, k: nat, p: nat)
    requires k <= p < |t| && IdMatchAt(t, p)
    requires forall q :: k <= q < p ==> !IdMatchAt(t, q)
    ensures FirstIdFrom(t, k) == Some(p)
    decreases p - k
  {
    if k < p {
      FirstIdIs(t, k + 1, p);
    }
  }

  /** The id read from the first match, at `p`. */
  lemma PostedIdAt(t: string, p: nat, d: string)
    requires AllDigits(d) && |d| > 0 && p + 4 + |d| + 5 <= |t|
    requires t[p..p + 4] == IdOpen && t[p + 4..p + 4 + |d|] == d && t[p + 4 + |d|..p + 4 + |d| + 5] == IdClose
    requires forall q :: 0 <= q < p ==> !IdMatchAt(t, q)
    ensures PostedId(t) == Ok(DigitsValue(d))
  {
    IdMatchOf(t, p, d);
    FirstIdIs(t, 0, p);
    assert t[p + 4..p + 4 + DigitRun(t, p + 4)] == d;
  }

  /** A piece of a concatenation is where its length says. */
  lemma Piece(a: string, b: string, c: string)
    ensures (a + b + c)[|a|..|a| + |b|] == b && a <= a + b + c
  {
  }

  /** The JSS answers a POST with the new object, whose id `post` reads
      back, provided nothing before it could start a match. */
  lemma PostedIdRoundTrip(before: string, n: nat, after: string)
    requires '<' !in before
    ensures PostedId(before + IdOpen + NatToString(n) + IdClose + after) == Ok(n)
  {
    var d := NatToString(n);
    DigitsOfNat(n);
    var t := before + IdOpen + d + IdClose + after;
    var p := |before|;
    assert t == before + IdOpen + (d + IdClose + after);
    Piece(before, IdOpen, d + IdClose + after);
    assert t == (before + IdOpen) + d + (IdClose + after);
    Piece(before + IdOpen, d, IdClose + after);
    assert t == (before + IdOpen + d) + IdClose + after;
    Piece(before + IdOpen + d, IdClose, after);
    NoMatchIn(t, before);
    PostedIdAt(t, p, d);
  }

  // ---------------------------------------------------------------------------
  // The factory

  /** The `subset` argument by Python type; `truthy` for any other type. */
  datatype SubsetArg = SubsetNone | SubsetList(items: seq<string>) | SubsetStr(s: string) | SubsetOther(truthy: bool)

  /** `get_object`'s handling of `subset`: a string is split on "&", a list
      is kept, another truthy value raises TypeError. A falsy subset is the
      empty list here, as only its truth is read later. */
  function Subset(arg: SubsetArg): (r: Result<seq<string>>)
    ensures r.Err? <==> arg == SubsetOther(true)
    ensures arg.SubsetList? ==> r == Ok(arg.items)
    ensures arg.SubsetStr? && arg.s != "" ==> r.Ok? && Join(r.value, "&") == arg.s
    ensures arg.SubsetNone? || arg == SubsetStr("") || arg == SubsetOther(false) ==> r == Ok([])
  {
    match arg
    case SubsetNone => Ok([])
    case SubsetList(items) => Ok(items)
    case SubsetStr(s) =>
      if s == "" then Ok([])
      else
        JoinSplit(s, "&");
        Ok(Split(s, "&"))
    case SubsetOther(truthy) => if truthy then Err(TypeError("")) else Ok([])
  }

  /** What the factory does for a `data` argument: a GET for a list, a GET
      for one object (`single` when the reply is one object whatever it
      holds), or a new object without any request. */
  datatype Lookup = ListAt(url: string) | OneAt(url: string, single: bool) | Fresh(element: Element)

  /** The `type` that `obj_class.__class__.__name__` names: the refusal
      names the metaclass, not the JSSObject class. */
  const RefusedName := "type"

  /** `get_list(obj_class, None, subset)`. */
  function ListLookup(cls: ObjectClass, subset: seq<string>): (r: Result<Lookup>)
    ensures !cls.canGet ==> r == Err(MethodNotAllowed(RefusedName))
    ensures cls.canGet && cls.canList ==> r.Ok? && r.value.ListAt?
    ensures cls.canGet && !cls.canList ==> r.Ok? && r.value == OneAt(cls.url, true)
  {
    var url := GetUrl(cls, DNone);
    assert url == Ok(cls.url);
    if cls.canList && cls.canGet then
      if |subset| == 1 && Upper(subset[0]) == "BASIC" && cls.kind == Computer then
        Ok(ListAt(cls.url + "/subset/basic"))
      else Ok(ListAt(cls.url))
    else if cls.canGet then Ok(OneAt(cls.url, true))
    else Err(MethodNotAllowed(RefusedName))
  }

  /** Only a Computer listing with the single subset "basic" (in any case)
      asks for the basic subset. */
  lemma BasicSubsetOnly(cls: ObjectClass, subset: seq<string>)
    requires cls.canGet && cls.canList
    ensures ListLookup(cls, subset) == Ok(ListAt(
      if cls.kind == Computer && |subset| == 1 && Upper(subset[0]) == "BASIC" then cls.url + "/subset/basic"
      else cls.url))
  {
  }

  /** The subset an individual GET asks for: "general" is added when
      missing. */
  function WithGeneral(subset: seq<string>): (r: seq<string>)
    ensures "general" in r && subset <= r
    ensures "general" in subset ==> r == subset
    ensures "general" !in subset ==> r == subset + ["general"]
  {
    if "general" in subset then subset else subset + ["general"]
  }

  /** `get_individual_object(obj_class, data, subset)`. */
  function IndividualLookup(cls: ObjectClass, data: Data, subset: seq<string>): (r: Result<Lookup>)
    ensures !cls.canGet ==> r == Err(MethodNotAllowed(RefusedName))
    ensures cls.canGet && GetUrl(cls, data).Err? ==> r == Err(GetUrl(cls, data).error)
    ensures cls.canGet && GetUrl(cls, data).Ok? && subset == [] ==> r == Ok(OneAt(GetUrl(cls, data).value, false))
    ensures cls.canGet && GetUrl(cls, data).Ok? && subset != [] ==>
      r == Ok(OneAt(GetUrl(cls, data).value + "/subset/" + Join(WithGeneral(subset), "&"), false))
  {
    if !cls.canGet then Err(MethodNotAllowed(RefusedName))
    else match GetUrl(cls, data)
      case Err(x) => Err(x)
      case Ok(url) =>
        if subset != [] then Ok(OneAt(url + "/subset/" + Join(WithGeneral(subset), "&"), false))
        else Ok(OneAt(url, false))
  }

  /** `get_object(obj_class, data, subset)`: the subset first, then by the
      type of `data`: None lists, a string or a number (a bool is one)
      fetches one object, an Element becomes a new object, anything else
      raises ValueError. */
  function GetObject(cls: ObjectClass, data: Data, subset: SubsetArg): (r: Result<Lookup>)
    ensures Subset(subset).Err? ==> r == Err(TypeError(""))
    ensures Subset(subset).Ok? ==>
      (data.DNone? ==> r == ListLookup(cls, Subset(subset).value)) &&
      (data.DStr? || data.DInt? || data.DBool? ==> r == IndividualLookup(cls, data, Subset(subset).value)) &&
      (data.DElement? ==> r == Ok(Fresh(Adopted(data.e)))) &&
      (data.DOther? ==> r == Err(ValueError("")))
  {
    match Subset(subset)
    case Err(x) => Err(x)
    case Ok(s) =>
      match data
      case DNone => ListLookup(cls, s)
      case DElement(e) => Ok(Fresh(Adopted(e)))
      case DOther => Err(ValueError(""))
      case _ => IndividualLookup(cls, data, s)
  }

  /** A list entry as the factory builds it, from the entry's name and id. */
  datatype Identity = Identity(name: Option<string>, id: Option<string>)

  /** The children `_build_jss_object_list` keeps: all but "size". */
  function Kept(cs: seq<Element>): (r: seq<Element>)
    ensures |r| <= |cs|
  {
    if cs == [] then []
    else (if cs[0].tag == "size" then [] else [cs[0]]) + Kept(cs[1..])
  }

  /** Only children that are not "size" are kept. */
  lemma {:induction false} KeptMembers(cs: seq<Element>, i: nat)
    requires i < |Kept(cs)|
    ensures Kept(cs)[i] in cs && Kept(cs)[i].tag != "size"
  {
    var h := if cs[0].tag == "size" then [] else [cs[0]];
    assert Kept(cs) == h + Kept(cs[1..]);
    if i < |h| {
      assert Kept(cs)[i] == cs[0];
    } else {
      KeptMembers(cs[1..], i - |h|);
      assert Kept(cs)[i] == Kept(cs[1..])[i - |h|];
    }
  }

  /** Keeping distributes over concatenation, so the kept children are in
      their original order. */
  lemma {:induction false} KeptAppend(a: seq<Element>, b: seq<Element>)
    ensures Kept(a + b) == Kept(a) + Kept(b)
  {
    if a == [] {
      assert a + b == b;
    } else {
      var h := if a[0].tag == "size" then [] else [a[0]];
      assert (a + b)[0] == a[0];
      assert (a + b)[1..] == a[1..] + b;
      assert Kept(a + b) == h + Kept(a[1..] + b);
      KeptAppend(a[1..], b);
      assert Kept(a) == h + Kept(a[1..]);
      assert h + (Kept(a[1..]) + Kept(b)) == (h + Kept(a[1..])) + Kept(b);
    }
  }

  /** Every child that is not "size" is kept. */
  lemma {:induction false} KeptAll(cs: seq<Element>, x: Element)
    requires x in cs && x.tag != "size"
    ensures x in Kept(cs)
  {
    if cs[0] != x {
      KeptAll(cs[1..], x);
    }
  }

  /** `_build_jss_object_list(response, obj_class)`: one entry per kept
      child, from its name and id text. */
  function ObjectList(e: Element): (r: seq<Identity>)
    ensures |r| == |Kept(e.children)|
    ensures forall i :: 0 <= i < |r| ==>
      r[i] == Identity(FindText(Kept(e.children)[i], ["name"]), FindText(Kept(e.children)[i], ["id"]))
  {
    var kept := Kept(e.children);
    seq(|kept|, i requires 0 <= i < |kept| => Identity(FindText(kept[i], ["name"]), FindText(kept[i], ["id"])))
  }

  /** What the factory hands back. */
  datatype Found = Objects(items: seq<Identity>) | Object(element: Element)

  /** The factory's result once the JSS has answered a lookup's GET with
      `reply`: a listing reads the class's container element (TypeError
      when it is missing), a search that found several objects answers with
      a `size` element and a list, anything else is one object. */
  function Received(cls: ObjectClass, lookup: Lookup, reply: Element): (r: Result<Found>)
    ensures lookup.Fresh? ==> r == Ok(Object(lookup.element))
    ensures lookup.OneAt? && (lookup.single || Find(reply, ["size"]).None?) ==> r == Ok(Object(Adopted(reply)))
    ensures lookup.OneAt? && !lookup.single && Find(reply, ["size"]).Some? ==> r == Ok(Objects(ObjectList(reply)))
    ensures lookup.ListAt? && cls.container == "" ==> r == Ok(Objects(ObjectList(reply)))
    ensures lookup.ListAt? && cls.container != "" ==>
      (r.Ok? <==> Find(reply, Path(cls.container)).Some?)
  {
    match lookup
    case Fresh(e) => Ok(Object(e))
    case OneAt(_, single) =>
      if !single && Find(reply, ["size"]).Some? then Ok(Objects(ObjectList(reply)))
      else Ok(Object(Adopted(reply)))
    case ListAt(_) =>
      if cls.container == "" then Ok(Objects(ObjectList(reply)))
      else match Find(reply, Path(cls.container))
        case None => Err(TypeError("'NoneType' object is not iterable"))
        case Some(c) => Ok(Objects(ObjectList(c)))
  }
}
