/** jss/uapiobject.py: objects of the Jamf Pro API ("uapi"). An object is a
    dictionary of JSON values with a cache marker that expires after the
    JSS's `max_age` seconds; containers are made from a name or a
    dictionary and turn keyword arguments into URL pieces. The JSS the
    objects talk to is an interface here: the requests an object makes are
    returned as values and the JSS's answers are parameters. */
module Uapi {
  import opened Errors
  import opened Text

  /** A value of an object's dictionary, as far as the library looks at it. */
  datatype Value = VNone | VBool(b: bool) | VInt(i: int) | VStr(s: string) | VOther(truthy: bool)

  /** Python truthiness of a value. */
  predicate Truthy(v: Value) {
    match v
    case VNone => false
    case VBool(b) => b
    case VInt(i) => i != 0
    case VStr(s) => s != ""
    case VOther(t) => t
  }

  /** The `cached` marker: False, "Unsaved", or the time of the last
      retrieval, counted in microseconds as `datetime` does. */
  datatype Cache = NotCached | Unsaved | At(time: int)

  /** The class attributes of a UAPI object class. */
  datatype UapiClass = UapiClass(endpointPath: Option<string>, canGet: bool, canPut: bool,
                                 canPost: bool, canDelete: bool, allowedKwargs: set<string>)

  /** A request an object asks its JSS to make. */
  datatype Request = Get(path: string) | Post(path: string, body: map<string, Value>) | Put(path: string, body: map<string, Value>)

  const Microseconds: int := 1000000

  // ---------------------------------------------------------------------------
  // Cache expiry

  /** Whether a retrieval time has outlived `max_age` seconds at `now`: only
      a timestamp expires, and only when `max_age` is not negative. */
  predicate Expired(c: Cache, now: int, maxAge: int) {
    c.At? && maxAge > -1 && now - c.time > maxAge * Microseconds
  }

  /** A negative `max_age` keeps a cache forever. */
  lemma NegativeNeverExpires(c: Cache, now: int, maxAge: int)
    requires maxAge < 0
    ensures !Expired(c, now, maxAge)
  {
  }

  /** A `max_age` of 0 expires a timestamp as soon as any time has passed. */
  lemma ZeroExpiresAtOnce(t: int, now: int)
    ensures Expired(At(t), now, 0) <==> now > t
  {
  }

  /** Once expired, a cache stays expired at every later time. */
  lemma ExpiryLasts(c: Cache, now: int, later: int, maxAge: int)
    requires Expired(c, now, maxAge) && now <= later
    ensures Expired(c, later, maxAge)
  {
  }

  /** A cache is still good for exactly `max_age` seconds after it was set. */
  lemma FreshWithinMaxAge(t: int, now: int, maxAge: nat)
    ensures !Expired(At(t), now, maxAge) <==> now <= t + maxAge * Microseconds
  {
  }

  // ---------------------------------------------------------------------------
  // URLs

  /** `'%s' % cls._endpoint_path`: an unset path formats as "None". */
  function EndpointText(p: Option<string>): string {
    match p
    case None => "None"
    case Some(s) => s
  }

  /** `build_query()` and the `url` property: both "uapi/" and the class's
      endpoint path. */
  function Url(cls: UapiClass): (r: string)
    ensures |r| >= 5 && r[..5] == "uapi/" && r[5..] == EndpointText(cls.endpointPath)
  {
    "uapi/" + EndpointText(cls.endpointPath)
  }

  // ---------------------------------------------------------------------------
  // Objects

  /** A UAPI object or container: its dictionary, its cache marker and the
      keyword arguments of the request that fetched it. */
  class UapiObject {
    const cls: UapiClass
    var data: map<string, Value>
    var cached: Cache
    var kwargs: seq<(string, KwValue)>

    /** `UAPIObject(jss, data)`: the dictionary (empty for None), not cached. */
    constructor (cls: UapiClass, data: Option<map<string, Value>>)
      ensures this.cls == cls && this.data == (if data.Some? then data.value else map[])
      ensures cached == NotCached && kwargs == []
    {
      this.cls := cls;
      this.data := if data.Some? then data.value else map[];
      cached := NotCached;
      kwargs := [];
    }

    /** The `cached` getter at time `now` for a JSS whose `max_age` is
      `maxAge`: an expired timestamp is reset to False, and the marker is
      returned. */
    method Cached(now: int, maxAge: int) returns (c: Cache)
      modifies this
      ensures Expired(old(cached), now, maxAge) ==> cached == NotCached
      ensures !Expired(old(cached), now, maxAge) ==> cached == old(cached)
      ensures c == cached && !Expired(c, now, maxAge)
      ensures data == old(data) && kwargs == old(kwargs)
    {
      if cached.At? && maxAge > -1 {
        if now - cached.time > maxAge * Microseconds {
          cached := NotCached;
        }
      }
      c := cached;
    }

    /** `retrieve()` given what the JSS answers to the GET: its dictionary
      is merged in (the answer's keys win) and the cache is set to `now`;
      a failed GET raises and changes nothing. */
    method Retrieve(got: Result<map<string, Value>>, now: int) returns (req: Request, r: Outcome)
      modifies this
      ensures req == Get(Url(cls)) && kwargs == old(kwargs)
      ensures got.Err? ==> r == Raised(got.error) && data == old(data) && cached == old(cached)
      ensures got.Ok? ==> r == Done && data == old(data) + got.value && cached == At(now)
    {
      req := Get(Url(cls));
      if got.Err? {
        return req, Raised(got.error);
      }
      data := data + got.value;
      cached := At(now);
      r := Done;
    }

    /** `save()`: POST when the class allows POST, otherwise PUT, with the
      object's dictionary; then, if the write went through and the class
      allows GET, `retrieve()`. `wrote` is the write's outcome and `got`
      the GET's answer. */
    method Save(wrote: Outcome, got: Result<map<string, Value>>, now: int) returns (reqs: seq<Request>, r: Outcome)
      modifies this
      ensures |reqs| >= 1
      ensures reqs[0] == (if cls.canPost then Post(Url(cls), old(data)) else Put(Url(cls), old(data)))
      ensures wrote.Raised? || !cls.canGet ==>
        reqs == [reqs[0]] && r == wrote && data == old(data) && cached == old(cached)
      ensures wrote.Done? && cls.canGet ==> reqs == [reqs[0], Get(Url(cls))]
      ensures wrote.Done? && cls.canGet && got.Err? ==> r == Raised(got.error) && data == old(data) && cached == old(cached)
      ensures wrote.Done? && cls.canGet && got.Ok? ==> r == Done && data == old(data) + got.value && cached == At(now)
      ensures kwargs == old(kwargs)
    {
      var write := if cls.canPost then Post(Url(cls), data) else Put(Url(cls), data);
      reqs := [write];
      r := wrote;
      if wrote.Done? && cls.canGet {
        var get;
        get, r := Retrieve(got, now);
        reqs := reqs + [get];
      }
    }
  }

  /** The `data` argument of `UAPIContainer(jss, data)`. */
  datatype DataArg = AName(s: string) | ADict(d: map<string, Value>) | AOther

  /** `UAPIContainer(jss, data)`: a name gives the dictionary {"name": name}
      and is "Unsaved"; a dictionary is taken as it is and counts as
      fetched (cached now) when it has a truthy "id", as "Unsaved"
      otherwise; anything else raises TypeError. The keyword arguments
      start empty. */
  method NewContainer(cls: UapiClass, data: DataArg, now: int) returns (r: Result<UapiObject>)
    ensures data.AOther? <==> r.Err?
    ensures r.Err? ==> r.error == TypeError("UAPIObjects data argument must be of type dict")
    ensures r.Ok? ==> fresh(r.value) && r.value.cls == cls && r.value.kwargs == []
    ensures data.AName? ==> r.Ok? && r.value.data == map["name" := VStr(data.s)] && r.value.cached == Unsaved
    ensures data.ADict? ==> (r.Ok? && r.value.data == data.d &&
      r.value.cached == (if "id" in data.d && Truthy(data.d["id"]) then At(now) else Unsaved))
  {
    match data
    case AName(s) =>
      var o := new UapiObject(cls, Some(map["name" := VStr(s)]));
      o.cached := Unsaved;
      r := Ok(o);
    case ADict(d) =>
      var o := new UapiObject(cls, Some(d));
      if "id" in d && Truthy(d["id"]) {
        o.cached := At(now);
      } else {
        o.cached := Unsaved;
      }
      r := Ok(o);
    case AOther =>
      r := Err(TypeError("UAPIObjects data argument must be of type dict"));
  }

  /** An "Unsaved" or never-fetched object never expires: only a retrieval
      time does. */
  lemma OnlyTimestampsExpire(c: Cache, now: int, maxAge: int)
    requires !c.At?
    ensures !Expired(c, now, maxAge)
  {
  }

  // ---------------------------------------------------------------------------
  // Keyword arguments

  /** One end of a `date_range`: a string, or a date by its "%Y-%m-%d"
      rendering. */
  datatype DateArg = DateText(s: string) | Date(iso: string)

  /** A keyword argument's value: a string, a list of strings or a pair of
      dates. */
  datatype KwValue = KText(s: string) | KList(items: seq<string>) | KPair(start: DateArg, end: DateArg)

  /** The subset's entries: a string is split on "&", a list is taken as it
      is; anything else has no `split`. */
  function SubsetItems(v: KwValue): (r: Result<seq<string>>)
    ensures v.KText? ==> r == Ok(Split(v.s, "&"))
    ensures v.KList? ==> r == Ok(v.items)
    ensures v.KPair? ==> r == Err(AttributeError("split"))
  {
    match v
    case KText(s) => Ok(Split(s, "&"))
    case KList(items) => Ok(items)
    case KPair(_, _) => Err(AttributeError("split"))
  }

  /** "general" is added when neither "general" nor "basic" is asked for,
      because the object's id is in "general". */
  function WithIdSection(items: seq<string>): (r: seq<string>)
    ensures "general" in r || "basic" in r
    ensures items <= r && |r| <= |items| + 1
    ensures ("general" in items || "basic" in items) <==> r == items
  {
    if "general" !in items && "basic" !in items then items + ["general"] else items
  }

  /** `start, end = val`: a pair, or any two-element string or list. */
  function Unpack(v: KwValue): (r: Result<(DateArg, DateArg)>)
    ensures v.KPair? ==> r == Ok((v.start, v.end))
    ensures r.Ok? ==> v.KPair? || (v.KText? && |v.s| == 2) || (v.KList? && |v.items| == 2)
  {
    match v
    case KPair(s, e) => Ok((s, e))
    case KText(s) => if |s| == 2 then Ok((DateText([s[0]]), DateText([s[1]]))) else Err(ValueError("need 2 values to unpack"))
    case KList(items) => if |items| == 2 then Ok((DateText(items[0]), DateText(items[1]))) else Err(ValueError("need 2 values to unpack"))
  }

  /** How one end of the range is written: a string as it is, a date by its
      rendering. */
  function DateString(d: DateArg): string {
    match d
    case DateText(s) => s
    case Date(iso) => iso
  }

  /** The `date_range` piece as written: a start that is not a string is
      formatted from the END, and formatting a string end has no
      `strftime`. */
  function DateRangeAsWritten(start: DateArg, end: DateArg): (r: Result<string>)
    ensures start.DateText? ==> r == Ok(start.s + "_" + DateString(end))
    ensures start.Date? && end.Date? ==> r == Ok(end.iso + "_" + end.iso)
    ensures start.Date? && end.DateText? ==> r == Err(AttributeError("strftime"))
  {
    match start
    case DateText(s) => Ok(s + "_" + DateString(end))
    case Date(_) =>
      match end
      case Date(iso) => Ok(iso + "_" + iso)
      case DateText(_) => Err(AttributeError("strftime"))
  }

  /** The `date_range` piece as intended: each end written from itself,
      joined by "_". */
  function DateRange(start: DateArg, end: DateArg): (r: string)
    ensures |r| == |DateString(start)| + 1 + |DateString(end)|
    ensures r[..|DateString(start)|] == DateString(start)
    ensures r[|DateString(start)| + 1..] == DateString(end)
    ensures r[|DateString(start)|] == '_'
  {
    DateString(start) + "_" + DateString(end)
  }

  /** Two different dates: the range as written starts at the end date. */
  lemma DateRangeLosesStart()
    ensures DateRangeAsWritten(Date("2020-01-01"), Date("2020-01-31")) == Ok("2020-01-31_2020-01-31")
    ensures DateRange(Date("2020-01-01"), Date("2020-01-31")) == "2020-01-01_2020-01-31"
  {
    assert "2020-01-31" + "_" + "2020-01-31" == "2020-01-31_2020-01-31";
    assert "2020-01-01" + "_" + "2020-01-31" == "2020-01-01_2020-01-31";
  }

  /** `_urlify_arg(key, val)`: "subset" becomes ["subset", the entries with
      an id section, joined by "&"]; "date_range" becomes one piece
      "<start>_<end>"; any other key becomes [key, val]. */
  function UrlifyArg(key: string, v: KwValue): (r: Result<seq<KwValue>>)
    ensures key == "subset" ==> (r.Ok? <==> SubsetItems(v).Ok?)
    ensures key == "subset" && r.Ok? ==> r.value == [KText("subset"), KText(Join(WithIdSection(SubsetItems(v).value), "&"))]
    ensures key == "date_range" ==> (r.Ok? <==> Unpack(v).Ok?)
    ensures key == "date_range" && r.Ok? ==> r.value == [KText(DateRange(Unpack(v).value.0, Unpack(v).value.1))]
    ensures key != "subset" && key != "date_range" ==> r == Ok([KText(key), v])
  {
    if key == "subset" then
      match SubsetItems(v)
      case Err(x) => Err(x)
      case Ok(items) => Ok([KText("subset"), KText(Join(WithIdSection(items), "&"))])
    else if key == "date_range" then
      match Unpack(v)
      case Err(x) => Err(x)
      case Ok(p) => Ok([KText(DateRange(p.0, p.1))])
    else Ok([KText(key), v])
  }

  predicate NoAmpersand(items: seq<string>) {
    forall k :: 0 <= k < |items| ==> '&' !in items[k]
  }

  /** The subset piece, split again on "&", asks for the id section, and
      urlifying it a second time changes nothing. */
  lemma {:induction false} SubsetPieceStable(v: KwValue)
    requires SubsetItems(v).Ok? && NoAmpersand(SubsetItems(v).value)
    ensures var joined := Join(WithIdSection(SubsetItems(v).value), "&");
      var again := Split(joined, "&");
      ("general" in again || "basic" in again) &&
      UrlifyArg("subset", KText(joined)) == UrlifyArg("subset", v)
  {
    var items := WithIdSection(SubsetItems(v).value);
    assert NoAmpersand(items) by {
      forall k | 0 <= k < |items| ensures '&' !in items[k] {
        if k < |SubsetItems(v).value| {
          assert items[k] == SubsetItems(v).value[k];
        } else {
          assert items[k] == "general";
        }
      }
    }
    assert |items| >= 1 by {
      assert "general" in items || "basic" in items;
    }
    SplitJoin(items, '&');
    assert Split(Join(items, "&"), "&") == items by {
      assert "&" == ['&'];
    }
  }

  /** A string subset's pieces never hold "&". */
  lemma TextSubsetNoAmpersand(s: string)
    ensures NoAmpersand(Split(s, "&"))
  {
    SplitPiecesFree(s, '&');
    assert "&" == ['&'];
  }

  /** The keyword arguments are used only when there are some and every
      key is one the class allows. */
  predicate Admitted(kwargs: seq<(string, KwValue)>, allowed: set<string>) {
    kwargs != [] && forall i :: 0 <= i < |kwargs| ==> kwargs[i].0 in allowed
  }

  /** The URL pieces of the keyword arguments, in order; the first one that
      cannot be urlified raises. */
  function Pieces(kwargs: seq<(string, KwValue)>): (r: Result<seq<KwValue>>)
    decreases |kwargs|
  {
    if kwargs == [] then Ok([])
    else match UrlifyArg(kwargs[0].0, kwargs[0].1)
      case Err(x) => Err(x)
      case Ok(p) =>
        match Pieces(kwargs[1..])
        case Err(x) => Err(x)
        case Ok(rest) => Ok(p + rest)
  }

  /** The pieces `urls` already made, followed by the rest's. */
  function Glue(urls: seq<KwValue>, rest: Result<seq<KwValue>>): Result<seq<KwValue>> {
    match rest
    case Err(x) => Err(x)
    case Ok(v) => Ok(urls + v)
  }

  lemma GlueNothing(rest: Result<seq<KwValue>>)
    ensures Glue([], rest) == rest
  {
    if rest.Ok? {
      assert [] + rest.value == rest.value;
    }
  }

  lemma GlueTwice(a: seq<KwValue>, b: seq<KwValue>, rest: Result<seq<KwValue>>)
    ensures Glue(a, Glue(b, rest)) == Glue(a + b, rest)
  {
    if rest.Ok? {
      assert a + (b + rest.value) == (a + b) + rest.value;
    }
  }

  /** `_process_kwargs(kwargs)`: the pieces of every argument in order, or
      nothing when some key is not allowed or there are none. */
  method ProcessKwargs(kwargs: seq<(string, KwValue)>, allowed: set<string>) returns (r: Result<seq<KwValue>>)
    ensures !Admitted(kwargs, allowed) ==> r == Ok([])
    ensures Admitted(kwargs, allowed) ==> r == Pieces(kwargs)
  {
    if !Admitted(kwargs, allowed) {
      return Ok([]);
    }
    var urls: seq<KwValue> := [];
    var i := 0;
    assert kwargs[0..] == kwargs;
    GlueNothing(Pieces(kwargs));
    while i < |kwargs|
      invariant 0 <= i <= |kwargs|
      invariant Pieces(kwargs) == Glue(urls, Pieces(kwargs[i..]))
    {
      assert kwargs[i..][1..] == kwargs[i + 1..];
      assert kwargs[i..][0] == kwargs[i];
      var p := UrlifyArg(kwargs[i].0, kwargs[i].1);
      if p.Err? {
        return Err(p.error);
      }
      assert Pieces(kwargs[i..]) == Glue(p.value, Pieces(kwargs[i + 1..]));
      GlueTwice(urls, p.value, Pieces(kwargs[i + 1..]));
      urls := urls + p.value;
      i := i + 1;
    }
    assert urls + [] == urls;
    r := Ok(urls);
  }

  /** Keys and values alternate: with neither "date_range" nor an
      unsplittable subset, argument `i` gives pieces `2i` (its key, or
      "subset") and `2i + 1`. */
  lemma {:induction false} PiecesAlternate(kwargs: seq<(string, KwValue)>)
    requires forall i :: 0 <= i < |kwargs| ==> kwargs[i].0 != "date_range" && UrlifyArg(kwargs[i].0, kwargs[i].1).Ok?
    ensures Pieces(kwargs).Ok? && |Pieces(kwargs).value| == 2 * |kwargs|
    ensures forall i :: 0 <= i < |kwargs| ==> Pieces(kwargs).value[2 * i] == KText(kwargs[i].0)
    decreases |kwargs|
  {
    if kwargs != [] {
      PiecesAlternate(kwargs[1..]);
      var rest := Pieces(kwargs[1..]).value;
      var p := UrlifyArg(kwargs[0].0, kwargs[0].1).value;
      assert |p| == 2 && p[0] == KText(kwargs[0].0);
      forall i | 0 < i < |kwargs| ensures (p + rest)[2 * i] == KText(kwargs[i].0) {
        assert kwargs[1..][i - 1] == kwargs[i];
        assert (p + rest)[2 * i] == rest[2 * (i - 1)];
      }
    }
  }
}
