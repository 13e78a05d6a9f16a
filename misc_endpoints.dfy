/** jss/misc_endpoints.py: the API endpoints that are not JSS objects.
    CommandFlush and LogFlush validate their arguments and build the path
    of one DELETE; FileUpload validates its parameters and builds the url
    it POSTs the file to. The DELETE and the POST are returned as values. */
module MiscEndpoints {
  import opened Errors
  import opened Text
  import opened Xml
  import Paths

  /** An id given as an int or a string. */
  datatype IdArg = IdInt(i: int) | IdStr(s: string)

  /** `str(id)`. */
  function IdText(id: IdArg): string {
    match id
    case IdInt(i) => IntToString(i)
    case IdStr(s) => s
  }

  /** The body of a `*_with_xml` flush: a string, or an Element the library
      serialises as UTF-8 XML. */
  datatype XmlArg = XmlText(s: string) | XmlTree(e: Element)

  /** A DELETE the endpoint asks its JSS to make: the path, and the body when
      there is one. */
  datatype Delete = Delete(path: string, body: Option<XmlArg>)

  /** `command_flush_with_xml(data)` and `log_flush_with_xml(data)`: one
      DELETE to the endpoint's path; a string body goes as it is, anything
      else is serialised first (serialisation is not part of this model). */
  function FlushWithXml(endpoint: string, data: XmlArg): (r: Delete)
    ensures r.path == endpoint && r.body == Some(data)
    ensures data.XmlText? ==> r.body.value.s == data.s
  {
    Delete(endpoint, Some(data))
  }

  // ---------------------------------------------------------------------------
  // CommandFlush

  const CommandFlushPath := "commandflush"
  const CommandIdTypes: seq<string> := ["computers", "computergroups", "mobiledevices", "mobiledevicegroups"]
  const CommandStatuses: seq<string> := ["Pending", "Failed", "Pending+Failed"]

  /** The `command_id` argument: one id, or a list of them. */
  datatype CommandIds = OneId(id: IdArg) | IdList(ids: seq<IdArg>)

  /** The ids as they go into the path: a list is joined with ",". */
  function IdsText(ids: CommandIds): string {
    match ids
    case OneId(id) => IdText(id)
    case IdList(items) => Join(seq(|items|, k requires 0 <= k < |items| => IdText(items[k])), ",")
  }

  /** `command_flush_for(id_type, command_id, status)`: ValueError, before
      any request, unless the id type and the status are both known;
      otherwise the DELETE of "commandflush/<type>/id/<ids>/status/<status>". */
  function CommandFlushFor(idType: string, ids: CommandIds, status: string): (r: Result<Delete>)
    ensures r.Ok? <==> idType in CommandIdTypes && status in CommandStatuses
    ensures r.Err? ==> r.error == ValueError("Invalid arguments.")
    ensures r.Ok? ==> (r.value.body.None? &&
      r.value.path == CommandFlushPath + "/" + idType + "/" + "id" + "/" + IdsText(ids) + "/" + "status" + "/" + status)
  {
    if idType !in CommandIdTypes || status !in CommandStatuses then Err(ValueError("Invalid arguments."))
    else
      JoinSix(CommandFlushPath, idType, "id", IdsText(ids), "status", status);
      Ok(Delete(Join([CommandFlushPath, idType, "id", IdsText(ids), "status", status], "/"), None))
  }

  /** Six path segments joined by "/". */
  lemma JoinSix(a: string, b: string, c: string, d: string, e: string, f: string)
    ensures Join([a, b, c, d, e, f], "/") == a + "/" + b + "/" + c + "/" + d + "/" + e + "/" + f
  {
    JoinFour(c, d, e, f);
    JoinCons(b, [c, d, e, f], "/");
    assert [b] + [c, d, e, f] == [b, c, d, e, f];
    JoinCons(a, [b, c, d, e, f], "/");
    assert [a] + [b, c, d, e, f] == [a, b, c, d, e, f];
  }

  /** Four path segments joined by "/". */
  lemma JoinFour(a: string, b: string, c: string, d: string)
    ensures Join([a, b, c, d], "/") == a + "/" + b + "/" + c + "/" + d
  {
    JoinCons(c, [d], "/");
    assert [c] + [d] == [c, d];
    JoinCons(b, [c, d], "/");
    assert [b] + [c, d] == [b, c, d];
    JoinCons(a, [b, c, d], "/");
    assert [a] + [b, c, d] == [a, b, c, d];
  }

  /** `str(i)` is a sign and digits. */
  lemma IntTextChars(i: int)
    ensures forall j :: 0 <= j < |IntToString(i)| ==> IntToString(i)[j] == '-' || IsDigit(IntToString(i)[j])
  {
    if i < 0 {
      var t := IntToString(i);
      forall j | 0 < j < |t| ensures IsDigit(t[j]) {
        assert t[j] == NatToString(-i)[j - 1];
      }
    }
  }

  predicate NoSlash(parts: seq<string>) {
    forall k :: 0 <= k < |parts| ==> '/' !in parts[k]
  }

  lemma CommandTypesNoSlash(idType: string, status: string)
    requires idType in CommandIdTypes && status in CommandStatuses
    ensures '/' !in idType && '/' !in status
  {
  }

  /** The flush path splits back into its segments, the ids among them,
      when the ids hold no "/". */
  lemma CommandFlushSegments(idType: string, ids: CommandIds, status: string)
    requires CommandFlushFor(idType, ids, status).Ok? && '/' !in IdsText(ids)
    ensures Split(CommandFlushFor(idType, ids, status).value.path, "/") ==
      [CommandFlushPath, idType, "id", IdsText(ids), "status", status]
  {
    var parts := [CommandFlushPath, idType, "id", IdsText(ids), "status", status];
    JoinSix(CommandFlushPath, idType, "id", IdsText(ids), "status", status);
    CommandTypesNoSlash(idType, status);
    SplitJoin(parts, '/');
    assert "/" == ['/'];
  }

  /** A list of integer ids splits back, on ",", into one decimal text per
      id, each reading back as that id. */
  lemma CommandIdsRoundTrip(ids: seq<int>)
    requires |ids| >= 1
    ensures var items := seq(|ids|, k requires 0 <= k < |ids| => IdInt(ids[k]));
      var pieces := Split(IdsText(IdList(items)), ",");
      |pieces| == |ids| && forall k :: 0 <= k < |ids| ==> ParseInt(pieces[k]) == Some(ids[k])
  {
    var items := seq(|ids|, k requires 0 <= k < |ids| => IdInt(ids[k]));
    var texts := seq(|items|, k requires 0 <= k < |items| => IdText(items[k]));
    forall k | 0 <= k < |texts| ensures ',' !in texts[k] && ParseInt(texts[k]) == Some(ids[k]) {
      ParseIntToString(ids[k]);
      IntTextChars(ids[k]);
    }
    SplitJoin(texts, ',');
    assert "," == [','];
  }

  // ---------------------------------------------------------------------------
  // LogFlush

  const LogFlushPath := "logflush"

  /** `log_type` or "policies" when it is empty or None. */
  function LogType(logType: Option<string>): (r: string)
    ensures logType.Some? && logType.value != "" ==> r == logType.value
    ensures logType.None? || logType.value == "" ==> r == "policies"
  {
    if logType.None? || logType.value == "" then "policies" else logType.value
  }

  /** `interval.replace(" ", "+")`: no space survives, and every other
      character stays in place. */
  function Interval(interval: string): (r: string)
    ensures |r| == |interval| && ' ' !in r
    ensures forall i :: 0 <= i < |r| && interval[i] != ' ' ==> r[i] == interval[i]
    ensures forall i :: 0 <= i < |r| && interval[i] == ' ' ==> r[i] == '+'
  {
    ReplaceChar(interval, ' ', '+')
  }

  /** `log_flush_for_interval(log_type, interval)`: the DELETE of
      "logflush/<type>/interval/<interval>". */
  function LogFlushForInterval(logType: Option<string>, interval: string): (r: Delete)
    ensures r.body.None?
    ensures r.path == LogFlushPath + "/" + LogType(logType) + "/interval/" + Interval(interval)
  {
    Delete(LogFlushPath + "/" + LogType(logType) + "/interval/" + Interval(interval), None)
  }

  /** `log_flush_for_obj_for_interval(log_type, obj_id, interval)`: the
      same path with "/id/<obj_id>" before "/interval/". */
  function LogFlushForObjForInterval(logType: Option<string>, objId: IdArg, interval: string): (r: Delete)
    ensures r.body.None?
    ensures r.path == LogFlushPath + "/" + LogType(logType) + "/id/" + IdText(objId) + "/interval/" + Interval(interval)
  {
    Delete(LogFlushPath + "/" + LogType(logType) + "/id/" + IdText(objId) + "/interval/" + Interval(interval), None)
  }

  /** The object variant is the interval variant with "/id/<obj_id>"
      inserted after the log type, and nothing else changed. */
  lemma LogFlushObjInserts(logType: Option<string>, objId: IdArg, interval: string)
    ensures var head := LogFlushPath + "/" + LogType(logType);
      var plain := LogFlushForInterval(logType, interval).path;
      head <= plain &&
      LogFlushForObjForInterval(logType, objId, interval).path == head + "/id/" + IdText(objId) + plain[|head|..]
  {
    var head := LogFlushPath + "/" + LogType(logType);
    var plain := LogFlushForInterval(logType, interval).path;
    assert plain == head + ("/interval/" + Interval(interval));
    assert plain[|head|..] == "/interval/" + Interval(interval);
  }

  // ---------------------------------------------------------------------------
  // FileUpload

  const UploadEndpoint := "fileuploads"
  const ResourceTypes: seq<string> := [
    "computers", "mobiledevices", "enrollmentprofiles", "peripherals", "mobiledeviceenrollmentprofiles",
    "policies", "ebooks", "mobiledeviceapplicationsicon", "mobiledeviceapplicationsipa",
    "diskencryptionconfigurations", "printers"]
  const UploadIdTypes: seq<string> := ["id", "name"]

  /** A prepared upload: its parameters, the id as a string, the name the
      file is sent under, and the url it POSTs to. */
  datatype FileUpload = FileUpload(resourceType: string, idType: string, id: string, fileName: string, uploadUrl: string)

  /** `"/".join([jss._url, "fileuploads", resource_type, id_type, str(id)])`. */
  function UploadUrl(jssUrl: string, resourceType: string, idType: string, id: string): (r: string)
    ensures r == Join([jssUrl, UploadEndpoint, resourceType, idType, id], "/")
    ensures r == jssUrl + "/" + UploadEndpoint + "/" + resourceType + "/" + idType + "/" + id
  {
    JoinFour(UploadEndpoint, resourceType, idType, id);
    JoinCons(jssUrl, [UploadEndpoint, resourceType, idType, id], "/");
    assert [jssUrl] + [UploadEndpoint, resourceType, idType, id] == [jssUrl, UploadEndpoint, resourceType, idType, id];
    Join([jssUrl, UploadEndpoint, resourceType, idType, id], "/")
  }

  /** `FileUpload(j, resource_type, id_type, _id, resource)` given the JSS's
      `_url`, where `resourceIsFile` says whether `resource` names a
      readable file: TypeError for a resource type outside the eleven, then
      for an id type other than "id" or "name"; then `open(resource, "rb")`
      raises IOError for anything but a file. Otherwise the id is kept as its
      string, the file is sent under its basename and the upload url is
      set. */
  function NewFileUpload(jssUrl: string, resourceType: string, idType: string, id: IdArg,
                         resource: string, resourceIsFile: bool): (r: Result<FileUpload>)
    ensures r.Ok? <==> resourceType in ResourceTypes && idType in UploadIdTypes && resourceIsFile
    ensures resourceType !in ResourceTypes ==> r.Err? && r.error.TypeError?
    ensures resourceType in ResourceTypes && idType !in UploadIdTypes ==> r == Err(TypeError("id_type must be one of: id, name"))
    ensures resourceType in ResourceTypes && idType in UploadIdTypes && !resourceIsFile ==> r == Err(IOError(resource))
    ensures r.Ok? ==> (r.value.resourceType == resourceType && r.value.idType == idType &&
      r.value.id == IdText(id) && r.value.fileName == Paths.Basename(resource) &&
      r.value.uploadUrl == UploadUrl(jssUrl, resourceType, idType, IdText(id)))
  {
    if resourceType !in ResourceTypes then
      Err(TypeError("resource_type must be one of: " + Join(ResourceTypes, ", ")))
    else if idType !in UploadIdTypes then Err(TypeError("id_type must be one of: id, name"))
    else if !resourceIsFile then Err(IOError(resource))
    else Ok(FileUpload(resourceType, idType, IdText(id), Paths.Basename(resource),
                       UploadUrl(jssUrl, resourceType, idType, IdText(id))))
  }

  lemma UploadTypesNoSlash(resourceType: string, idType: string)
    requires resourceType in ResourceTypes && idType in UploadIdTypes
    ensures '/' !in resourceType && '/' !in idType
  {
  }

  /** The upload url starts with the JSS's url, and below it splits back
      into the endpoint, the resource type, the id type and the id, when
      the id holds no "/". */
  lemma UploadUrlSegments(jssUrl: string, resourceType: string, idType: string, id: IdArg, resource: string)
    requires NewFileUpload(jssUrl, resourceType, idType, id, resource, true).Ok? && '/' !in IdText(id)
    ensures var u := NewFileUpload(jssUrl, resourceType, idType, id, resource, true).value.uploadUrl;
      jssUrl + "/" <= u && Split(u[|jssUrl| + 1..], "/") == [UploadEndpoint, resourceType, idType, IdText(id)]
  {
    var u := NewFileUpload(jssUrl, resourceType, idType, id, resource, true).value.uploadUrl;
    var parts := [UploadEndpoint, resourceType, idType, IdText(id)];
    JoinCons(jssUrl, parts, "/");
    assert [jssUrl] + parts == [jssUrl, UploadEndpoint, resourceType, idType, IdText(id)];
    assert u == jssUrl + "/" + Join(parts, "/");
    assert u[|jssUrl| + 1..] == Join(parts, "/");
    UploadTypesNoSlash(resourceType, idType);
    SplitJoin(parts, '/');
    assert "/" == ['/'];
  }

  /** `save()` once the POST has answered: a POST that raised JSSPostError
      with status 409 re-raises it, a JSSPostError with any other status
      becomes JSSMethodNotAllowedError naming the class, and any other
      exception is not caught and propagates as it is; a status of 400 or
      more raises JSSPostError with the status; anything else succeeds. */
  function UploadSaved(posted: Result<int>): (r: Outcome)
    ensures posted.Ok? ==> (r.Raised? <==> posted.value >= 400)
    ensures posted.Ok? && posted.value >= 400 ==> r.error.PostError? && r.error.status == Some(posted.value)
    ensures posted.Err? && posted.error.PostError? && posted.error.status == Some(409) ==> r.Raised? && r.error.PostError?
    ensures posted.Err? && posted.error.PostError? && posted.error.status != Some(409) ==>
      r == Raised(MethodNotAllowed("FileUpload"))
    ensures posted.Err? && !posted.error.PostError? ==> r == Raised(posted.error)
  {
    match posted
    case Err(x) =>
      if !x.PostError? then Raised(x)
      else if x.status == Some(409) then Raised(PostError(None, x.message))
      else Raised(MethodNotAllowed("FileUpload"))
    case Ok(status) =>
      if status == 201 then Done
      else if status >= 400 then Raised(PostError(Some(status), ""))
      else Done
  }
}
