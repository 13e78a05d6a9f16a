/** jss/curl_adapter.py: the curl argument list the adapter builds for each
    request, the header lists of post/put/delete, and what becomes of curl's
    exit status and output. The command is produced, never run; its exit
    status and standard output are parameters of `Complete`. */
module CurlAdapter {
  import opened Errors
  import opened Text
  import opened ResponseAdapter

  /** The `data` argument of `_build_command`: an open file, a dict of form
      fields (in iteration order), or any other value rendered as text. */
  datatype Data = NoData | FileData(name: string) | FormData(fields: seq<(string, string)>) | RawData(text: string)

  /** Python truthiness of `data`: a file object is always true. */
  predicate DataGiven(d: Data) {
    match d
    case NoData => false
    case FileData(_) => true
    case FormData(fields) => fields != []
    case RawData(text) => text != ""
  }

  /** The part of `files['name']` that the command uses: the file's path
      and its content type. */
  datatype FilePart = FilePart(path: string, contentType: string)

  const AcceptHeader: string := "Accept: application/xml"

  /** Pairs of arguments laid out one after the other. */
  function Flatten(ps: seq<(string, string)>): (r: seq<string>)
    ensures |r| == 2 * |ps|
  {
    if ps == [] then [] else Flatten(ps[..|ps| - 1]) + [ps[|ps| - 1].0, ps[|ps| - 1].1]
  }

  /** Pair `j` sits at positions `2j` and `2j + 1`. */
  lemma {:induction false} FlattenAt(ps: seq<(string, string)>)
    ensures forall j :: 0 <= j < |ps| ==> Flatten(ps)[2 * j] == ps[j].0 && Flatten(ps)[2 * j + 1] == ps[j].1
  {
    if ps != [] {
      FlattenAt(ps[..|ps| - 1]);
    }
  }

  function HeaderPairs(hs: seq<string>): (r: seq<(string, string)>)
    ensures |r| == |hs| && forall j :: 0 <= j < |hs| ==> r[j] == ("--header", hs[j])
  {
    seq(|hs|, j requires 0 <= j < |hs| => ("--header", hs[j]))
  }

  function FieldPairs(fields: seq<(string, string)>): (r: seq<(string, string)>)
    ensures |r| == |fields| && forall j :: 0 <= j < |fields| ==> r[j] == ("-F", fields[j].0 + "=" + fields[j].1)
  {
    seq(|fields|, j requires 0 <= j < |fields| => ("-F", fields[j].0 + "=" + fields[j].1))
  }

  function AuthPrefix(user: string, password: string): seq<string> {
    ["curl", "-u", user + ":" + password, "--silent", "--write-out", "|%{response_code}"]
  }

  function Flags(verify: bool, useTls: bool): seq<string> {
    (if !verify then ["--insecure"] else []) + (if useTls then ["--tlsv1"] else [])
  }

  function DataArgs(d: Data): seq<string> {
    if !DataGiven(d) then []
    else match d
      case FileData(name) => ["--data-binary", "@" + name]
      case FormData(fields) => Flatten(FieldPairs(fields))
      case RawData(text) => ["--data", text]
      case NoData => []
  }

  function FileArgs(files: Option<FilePart>): seq<string> {
    match files
    case None => []
    case Some(f) => ["--form", "name=@" + f.path + ";type=" + f.contentType]
  }

  /** Everything before the headers: credentials, output format, TLS options. */
  function Head(user: string, password: string, verify: bool, useTls: bool): seq<string> {
    AuthPrefix(user, password) + Flags(verify, useTls)
  }

  /** Everything after the headers: body, form file, extra arguments, URL. */
  function Tail(url: string, data: Data, files: Option<FilePart>, kwargs: seq<(string, string)>): seq<string> {
    DataArgs(data) + FileArgs(files) + Flatten(kwargs) + [url]
  }

  /** The argument list `_build_command` returns. */
  function Command(user: string, password: string, verify: bool, useTls: bool, url: string,
                   headers: seq<string>, data: Data, files: Option<FilePart>,
                   kwargs: seq<(string, string)>): seq<string>
  {
    Head(user, password, verify, useTls) + Flatten(HeaderPairs([AcceptHeader] + headers))
      + Tail(url, data, files, kwargs)
  }

  /** The command starts with curl, the credentials, `--silent` and the
      `|<status>` write-out format, and ends with the URL. */
  lemma CommandEnds(user: string, password: string, verify: bool, useTls: bool, url: string,
                    headers: seq<string>, data: Data, files: Option<FilePart>, kwargs: seq<(string, string)>)
    ensures var c := Command(user, password, verify, useTls, url, headers, data, files, kwargs);
      |c| > 6 && c[..6] == ["curl", "-u", user + ":" + password, "--silent", "--write-out", "|%{response_code}"]
      && c[|c| - 1] == url
  {
  }

  /** The TLS options: `--insecure` iff verification is off, `--tlsv1` iff
      TLS is on, and nothing else. */
  lemma FlagsIff(verify: bool, useTls: bool)
    ensures "--insecure" in Flags(verify, useTls) <==> !verify
    ensures "--tlsv1" in Flags(verify, useTls) <==> useTls
    ensures "--header" !in Flags(verify, useTls)
  {
    assert "--insecure"[2] != "--tlsv1"[2];
    assert "--header"[2] != "--tlsv1"[2] && "--header"[2] != "--insecure"[2];
  }

  /** Between the write-out format and the first header come exactly the
      TLS options. */
  lemma CommandOptions(user: string, password: string, verify: bool, useTls: bool, url: string,
                       headers: seq<string>, data: Data, files: Option<FilePart>,
                       kwargs: seq<(string, string)>)
    ensures var c := Command(user, password, verify, useTls, url, headers, data, files, kwargs);
      var k := 6 + |Flags(verify, useTls)|;
      k < |c|
      && ("--insecure" in c[6..k] <==> !verify)
      && ("--tlsv1" in c[6..k] <==> useTls)
      && "--header" !in c[6..k]
  {
    var head := Head(user, password, verify, useTls);
    var rest := Flatten(HeaderPairs([AcceptHeader] + headers)) + Tail(url, data, files, kwargs);
    assert Command(user, password, verify, useTls, url, headers, data, files, kwargs) == head + rest;
    assert (head + rest)[6..|head|] == Flags(verify, useTls);
    FlagsIff(verify, useTls);
  }

  /** The first header is always the Accept header, and the caller's
      headers follow in order, each after its own `--header`. */
  lemma CommandHeaders(user: string, password: string, verify: bool, useTls: bool, url: string,
                       headers: seq<string>, data: Data, files: Option<FilePart>,
                       kwargs: seq<(string, string)>)
    ensures var c := Command(user, password, verify, useTls, url, headers, data, files, kwargs);
      var k := 6 + |Flags(verify, useTls)|;
      k + 2 + 2 * |headers| < |c|
      && c[k] == "--header" && c[k + 1] == AcceptHeader
      && forall j :: 0 <= j < |headers| ==> c[k + 2 + 2 * j] == "--header" && c[k + 3 + 2 * j] == headers[j]
  {
    var head := Head(user, password, verify, useTls);
    var tail := Tail(url, data, files, kwargs);
    assert Command(user, password, verify, useTls, url, headers, data, files, kwargs)
      == head + Flatten(HeaderPairs([AcceptHeader] + headers)) + tail;
    HeadersAt(head, headers, tail);
  }

  lemma HeadersAt(head: seq<string>, headers: seq<string>, tail: seq<string>)
    ensures var c := head + Flatten(HeaderPairs([AcceptHeader] + headers)) + tail;
      var k := |head|;
      c[k] == "--header" && c[k + 1] == AcceptHeader
      && forall j :: 0 <= j < |headers| ==> c[k + 2 + 2 * j] == "--header" && c[k + 3 + 2 * j] == headers[j]
  {
    var pairs := HeaderPairs([AcceptHeader] + headers);
    var hs := Flatten(pairs);
    var c := head + hs + tail;
    var k := |head|;
    FlattenAt(pairs);
    assert pairs[0] == ("--header", AcceptHeader);
    assert hs[2 * 0] == "--header" && hs[2 * 0 + 1] == AcceptHeader;
    assert c[k] == hs[0] && c[k + 1] == hs[1];
    forall j | 0 <= j < |headers| ensures c[k + 2 + 2 * j] == "--header" && c[k + 3 + 2 * j] == headers[j] {
      assert pairs[j + 1] == ("--header", headers[j]);
      assert hs[2 * (j + 1)] == "--header" && hs[2 * (j + 1) + 1] == headers[j];
      assert c[k + 2 * (j + 1)] == hs[2 * (j + 1)];
      assert c[k + 2 * (j + 1) + 1] == hs[2 * (j + 1) + 1];
    }
  }

  /** Every header the caller passes appears in the command. */
  lemma HeaderInCommand(user: string, password: string, verify: bool, useTls: bool, url: string,
                        headers: seq<string>, data: Data, files: Option<FilePart>,
                        kwargs: seq<(string, string)>, h: string)
    requires h in headers
    ensures h in Command(user, password, verify, useTls, url, headers, data, files, kwargs)
  {
    CommandHeaders(user, password, verify, useTls, url, headers, data, files, kwargs);
    var j :| 0 <= j < |headers| && headers[j] == h;
    var c := Command(user, password, verify, useTls, url, headers, data, files, kwargs);
    assert c[6 + |Flags(verify, useTls)| + 3 + 2 * j] == h;
  }

  /** The extra arguments come as key, value pairs right before the URL. */
  lemma KwargsBeforeUrl(user: string, password: string, verify: bool, useTls: bool, url: string,
                        headers: seq<string>, data: Data, files: Option<FilePart>, kwargs: seq<(string, string)>)
    ensures var c := Command(user, password, verify, useTls, url, headers, data, files, kwargs);
      var n := |c| - 1 - 2 * |kwargs|;
      n >= 0 && forall j :: 0 <= j < |kwargs| ==> c[n + 2 * j] == kwargs[j].0 && c[n + 2 * j + 1] == kwargs[j].1
  {
    var b := BeforeKwargs(user, password, verify, useTls, headers, data, files);
    RegroupTail(Head(user, password, verify, useTls) + Flatten(HeaderPairs([AcceptHeader] + headers)),
                DataArgs(data), FileArgs(files), Flatten(kwargs), url);
    assert Command(user, password, verify, useTls, url, headers, data, files, kwargs) == b + Flatten(kwargs) + [url];
    PairsAt(b, kwargs, url);
  }

  lemma PairsAt(b: seq<string>, kwargs: seq<(string, string)>, url: string)
    ensures var c := b + Flatten(kwargs) + [url];
      forall j :: 0 <= j < |kwargs| ==> c[|b| + 2 * j] == kwargs[j].0 && c[|b| + 2 * j + 1] == kwargs[j].1
  {
    FlattenAt(kwargs);
  }

  lemma RegroupTail(front: seq<string>, d: seq<string>, f: seq<string>, k: seq<string>, url: string)
    ensures front + d + f + k + [url] == front + (d + f + k + [url])
  {
  }

  /** The body arguments: a file is sent with `--data-binary @name`, a dict
      as one `-F key=value` per field in order, other data with `--data`,
      and nothing at all for data Python counts as false. */
  lemma DataRendering(d: Data)
    ensures !DataGiven(d) <==> DataArgs(d) == []
    ensures d.FileData? ==> DataArgs(d) == ["--data-binary", "@" + d.name]
    ensures d.RawData? && d.text != "" ==> DataArgs(d) == ["--data", d.text]
    ensures d.FormData? ==> (|DataArgs(d)| == 2 * |d.fields|
      && forall j :: 0 <= j < |d.fields| ==>
           DataArgs(d)[2 * j] == "-F" && DataArgs(d)[2 * j + 1] == d.fields[j].0 + "=" + d.fields[j].1)
  {
    if d.FormData? {
      FlattenAt(FieldPairs(d.fields));
    }
  }

  /** `'text/xml' if not files else 'multipart/form-data'`. */
  function ContentType(files: Option<FilePart>): (r: string)
    ensures r == "multipart/form-data" <==> files.Some?
  {
    if files.None? then "text/xml" else "multipart/form-data"
  }

  function RenderHeader(h: (string, string)): string {
    h.0 + ": " + h.1
  }

  /** Each header of a dict rendered as `key: value`, in iteration order. */
  function RenderHeaders(headers: seq<(string, string)>): (r: seq<string>)
    ensures |r| == |headers|
  {
    if headers == [] then [] else RenderHeaders(headers[..|headers| - 1]) + [RenderHeader(headers[|headers| - 1])]
  }

  lemma {:induction false} RenderHeadersAt(headers: seq<(string, string)>)
    ensures forall j :: 0 <= j < |headers| ==> RenderHeaders(headers)[j] == headers[j].0 + ": " + headers[j].1
  {
    if headers != [] {
      RenderHeadersAt(headers[..|headers| - 1]);
    }
  }

  /** The header list of post and put: the content type, then the caller's
      headers. */
  function WriteHeaders(files: Option<FilePart>, headers: seq<(string, string)>): (r: seq<string>)
    ensures |r| == |headers| + 1
  {
    ["Content-Type: " + ContentType(files)] + RenderHeaders(headers)
  }

  /** The content type comes first, then each caller header as `key: value`
      in order. */
  lemma WriteHeadersAt(files: Option<FilePart>, headers: seq<(string, string)>)
    ensures WriteHeaders(files, headers)[0] == "Content-Type: " + ContentType(files)
    ensures forall j :: 0 <= j < |headers| ==> WriteHeaders(files, headers)[j + 1] == headers[j].0 + ": " + headers[j].1
  {
    RenderHeadersAt(headers);
  }

  /** The text of the known curl exit codes (CURL_RETURNCODE). */
  const ReturnCodes: map<int, string> := map[
    1 := "Unsupported protocol. This build of curl has no support for this protocol.",
    2 := "Failed to initialize.",
    3 := "URL malformed. The syntax was not correct.",
    4 := "A feature or option that was needed to perform the desired request was not enabled or was explicitly disabled "
         + "at build-time. To make curl able to do this, you probably need another build of libcurl!",
    5 := "Couldn't resolve proxy. The given proxy host could not be resolved.",
    6 := "Couldn't resolve host. The given remote host was not resolved.",
    7 := "Failed to connect to host.",
    8 := "Weird server reply. The server sent data curl couldn't parse.",
    22 := "HTTP page not retrieved. The requested url was not found or returned another error with the HTTP error "
          + "code being 400 or above.",
    23 := "Write error. Curl couldn't write data to a local filesystem or similar.",
    27 := "Out of memory. A memory allocation request failed.",
    28 := "Operation timeout. The specified time-out period was reached according to the conditions.",
    33 := "HTTP range error. The range \"command\" didn't work.",
    35 := "SSL connect error. The SSL handshaking failed.",
    47 := "Too many redirects. When following redirects, curl hit the maximum amount.",
    60 := "Peer certificate cannot be authenticated with known CA certificates."
  ]

  /** The message of the JSSError raised for a non-zero curl exit status. */
  function CurlErrorMessage(code: int): string {
    if code in ReturnCodes then "CURL Error: " + ReturnCodes[code]
    else "Unknown curl error: " + IntToString(code)
  }

  /** Known codes carry their description; for unknown ones the code itself
      can be read back from the message. */
  lemma CurlErrorMessages(code: int)
    ensures code in ReturnCodes ==> CurlErrorMessage(code)[..12] == "CURL Error: "
    ensures code !in ReturnCodes ==>
      var m := CurlErrorMessage(code);
      |m| > 20 && m[..20] == "Unknown curl error: " && ParseInt(m[20..]) == Some(code)
  {
    if code !in ReturnCodes {
      var m := CurlErrorMessage(code);
      assert m[20..] == IntToString(code);
      ParseIntToString(code);
    }
  }

  /** The Python 2 `str.decode()` of curl's output with the default ASCII
      codec fails on any byte above 0x7F. */
  predicate Ascii(bs: seq<byte>) {
    forall i :: 0 <= i < |bs| ==> bs[i] < 0x80
  }

  /** `CurlResponseAdapter(response, url)`: the parsed response and the URL. */
  datatype Reply = Reply(url: string, response: CurlResponse)

  /** The rest of `_request` once curl has run: a non-zero exit status is a
      JSSError, otherwise the output is decoded and parsed. */
  function Complete(url: string, exitCode: int, stdout: seq<byte>): (r: Result<Reply>)
    ensures exitCode != 0 ==> r == Err(JSSError(CurlErrorMessage(exitCode)))
    ensures exitCode == 0 && Ascii(stdout) ==> r.Ok? && r.value.url == url && Ok(r.value.response) == FromCurl(stdout)
    ensures exitCode == 0 && !Ascii(stdout) ==> r.Err? && r.error.ValueError?
  {
    if exitCode != 0 then Err(JSSError(CurlErrorMessage(exitCode)))
    else if !Ascii(stdout) then Err(ValueError("UnicodeDecodeError"))
    else
      AsciiDecodes(stdout);
      match FromCurl(stdout)
      case Ok(resp) => Ok(Reply(url, resp))
      case Err(e) => Err(e)
  }

  /** ASCII bytes are valid UTF-8 and decode one character per byte. */
  lemma {:induction false} AsciiDecodes(bs: seq<byte>)
    requires Ascii(bs)
    ensures forall n :: 0 <= n <= |bs| ==> Utf8Decode(bs[..n]).Some?
  {
    forall n | 0 <= n <= |bs| ensures Utf8Decode(bs[..n]).Some? {
      AsciiPrefixDecodes(bs[..n]);
    }
  }

  lemma {:induction false} AsciiPrefixDecodes(bs: seq<byte>)
    requires Ascii(bs)
    ensures Utf8Decode(bs).Some?
    decreases |bs|
  {
    if bs != [] {
      assert Utf8DecodeOne(bs) == Some((bs[0] as int as char, 1));
      AsciiPrefixDecodes(bs[1..]);
    }
  }

  class CurlAdapter {
    var auth: (string, string)
    var verify: bool
    var useTls: bool

    /** A fresh adapter has empty credentials and uses TLS. */
    constructor(verify: bool)
      ensures auth == ("", "") && this.verify == verify && useTls
    {
      auth := ("", "");
      this.verify := verify;
      useTls := true;
    }

    /** Appends each pair's two arguments in turn. */
    static method AppendPairs(command: seq<string>, ps: seq<(string, string)>) returns (r: seq<string>)
      ensures r == command + Flatten(ps)
    {
      r := command;
      var i := 0;
      while i < |ps|
        invariant 0 <= i <= |ps|
        invariant r == command + Flatten(ps[..i])
      {
        assert ps[..i + 1][..i] == ps[..i];
        r := r + [ps[i].0, ps[i].1];
        i := i + 1;
      }
      assert ps[..i] == ps;
    }

    /** The arguments before the headers, appended one group at a time. */
    method HeadArgs() returns (command: seq<string>)
      ensures command == Head(auth.0, auth.1, verify, useTls)
    {
      command := ["curl", "-u", auth.0 + ":" + auth.1];
      command := command + ["--silent"];
      command := command + ["--write-out", "|%{response_code}"];
      ghost var prefix := command;
      if !verify {
        command := command + ["--insecure"];
      }
      if useTls {
        command := command + ["--tlsv1"];
      }
      assert command == prefix + Flags(verify, useTls);
    }

    /** The body arguments, when the body is one Python counts as true. */
    static method AppendData(command: seq<string>, data: Data) returns (r: seq<string>)
      ensures r == command + DataArgs(data)
    {
      r := command;
      if DataGiven(data) {
        match data {
          case FileData(name) =>
            r := r + ["--data-binary", "@" + name];
          case FormData(fields) =>
            r := AppendPairs(r, FieldPairs(fields));
          case RawData(text) =>
            r := r + ["--data", text];
        }
      }
    }

    /** `_build_command`, appending to the argument list step by step. */
    method BuildCommand(url: string, headers: seq<string>, data: Data, files: Option<FilePart>,
                        kwargs: seq<(string, string)>) returns (command: seq<string>)
      ensures command == Command(auth.0, auth.1, verify, useTls, url, headers, data, files, kwargs)
    {
      var head := HeadArgs();
      var front := AppendPairs(head, HeaderPairs([AcceptHeader] + headers));
      var withData := AppendData(front, data);
      var withFiles := withData;
      if files.Some? {
        withFiles := withFiles + ["--form", "name=@" + files.value.path + ";type=" + files.value.contentType];
      }
      assert withFiles == withData + FileArgs(files);
      var withArgs := AppendPairs(withFiles, kwargs);
      command := withArgs + [url];
      RegroupTail(front, DataArgs(data), FileArgs(files), Flatten(kwargs), url);
    }

    /** `get`: the caller's headers only. */
    method Get(url: string, headers: seq<string>) returns (command: seq<string>)
      ensures command == Command(auth.0, auth.1, verify, useTls, url, headers, NoData, None, [])
    {
      command := BuildCommand(url, headers, NoData, None, []);
    }

    /** The header list of post and put, extended one header at a time. */
    static method CollectHeaders(files: Option<FilePart>, headers: seq<(string, string)>) returns (header: seq<string>)
      ensures header == WriteHeaders(files, headers)
    {
      header := ["Content-Type: " + ContentType(files)];
      var i := 0;
      while i < |headers|
        invariant 0 <= i <= |headers|
        invariant header == WriteHeaders(files, headers[..i])
      {
        assert headers[..i + 1][..i] == headers[..i];
        header := header + [headers[i].0 + ": " + headers[i].1];
        i := i + 1;
      }
      assert headers[..i] == headers;
    }

    /** `post`: the content type and the caller's headers, `--request POST`. */
    method Post(url: string, data: Data, headers: seq<(string, string)>, files: Option<FilePart>)
      returns (command: seq<string>)
      ensures command == Command(auth.0, auth.1, verify, useTls, url, WriteHeaders(files, headers), data, files,
                                 [("--request", "POST")])
    {
      var header := CollectHeaders(files, headers);
      command := BuildCommand(url, header, data, files, [("--request", "POST")]);
    }

    /** `put`: as post, with `--request PUT`. */
    method Put(url: string, data: Data, headers: seq<(string, string)>, files: Option<FilePart>)
      returns (command: seq<string>)
      ensures command == Command(auth.0, auth.1, verify, useTls, url, WriteHeaders(files, headers), data, files,
                                 [("--request", "PUT")])
    {
      var header := CollectHeaders(files, headers);
      command := BuildCommand(url, header, data, files, [("--request", "PUT")]);
    }

    /** `delete`: `--request DELETE`; with data, the XML content type is
      added to the caller's headers and the data is passed with `--data`.
      Without headers (`None`) that addition is a TypeError. */
    method Delete(url: string, data: string, headers: Option<seq<string>>) returns (r: Result<seq<string>>)
      ensures data == "" ==> r == Ok(Command(auth.0, auth.1, verify, useTls, url,
                                             if headers.Some? then headers.value else [], NoData, None,
                                             [("--request", "DELETE")]))
      ensures data != "" && headers.None? ==> r.Err? && r.error.TypeError?
      ensures data != "" && headers.Some? ==>
        r == Ok(Command(auth.0, auth.1, verify, useTls, url, headers.value + ["Content-Type: text/xml"], NoData, None,
                        [("--request", "DELETE"), ("--data", data)]))
    {
      var hs := if headers.Some? then headers.value else [];
      var args := [("--request", "DELETE")];
      if data != "" {
        if headers.None? {
          return Err(TypeError("unsupported operand type(s) for +=: 'NoneType' and 'list'"));
        }
        hs := hs + ["Content-Type: text/xml"];
        args := args + [("--data", data)];
        assert hs == headers.value + ["Content-Type: text/xml"];
        assert args == [("--request", "DELETE"), ("--data", data)];
      }
      var command := BuildCommand(url, hs, NoData, None, args);
      r := Ok(command);
    }
  }

  /** Everything before the extra arguments. */
  function BeforeKwargs(user: string, password: string, verify: bool, useTls: bool,
                        hs: seq<string>, data: Data, files: Option<FilePart>): seq<string>
  {
    Head(user, password, verify, useTls) + Flatten(HeaderPairs([AcceptHeader] + hs)) + DataArgs(data) + FileArgs(files)
  }

  /** A single `--request` argument sits right before the URL. */
  lemma RequestLast(user: string, password: string, verify: bool, useTls: bool, url: string,
                    hs: seq<string>, data: Data, files: Option<FilePart>, m: string)
    ensures Command(user, password, verify, useTls, url, hs, data, files, [("--request", m)]) ==
      BeforeKwargs(user, password, verify, useTls, hs, data, files) + ["--request", m, url]
  {
    assert Flatten([("--request", m)]) == ["--request", m];
  }

  /** Post and put differ only in the request method. */
  lemma PostPutDiffer(user: string, password: string, verify: bool, useTls: bool, url: string,
                      data: Data, headers: seq<(string, string)>, files: Option<FilePart>)
    ensures var post := Command(user, password, verify, useTls, url, WriteHeaders(files, headers), data, files,
                                [("--request", "POST")]);
      var put := Command(user, password, verify, useTls, url, WriteHeaders(files, headers), data, files,
                         [("--request", "PUT")]);
      |post| == |put| >= 3 && post[|post| - 2..] == ["POST", url] && put[|put| - 2..] == ["PUT", url]
      && post[..|post| - 2] == put[..|put| - 2]
  {
    var hs := WriteHeaders(files, headers);
    RequestLast(user, password, verify, useTls, url, hs, data, files, "POST");
    RequestLast(user, password, verify, useTls, url, hs, data, files, "PUT");
    var b := BeforeKwargs(user, password, verify, useTls, hs, data, files);
    SameFront(b, "POST", "PUT", url);
  }

  lemma SameFront(b: seq<string>, m1: string, m2: string, url: string)
    ensures var x, y := b + ["--request", m1, url], b + ["--request", m2, url];
      |x| == |y| >= 3 && x[|x| - 2..] == [m1, url] && y[|y| - 2..] == [m2, url] && x[..|x| - 2] == y[..|y| - 2]
  {
    var x, y := b + ["--request", m1, url], b + ["--request", m2, url];
    assert x[..|x| - 2] == b + ["--request"] == y[..|y| - 2];
  }
}
