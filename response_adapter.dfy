/** The response wrappers of jss/response_adapter.py. Curl prints the body
    followed by `|<http status>` (its `--write-out` format), and the wrapper
    splits that output at the last `|`. The same parse serves the
    CurlResponseAdapter of jss/curl_adapter.py (see module CurlAdapter). */
module ResponseAdapter {
  import opened Errors
  import opened Text

  const Bar: byte := 0x7C   // '|'

  /** The index of the last occurrence of `b` in `bs`. */
  function LastIndexOf(bs: seq<byte>, b: byte): (r: Option<nat>)
    ensures r.Some? ==> r.value < |bs| && bs[r.value] == b
    ensures r.Some? ==> forall k :: r.value < k < |bs| ==> bs[k] != b
    ensures r.None? <==> b !in bs
  {
    if bs == [] then None
    else if bs[|bs| - 1] == b then Some(|bs| - 1)
    else
      var r := LastIndexOf(bs[..|bs| - 1], b);
      assert bs == bs[..|bs| - 1] + [bs[|bs| - 1]];
      r
  }

  /** `bs.rpartition(b)`: the text before the last `b`, the separator, and
      the text after it; `('', '', bs)` when `b` does not occur. */
  function RPartition(bs: seq<byte>, b: byte): (r: (seq<byte>, seq<byte>, seq<byte>))
    ensures r.0 + r.1 + r.2 == bs
    ensures b !in r.2
    ensures r.1 == [b] <==> b in bs
    ensures r.1 == [] <==> b !in bs
    ensures b !in bs ==> r.0 == []
  {
    match LastIndexOf(bs, b)
    case None => ([], [], bs)
    case Some(i) =>
      assert bs == bs[..i] + [b] + bs[i + 1..];
      (bs[..i], [b], bs[i + 1..])
  }

  /** A byte string read as Python 2 `str` characters. */
  function Chars(bs: seq<byte>): (r: string)
    ensures |r| == |bs| && forall i :: 0 <= i < |bs| ==> r[i] as int == bs[i] as int
  {
    seq(|bs|, i requires 0 <= i < |bs| => bs[i] as char)
  }

  /** `int(suffix)`, and 0 where `int` raises ValueError. */
  function StatusOf(suffix: seq<byte>): int {
    match ParseInt(Chars(suffix))
    case Some(n) => n
    case None => 0
  }

  /** The fields of `CurlResponseAdapter`: the raw response, the content
      before the last `|`, the status code and the decoded text. */
  datatype CurlResponse = CurlResponse(response: seq<byte>, content: seq<byte>, statusCode: int, text: string)

  /** `CurlResponseAdapter(response)`; a content that is not UTF-8 makes
      `content.decode('UTF-8')` raise UnicodeDecodeError, a ValueError. */
  function FromCurl(response: seq<byte>): (r: Result<CurlResponse>)
    ensures r.Ok? ==> r.value.response == response
    ensures r.Ok? ==> r.value.content + (if Bar in response then [Bar] else []) + Suffix(response) == response
    ensures r.Ok? ==> Utf8Decode(r.value.content) == Some(r.value.text)
    ensures r.Err? <==> Utf8Decode(RPartition(response, Bar).0).None?
  {
    var (content, _, suffix) := RPartition(response, Bar);
    match Utf8Decode(content)
    case None => Err(ValueError("UnicodeDecodeError"))
    case Some(text) => Ok(CurlResponse(response, content, StatusOf(suffix), text))
  }

  /** What follows the last `|`: all of the response when there is none. */
  function Suffix(response: seq<byte>): (r: seq<byte>)
    ensures Bar !in r && |r| <= |response| && response[|response| - |r|..] == r
  {
    RPartition(response, Bar).2
  }

  /** The status code is what Python's `int` makes of the suffix, and 0
      when the suffix is not an integer. */
  lemma StatusFollowsSuffix(response: seq<byte>)
    requires FromCurl(response).Ok?
    ensures ParseInt(Chars(Suffix(response))).Some? ==>
      FromCurl(response).value.statusCode == ParseInt(Chars(Suffix(response))).value
    ensures ParseInt(Chars(Suffix(response))).None? ==> FromCurl(response).value.statusCode == 0
  {
  }

  /** Without a `|` the content is empty and the whole response is read as
      the status. */
  lemma NoBarWholeIsStatus(response: seq<byte>)
    requires Bar !in response
    ensures FromCurl(response) == Ok(CurlResponse(response, [], StatusOf(response), ""))
  {
  }

  lemma LastIndexOfAt(bs: seq<byte>, b: byte, i: nat)
    requires i < |bs| && bs[i] == b
    requires forall k :: i < k < |bs| ==> bs[k] != b
    ensures LastIndexOf(bs, b) == Some(i)
  {
  }

  /** The `--write-out` part of curl's output: `|` and the decimal status,
      all ASCII, so each byte reads back as the character it encodes. */
  lemma WriteOut(status: int)
    ensures var w := Utf8("|" + IntToString(status));
      |w| > 0 && w[0] == Bar && Bar !in w[1..] && Chars(w[1..]) == IntToString(status)
  {
    var digits := IntToString(status);
    var tail := "|" + digits;
    IntToStringAscii(status);
    assert forall i :: 0 <= i < |tail| ==> tail[i] as int < 0x80 by {
      forall i | 0 <= i < |tail| ensures tail[i] as int < 0x80 {
        if i > 0 { assert tail[i] == digits[i - 1]; }
      }
    }
    Utf8Ascii(tail);
    var w := Utf8(tail);
    assert forall k :: 1 <= k < |w| ==> w[k] as int == digits[k - 1] as int;
    assert Chars(w[1..]) == digits;
  }

  /** The output curl produces for a body and a status (`body` followed by
      `|` and the decimal status) parses back into that body and status,
      even when the body itself contains `|`. */
  lemma CurlOutputRoundTrip(body: string, status: int)
    ensures FromCurl(Utf8(body) + Utf8("|" + IntToString(status))) ==
      Ok(CurlResponse(Utf8(body) + Utf8("|" + IntToString(status)), Utf8(body), status, body))
  {
    var u := Utf8(body);
    var w := Utf8("|" + IntToString(status));
    WriteOut(status);
    PartitionBeforeWriteOut(u, w);
    ParseIntToString(status);
    Utf8RoundTrip(body);
  }

  /** The last `|` of a response is the one that starts the write-out. */
  lemma PartitionBeforeWriteOut(u: seq<byte>, w: seq<byte>)
    requires |w| > 0 && w[0] == Bar && Bar !in w[1..]
    ensures RPartition(u + w, Bar) == (u, [Bar], w[1..])
  {
    var response := u + w;
    assert response[|u|] == Bar;
    forall k | |u| < k < |response| ensures response[k] != Bar {
      assert response[k] == w[1..][k - |u| - 1];
    }
    LastIndexOfAt(response, Bar, |u|);
    assert response[..|u|] == u;
    assert response[|u| + 1..] == w[1..];
  }

  /** The fields `RequestsResponseAdapter` takes from a requests response. */
  datatype HttpResponse = HttpResponse(statusCode: int, text: string)

  /** `RequestsResponseAdapter(response)`: status code and text copied
      unchanged. */
  function FromRequests(response: HttpResponse): (r: HttpResponse)
    ensures r.statusCode == response.statusCode && r.text == response.text
  {
    HttpResponse(response.statusCode, response.text)
  }
}
