/**
  The `Curl` component: its two timeout settings, `httpRequest`, and the
  public verbs that call it. The transfer itself (`curl_exec` and the status
  `curl_getinfo` reports) is a parameter, `server`, that maps the request
  handed to curl to what came back.
 */
module CurlClient {
  import opened Wrappers
  import opened PhpStrings
  import opened UrlCodec
  import opened UrlBuilder
  import opened CurlOptions
  import opened CurlResponse
  import opened Utf8

  /** What the curl handle is given: the URL and the option array. */
  datatype Request = Request(url: Bytes, options: map<OptKey, OptVal>)

  /**
    What `curl_exec` did: it failed, with `curl_errno` and `curl_error`, or it
    completed with an HTTP status and the body's chunks as curl delivered them.
   */
  datatype Transfer =
    | Failed(errno: int, error: Bytes)
    | Completed(status: int, chunks: seq<Bytes>)

  /** The request `httpRequest` hands to curl: the URL and the option array. */
  function Sent(cfg: Config, httpMethod: Bytes, url: Bytes, requestBody: Option<RequestBody>): (r: Request)
  {
    Request(url, RequestOptions(cfg, httpMethod, requestBody))
  }

  /**
    `Json::encode($requestBody)`, evaluated for the trace message before the
    request is sent, succeeds: every string in the body is well-formed UTF-8
    (the keys and values of an array body, or the body itself; null encodes).
   */
  predicate TraceEncodable(requestBody: Option<RequestBody>): (ok: bool)
    ensures requestBody.None? ==> ok
    ensures requestBody.Some? && requestBody.value.Payload? && |requestBody.value.data| > 0
            && (InRange(requestBody.value.data[0], 0x80, 0xC1) || InRange(requestBody.value.data[0], 0xF5, 0xFF))
            ==> !ok
    ensures requestBody.Some? && requestBody.value.Payload?
            && (forall i :: 0 <= i < |requestBody.value.data| ==> requestBody.value.data[i] as int < 0x80)
            ==> ok
  {
    match requestBody
    case None => true
    case Some(Payload(d)) =>
      assert (forall i :: 0 <= i < |d| ==> d[i] as int < 0x80) ==> ValidUtf8(d) by {
        if forall i :: 0 <= i < |d| ==> d[i] as int < 0x80 {
          AsciiIsValid(d);
        }
      }
      ValidUtf8(d)
    case Some(Fields(q)) => forall i :: 0 <= i < |q| ==> ValidUtf8(q[i].0) && ValidUtf8(q[i].1)
  }

  /**
    The outcome of `httpRequest($httpMethod, $url, $requestBody, $raw)` when the
    transfer of the request it sends is `server`'s answer. A body the trace
    call cannot encode throws before anything is sent. The write callback only
    sees the chunks when it is installed, that is when the method is not HEAD.
   */
  function Perform(cfg: Config, httpMethod: Bytes, url: Bytes, requestBody: Option<RequestBody>, raw: bool,
                   server: Request -> Transfer): (r: Outcome)
  {
    var request := Sent(cfg, httpMethod, url, requestBody);
    if !TraceEncodable(requestBody) then Thrown(EncodeError)
    else match server(request)
    case Failed(errno, error) => Thrown(CurlError(CurlFailedPrefix + error, errno))
    case Completed(status, chunks) =>
      Classify(ToUpper(httpMethod) == HeadVerb, raw, status,
               if WriteFunction in request.options then Concat(chunks) else [])
  }

  /**
    A body that is not well-formed UTF-8 throws `InvalidArgumentException`
    whatever the server would have answered: the request is never sent.
   */
  lemma UnencodableBodyNotSent(cfg: Config, httpMethod: Bytes, url: Bytes, requestBody: Option<RequestBody>, raw: bool,
                               server1: Request -> Transfer, server2: Request -> Transfer)
    requires !TraceEncodable(requestBody)
    ensures Perform(cfg, httpMethod, url, requestBody, raw, server1) == Thrown(EncodeError)
    ensures Perform(cfg, httpMethod, url, requestBody, raw, server1) == Perform(cfg, httpMethod, url, requestBody, raw, server2)
  {
  }

  /** `post($url, [], "\xFF")` throws before sending: `FF` never starts a UTF-8 sequence. */
  lemma InvalidUtf8PostThrows(cfg: Config, url: Bytes, raw: bool, server: Request -> Transfer)
    ensures Perform(cfg, "POST", CreateUrl(Url(url), []), Some(Payload(['\U{FF}'])), raw, server) == Thrown(EncodeError)
  {
    BadLeadByte(['\U{FF}']);
  }

  /** A request without a body, such as every `get`, always reaches curl. */
  lemma NoBodyIsSent(cfg: Config, httpMethod: Bytes, url: Bytes, raw: bool, server: Request -> Transfer)
    ensures Perform(cfg, httpMethod, url, None, raw, server) != Thrown(EncodeError)
  {
  }

  /**
    A body made of ASCII bytes only, raw or as an array of ASCII keys and
    values, always passes `Json::encode` and reaches curl.
   */
  lemma AsciiBodyIsSent(cfg: Config, httpMethod: Bytes, url: Bytes, requestBody: RequestBody, raw: bool,
                        server: Request -> Transfer)
    requires requestBody.Payload? ==> forall i :: 0 <= i < |requestBody.data| ==> requestBody.data[i] as int < 0x80
    requires requestBody.Fields? ==> forall j, i :: 0 <= j < |requestBody.fields| && 0 <= i < |requestBody.fields[j].0|
                                       ==> requestBody.fields[j].0[i] as int < 0x80
    requires requestBody.Fields? ==> forall j, i :: 0 <= j < |requestBody.fields| && 0 <= i < |requestBody.fields[j].1|
                                       ==> requestBody.fields[j].1[i] as int < 0x80
    ensures TraceEncodable(Some(requestBody))
    ensures Perform(cfg, httpMethod, url, Some(requestBody), raw, server) != Thrown(EncodeError)
  {
    match requestBody
    case Payload(d) =>
      AsciiIsValid(d);
    case Fields(q) =>
      forall j | 0 <= j < |q|
        ensures ValidUtf8(q[j].0) && ValidUtf8(q[j].1)
      {
        AsciiIsValid(q[j].0);
        AsciiIsValid(q[j].1);
      }
  }

  /** A failed transfer throws before any status is looked at. */
  lemma FailedTransfer(cfg: Config, httpMethod: Bytes, url: Bytes, requestBody: Option<RequestBody>, raw: bool,
                       server: Request -> Transfer)
    requires TraceEncodable(requestBody)
    requires server(Sent(cfg, httpMethod, url, requestBody)).Failed?
    ensures Perform(cfg, httpMethod, url, requestBody, raw, server)
         == Thrown(CurlError(CurlFailedPrefix + server(Sent(cfg, httpMethod, url, requestBody)).error,
                             server(Sent(cfg, httpMethod, url, requestBody)).errno))
  {
  }

  /**
    A HEAD request never returns a body: 2xx gives true, 404 false, and any
    other status throws with an empty message, since the callback that would
    collect the body is removed.
   */
  lemma HeadOutcome(cfg: Config, httpMethod: Bytes, url: Bytes, requestBody: Option<RequestBody>, raw: bool,
                    server: Request -> Transfer)
    requires ToUpper(httpMethod) == HeadVerb
    requires TraceEncodable(requestBody)
    requires server(Sent(cfg, httpMethod, url, requestBody)).Completed?
    ensures var r := Perform(cfg, httpMethod, url, requestBody, raw, server);
            var status := server(Sent(cfg, httpMethod, url, requestBody)).status;
            && (IsSuccess(status) ==> r == Returned(Bool(true)))
            && (status == 404 ==> r == Returned(Bool(false)))
            && (!IsSuccess(status) && status != 404 ==> r == Thrown(HttpError(status, [])))
  {
  }

  /**
    Any other method returns the concatenated chunks for 2xx (raw, or through
    `Json::decode`), false for 404, and otherwise throws with the status and
    that body.
   */
  lemma BodyOutcome(cfg: Config, httpMethod: Bytes, url: Bytes, requestBody: Option<RequestBody>, raw: bool,
                    server: Request -> Transfer)
    requires ToUpper(httpMethod) != HeadVerb
    requires TraceEncodable(requestBody)
    requires server(Sent(cfg, httpMethod, url, requestBody)).Completed?
    ensures var r := Perform(cfg, httpMethod, url, requestBody, raw, server);
            var t := server(Sent(cfg, httpMethod, url, requestBody));
            var body := Concat(t.chunks);
            && (IsSuccess(t.status) ==> r == Returned(if raw then RawBody(body) else Decoded(body)))
            && (t.status == 404 ==> r == Returned(Bool(false)))
            && (!IsSuccess(t.status) && t.status != 404 ==> r == Thrown(HttpError(t.status, body)))
  {
  }

  /** The component. Only its two settings are state; requests do not change them. */
  class Curl {
    /** Connection timeout (`CURLOPT_CONNECTTIMEOUT`), None when not set. */
    var connectionTimeout: Option<real>
    /** Response timeout (`CURLOPT_TIMEOUT`), None when not set. */
    var dataTimeout: Option<real>

    constructor ()
      ensures connectionTimeout == None && dataTimeout == None
    {
      connectionTimeout := None;
      dataTimeout := None;
    }

    function Settings(): (cfg: Config)
      reads this
    {
      Config(connectionTimeout, dataTimeout)
    }

    /** Builds the option array as `httpRequest` does: the fixed entries, then each conditional one. */
    method BuildOptions(httpMethod: Bytes, requestBody: Option<RequestBody>) returns (options: map<OptKey, OptVal>)
      ensures options == RequestOptions(Settings(), httpMethod, requestBody)
    {
      var verb := ToUpper(httpMethod);
      options := map[
        UserAgent := Str(UserAgentString),
        ReturnTransfer := Flag(false),
        Header := Flag(false),
        HttpHeader := Lines(["Expect:"]),
        WriteFunction := BodyWriter,
        CustomRequest := Str(verb)
      ];
      if connectionTimeout != None {
        options := options[ConnectTimeout := Seconds(connectionTimeout.value)];
      }
      if dataTimeout != None {
        options := options[Timeout := Seconds(dataTimeout.value)];
      }
      if requestBody != None {
        match requestBody.value
        case Fields(q) => options := options[PostFields := Str(BuildQuery(q))];
        case Payload(d) => options := options[PostFields := Str(d)];
      }
      if verb == HeadVerb {
        options := options[NoBody := Flag(true)];
        options := options - {WriteFunction};
      }
      forall k
        ensures (k in options) == Setting(Settings(), verb, requestBody, k).Some?
        ensures k in options ==> options[k] == Setting(Settings(), verb, requestBody, k).value
      {
      }
      RequestOptionsByKey(Settings(), httpMethod, requestBody, options);
    }

    /**
      `httpRequest`: build the options, encode the body for the trace message,
      run the transfer, collect the body, classify the status.
     */
    method HttpRequest(server: Request -> Transfer, httpMethod: Bytes, url: Bytes,
                       requestBody: Option<RequestBody> := None, raw: bool := false)
      returns (r: Outcome)
      ensures r == Perform(Settings(), httpMethod, url, requestBody, raw, server)
    {
      var verb := ToUpper(httpMethod);
      var response := new ResponseBody();
      var options := BuildOptions(httpMethod, requestBody);
      if !TraceEncodable(requestBody) {
        return Thrown(EncodeError);
      }
      match server(Request(url, options))
      case Failed(errno, error) =>
        r := Thrown(CurlError(CurlFailedPrefix + error, errno));
      case Completed(status, chunks) =>
        if WriteFunction in options {
          var written := response.Receive(chunks);
          assert response.body == Concat(chunks);
        }
        r := Classify(verb == HeadVerb, raw, status, response.body);
    }

    /** `get($url, $options = [], $raw = true)`. */
    method Get(server: Request -> Transfer, url: Path, options: Query := [], raw: bool := true)
      returns (r: Outcome)
      ensures r == Perform(Settings(), "GET", CreateUrl(url, options), None, raw, server)
    {
      r := HttpRequest(server, "GET", CreateUrl(url, options), None, raw);
    }

    /** `head($url, $options = [], $body = null)`; `raw` keeps `httpRequest`'s default. */
    method Head(server: Request -> Transfer, url: Path, options: Query := [], body: Option<RequestBody> := None)
      returns (r: Outcome)
      ensures r == Perform(Settings(), "HEAD", CreateUrl(url, options), body, false, server)
    {
      r := HttpRequest(server, "HEAD", CreateUrl(url, options), body);
    }

    /** `post($url, $options = [], $body = null, $raw = true)`. */
    method Post(server: Request -> Transfer, url: Path, options: Query := [], body: Option<RequestBody> := None,
                raw: bool := true)
      returns (r: Outcome)
      ensures r == Perform(Settings(), "POST", CreateUrl(url, options), body, raw, server)
    {
      r := HttpRequest(server, "POST", CreateUrl(url, options), body, raw);
    }

    /** `put($url, $options = [], $body = null, $raw = true)`. */
    method Put(server: Request -> Transfer, url: Path, options: Query := [], body: Option<RequestBody> := None,
               raw: bool := true)
      returns (r: Outcome)
      ensures r == Perform(Settings(), "PUT", CreateUrl(url, options), body, raw, server)
    {
      r := HttpRequest(server, "PUT", CreateUrl(url, options), body, raw);
    }

    /** `delete($url, $options = [], $body = null, $raw = true)`. */
    method Delete(server: Request -> Transfer, url: Path, options: Query := [], body: Option<RequestBody> := None,
                  raw: bool := true)
      returns (r: Outcome)
      ensures r == Perform(Settings(), "DELETE", CreateUrl(url, options), body, raw, server)
    {
      r := HttpRequest(server, "DELETE", CreateUrl(url, options), body, raw);
    }
  }
}
