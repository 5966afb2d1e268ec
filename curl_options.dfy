/**
  The curl options `Curl::httpRequest` sets for a request, stated key by key.
  `Setting` is the declarative table; the step-by-step construction of the
  source is `CurlClient.Curl.BuildOptions`, proved equal to `RequestOptions`.
 */
module CurlOptions {
  import opened Wrappers
  import opened PhpStrings
  import opened UrlCodec

  /** The `CURLOPT_*` constants the client uses. */
  datatype OptKey =
    | UserAgent       // CURLOPT_USERAGENT
    | ReturnTransfer  // CURLOPT_RETURNTRANSFER
    | Header          // CURLOPT_HEADER
    | HttpHeader      // CURLOPT_HTTPHEADER
    | WriteFunction   // CURLOPT_WRITEFUNCTION
    | CustomRequest   // CURLOPT_CUSTOMREQUEST
    | ConnectTimeout  // CURLOPT_CONNECTTIMEOUT
    | Timeout         // CURLOPT_TIMEOUT
    | PostFields      // CURLOPT_POSTFIELDS
    | NoBody          // CURLOPT_NOBODY

  /**
    An option's value. `BodyWriter` is the write callback: the closure that
    appends each chunk to the response body (`CurlResponse.ResponseBody.Write`).
    Timeouts are only copied, so their number is kept as it was given.
   */
  datatype OptVal =
    | Str(s: Bytes)
    | Flag(b: bool)
    | Lines(lines: seq<Bytes>)
    | Seconds(t: real)
    | BodyWriter

  /** The request body: an array is sent as its query string, anything else as it is. */
  datatype RequestBody = Fields(fields: Query) | Payload(data: Bytes)

  /** The component's configuration: `connectionTimeout` and `dataTimeout`, null when not set. */
  datatype Config = Config(connectionTimeout: Option<real>, dataTimeout: Option<real>)

  /** `'Yii Framework 2 ' . __CLASS__`, with the class's namespace as the source declares it. */
  const UserAgentString: Bytes := "Yii Framework 2 amirasran\\yii2curl\\Curl"

  const HeadVerb: Bytes := "HEAD"

  const AllKeys: set<OptKey> :=
    {UserAgent, ReturnTransfer, Header, HttpHeader, WriteFunction, CustomRequest,
     ConnectTimeout, Timeout, PostFields, NoBody}

  /** The value `$body` is sent as. */
  function PostFieldsOf(body: RequestBody): (r: Bytes)
    ensures body.Payload? ==> r == body.data
  {
    match body
    case Fields(q) => BuildQuery(q)
    case Payload(d) => d
  }

  /** The option `key` carries for the upper-cased `verb`, or None when it is not set. */
  function Setting(cfg: Config, verb: Bytes, body: Option<RequestBody>, key: OptKey): (v: Option<OptVal>)
  {
    match key
    case UserAgent => Some(Str(UserAgentString))
    case ReturnTransfer => Some(Flag(false))
    case Header => Some(Flag(false))
    case HttpHeader => Some(Lines(["Expect:"]))
    case WriteFunction => if verb == HeadVerb then None else Some(BodyWriter)
    case CustomRequest => Some(Str(verb))
    case ConnectTimeout =>
      if cfg.connectionTimeout.Some? then Some(Seconds(cfg.connectionTimeout.value)) else None
    case Timeout =>
      if cfg.dataTimeout.Some? then Some(Seconds(cfg.dataTimeout.value)) else None
    case PostFields => if body.Some? then Some(Str(PostFieldsOf(body.value))) else None
    case NoBody => if verb == HeadVerb then Some(Flag(true)) else None
  }

  /**
    The option array for a request with method `httpMethod` (upper-cased first).
    Its contract states each key's presence and value.
   */
  function RequestOptions(cfg: Config, httpMethod: Bytes, body: Option<RequestBody>): (options: map<OptKey, OptVal>)
    ensures UserAgent in options && options[UserAgent] == Str(UserAgentString)
    ensures ReturnTransfer in options && options[ReturnTransfer] == Flag(false)
    ensures Header in options && options[Header] == Flag(false)
    ensures HttpHeader in options && options[HttpHeader] == Lines(["Expect:"])
    ensures CustomRequest in options && options[CustomRequest] == Str(ToUpper(httpMethod))
    ensures (WriteFunction in options) == (ToUpper(httpMethod) != HeadVerb)
    ensures WriteFunction in options ==> options[WriteFunction] == BodyWriter
    ensures (NoBody in options) == (ToUpper(httpMethod) == HeadVerb)
    ensures NoBody in options ==> options[NoBody] == Flag(true)
    ensures (ConnectTimeout in options) == cfg.connectionTimeout.Some?
    ensures ConnectTimeout in options ==> options[ConnectTimeout] == Seconds(cfg.connectionTimeout.value)
    ensures (Timeout in options) == cfg.dataTimeout.Some?
    ensures Timeout in options ==> options[Timeout] == Seconds(cfg.dataTimeout.value)
    ensures (PostFields in options) == body.Some?
    ensures body.Some? && body.value.Fields? ==> options[PostFields] == Str(BuildQuery(body.value.fields))
    ensures body.Some? && body.value.Payload? ==> options[PostFields] == Str(body.value.data)
  {
    var verb := ToUpper(httpMethod);
    map k | k in AllKeys && Setting(cfg, verb, body, k).Some? :: Setting(cfg, verb, body, k).value
  }

  /** A map that agrees with `Setting` on every key is the option array. */
  lemma RequestOptionsByKey(cfg: Config, httpMethod: Bytes, body: Option<RequestBody>, m: map<OptKey, OptVal>)
    requires forall k :: (k in m) == Setting(cfg, ToUpper(httpMethod), body, k).Some?
    requires forall k :: k in m ==> m[k] == Setting(cfg, ToUpper(httpMethod), body, k).value
    ensures m == RequestOptions(cfg, httpMethod, body)
  {
    var spec := RequestOptions(cfg, httpMethod, body);
    forall k ensures k in AllKeys {
      match k
      case UserAgent => case ReturnTransfer => case Header => case HttpHeader => case WriteFunction =>
      case CustomRequest => case ConnectTimeout => case Timeout => case PostFields => case NoBody =>
    }
    assert m.Keys == spec.Keys;
  }

  /** The timeouts decide the two timeout options and nothing else. */
  lemma TimeoutsOnlySetTimeouts(cfg1: Config, cfg2: Config, httpMethod: Bytes, body: Option<RequestBody>)
    ensures RequestOptions(cfg1, httpMethod, body) - {ConnectTimeout, Timeout}
         == RequestOptions(cfg2, httpMethod, body) - {ConnectTimeout, Timeout}
  {
  }

  /** The body decides `CURLOPT_POSTFIELDS` and nothing else. */
  lemma BodyOnlySetsPostFields(cfg: Config, httpMethod: Bytes, body1: Option<RequestBody>, body2: Option<RequestBody>)
    ensures RequestOptions(cfg, httpMethod, body1) - {PostFields} == RequestOptions(cfg, httpMethod, body2) - {PostFields}
  {
    var m1 := RequestOptions(cfg, httpMethod, body1) - {PostFields};
    var m2 := RequestOptions(cfg, httpMethod, body2) - {PostFields};
    forall k ensures (k in m1) == (k in m2) && (k in m1 ==> m1[k] == m2[k]) {
    }
    assert m1.Keys == m2.Keys;
  }
}
