# Yii2 Curl helper in Dafny

This project models `Curl`, a Yii 2 component that sends GET, HEAD, POST, PUT
and DELETE requests through PHP's curl extension. The model covers three parts:

- **URL construction (`createUrl`).** For either kind of path, the URL options are appended as a query only when there are options; with none, the path alone is the URL. A string path gets the query after `?`, or after `&` when the path already has a `?`. An array path has each segment `urlencode`d and the segments joined with `/`, an array segment being first joined with `,`; the query follows a `?`.
- **The curl option array (`httpRequest`).** This covers the fixed entries, the upper-cased custom method and the optional timeouts. It also covers `CURLOPT_POSTFIELDS`, which holds an array body as its query string. For HEAD the write callback is swapped for `CURLOPT_NOBODY`.
- **Response handling (`httpRequest`).** Before sending, the trace message encodes the request body with `Json::encode`, which throws when a string in the body is not well-formed UTF-8. The write callback adds each chunk to the body and returns the chunk's length. A failed transfer throws a curl `Exception`. Otherwise the status decides the result:
  - 2xx returns `true` for HEAD, and otherwise the raw body or `Json::decode` of it;
  - 404 returns `false`;
  - any other status throws `HttpException(status, body)`.

PHP strings are byte strings, `PhpStrings.Bytes`. `urlencode` and flat
`http_build_query` are modelled concretely. Each has a decoder (`UrlDecode`,
`ParseQuery`), and the round trips are proved. The transfer done by
`curl_exec`/`curl_getinfo` is a parameter, `server: Request -> Transfer`. It
maps the URL and option array handed to curl to either a failure (errno and
error text) or a status with the body's chunks.

Modules, one per concern:
- `PhpStrings` (`php_strings.dfy`): the byte-string type and `implode`/`explode`/`strpos`/`strtoupper`.
- `UrlCodec` (`url_codec.dfy`): `urlencode`/`urldecode` and `http_build_query` with its reader.
- `UrlBuilder` (`url_builder.dfy`): `createUrl`.
- `CurlOptions` (`curl_options.dfy`): option keys and values, and the per-key table of the option array.
- `Utf8` (`utf8.dfy`): well-formed UTF-8, which `Json::encode` requires of the request body.
- `CurlResponse` (`curl_response.dfy`): the write callback's body buffer and status classification.
- `CurlClient` (`curl.dfy`): the `Curl` class with `httpRequest` and the five verbs.

The state the source changes in place is modelled imperatively:
- `Curl.BuildOptions` builds the option map step by step, as the source's array assignments and `unset` do. It is proved equal to the declarative table `RequestOptions`.
- `ResponseBody` is the `$body` string that the write callback appends to. Its `Receive` loop delivers the chunks one by one.

The docblock of `httpRequest` (Curl.php:141) says that a 2xx response returns
the body. The code returns `true` for a 2xx response to HEAD, and the model
follows the code. The docblocks of the verbs describe `$raw` as "if response
body contains JSON and should be decoded". The code does the opposite: it
returns the undecoded body when `$raw` is true. The model follows the code.

## Model

| member | source | states |
|---|---|---|
| `UrlCodec.UrlEncode` | Curl.php:118 | `urlencode` output uses only letters, digits, `.`, `_`, `-`, `+` and `%`, and is between one and three times as long as its input |
| `UrlCodec.DecodeEncode` | Curl.php:118 | `urldecode(urlencode(s)) == s` for every byte string: encoding a segment loses nothing |
| `UrlCodec.EncodedAvoids` | Curl.php:117-118 | an encoded segment never contains `/`, `?`, `&`, `=`, `,` or `#`, so joining with `/` and appending `?` stay unambiguous |
| `UrlCodec.QueryRoundTrip` | Curl.php:126 | reading the pairs of a string built by flat `http_build_query` gives back exactly the options, in order |
| `UrlCodec.ParseQueryAppend` | Curl.php:126 | a query extended with `&` and a second query reads as the pairs of the first followed by those of the second |
| `UrlCodec.BuildQuery` | Curl.php:120-126 | flat `http_build_query` output contains no `?` and no `#`, so it never ends the path or starts a fragment, and it is empty exactly when there are no pairs; `QueryRoundTrip` reads it back as its pairs |
| `PhpStrings.Join` | Curl.php:117-118 | `implode` of a single part is that part; `SplitJoin` proves that `explode` undoes it |
| `PhpStrings.SplitJoin` | Curl.php:117 | `explode` undoes `implode` for a non-empty list of parts free of the separator |
| `PhpStrings.SplitAppend` | Curl.php:126 | `explode` of `a . sep . b` is the pieces of `a` followed by those of `b` |
| `PhpStrings.ToUpper` | Curl.php:146 | `strtoupper` keeps the length and upper-cases every ASCII letter, leaving other bytes alone |
| `PhpStrings.VerbsAreUpperCase` | Curl.php:146 | `strtoupper` leaves the method names `GET`, `HEAD`, `POST`, `PUT` and `DELETE` that the verbs pass unchanged |
| `UrlBuilder.CreateUrl` | Curl.php:114-130 | a string path is always a prefix of the URL built from it |
| `UrlBuilder.StringPathUrl` | Curl.php:123-127 | string path: no options returns the path unchanged; otherwise the part before the first `?` is untouched and the query reads as the path's own pairs followed by the options (covering both the `?` and the `&` case) |
| `UrlBuilder.AppendToQuery` | Curl.php:126 | a path that already has `?` gets `&` plus the query: its path part is unchanged and its pairs are extended |
| `UrlBuilder.StartQuery` | Curl.php:126 | a path without `?` gets `?` plus the query: the path part is the whole path and the pairs are the query's |
| `UrlBuilder.SegmentsPathUrl` | Curl.php:116-122 | array path: `?` is in the URL exactly when there are options, and the query reads back as the options. For a non-empty array, the part before `?` splits at `/` into exactly one piece per segment, and each piece decodes to that segment's text |
| `UrlBuilder.SegmentText` | Curl.php:118 | a scalar segment is its own text; an array segment is joined with `,` so that `explode(',')` gives back its items whenever there is at least one and none holds a `,` |
| `UrlBuilder.ListSegmentItems` | Curl.php:118 | an array segment whose items contain no `,` decodes and splits at `,` back into its items |
| `CurlOptions.RequestOptions` | Curl.php:146-177 | the fixed user-agent, return-transfer, header and `Expect:` entries are always there. `CUSTOMREQUEST` is the upper-cased method. `WRITEFUNCTION` is present exactly when the method is not HEAD, and `NOBODY` (true) exactly when it is. Each timeout key is present exactly when its setting is non-null and holds its value. `POSTFIELDS` is present exactly when there is a body: an array body as its query string, anything else unchanged |
| `CurlOptions.PostFieldsOf` | Curl.php:167-172 | a string body is sent unchanged; an array body is sent as its `http_build_query` string, whose contract `UrlCodec.BuildQuery` gives |
| `CurlOptions.TimeoutsOnlySetTimeouts` | Curl.php:161-166 | two configurations give the same option array apart from `CONNECTTIMEOUT` and `TIMEOUT` |
| `CurlOptions.BodyOnlySetsPostFields` | Curl.php:167-173 | two request bodies give the same option array apart from `POSTFIELDS` |
| `CurlOptions.RequestOptionsByKey` | Curl.php:149-177 | a map that agrees with the per-key table on every key is the option array |
| `CurlClient.Curl.BuildOptions` | Curl.php:146-177 | the array built by the source's assignments and `unset`, in their order, equals `RequestOptions` for the component's current timeouts |
| `CurlResponse.ResponseBody.constructor` | Curl.php:148 | the response body starts empty |
| `CurlResponse.ResponseBody.Write` | Curl.php:155-158 | the callback appends the chunk to the body and returns its length in bytes |
| `CurlResponse.ResponseBody.Receive` | Curl.php:155-158 | after the chunks are delivered one by one, the body is the old body followed by their in-order concatenation, each call reported its chunk's length, and the reported lengths add up to what the body grew by |
| `CurlResponse.ConcatAppend` | Curl.php:156 | delivering two batches of chunks one after the other collects what the first batch collects followed by what the second collects |
| `CurlResponse.ConcatLength` | Curl.php:157 | the lengths the callback reports add up to the length of the collected body |
| `CurlResponse.Classify` | Curl.php:189-199 | the call returns exactly for 2xx or 404. A 404 returns `false` and a 2xx response to HEAD returns `true`; among the model's values these are the only ways to get `false` and `true`. A 2xx response to another method returns the raw body in raw mode and `Json::decode(body)` otherwise. Every other status throws `HttpException` with that status and the body |
| `CurlClient.Curl.HttpRequest` | Curl.php:144-200 | the outcome is `Perform`: a body that `Json::encode` rejects for the trace message throws before anything is sent; otherwise the option array is sent with the URL, a failed transfer throws, and a completed one is classified on the body the callback collected |
| `CurlClient.TraceEncodable` | Curl.php:179 | `Json::encode($requestBody)` succeeds for a null body and for an ASCII string body, and fails for a string body whose first byte cannot start a UTF-8 sequence; the lemmas below show that a failure throws before sending |
| `CurlClient.UnencodableBodyNotSent` | Curl.php:179 | a body that is not well-formed UTF-8 makes `Json::encode($requestBody)` throw `InvalidArgumentException`, whatever the server would have answered |
| `CurlClient.InvalidUtf8PostThrows` | Curl.php:179 | `post($url, [], "\xFF")`, sent to `createUrl($url, [])`, throws that exception before sending |
| `CurlClient.NoBodyIsSent` | Curl.php:179-183 | a request with a null body, as every `get` has, always reaches curl |
| `CurlClient.AsciiBodyIsSent` | Curl.php:179-183 | a body of ASCII bytes only, raw or as an array of ASCII keys and values, always passes `Json::encode` and reaches curl |
| `Utf8.ValidUtf8Append` | Curl.php:179 | two well-formed UTF-8 strings run together are well-formed |
| `Utf8.AsciiIsValid` | Curl.php:179 | plain ASCII bodies are well-formed UTF-8, so they are always encodable |
| `Utf8.BadLeadByte` | Curl.php:179 | a string starting with a byte `80`-`C1` or `F5`-`FF` is not well-formed UTF-8 |
| `CurlClient.FailedTransfer` | Curl.php:183-185 | for an encodable body, a failed transfer throws `Exception('curl request failed: ' . error, errno)` whatever the status would have been |
| `CurlClient.HeadOutcome` | Curl.php:174-199 | HEAD never returns a body: 2xx gives `true`, 404 gives `false`, and other statuses throw with an empty message, since the callback is removed |
| `CurlClient.BodyOutcome` | Curl.php:189-199 | any other method returns the concatenated chunks for 2xx (raw or decoded), `false` for 404, and otherwise throws with the status and that body |
| `CurlClient.Curl.constructor` | Curl.php:22-29 | both timeouts start unset |
| `CurlClient.Curl.Get` | Curl.php:47-50 | sends `GET` to `createUrl($url, $options)` without a body; raw defaults to true |
| `CurlClient.Curl.Head` | Curl.php:60-63 | sends `HEAD` to `createUrl($url, $options)` with the given body and `httpRequest`'s default raw (false) |
| `CurlClient.Curl.Post` | Curl.php:74-77 | sends `POST` to `createUrl($url, $options)` with the body; raw defaults to true |
| `CurlClient.Curl.Put` | Curl.php:88-91 | sends `PUT` to `createUrl($url, $options)` with the body; raw defaults to true |
| `CurlClient.Curl.Delete` | Curl.php:102-105 | sends `DELETE` to `createUrl($url, $options)` with the body; raw defaults to true |

An array path with no segments builds the empty path, and `explode` of the
empty string gives one empty piece. So "one piece per segment" is stated for
non-empty arrays only.

`PathPart` and `QueryPart` split a URL at its first `?` and ignore fragments.
For a string path with a fragment, `createUrl` puts the options after the `#`
(`"p#f"` becomes `"p#f?k=v"`), where they are part of the fragment and are
never sent to the server. `StringPathUrl` describes that string as it is
built; it does not say that the server receives the options in that case.

## Left out

- `curl_init`, `curl_setopt_array`, `curl_exec`, `curl_getinfo`, `curl_error`/`curl_errno` and `curl_close` are the foreign library. The transfer is the `server` parameter, and curl's calls to the write callback are the `Receive` loop.
- `Yii::trace`, `Yii::beginProfile`/`endProfile` and the profile string (`md5(serialize(...))`) only record diagnostics and are not modelled. The one exception is the trace message's `Json::encode($requestBody)`, which can throw. It is modelled by `TraceEncodable`, the UTF-8 well-formedness of every string in the body, and its exception carries no message in the model. Skipping `curl_close` and `endProfile` after a failed transfer is not modelled.
- `CurlResponse.Classify`: the "only" directions for `false` and `true` hold for the model's values, where `Decoded(body)` is a value of its own. In PHP a decoded 2xx body can itself be `true`, `false` or `null`, so `get($url, [], false)` on a 200 whose body is `false` returns `false` just as a 404 does; a caller cannot tell the two apart.
- `Json::decode` is not modelled: `Decoded(source)` stands for its result. Its own exception on invalid JSON is therefore not modelled.
- `BuildQuery` always separates pairs with `&`. PHP's `http_build_query` takes its default separator from the ini setting `arg_separator.output`, whose default is `&`; other settings are not modelled.
- `http_build_query` is modelled for flat arrays of string keys and values only. Nested arrays, `null` values (which PHP skips), booleans and numbers are not modelled. Keys are not required to be distinct as they are in a PHP array.
- A non-string scalar in an array path, or in an array segment, is modelled as its string form. A nested array inside a segment and a path that is neither a string nor an array are not modelled.
- Timeouts are PHP floats. They are modelled as `real` because they are only copied into the option array.
- `init()` only calls the parent component's `init`.
- `PhpStrings.ToUpper` is ASCII-only `strtoupper`, as in PHP 8.2 and later. Locale-dependent upper-casing in older PHP versions is not modelled.
- Exceptions carry only their message and code (`Exception`), or status and message (`HttpException`). `InvalidArgumentException` from `Json::encode` carries nothing.
