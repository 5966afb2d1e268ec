/**
  What `Curl::httpRequest` does with the transfer: the write callback collects
  the response body chunk by chunk, and the HTTP status decides what is
  returned or thrown.
 */
module CurlResponse {
  import opened PhpStrings

  /**
    What `httpRequest` returns. `Decoded(source)` stands for the value of
    `Json::decode(source)`; the decoder itself is not modelled.
   */
  datatype Value = Bool(b: bool) | RawBody(body: Bytes) | Decoded(source: Bytes)

  /**
    The three exceptions: yii's `InvalidArgumentException` from `Json::encode`
    when the request body cannot be encoded for the trace message, `Exception`
    for a failed transfer, and `HttpException` for a bad status.
   */
  datatype Error =
    | EncodeError
    | CurlError(message: Bytes, errno: int)
    | HttpError(status: int, message: Bytes)

  /** A PHP call either returns a value or throws. */
  datatype Outcome = Returned(value: Value) | Thrown(error: Error)

  predicate IsSuccess(status: int)
  {
    200 <= status < 300
  }

  /** The message of the exception thrown when `curl_exec` fails. */
  const CurlFailedPrefix: Bytes := "curl request failed: "

  /**
    The status chain at the end of `httpRequest`. A 2xx status returns true for
    HEAD and the body otherwise (raw, or JSON-decoded); 404 returns false; any
    other status throws an `HttpException` with the status and the body.
   */
  function Classify(isHead: bool, raw: bool, status: int, body: Bytes): (r: Outcome)
    ensures r.Returned? <==> IsSuccess(status) || status == 404
    ensures r == Returned(Bool(false)) <==> status == 404
    ensures r == Returned(Bool(true)) <==> IsSuccess(status) && isHead
    ensures IsSuccess(status) && !isHead && raw ==> r == Returned(RawBody(body))
    ensures IsSuccess(status) && !isHead && !raw ==> r == Returned(Decoded(body))
    ensures r.Thrown? ==> r.error == HttpError(status, body)
  {
    if IsSuccess(status) then
      if isHead then Returned(Bool(true))
      else if raw then Returned(RawBody(body)) else Returned(Decoded(body))
    else if status == 404 then Returned(Bool(false))
    else Thrown(HttpError(status, body))
  }

  /** The chunks of a transfer run together, in order. */
  function Concat(chunks: seq<Bytes>): (r: Bytes)
  {
    if |chunks| == 0 then [] else Concat(chunks[..|chunks| - 1]) + chunks[|chunks| - 1]
  }

  /** Collecting two batches of chunks in turn collects what each batch collects, one after the other. */
  lemma {:induction false} ConcatAppend(a: seq<Bytes>, b: seq<Bytes>)
    ensures Concat(a + b) == Concat(a) + Concat(b)
    decreases |b|
  {
    if |b| == 0 {
      assert a + b == a;
    } else {
      var b' := b[..|b| - 1];
      assert (a + b)[..|a + b| - 1] == a + b';
      ConcatAppend(a, b');
    }
  }

  /** The collected body is as long as the chunks together. */
  lemma {:induction false} ConcatLength(chunks: seq<Bytes>, lengths: seq<nat>)
    requires |lengths| == |chunks|
    requires forall i :: 0 <= i < |chunks| ==> lengths[i] == |chunks[i]|
    ensures |Concat(chunks)| == Sum(lengths)
  {
    if |chunks| > 0 {
      ConcatLength(chunks[..|chunks| - 1], lengths[..|lengths| - 1]);
    }
  }

  function Sum(xs: seq<nat>): (total: nat)
  {
    if |xs| == 0 then 0 else Sum(xs[..|xs| - 1]) + xs[|xs| - 1]
  }

  /** The `$body` string the write callback appends to. */
  class ResponseBody {
    var body: Bytes

    /** `$body = ''`. */
    constructor ()
      ensures body == []
    {
      body := [];
    }

    /** The write callback: append the chunk and report its length in bytes, `mb_strlen($data, '8bit')`. */
    method Write(data: Bytes) returns (n: nat)
      modifies this
      ensures body == old(body) + data
      ensures n == |data|
    {
      body := body + data;
      n := |data|;
    }

    /**
      curl handing the transfer's chunks to the callback one after another. The
      body grows by their concatenation; `written` is what the callback reported
      for each, and it always equals the chunk's length, so curl never aborts.
     */
    method Receive(chunks: seq<Bytes>) returns (written: seq<nat>)
      modifies this
      ensures body == old(body) + Concat(chunks)
      ensures |written| == |chunks|
      ensures forall i :: 0 <= i < |chunks| ==> written[i] == |chunks[i]|
      ensures Sum(written) == |body| - |old(body)|
    {
      written := [];
      var i := 0;
      while i < |chunks|
        invariant 0 <= i <= |chunks|
        invariant body == old(body) + Concat(chunks[..i])
        invariant |written| == i
        invariant forall j :: 0 <= j < i ==> written[j] == |chunks[j]|
      {
        var n := Write(chunks[i]);
        assert chunks[..i + 1][..i] == chunks[..i];
        written := written + [n];
        i := i + 1;
      }
      assert chunks[..|chunks|] == chunks;
      ConcatLength(chunks, written);
    }
  }
}
