/** The dict a raw client's `request` returns, built by `_request` from the
    server's answer, and the error dict `request` builds from any exception
    instead. */
module Response {
  import opened Base

  /** What `body` holds: nothing, the bytes read, the `HTTPException` of an
      error status, or the exception `request` caught. */
  datatype ReplyBody = NoBody | Content(data: Bytes) | HttpError(status: int, reason: string)
                     | Caught(error: string)

  /** `{"code": ..., "headers": ..., "body": ...}`; `bodyReader` tells whether
      the `body_reader` key is present. */
  datatype Reply = Reply(code: Option<int>, headers: Option<map<string, string>>, body: ReplyBody,
                         bodyReader: bool)

  /** The outcome of handing the composed request to the connection:
      `_request`'s dict, or the exception raised on the way. */
  datatype Attempt = Returned(reply: Reply) | Thrown(error: string)

  /** The `except Exception` of `request`: any exception becomes
      `{"code": None, "headers": None, "body": exception}`. */
  function CatchAll(a: Attempt): (r: Reply)
    ensures r.code.None? && r.headers.None? <== a.Thrown?
    ensures a.Thrown? ==> r.body == Caught(a.error) && !r.bodyReader
    ensures a.Returned? ==> r == a.reply
  {
    match a
    case Thrown(e) => Reply(None, None, Caught(e), false)
    case Returned(reply) => reply
  }

  /** The key a response header is stored under: lower-cased, with `-`
      replaced by `_`. */
  function HeaderKey(name: string): (r: string)
    ensures |r| == |name| && '-' !in r && NoUpperCase(r)
  {
    ReplaceChar(Lower(name), '-', '_')
  }

  /** The headers dict after storing each `(name, value)` pair in turn: a
      later pair whose name gives the same key overwrites an earlier one. */
  function HeaderMap(pairs: seq<(string, string)>): map<string, string> {
    if pairs == [] then map[]
    else HeaderMap(pairs[..|pairs| - 1])[HeaderKey(pairs[|pairs| - 1].0) := pairs[|pairs| - 1].1]
  }

  /** Every key of the headers dict comes from a response header, and
      every response header is there under its key. */
  lemma {:induction false} HeaderMapKeys(pairs: seq<(string, string)>, k: string)
    ensures k in HeaderMap(pairs) <==> exists i :: 0 <= i < |pairs| && HeaderKey(pairs[i].0) == k
  {
    if pairs != [] {
      var n := |pairs| - 1;
      var init := pairs[..n];
      HeaderMapKeys(init, k);
      if k in HeaderMap(init) {
        var i :| 0 <= i < n && HeaderKey(init[i].0) == k;
        assert pairs[i] == init[i];
      }
      if exists i :: 0 <= i < |pairs| && HeaderKey(pairs[i].0) == k {
        var i :| 0 <= i < |pairs| && HeaderKey(pairs[i].0) == k;
        if i < n {
          assert init[i] == pairs[i];
        }
      }
    }
  }

  /** Each key holds the value of the last response header that gave it. */
  lemma {:induction false} HeaderMapLastWins(pairs: seq<(string, string)>, i: nat)
    requires i < |pairs|
    requires forall j :: i < j < |pairs| ==> HeaderKey(pairs[j].0) != HeaderKey(pairs[i].0)
    ensures HeaderKey(pairs[i].0) in HeaderMap(pairs)
    ensures HeaderMap(pairs)[HeaderKey(pairs[i].0)] == pairs[i].1
  {
    var n := |pairs| - 1;
    if i < n {
      var init := pairs[..n];
      assert init[i] == pairs[i];
      forall j | i < j < |init| ensures HeaderKey(init[j].0) != HeaderKey(init[i].0) {
        assert init[j] == pairs[j];
      }
      HeaderMapLastWins(init, i);
    }
  }

  /** The loop of `_request` that fills `_return['headers']`. */
  method NormalizeHeaders(pairs: seq<(string, string)>) returns (headers: map<string, string>)
    ensures headers == HeaderMap(pairs)
  {
    headers := map[];
    for i := 0 to |pairs|
      invariant headers == HeaderMap(pairs[..i])
    {
      assert pairs[..i + 1][..i] == pairs[..i];
      var (name, value) := pairs[i];
      headers := headers[ReplaceChar(Lower(name), '-', '_') := value];
    }
    assert pairs[..|pairs|] == pairs;
  }

  /** A status below 100 or from 400 on is reported as an `HTTPException`. */
  predicate IsErrorStatus(status: int) {
    status < 100 || status >= 400
  }

  /** `_request` after the server answered `status` / `reason` with the
      header pairs `pairs`; `read` stands for what `response.read()` would
      return, and `returnReader` is the client's `return_reader` flag. */
  method ReplyFor(verb: string, status: int, reason: string, pairs: seq<(string, string)>,
                  returnReader: bool, read: Bytes)
    returns (r: Reply)
    ensures r.code == Some(status) && r.headers == Some(HeaderMap(pairs)) && r.bodyReader == returnReader
    ensures IsErrorStatus(status) ==> r.body == HttpError(status, reason)
    ensures !IsErrorStatus(status) && verb != "HEAD" && !returnReader ==> r.body == Content(read)
    ensures !IsErrorStatus(status) && (verb == "HEAD" || returnReader) ==> r.body == NoBody
  {
    var headers := NormalizeHeaders(pairs);
    r := Reply(Some(status), Some(headers), NoBody, returnReader);
    if status < 100 || status >= 400 {
      r := r.(body := HttpError(status, reason));
    } else if verb != "HEAD" && !returnReader {
      r := r.(body := Content(read));
    }
  }
}
