# pas_http_client / dNG HTTP client: a Dafny model of its core

This project models three parts of the `pas_http_client` HTTP client and of
its older `dNG` copy, and proves properties of them.

1. **The chunked transfer-coding reader**, `ChunkedReaderMixin._read_chunked_data`
   (section 4.1 of RFC 7230). The loop pulls at most 16384 bytes (`pas`) or
   4096 bytes (`dNG`) at a time. It looks for the CRLF-terminated hex size
   line, counts down a read budget, and routes each payload part. Parts
   within the caller's quota go to the callback; the rest goes to the
   object's buffer, which is kept for the next call.
   - `ChunkedSpec` describes the loop as a pure state transformer: `Step` is
     one pass of the loop body, `Run` is the loop, `ReadSpec` is a whole
     call.
   - `ChunkedReader.ChunkedReaderMixin` is the object with its buffer field.
     Its `ReadChunkedData` method is the loop as the Python writes it, and it
     is proved to compute exactly `ReadSpec`.
   - The reader callable is modelled as a wire byte string plus a cap on each
     pull, so short reads are covered. The clock is a per-iteration deadline
     oracle.
   - The callback is modelled as the returned sequence of the slices it
     would be given.
2. **The request-side header table and query composition** of the raw
   clients:
   - `set_header`, `reset_headers` and `set_basic_auth`
     (`Headers`, `Client.RawClient`);
   - `_build_request_parameters` and the path/query concatenation of
     `request` (`Query`);
   - the body and outgoing headers handed to `_request` (`Request`);
   - the answer dict built by `_request`, and the error dict `request`
     builds from any exception (`Response`).
3. **URL configuration and reconstruction** (`Url`, `Client.RawClient.Configure`):
   - `_configure` over the parts `urlsplit` returns;
   - the `url` property of the `pas_http_client` raw client;
   - the connection host that `_get_connection` derives.

`Client.Variant` distinguishes the four client classes:

- The `pas_http_client` `AbstractRawClient` and `RawClient`, and the `dNG`
  `AbstractRawClient`, lower-case header names and use `content-type`.
- The standalone `dNG` `RawClient` upper-cases header names and uses
  `CONTENT-TYPE`.
- The abstract classes raise "not implemented" from `_configure` and
  `_request`.

The model follows the code where the code departs from the transfer-coding
standard or from what one would expect of the client:

- **The CRLF after chunk data is never stripped.** `chunk_size` goes
  negative, and those two bytes are routed as payload.
- **Left-over bytes are first counted, then scanned again.** The next call
  loads the buffer a call leaves behind as a count of chunk bytes still
  owed. So the next bytes of the wire, up to that count, go to the callback
  as payload; `ChunkedTrace.SecondCall` shows the next size line being
  delivered this way. The held bytes stay in front of the next pull, though.
  When the search for a size line begins, they are searched again, and
  payload found after their CRLF does reach the callback
  (`ChunkedTrace.HeldBytesRescanned`).
- **A quota of 0 or less sends everything to the buffer.** With `size` ≤ 0
  (the default is `-1`, "read to the end") every payload byte goes to the
  buffer. On an empty buffer the loop does not run at all, and the call
  raises the timeout error at once (`ChunkedTrace.NonPositiveSizeTimesOut`).
- **The callback can receive `b""`.** A part that straddles a quota already
  reached is split at length 0.
- **Chunk extensions are not accepted.** `int(octets, 16)` fails on a `;`
  extension.
- **An unset password is sent as `None`.** It is rendered as the text `None`
  in the `Authorization` credentials.
- **Any scheme other than `http` or `https` gets port 80.** A URL without a
  port gets port 80, and the `pas` `url` property then prints `:80`.
- **The `pas` raw client separates URL credentials from request
  credentials.** Its `_configure` stores the URL's credentials as
  `_auth_name` / `_auth_password`, which `request` never reads. The `dNG` raw
  client stores them where `request` finds them.

## Model

| member | source | states |
|---|---|---|
| `ChunkedReader.ChunkedReaderMixin.constructor` | src/pas_http_client/chunked_reader_mixin.py:45-52 | A new mixin has no stored buffer (the `dNG` copy is the same at lines 54-62). |
| `ChunkedReader.ChunkedReaderMixin.ResetChunkedBuffer` | src/dNG/net/http/chunked_reader_mixin.py:179-187 | Afterwards the stored buffer is None (`pas`: lines 154-161). |
| `ChunkedReader.ChunkedReaderMixin.ReadChunkedData` | src/pas_http_client/chunked_reader_mixin.py:58-151 | The imperative loop leaves exactly `ReadSpec`'s outcome: the exception raised, the slices given to the callback in order, the new stored buffer and the reader position. This covers the `len(None)` failure, the budget of 5, the pulls of `min(quantum, size_unread)` bytes and every exit. |
| `ChunkedReader.ChunkedReaderMixin.RoutePart` | src/pas_http_client/chunked_reader_mixin.py:134-147 | One payload part routed with Python's negative slice index `size_expected` is the same as `Route`, which cuts at `size - size_read`. |
| `ChunkedReader.ChunkedReaderMixin.NextChunkSize` | src/dNG/net/http/chunked_reader_mixin.py:111-150 | The size-line block of the loop. It yields what `Body` yields: either the `ValueError` of a bad size, or the new size, held bytes, last-chunk flag, budget and the payload left to route. |
| `ChunkedReader.ChunkedReaderMixin.ParseChunkSize` | src/pas_http_client/chunked_reader_mixin.py:126-130 | `int(octets, 16)` either fails, or gives the new size: a zero size sets the last-chunk flag, any other size is added to the budget. The bytes after the CRLF become the payload, exactly as `SizeLine` says. |
| `ChunkedReader.ChunkedReaderMixin.ProcessPart` | src/dNG/net/http/chunked_reader_mixin.py:105-172 | The loop body after a non-empty pull updates the locals and the buffer exactly as `Body`. |
| `ChunkedSpec.Entry` | src/pas_http_client/chunked_reader_mixin.py:70-78 | The locals on entry: a budget of 5, the stored buffer as the held bytes and as the count of chunk bytes owed, no last chunk, nothing read yet and the buffer cleared. Its consequences are stated in `FreshMixinFails`, `SecondCall` and `HeldBytesRescanned`. |
| `ChunkedSpec.Pull` | src/pas_http_client/chunked_reader_mixin.py:88-90 | A pull hands out the next wire bytes: exactly min(requested, left, cap) of them. |
| `ChunkedSpec.Continue` | src/pas_http_client/chunked_reader_mixin.py:80-83 | The loop condition: budget left, the quota not reached or chunk bytes owed, and the deadline not passed. What its failure means is `TimedOutMeans`. |
| `ChunkedSpec.Route` | src/pas_http_client/chunked_reader_mixin.py:137-147 | Beyond the quota the part is appended to the stored buffer. Across the quota the callback gets the first `size - size_read` bytes and the buffer gets the rest. Within the quota the callback gets the whole part. `size_read` grows by the part's length. |
| `ChunkedSpec.Routed` | src/pas_http_client/chunked_reader_mixin.py:134-135 | An empty part changes nothing. Otherwise `chunk_size` drops by the part's length, and the budget, held bytes and flag stay. |
| `ChunkedSpec.Hay` | src/pas_http_client/chunked_reader_mixin.py:100-103 | The bytes searched for a size line are the held bytes, if any, followed by the pull. |
| `ChunkedSpec.SizeLine` | src/pas_http_client/chunked_reader_mixin.py:113-131 | The size-line branch once a CRLF was found: `int(_, 16)` of the octets before it, the last-chunk flag or the budget, and the bytes after the CRLF to route. Its cases are `BodyBadSize`, `BodySizeLine` and `BodyEncodedSizeLine`. |
| `ChunkedSpec.Body` | src/pas_http_client/chunked_reader_mixin.py:93-147 | The loop body after a non-empty pull, as a step of the locals. Its branches are the `Body…` lemmas, and the invariant it keeps is `BodyKeepsInv`. |
| `ChunkedSpec.Step` | src/pas_http_client/chunked_reader_mixin.py:88-147 | One pass of the loop. Its two outcomes are `StepStarved` and `StepIsBody`, and `StepKeepsInv` is the invariant it keeps. |
| `ChunkedSpec.StepPull` | src/pas_http_client/chunked_reader_mixin.py:88-93 | A pass asks for `min(quantum, size_unread)` bytes. It raises the reader error exactly when none came. Otherwise it moves the reader past the bytes pulled and runs the body on them. |
| `ChunkedSpec.StepStarved` | src/dNG/net/http/chunked_reader_mixin.py:100-104 | An empty pull raises `OSError` (`pas`: `IOException`), and nothing but the loop count changes. |
| `ChunkedSpec.StepIsBody` | src/dNG/net/http/chunked_reader_mixin.py:100-105 | A non-empty pull moves the reader and continues with the body. |
| `ChunkedSpec.BodyMidChunk` | src/pas_http_client/chunked_reader_mixin.py:93-147 | Inside a chunk the whole pull is payload and the budget drops by its length. |
| `ChunkedSpec.BodyNoCrlf` | src/pas_http_client/chunked_reader_mixin.py:107-112 | Without a CRLF in the held bytes plus the pull, everything is held, nothing is routed and the budget grows by 3. |
| `ChunkedSpec.BodyAfterLastChunk` | src/pas_http_client/chunked_reader_mixin.py:119-124 | After the last chunk, with nothing held, a pull that holds a CRLF is dropped. |
| `ChunkedSpec.BodyBadSize` | src/pas_http_client/chunked_reader_mixin.py:113-127 | Octets before the first CRLF that are not hex raise `ValueError`; the held bytes are gone by then. |
| `ChunkedSpec.BodySizeLine` | src/pas_http_client/chunked_reader_mixin.py:113-130 | Size `v` is read from before the first CRLF of the held bytes plus the pull, and whatever follows the CRLF is routed. A zero size sets the last-chunk flag and leaves the budget; any other size is added to the budget. |
| `ChunkedSpec.BodyEncodedSizeLine` | src/pas_http_client/chunked_reader_mixin.py:99-131 | A pull that starts with a size line as a server writes it (hex digits and CRLF) sets exactly that size, and routes exactly the bytes after the CRLF. |
| `ChunkedSpec.StepKeepsLastChunk` | src/pas_http_client/chunked_reader_mixin.py:129 | Once the terminal chunk is seen, the flag is never cleared. |
| `ChunkedSpec.Run` | src/pas_http_client/chunked_reader_mixin.py:80-83 | The loop runs while budget is left, the quota is not reached (or chunk bytes are owed) and the deadline has not passed. The reader only moves forward. |
| `ChunkedSpec.RunRaise` | src/pas_http_client/chunked_reader_mixin.py:92 | A pass that raises ends the loop with that exception. |
| `ChunkedSpec.RunNext` | src/pas_http_client/chunked_reader_mixin.py:80-148 | A pass that goes on leaves the rest of the loop to run from its new state. |
| `ChunkedSpec.ReadSpec` | src/pas_http_client/chunked_reader_mixin.py:58-151 | A call never moves the reader backwards. |
| `ChunkedSpec.CallRaises` | src/dNG/net/http/chunked_reader_mixin.py:104 | A call whose loop raises leaves that exception and the state of that pass. |
| `ChunkedSpec.CallEnds` | src/dNG/net/http/chunked_reader_mixin.py:176 | A call whose loop condition fails raises the timeout error exactly when budget is left. |
| `ChunkedSpec.ReadSpecMeans` | src/pas_http_client/chunked_reader_mixin.py:75-151 | A None buffer fails before anything happens. The callback receives at most `max(size, 0)` bytes in total. The callback slices, then the new buffer, are exactly the payload routed in the call: nothing dropped, nothing duplicated. The timeout error is raised exactly when the loop ended with budget left. |
| `ChunkedSpec.RouteKeepsInv` | src/pas_http_client/chunked_reader_mixin.py:137-147 | Routing keeps the conservation and quota invariant: callback bytes plus buffer equal the routed bytes, min(size_read, max(size, 0)) bytes have been delivered, and the buffer is filled only past the quota. |
| `ChunkedSpec.RoutedKeepsInv` | src/pas_http_client/chunked_reader_mixin.py:134-147 | `chunk_size` bookkeeping does not disturb that invariant. |
| `ChunkedSpec.SizeLineKeepsInv` | src/pas_http_client/chunked_reader_mixin.py:113-130 | The size-line branch keeps the invariant. |
| `ChunkedSpec.BodyKeepsInv` | src/pas_http_client/chunked_reader_mixin.py:99-147 | Every branch of the loop body keeps the invariant. |
| `ChunkedSpec.StepKeepsInv` | src/pas_http_client/chunked_reader_mixin.py:88-147 | A whole pass keeps the invariant. |
| `ChunkedSpec.RunKeepsInv` | src/dNG/net/http/chunked_reader_mixin.py:91-173 | The invariant holds wherever the loop stops or raises. |
| `ChunkedSpec.RunRaises` | src/pas_http_client/chunked_reader_mixin.py:92-127 | Inside the loop only the reader check and `int(_, 16)` raise. |
| `ChunkedSpec.RunEndsOnCondition` | src/dNG/net/http/chunked_reader_mixin.py:91-94 | A loop that ends without raising ends because its condition is false. |
| `ChunkedSpec.TimedOutMeans` | src/pas_http_client/chunked_reader_mixin.py:151 | "Timeout occurred before EOF" means budget was left and either the deadline passed, or the quota was reached with no chunk bytes owed. Without a deadline only the latter. |
| `ChunkedTrace.FirstCall` | src/pas_http_client/chunked_reader_mixin.py:58-151 | On `4\r\nWiki\r\n5\r\npedia\r\n0\r\n\r\n` from an empty buffer with `size=3`, the callback gets `Wi` then `k`, `i\r\n` stays buffered, and nothing is raised. |
| `ChunkedTrace.FirstPass` | src/pas_http_client/chunked_reader_mixin.py:113-145 | The first pass of that call reads size 4 and delivers `Wi`. |
| `ChunkedTrace.SecondPass` | src/pas_http_client/chunked_reader_mixin.py:140-144 | The second pass splits `ki\r\n` at the quota. |
| `ChunkedTrace.SecondCall` | src/pas_http_client/chunked_reader_mixin.py:75-78 | The next call with `size=6` counts the buffered `i\r\n` as 3 owed bytes and delivers `5\r\npe`. |
| `ChunkedTrace.HeldBytesRescanned` | src/pas_http_client/chunked_reader_mixin.py:75-147 | The held bytes `a\r\nX` with `size=100`. The callback first gets the four pulled bytes `1234`, which pay off the count of owed bytes. The held bytes are then searched again with the next pull `Z`: size `a` is read and `XZ` is delivered, before the starved reader raises. |
| `ChunkedTrace.RescanFirstPass` | src/pas_http_client/chunked_reader_mixin.py:88-147 | Pass 1 of that call: the four pulled bytes are owed chunk data and go to the callback. |
| `ChunkedTrace.RescanSecondPass` | src/pas_http_client/chunked_reader_mixin.py:88-93 | Pass 2 of that call pulls the one byte `Z` and goes on with the body. |
| `ChunkedTrace.RescanSizeLine` | src/pas_http_client/chunked_reader_mixin.py:113-130 | In pass 2 the held bytes are searched in front of `Z`, the size 10 is taken and `XZ` is routed. |
| `ChunkedTrace.FreshMixinFails` | src/dNG/net/http/chunked_reader_mixin.py:86-87 | A fresh mixin (buffer None) fails on `len(None)`. |
| `ChunkedTrace.NonPositiveSizeTimesOut` | src/pas_http_client/chunked_reader_mixin.py:80-81 | An empty buffer with `size` ≤ 0 raises the timeout error without reading. |
| `Framing.FindCrlf` | src/pas_http_client/chunked_reader_mixin.py:100-103 | A non-negative result is the index of a CRLF. |
| `Framing.FindCrlfFirst` | src/dNG/net/http/chunked_reader_mixin.py:113-116 | `find(b"\r\n")` gives the first CRLF, and -1 exactly when there is none. |
| `Framing.FindCrlfPrefix` | src/pas_http_client/chunked_reader_mixin.py:113-115 | Appending bytes does not move a CRLF already found. |
| `Framing.ParseHex` | src/pas_http_client/chunked_reader_mixin.py:127 | `int(octets, 16)` for a chunk-size line: None (the `ValueError`) unless the octets are a non-empty run of hex digits. What it computes is `ParseHexMeans`. |
| `Framing.ParseHexMeans` | src/pas_http_client/chunked_reader_mixin.py:127 | `int(octets, 16)` succeeds exactly on a non-empty string of hex digits, giving its base-16 value. |
| `Framing.HexDigitsMeans` | src/dNG/net/http/chunked_reader_mixin.py:147 | The digit scan succeeds exactly on hex digits and computes their value. |
| `Framing.ParseHexEncode` | src/dNG/net/http/chunked_reader_mixin.py:147 | Any size a server writes in hex is read back as that size. |
| `Framing.HexEncodeHasNoCrlf` | src/dNG/net/http/chunked_reader_mixin.py:113-120 | A size written in hex never holds the CRLF that ends its line. |
| `Framing.EncodedSizeLine` | src/pas_http_client/chunked_reader_mixin.py:100-127 | For a size line a server writes, `find` stops at its CRLF and the octets in front of it read back as the size written. What follows the CRLF is the rest. |
| `Headers.FoldName` | src/pas_http_client/abstract_raw_client.py:332 | Lower-casing leaves no upper-case letter; upper-casing leaves no lower-case letter. |
| `Headers.FoldNameIgnoresCase` | src/dNG/net/http/abstract_raw_client.py:349 | Names that differ only in letter case fold to the same key. |
| `Headers.Appended` | src/pas_http_client/abstract_raw_client.py:337-339 | Appending to a list value adds the value at its end. Any other value becomes the list `[old, new]`. |
| `Headers.WithHeader` | src/pas_http_client/abstract_raw_client.py:331-339 | `set_header`: no other name is touched. None deletes the folded name. An absent name is stored. A present name gets the value appended when `value_appends`, and is left unchanged otherwise. |
| `Headers.SetThenDelete` | src/dNG/net/http/abstract_raw_client.py:348-356 | Setting a header and then setting it to None gives back the table without it. |
| `Headers.FirstValueWins` | src/dNG/net/http/abstract_raw_client.py:352-353 | Without `value_appends`, a second value for a present name is ignored. |
| `Headers.AppendTwice` | src/dNG/net/http/raw_client.py:512-518 | Three values appended under differently-cased names form one list of all three. |
| `Client.RawClient.SetHeader` | src/dNG/net/http/raw_client.py:498-518 | The in-place dict update leaves exactly `WithHeader`'s table (upper-case names in the `dNG` raw client), and no other field changes. |
| `Client.RawClient.ResetHeaders` | src/pas_http_client/abstract_raw_client.py:296-303 | `reset_headers` leaves an empty table and touches nothing else. |
| `Client.RawClient.SetBasicAuth` | src/pas_http_client/abstract_raw_client.py:306-317 | None becomes `""` for both user name and password; nothing else changes. |
| `Client.RawClient.SetIpv6LinkLocalInterface` | src/dNG/net/http/raw_client.py:533-543 | The interface used for `fe80::` zones is the one given. |
| `Client.RawClient.Configure` | src/pas_http_client/raw_client.py:139-163 | The abstract classes raise "not implemented" and change nothing. Otherwise the scheme is lower-cased first; a missing host name then raises and nothing else changes. On success the host is bracketed iff it has a `:`, the port is explicit or 443 for `https` or 80, and the path gets `?query` iff the query is non-empty. URL credentials go to `_auth_name` in `pas` and to `auth_username` in `dNG` (src/dNG/net/http/raw_client.py, lines 176-200). |
| `Client.RawClient.Request` | src/dNG/net/http/raw_client.py:260-317 | The abstract classes always answer the error dict of their unimplemented `_request`. A raw client sends exactly the composed arguments, and any exception becomes the error dict. Being a function, it cannot touch the header table. |
| `Client.BasicAuthIsSent` | src/dNG/net/http/abstract_raw_client.py:283-292 | After `set_basic_auth`, every request carries `Basic` authorization for those credentials, unless the table has its own `Authorization` entry. |
| `Query.ParamItems` | src/pas_http_client/abstract_raw_client.py:201-205 | One `key=value` item per dict entry, in order. |
| `Query.BuildRequestParameters` | src/pas_http_client/abstract_raw_client.py:185-210 | The result is None exactly for a non-dict. A dict gives its items joined by the separator. |
| `Query.ParamsSplitBack` | src/dNG/net/http/raw_client.py:159-173 | With a one-character separator the quoting never produces, the query splits back into one item per entry, with `bool` values as `1` / `0` (`dNG` abstract copy: lines 200-225). |
| `Query.ComposePath` | src/pas_http_client/abstract_raw_client.py:243-249 | Non-string params leave the path. String params follow `?` when the path has none, nothing when it already ends with the separator, and the separator otherwise. |
| `Query.ComposePathQuery` | src/dNG/net/http/abstract_raw_client.py:259-265 | After the first `?` comes the params alone when the path had no query. Otherwise it is the old query, the glue, then the params. |
| `Query.ComposePathEnds` | src/dNG/net/http/raw_client.py:279-286 | The new path starts with the old one and ends with the params, and these follow a `?` or the separator. |
| `Request.FormHeaders` | src/pas_http_client/abstract_raw_client.py:252-258 | The copied table; a dict body makes sure there is a table, and a content type in it. |
| `Request.OutgoingHeaders` | src/pas_http_client/abstract_raw_client.py:266-275 | With a user name set, the copied table is laid over an `Authorization: Basic …` entry; otherwise it is the copied table. `OutgoingHeadersKeepTable` and `OutgoingHeadersAdd` state what it keeps and adds. |
| `Request.OutgoingHeadersKeepTable` | src/pas_http_client/abstract_raw_client.py:252-275 | Headers are sent exactly when there is a table, a form body or a user name. Every table entry goes out unchanged, so a table `Authorization` wins over the credentials. |
| `Request.OutgoingHeadersAdd` | src/dNG/net/http/raw_client.py:288-312 | A form body adds the default content type under the client's spelling, only if missing. Credentials add `Authorization: Basic b64(user:password)`, with an unset password rendered `None`. Nothing else is added. |
| `Request.Compose` | src/dNG/net/http/abstract_raw_client.py:259-292 | The request has the composed path. Its body is absent exactly without data: form data is urlencoded and other data is sent as given. Its headers are the outgoing headers. |
| `Response.CatchAll` | src/pas_http_client/abstract_raw_client.py:278 | Any exception becomes `{"code": None, "headers": None, "body": exception}`. A returned dict passes through. |
| `Response.HeaderKey` | src/pas_http_client/raw_client.py:211 | A response header key has the name's length, no `-` and no upper-case letter. |
| `Response.HeaderMap` | src/pas_http_client/raw_client.py:211 | The headers dict after each header is stored under its normalised name, with later headers overwriting earlier ones. `HeaderMapKeys` and `HeaderMapLastWins` state what it holds. |
| `Response.HeaderMapKeys` | src/dNG/net/http/raw_client.py:337 | The headers dict has a key exactly for each normalised response header name. |
| `Response.HeaderMapLastWins` | src/pas_http_client/raw_client.py:211 | A key holds the value of the last header that gave it. |
| `Response.NormalizeHeaders` | src/dNG/net/http/raw_client.py:336-337 | The loop builds exactly that dict. |
| `Response.ReplyFor` | src/dNG/net/http/raw_client.py:335-346 | The code is the status and the headers are normalised. A status below 100 or from 400 on gives an `HTTPException` body. Otherwise the body is read unless the method is `HEAD` or a reader is returned. |
| `Url.BracketedHost` | src/pas_http_client/raw_client.py:156 | The host is put in brackets exactly when it contains a `:`. The lemma about it is `ConnectionHostOfBracketed`. |
| `Url.ConnectionHost` | src/pas_http_client/raw_client.py:176-183 | The connection host: a host with a `:` loses its brackets and gets `%interface` when it starts with `fe80::` and an interface is set; any other host is used as it is. |
| `Url.DefaultedPort` | src/pas_http_client/raw_client.py:158-160 | The explicit port, else 443 for `https`, else 80. |
| `Url.PathAndQuery` | src/dNG/net/http/raw_client.py:199-200 | The path gets `?query` exactly when the query is non-empty. |
| `Url.ConnectionHostOfBracketed` | src/pas_http_client/raw_client.py:176-183 | The connection host of a configured client is the URL's host name again, plus `%interface` for an `fe80::` address when an interface is set (`dNG`: lines 213-217). |
| `Url.UserInfo` | src/pas_http_client/raw_client.py:121-126 | The credential part is empty exactly when neither credential is set. |
| `Url.PasUrl` | src/pas_http_client/raw_client.py:119-136 | The `url` property: scheme, credentials, host, `:port` unless it is the scheme's default, and the path. What it gives for a configured client is `ConfiguredUrl`. |
| `Url.ConfiguredUrl` | src/pas_http_client/raw_client.py:119-134 | The rebuilt URL omits the port exactly for (`https`, 443) and (`http`, 80). A missing port therefore disappears for those schemes and shows as `:80` for any other. |

## Left out

- Sockets and TLS are left out: `HTTPConnection` / `HTTPSConnection`,
  `_get_ssl_connection_arguments`, `_tls_kwargs` and
  `connection.request` / `getresponse` / `read`.
  - What the connection answers is the `send` parameter of `Request`.
  - What `response.read()` returns is the `read` parameter of `ReplyFor`.
  - The `pas` raw client opening an `HTTPSConnection` for `http` as well is
    therefore not represented.
- Library calls are parameters, and none of them is reimplemented:
  - `urlsplit` is the `UrlParts` record;
  - `quote` / `quote_plus`, `urlencode` and `b64encode` (with the utf-8
    encoding of the credentials) are function parameters;
  - encoding a body into bytes (utf-8 in `pas`, raw-unicode-escape in `dNG`)
    is not modelled: bodies stay text;
  - the range check `urlsplit` makes on a port is not modelled.
- `time()` is a deadline oracle that is asked at each loop check. A negative
  or zero `timeout` is whatever the oracle answers.
- Framing.ParseHex accepts exactly a non-empty run of hex digits. Python's
  `int(_, 16)` also accepts surrounding whitespace, `_` between digits, a
  sign and a `0x` prefix.
- Case folding (`str.lower`, `str.upper`) is modelled for ASCII letters only.
- The abstract `url` getters are not modelled: their format string repeats
  the host and never shows the port.
- The type checks of the `url` setter (`TypeException` / `TypeError` for a
  non-string URL) are not modelled. Neither is the Python 2/3 string
  conversion.
- `__init__` is modelled as the constructor followed by `Configure`. Logging,
  event handlers and `Header.get_headers` are not modelled.
- The `pas` raw client's `_request` reads `_return_reader`, an attribute no
  code assigns. The model takes the return-reader flag as the parameter of
  `ReplyFor` instead of raising there.
- `HTTPException`'s message text is not formatted. The body keeps the status
  and the reason.
- Header values are either strings or lists. A list passed to `set_header`
  is a value, so a later append does not change the caller's list.
- Dict order is not modelled: header tables are maps. Query parameters are a
  sequence in the dict's iteration order, and keys are taken as their
  `str()`.
- `Client.RawClient.Request` has one exception text for "not implemented":
  the model does not distinguish `NotImplementedException` from
  `NotImplementedError`.
- Not modelled:
  - the response and client wrappers (`response.py`, `client.py`, the
    package `__init__`), which delegate to the objects above;
  - the one-line `request_*` methods.
