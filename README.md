# ioweb `Urllib3Transport` in Dafny

This project models ioweb's urllib3-backed transport (`ioweb/transport.py`,
class `Urllib3Transport`). The transport does four things:

- It chooses a connection pool. Requests without a proxy use the default
  pool. A request with a proxy uses a pool cached under
  `proxy_type://proxy`, built on first use.
- It refuses a request that sets both `resolve` and `proxy`. Otherwise it
  writes the `resolve` entries into the default pool's resolution cache.
- It completes the caller's headers (Accept-Encoding, Content-Type,
  Content-Length) and builds the body from `data`: a URL-encoded form,
  bytes, or UTF-8 text. A multipart form is meant to be supported too, but as
  written it fails with NameError (see "## Findings"). It then calls
  `urlopen` inside the network-error boundary.
- It reads the response body 1024 bytes at a time. The read stops at the
  content read limit. After each chunk that carries data without filling the
  body, it checks how much time has passed since the request began; an empty
  chunk or a chunk that fills the body ends the read without that check. It then finalises the response. In strict mode it
  re-raises a network error. In lenient mode it is meant to record the error
  on the response, but as written it stores None and loses the error (see
  "## Findings"). In every case it releases the connection.

The modules are:

| module | file | content |
|---|---|---|
| `Wrappers` | wrappers.dfy | `Option` and `Result`. These stand in for `None` and for raised exceptions. |
| `Encoding` | encoding.dfy | Bytes, ASCII lowering, UTF-8 encoding with strict decoding, decimal text. |
| `FormEncoding` | form_encoding.dfy | `urlencode` and `quote_plus`, and a parser that reads the form back. |
| `Headers` | headers.dfy | The header dict as an ordered list of entries with distinct names. |
| `Errors` | errors.dfy | The exception taxonomy, and `handle_network_error` as `MapFault`. |
| `BodyReader` | body_reader.dfy | `ReadLoop`, a function that specifies what `read_with_timeout` does to a given response and clock. |
| `Transport` | transport.dfy | The `Transport` class, its request preparation, the imperative read loop, and `prepare_response`. |
| `Scenarios` | scenarios.dfy | Whole exchanges through a fresh transport. |

Everything the transport calls into but cannot see is a parameter or an
object of the model:

- urllib3's `urlopen` is a function parameter. It maps the pool and the call
  to what the server did: an open response or a raised exception.
- An open response is an `Upstream` object. It holds the fixed sequence of
  answers its `read(1024)` calls give.
- `time.time()` is a `Clock` object. Its i-th reading is a fixed oracle value.
- `encode_multipart_formdata` is a function parameter.

The stateful parts of the source are imperative Dafny:

- `Transport` is a class. Its fields are the default pool, the proxy-pool
  cache, the last upstream response and `op_started`.
- Pools, responses and the clock are classes with `modifies` frames.
- `read_with_timeout`'s `while True` loop is a `while` loop.
  `ReadWithTimeout` is proved against the `ReadLoop` specification, and the
  lemmas in `BodyReader` prove what `ReadLoop` promises.

## Model

| member | source | states |
|---|---|---|
| `Transport.Transport.constructor` | ioweb/transport.py:34-45 | Without a pool, a fresh certificate-checking direct pool with an empty resolution cache is made. The proxy-pool cache is the one given. There is no response yet. |
| `Errors.MapFault` | ioweb/transport.py:50-92 | The result is either the fault unchanged or a network error. Only backend exceptions are ever translated. A translated fault keeps the message and has the original as its cause, except in the two redirect-header shims. |
| `Errors.MappingTable` | ioweb/transport.py:54-71 | Each of the nine urllib3/pyOpenSSL classes becomes its ioweb network error (OperationTimeout, Connect, MalformedResponse, Proxy), with the backend message and the exception as cause. |
| `Errors.TimeoutPhases` | ioweb/transport.py:54-57 | A read timeout becomes OperationTimeoutError. A connect timeout becomes ConnectError. |
| `Errors.RedirectShim` | ioweb/transport.py:72-92 | An AttributeError raised at the connectionpool `host.startswith('[')` frame, or a ValueError whose message contains 'Invalid IPv6 URL', becomes MalformedResponseError('Invalid redirect header'). Any other AttributeError or ValueError is re-raised unchanged. |
| `Errors.Contains` | ioweb/transport.py:89 | `needle in hay` holds exactly when the needle occurs at some index of the string. |
| `Errors.NotContainsFirst` | ioweb/transport.py:89 | A string none of whose characters is the needle's first character does not contain the needle. |
| `Errors.Ipv6ValueErrorRecognised` | ioweb/transport.py:88-90 | Any ValueError message containing 'Invalid IPv6 URL' is recognised, whatever text surrounds it. |
| `Errors.OtherValueErrorReraised` | ioweb/transport.py:91-92 | Every ValueError whose message does not contain 'Invalid IPv6 URL' passes through unchanged. |
| `Errors.IntParseValueErrorReraised` | ioweb/transport.py:91-92 | For example, the ValueError message "invalid literal for int()" passes through unchanged. |
| `Errors.TranslatedIff` | ioweb/transport.py:50-92 | A fault is changed by the boundary if and only if it is a table class, the AttributeError at the bracket check, or a ValueError with the IPv6 signature. |
| `Errors.MapFaultIdempotent` | ioweb/transport.py:50-92 | Translation is idempotent: a fault the boundary has already translated is left as it is if it reaches the boundary again. |
| `Transport.ProxyUrl` | ioweb/transport.py:100 | The cache key `'%s://%s' % (proxy_type, proxy)`: it starts with the proxy type and ends with the proxy, with the three characters `://` between them. |
| `Transport.ProxyUrlInjective` | ioweb/transport.py:100-101 | Two requests with the known proxy types share a cache key only if they have the same type and the same proxy. |
| `Transport.NewProxyPoolKind` | ioweb/transport.py:102-124 | `socks5` gives a SOCKS pool for the proxy URL. `http` gives an HTTP proxy pool for the proxy URL. The pool carries credentials exactly when `proxy_auth` is set, and then they are `proxy_auth` itself. Any other type is a configuration error. |
| `Transport.NewProxyPoolKindAsWritten` | ioweb/transport.py:120-124 | Wherever the corrected choice succeeds, the code as written gives the same pool kind. Its only failure is NameError for the undefined `IowebConfigError`. |
| `Transport.UnknownProxyTypeAsWritten` | ioweb/transport.py:120-124 | As written, every proxy type other than `socks5` and `http` raises NameError, for any proxy and credentials. That is a backend exception, not a configuration error. `get_pool` runs before the error boundary opens (line 171), so the NameError propagates out of `request` unchanged, and `MapFault` would leave it unchanged too. |
| `Transport.Transport.GetPool` | ioweb/transport.py:94-130 | No proxy gives the default pool. A cached proxy URL gives its cached pool. An uncached one gives a fresh certificate-checking pool of the right kind, cached under that key, or, for an unknown type, an error with nothing cached. Existing cache entries are never changed, and the only key that can be added is the request's own. |
| `Scenarios.ProxyPoolReused` | ioweb/transport.py:101-127 | Two requests through the same HTTP proxy get the identical pool, built for `http://<proxy>` without credentials and checking certificates. |
| `Transport.Transport.InstallResolve` | ioweb/transport.py:142-143 | The default pool's resolution cache becomes the old cache overridden by every `resolve` entry. |
| `Transport.Transport.SelectPool` | ioweb/transport.py:136-145 | With both `resolve` and `proxy` set, the result is a configuration error and neither the pool cache nor the resolution cache changes. Otherwise the overrides are installed and the pool is selected as `get_pool` does. Every error is a configuration error. |
| `Scenarios.ResolveWithProxyRefused` | ioweb/transport.py:137-141 | On a fresh transport, `resolve` together with `proxy` raises a configuration error, caches no proxy pool and installs no override. |
| `Headers.Lookup` | ioweb/transport.py:159 | `d.get(name)` is present exactly when some entry has that name, and in a dict it is that entry's value. |
| `Headers.HasLoweredName` | ioweb/transport.py:148 | `any(x.lower() == lowered for x in d)` holds exactly when some name lowers to `lowered`. |
| `Headers.Set` | ioweb/transport.py:149 | `d[name] = value`: names stay distinct, `name` now maps to `value`, and every other name maps to what it did before. |
| `Headers.SetKeepsOrder` | ioweb/transport.py:159 | An existing name keeps its place and a new name is appended, as in a dict's insertion order. |
| `Encoding.Lower` | ioweb/transport.py:148 | `str.lower` keeps the length and lowers each character. |
| `Transport.WithAcceptEncoding` | ioweb/transport.py:147-149 | The completed headers are still a dict. |
| `Transport.AcceptEncodingRespectsCaller` | ioweb/transport.py:147-149 | A caller's header whose name lowers to 'accept-encoding', in any letter case, is never overwritten, and with no content encoding nothing changes. Otherwise `Accept-Encoding` is added with the requested encoding and no other header changes. After a content encoding is requested, some header always lowers to 'accept-encoding'. |
| `Transport.BuildBody` | ioweb/transport.py:151-168 | Falsy data gives no body. Any other data gives a body, except a value of an unsupported type, which is a configuration error. That is the only failure over the texts a Dafny string can hold; the surrogate case is under "## Left out". |
| `Transport.BuildBodyAsWritten` | ioweb/transport.py:151-168 | Wherever the code as written succeeds, it agrees with the corrected body builder. Apart from multipart forms, it succeeds wherever the corrected builder does. Its only failures are the two NameErrors, for `encode_multipart_formata` and `IowebConfigError`. |
| `Transport.MultipartAsWritten` | ioweb/transport.py:153-154 | As written, every non-empty multipart form raises NameError for `encode_multipart_formata`, where the corrected builder returns the encoder's body and content type. Truthy data of any unsupported type, with or without `multipart`, raises NameError for `IowebConfigError`, where the corrected builder gives a configuration error. |
| `Transport.BodyDecodesToData` | ioweb/transport.py:152-163 | A URL-encoded form is sent under `application/x-www-form-urlencoded` and parses back to its fields' bytes. Bytes are sent unchanged with no content type. Text is sent as bytes that decode strictly back to the text. |
| `Transport.Latin1` | ioweb/transport.py:156-158 | The form string goes on the wire one byte per character, each byte equal to its character. |
| `FormEncoding.QuotePlusLength` | ioweb/transport.py:156 | `quote_plus` of one key or value (`QuotePlus`: UTF-8 encoding, then each byte written as itself for letters, digits and `_.-~`, `+` for a space, `%XX` otherwise) has at least as many characters as the text and at most twelve per character. |
| `FormEncoding.QuoteBytesLength` | ioweb/transport.py:156 | Quoting writes each byte as one character or a three-character `%XX` escape. |
| `FormEncoding.QuotePlusChars` | ioweb/transport.py:156 | Every character `quote_plus` emits is ASCII and neither `&` nor `=`. |
| `FormEncoding.UrlEncode` | ioweb/transport.py:156 | `urlencode` of a form: the quoted fields as `key=value`, joined by `&`. It is empty exactly for an empty form. |
| `FormEncoding.UrlEncodeRoundTrip` | ioweb/transport.py:156 | `urlencode` loses nothing: a non-empty form parses back to the UTF-8 bytes of its keys and values, in order. |
| `FormEncoding.UnquoteQuote` | ioweb/transport.py:156 | Unquoting undoes `quote_plus` byte for byte. |
| `FormEncoding.UrlEncodeAscii` | ioweb/transport.py:156-169 | The encoded form is ASCII, so `len(body)` of the string is its length in bytes. |
| `FormEncoding.SplitUrlEncode` | ioweb/transport.py:156 | Splitting the encoded form at `&` gives back exactly one encoded field per field. |
| `FormEncoding.SplitUrlEncodeStep` | ioweb/transport.py:156 | Splitting an encoded form of several fields at `&` peels off exactly the first encoded field. |
| `FormEncoding.EncodeFieldShape` | ioweb/transport.py:156 | An encoded field has no `&`, and its first `=` separates the quoted key from the quoted value. |
| `Encoding.Utf8` | ioweb/transport.py:163 | `s.encode('utf-8')`: each character's encoding in order, so between one and four bytes per character. |
| `Encoding.Utf8RoundTrip` | ioweb/transport.py:162-163 | Strict UTF-8 decoding of `s.encode('utf-8')` gives back `s`. |
| `Encoding.Utf8DecodeCanonical` | ioweb/transport.py:162-163 | Strict decoding accepts only canonical encodings: whatever it decodes encodes back to the same bytes. |
| `Encoding.DecodeFirstCharBytes` | ioweb/transport.py:163 | The first character of an encoding is decoded from its own bytes, whatever follows. |
| `Encoding.DecodeFirstCanonical` | ioweb/transport.py:163 | The bytes one decoded character was read from are exactly that character's encoding. |
| `Encoding.CharBytes` | ioweb/transport.py:163 | One character encodes to 1–4 bytes. It is one byte, equal to the code, exactly when below 0x80, and every byte after the first is a continuation byte. |
| `Encoding.Utf8Ascii` | ioweb/transport.py:163 | An ASCII string encodes to one byte per character. |
| `Encoding.DecimalRoundTrip` | ioweb/transport.py:169 | The Content-Length value reads back as the length it was written from. |
| `Encoding.Decimal` | ioweb/transport.py:169 | `str(n)` is a non-empty string of digits. |
| `Transport.WithBodyHeaders` | ioweb/transport.py:158-169 | The headers with the body's Content-Type and Content-Length set are still a dict. |
| `Transport.BodyHeadersDescribeBody` | ioweb/transport.py:158-169 | With a body, Content-Length parses to the body's exact length. Content-Type is the one the data brought, or the caller's own when the data brings none (bytes, text). No other header changes. Without a body, the headers are untouched. |
| `Transport.Outgoing` | ioweb/transport.py:147-190 | The call keeps the request's method, URL, connect and read timeouts and decoding flag. It carries a body exactly when `data` is truthy, and its headers are a dict. Over the texts a Dafny string can hold, it fails exactly on data of an unsupported type, with a configuration error. |
| `Transport.CallDescribesBody` | ioweb/transport.py:147-190 | The call's body is the body the data makes, and its Content-Length parses to that body's length. For a form, Content-Type is the form's content type. For bytes or text, it is the caller's own, left unchanged. Every other header is the caller's, as completed with Accept-Encoding. Without a body, the headers are exactly those. |
| `Transport.Transport.Request` | ioweb/transport.py:132-190 | Records the first clock reading as `op_started`. Refuses `resolve` with `proxy`, and otherwise installs the overrides. Sends the `Outgoing` call through the pool `get_pool` selects. An opened response becomes a fresh, unreleased upstream. A send exception is raised through `MapFault` and leaves the previous upstream in place. When nothing was sent, a configuration error explains why. |
| `Transport.Upstream.Read` | ioweb/transport.py:197 | `read(1024)` gives the next answer of the response and consumes it, or gives an empty chunk once the response is exhausted. |
| `Transport.Clock.Now` | ioweb/transport.py:209 | `time.time()` returns the next reading of the oracle. |
| `BodyReader.ReadLoop` | ioweb/transport.py:192-212 | The reference definition of `read_with_timeout`'s loop on a given response and clock. It reads the next answer, and an exhausted response answers with an empty chunk. It gives the bytes appended, why the loop stopped (end of response, cap reached, deadline, failed read), and the read calls, consumed answers and clock readings. The lemmas below and `ReadWithTimeout` are stated against it. |
| `BodyReader.Consume` | ioweb/transport.py:197-212 | One turn of that loop on an answer. A raised exception is a failed read, and an empty chunk ends the read. Otherwise `chunk[:chunk_limit]` is appended, and the read stops when the cap is reached, or when the clock reading is past `timeout`; if neither happens the loop goes on with the rest. |
| `BodyReader.ReadKeepsPrefix` | ioweb/transport.py:196-208 | The body never grows past `content_read_limit`. A cap stop means it is exactly full. What is kept is a prefix of the bytes the response sent before its first empty chunk or failure. |
| `BodyReader.ReadCounts` | ioweb/transport.py:196-212 | Every `read` call consumes one answer, except the final empty read on an exhausted response. A failure is the answer that raised. The clock is read after every chunk that neither ended the response nor filled the body. |
| `BodyReader.ReadClock` | ioweb/transport.py:209-212 | Every clock reading is within `timeout` of the start, except the last reading of a deadline stop, which is past it. |
| `BodyReader.ReadFillsCap` | ioweb/transport.py:199-206 | A response holding at least what is left of the limit fills the body to exactly the limit and stops without error, provided the clock is in time at each reading taken before the body is full. Truncation is silent, even when the filling chunk arrives after the deadline. |
| `BodyReader.ReadKeepsAll` | ioweb/transport.py:196-208 | A response that ends cleanly within the limit is kept whole and raises nothing, provided the clock is in time at the readings after its data chunks. |
| `BodyReader.ReadSlowDrip` | ioweb/transport.py:209-212 | A sender dripping data chunk by chunk, below the limit, is stopped with OperationTimeoutError('Timed out while reading response') by the first chunk after which the clock is past the budget. No single read needs to time out. |
| `BodyReader.BehindTwice` | ioweb/transport.py:196-212 | Accounting for one more loop turn composes with accounting for the earlier turns. |
| `Transport.Transport.ReadTurn` | ioweb/transport.py:197-212 | One turn of the loop appends `chunk[:chunk_limit]` and consumes one answer. It either ends the loop with the outcome `ReadLoop` gives, or continues with the remaining read equal to `ReadLoop` of the rest. |
| `Transport.Transport.ReadWithTimeout` | ioweb/transport.py:192-212 | The body gains exactly what `ReadLoop` says. The loop raises what it says, consumes the answers it says, and takes the clock readings it says. |
| `Transport.Transport.ReadPhase` | ioweb/transport.py:219-230 | Status and headers are copied from the upstream response, and the body is read inside the error boundary. A read fault comes out translated by `MapFault`. |
| `Transport.Transport.PrepareResponse` | ioweb/transport.py:214-238 | A send-phase error is stored and nothing is read. Without a response, the AttributeError propagates. Otherwise status, headers and the `ReadLoop` body are copied, and the response's remaining answers and the clock readings taken are the ones `ReadLoop` gives. Without a response, the clock is not read. A network fault from the read propagates in strict mode and is stored on the response in lenient mode, and any other fault propagates. The upstream response, if any, is released exactly once on every path. |
| `Transport.Transport.PrepareResponseAsWritten` | ioweb/transport.py:231-235 | As written, in lenient mode a network fault during the read leaves `res.error` as None, and the connection is still released once. |
| `Transport.Upstream.ReleaseConn` | ioweb/transport.py:236-238 | `release_conn` is counted, so the release in the `finally` clause can be stated as exactly once. |
| `Scenarios.CapFilledAfterDeadline` | ioweb/transport.py:205-209 | With a two-byte limit, a three-byte chunk that arrives after the deadline is cut to two bytes and ends the read, with no clock reading and no timeout. |
| `Scenarios.ReadStallsAfterOneByte` | ioweb/transport.py:196-208 | A response that sends one byte and then times out keeps that byte and ends on the socket timeout after two reads and one clock reading. |
| `Scenarios.LenientReadFaultDropped` | ioweb/transport.py:231-235 | As written, a lenient request whose body read times out after one byte returns a response with that byte and no error, as if it were complete. |
| `Scenarios.LenientReadFaultRecorded` | ioweb/transport.py:231-235 | As intended, the same exchange keeps the byte and records OperationTimeoutError('Read timed out.') with the socket timeout as its cause. |

## Left out

- `Session` (ioweb/session.py) is not part of this model. It drives a pycurl transport that is not among these files. It calls `prepare_response` with the default `raise_network_error=True`, so the lenient path is reached only by a caller that passes `False`.
- `prepare_request` does nothing and has no model.
- The peer certificate chain (lines 223-227) is left out. It depends on pyOpenSSL socket internals, and the model's response has no certificate field.
- The `Retry` and `Timeout` objects and `preload_content=False` are left out. They are passed unchanged to urllib3, which is outside the model. The call records the connect and read timeouts and the decoding flag.
- The traceback scan of the AttributeError shim (lines 74-83) is reduced to the flag `raisedAtBracketCheck`. Stack frames are runtime objects.
- Real time, sockets and urllib3 itself are parameters: the clock oracle, the `urlopen` function, and the fixed answers of an `Upstream`.
- Aliasing is left out. Python mutates the caller's `headers` dict in place, and the model computes new header lists. Likewise, a `proxy_pools` dict passed to the constructor is shared with the caller in Python, and here it is copied as a map value.
- Transport.Transport.ReadWithTimeout: a negative `content_read_limit` is not modelled, because the limit is a `nat`. In Python, the first non-empty chunk would be written as `chunk[:read_limit]`, which drops its last bytes, and the loop would then stop because `bytes_read >= read_limit`.
- Transport.BuildBody: form fields are text only (`Form(fields: seq<(string, string)>)`). Python's `urlencode` also accepts other values, which it converts with `str()`, and bytes keys or values, which it quotes without UTF-8 encoding.
- Transport.BuildBody: text data and form fields are sequences of Unicode scalar values (Dafny's `char`). A Python `str` holding a lone surrogate makes `urlencode` (line 156) or `.encode('utf-8')` (line 163) raise UnicodeEncodeError before the error boundary opens. The model cannot express that input, so that failure is not modelled, and neither `BuildBody` nor `Outgoing` states it.
- Encoding.Lower lowers ASCII letters only. Python's `str.lower` also folds non-ASCII letters, which can matter only for non-ASCII header names.
- Content-Length is modelled as its decimal text, where Python stores an `int` that http.client formats the same way.
- The URL-encoded form body is the one-byte-per-character form of the ASCII string `urlencode` returns, which is how http.client encodes a `str` body.
- The stale response after a failed send is modelled as written. `request` does not clear `urllib3_response`, so on a reused transport a failed send leaves the previous response in place, and `prepare_response` releases it again.
- Transport.WithAcceptEncoding compares lowered names with `AcceptEncodingLower`, defined as `Lower("Accept-Encoding")`, which is 'accept-encoding'.
- Scenarios.ProxyPoolReused calls `get_pool` directly rather than through `request`, since pool caching is all it states.

## Findings

| source | as written | input that shows it | evidently intended | confidence | as-written member | corrected member |
|---|---|---|---|---|---|---|
| ioweb/transport.py:121, ioweb/transport.py:165 | `raise IowebConfigError(...)` uses a name the module never imports (it imports `error`), so Python raises NameError. | A request with `proxy='p'` and `proxy_type='https'`; or `data=[1]` (a truthy list). | `error.IowebConfigError`, as on line 139: a configuration error for an unknown proxy type or data type. | not executed | `Transport.NewProxyPoolKindAsWritten`, `Transport.UnknownProxyTypeAsWritten`, `Transport.BuildBodyAsWritten` | `Transport.NewProxyPoolKind`, `Transport.BuildBody` |
| ioweb/transport.py:154 | `encode_multipart_formata(req['data'])` misspells the imported `encode_multipart_formdata`, so every multipart request raises NameError. | `data={'a': 'b'}` with `multipart=True`. | A call to `encode_multipart_formdata`, sending its body and content type. | not executed | `Transport.BuildBodyAsWritten`, `Transport.MultipartAsWritten` | `Transport.BuildBody` |
| ioweb/transport.py:235 | In lenient mode, `res.error = err` stores `err`, which is None on that branch, so the network error of the read is lost. The truncated response looks complete. | `raise_network_error=False`, and a response that sends one byte and then raises a urllib3 ReadTimeoutError. | `res.error = ex`, recording the translated network error. | not executed | `Transport.Transport.PrepareResponseAsWritten`, `Scenarios.LenientReadFaultDropped` | `Transport.Transport.PrepareResponse`, `Scenarios.LenientReadFaultRecorded` |
