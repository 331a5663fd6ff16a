/**
 * `Urllib3Transport`: pool selection and caching, request preparation, the
 * bounded and deadline-checked body read, and response finalisation with a
 * guaranteed connection release. urllib3 itself is outside the model: a
 * pool is an object with a host-resolution cache, `urlopen` is a function
 * parameter from the pool and the call to what the server did, an open
 * response is an object yielding a fixed sequence of chunks, and the clock
 * is an object answering each reading from a fixed oracle.
 */
module Transport {
  import opened Wrappers
  import opened Encoding
  import opened Errors
  import opened Headers
  import opened FormEncoding
  import opened BodyReader

  // ---------------------------------------------------------------------
  // Requests

  /** The request option `data`, by Python type. */
  datatype Data =
    | NoData                                   // None
    | Form(fields: seq<(string, string)>)      // dict, in insertion order
    | Raw(bytes: seq<byte>)                    // bytes
    | Text(text: string)                       // str
    | OtherData(typeName: string, truthy: bool) // anything else

  /** Python truthiness of `data`. */
  predicate Truthy(d: Data) {
    match d
    case NoData => false
    case Form(fields) => |fields| > 0
    case Raw(bytes) => |bytes| > 0
    case Text(text) => |text| > 0
    case OtherData(_, truthy) => truthy
  }

  /**
   * The request options the transport reads. Options whose Python value may
   * be None use the empty string, the empty map or 0 for "not set", which
   * are exactly the falsy values the transport tests for.
   */
  datatype Request = Request(
    url: string,
    verb: string,
    headers: HeaderList,
    data: Data,
    multipart: bool,
    proxy: string,
    proxyType: string,
    proxyAuth: string,
    resolve: map<string, string>,
    connectTimeout: int,
    timeout: int,
    contentEncoding: string,
    decodeContent: bool,
    contentReadLimit: nat)

  /** What the transport hands to `urlopen` (retries and preloading are always off). */
  datatype Call = Call(
    verb: string,
    url: string,
    headers: HeaderList,
    body: Option<seq<byte>>,
    connectTimeout: int,
    readTimeout: int,
    decodeContent: bool)

  /** What `urlopen` did: an open response, or the exception it raised. */
  datatype Sent =
    | Opened(status: int, headers: HeaderList, stream: seq<Chunk>)
    | SendFailed(fault: Exc)

  // ---------------------------------------------------------------------
  // Objects the transport works with

  /** How a pool reaches servers. */
  datatype PoolKind =
    | DirectPool
    | SocksProxyPool(proxyUrl: string)
      /** `proxyAuth` holds the credentials of the Proxy-Authorization header, if any. */
    | HttpProxyPool(proxyUrl: string, proxyAuth: Option<string>)

  /** A connection pool; every pool the transport builds requires certificate validation. */
  class Pool {
    const kind: PoolKind
    const certRequired: bool
    var resolvingCache: map<string, string>

    constructor (kind: PoolKind)
      ensures this.kind == kind && certRequired && resolvingCache == map[]
    {
      this.kind := kind;
      certRequired := true;
      resolvingCache := map[];
    }
  }

  /** The urllib3 response of a sent request, read lazily. */
  class Upstream {
    const status: int
    const headers: HeaderList
    /** The answers of the remaining `read(1024)` calls; once it is empty, reads return no bytes. */
    var stream: seq<Chunk>
    /** How many times `release_conn` was called. */
    var releases: nat

    constructor (status: int, headers: HeaderList, stream: seq<Chunk>)
      ensures this.status == status && this.headers == headers
      ensures this.stream == stream && releases == 0
    {
      this.status := status;
      this.headers := headers;
      this.stream := stream;
      releases := 0;
    }

    method Read() returns (c: Chunk)
      modifies this`stream
      ensures old(stream) == [] ==> c == Bytes([]) && stream == []
      ensures old(stream) != [] ==> c == old(stream)[0] && stream == old(stream)[1..]
    {
      if stream == [] {
        c := Bytes([]);
      } else {
        c := stream[0];
        stream := stream[1..];
      }
    }

    method ReleaseConn()
      modifies this`releases
      ensures releases == old(releases) + 1
    {
      releases := releases + 1;
    }
  }

  /** Wall-clock time: the `i`-th reading returns `reading(i)`. */
  class Clock {
    const reading: nat -> int
    var calls: nat

    constructor (reading: nat -> int)
      ensures this.reading == reading && calls == 0
    {
      this.reading := reading;
      calls := 0;
    }

    method Now() returns (t: int)
      modifies this`calls
      ensures t == reading(old(calls)) && calls == old(calls) + 1
    {
      t := reading(calls);
      calls := calls + 1;
    }
  }

  /** The fields of an ioweb response that the transport writes. */
  class Response {
    var status: Option<int>
    var headers: HeaderList
    var body: seq<byte>
    var error: Option<Exc>

    constructor ()
      ensures status == None && headers == [] && body == [] && error == None
    {
      status := None;
      headers := [];
      body := [];
      error := None;
    }
  }

  // ---------------------------------------------------------------------
  // Pool selection

  /** The cache key of a proxied request: `'%s://%s' % (proxy_type, proxy)`. */
  function ProxyUrl(proxyType: string, proxy: string): (r: string)
    ensures |r| == |proxyType| + 3 + |proxy|
    ensures r[..|proxyType|] == proxyType && r[|proxyType| + 3..] == proxy
  {
    proxyType + "://" + proxy
  }

  /** Requests for different proxies, of the two known types, never share a cache key. */
  lemma ProxyUrlInjective(t1: string, p1: string, t2: string, p2: string)
    requires t1 == "http" || t1 == "socks5"
    requires t2 == "http" || t2 == "socks5"
    requires ProxyUrl(t1, p1) == ProxyUrl(t2, p2)
    ensures t1 == t2 && p1 == p2
  {
    var u := ProxyUrl(t1, p1);
    assert u[0] == t1[0] && u[0] == t2[0];
    assert t1 == t2;
    assert p1 == u[|t1| + 3..] == p2;
  }

  /**
   * The pool `get_pool` builds for a proxy it has no pool for yet: a SOCKS
   * pool for `socks5`, an HTTP proxy pool (with the credentials, if any) for
   * `http`, and a configuration error for any other proxy type.
   */
  function NewProxyPoolKind(proxyType: string, proxyUrl: string, proxyAuth: string): (r: Result<PoolKind, Exc>)
    ensures r.Ok? <==> proxyType == "socks5" || proxyType == "http"
    ensures r.Err? ==> r.error.Config?
    ensures proxyType == "socks5" ==> r == Ok(SocksProxyPool(proxyUrl))
    ensures proxyType == "http" ==> r.Ok? && r.value.HttpProxyPool? && r.value.proxyUrl == proxyUrl
                                    && (r.value.proxyAuth.Some? <==> proxyAuth != "")
    ensures proxyType == "http" && proxyAuth != "" ==> r.value.proxyAuth == Some(proxyAuth)
  {
    if proxyType == "socks5" then Ok(SocksProxyPool(proxyUrl))
    else if proxyType == "http" then Ok(HttpProxyPool(proxyUrl, if proxyAuth != "" then Some(proxyAuth) else None))
    else Err(Config("Invalid value of request option `proxy_type`: " + proxyType))
  }

  /** The same choice as written in the source, where the unqualified `IowebConfigError` is an undefined name. */
  function NewProxyPoolKindAsWritten(proxyType: string, proxyUrl: string, proxyAuth: string): (r: Result<PoolKind, Exc>)
    ensures NewProxyPoolKind(proxyType, proxyUrl, proxyAuth).Ok? ==> r == NewProxyPoolKind(proxyType, proxyUrl, proxyAuth)
    ensures r.Err? ==> r.error == UndefinedName("IowebConfigError")
  {
    match NewProxyPoolKind(proxyType, proxyUrl, proxyAuth)
    case Ok(kind) => Ok(kind)
    case Err(_) => Err(UndefinedName("IowebConfigError"))
  }

  /** The NameError Python raises when evaluating an undefined name. */
  function UndefinedName(name: string): Exc {
    Backend(NameFailure, "name '" + name + "' is not defined")
  }

  /**
   * As written, every unknown proxy type raises NameError, which is no
   * configuration error. `get_pool` runs before the error boundary opens, so
   * the NameError propagates out of `request` as it is; even a boundary would
   * leave it unchanged.
   */
  lemma UnknownProxyTypeAsWritten(proxyType: string, proxy: string, proxyAuth: string)
    requires proxyType != "socks5" && proxyType != "http"
    ensures var r := NewProxyPoolKindAsWritten(proxyType, ProxyUrl(proxyType, proxy), proxyAuth);
      r.Err? && r.error.Backend? && r.error.kind == NameFailure && MapFault(r.error) == r.error
  {
  }

  // ---------------------------------------------------------------------
  // Request preparation

  /** The header name the transport writes. */
  const AcceptEncoding := "Accept-Encoding"
  /** `'accept-encoding'`, the name the transport compares lowered header names with. */
  const AcceptEncodingLower := Lower(AcceptEncoding)

  /**
   * Adds `Accept-Encoding: <content_encoding>` when a content encoding is
   * requested and no header of that name, in any letter case, is present.
   */
  function WithAcceptEncoding(h: HeaderList, contentEncoding: string): (r: HeaderList)
    requires DistinctNames(h)
    ensures DistinctNames(r)
  {
    if contentEncoding != "" && !HasLoweredName(h, AcceptEncodingLower) then Set(h, AcceptEncoding, contentEncoding)
    else h
  }

  /**
   * A header that already names Accept-Encoding, in any letter case, is
   * never overwritten; otherwise a requested encoding is added under
   * `Accept-Encoding` and nothing else changes.
   */
  lemma AcceptEncodingRespectsCaller(h: HeaderList, contentEncoding: string)
    requires DistinctNames(h)
    ensures (exists i :: 0 <= i < |h| && Lower(h[i].0) == AcceptEncodingLower) || contentEncoding == ""
            ==> WithAcceptEncoding(h, contentEncoding) == h
    ensures (forall i :: 0 <= i < |h| ==> Lower(h[i].0) != AcceptEncodingLower) && contentEncoding != ""
            ==> Lookup(WithAcceptEncoding(h, contentEncoding), AcceptEncoding) == Some(contentEncoding)
                && forall n :: n != AcceptEncoding ==> Lookup(WithAcceptEncoding(h, contentEncoding), n) == Lookup(h, n)
    ensures contentEncoding != "" ==> HasLoweredName(WithAcceptEncoding(h, contentEncoding), AcceptEncodingLower)
  {
    if contentEncoding != "" && !HasLoweredName(h, AcceptEncodingLower) {
      var r := Set(h, AcceptEncoding, contentEncoding);
      assert Lookup(r, AcceptEncoding).Some?;
      var i :| 0 <= i < |r| && r[i].0 == AcceptEncoding;
      assert Lower(r[i].0) == AcceptEncodingLower;
    }
  }


  const FormContentType := "application/x-www-form-urlencoded"

  /** A request body with the Content-Type it brings along, if any. */
  datatype Payload = Payload(body: seq<byte>, contentType: Option<string>)

  /** The bytes of a string all of whose characters are below 256 (how a `str` body goes on the wire). */
  function Latin1(s: string): (r: seq<byte>)
    requires forall i :: 0 <= i < |s| ==> s[i] as int < 256
    ensures |r| == |s| && forall i :: 0 <= i < |s| ==> r[i] as int == s[i] as int
  {
    if s == [] then [] else [(s[0] as int) as byte] + Latin1(s[1..])
  }

  /**
   * The body the request's `data` makes: none for falsy data; a multipart
   * body from the encoder, or a URL-encoded form, for a dict; bytes as they
   * are; text in UTF-8; a configuration error for any other type.
   */
  function BuildBody(data: Data, multipart: bool,
                     encodeMultipart: seq<(string, string)> -> (seq<byte>, string)): (r: Result<Option<Payload>, Exc>)
    ensures r.Err? <==> Truthy(data) && data.OtherData?
    ensures r.Err? ==> r.error.Config?
    ensures r.Ok? ==> (r.value.Some? <==> Truthy(data))
  {
    if !Truthy(data) then Ok(None)
    else match data
      case Form(fields) =>
        if multipart then
          var (body, ctype) := encodeMultipart(fields);
          Ok(Some(Payload(body, Some(ctype))))
        else
          UrlEncodeAscii(fields);
          Ok(Some(Payload(Latin1(UrlEncode(fields)), Some(FormContentType))))
      case Raw(bytes) => Ok(Some(Payload(bytes, None)))
      case Text(text) => Ok(Some(Payload(Utf8(text), None)))
      case OtherData(typeName, _) => Err(Config("Invalid type of request data option: " + typeName))
  }

  /**
   * The body as written in the source: the multipart branch calls the
   * undefined `encode_multipart_formata`, and the other-type branch the
   * undefined `IowebConfigError`; both raise NameError.
   */
  function BuildBodyAsWritten(data: Data, multipart: bool,
                              encodeMultipart: seq<(string, string)> -> (seq<byte>, string)): (r: Result<Option<Payload>, Exc>)
    ensures r.Ok? ==> r == BuildBody(data, multipart, encodeMultipart)
    ensures !(Truthy(data) && data.Form? && multipart) && BuildBody(data, multipart, encodeMultipart).Ok?
            ==> r == BuildBody(data, multipart, encodeMultipart)
    ensures r.Err? ==> r.error == UndefinedName("encode_multipart_formata") || r.error == UndefinedName("IowebConfigError")
  {
    if Truthy(data) && data.Form? && multipart then Err(UndefinedName("encode_multipart_formata"))
    else if Truthy(data) && data.OtherData? then Err(UndefinedName("IowebConfigError"))
    else BuildBody(data, multipart, encodeMultipart)
  }

  /** As written, no multipart request can be built, and a bad data type is no configuration error. */
  lemma MultipartAsWritten(fields: seq<(string, string)>, typeName: string, multipart: bool,
                           encodeMultipart: seq<(string, string)> -> (seq<byte>, string))
    requires |fields| > 0
    ensures BuildBodyAsWritten(Form(fields), true, encodeMultipart) == Err(UndefinedName("encode_multipart_formata"))
    ensures BuildBody(Form(fields), true, encodeMultipart)
            == Ok(Some(Payload(encodeMultipart(fields).0, Some(encodeMultipart(fields).1))))
    ensures BuildBodyAsWritten(OtherData(typeName, true), multipart, encodeMultipart) == Err(UndefinedName("IowebConfigError"))
    ensures BuildBody(OtherData(typeName, true), multipart, encodeMultipart).error.Config?
  {
  }

  /**
   * What each kind of data becomes on the wire, stated by what the bytes
   * decode back to: a form parses back to its fields under the form content
   * type, text decodes back to itself, bytes go unchanged.
   */
  lemma BodyDecodesToData(data: Data, multipart: bool,
                          encodeMultipart: seq<(string, string)> -> (seq<byte>, string))
    requires Truthy(data) && !data.OtherData?
    ensures var r := BuildBody(data, multipart, encodeMultipart);
      r.Ok? && r.value.Some? &&
      match data
      case Form(fields) =>
        !multipart ==> r.value.value.contentType == Some(FormContentType)
                       && exists s :: Latin1Text(r.value.value.body, s) && ParseForm(s) == Some(FieldBytes(fields))
      case Raw(bytes) => r.value.value == Payload(bytes, None)
      case Text(text) => Utf8Decode(r.value.value.body) == Some(text) && r.value.value.contentType == None
      case _ => true
  {
    match data
    case Form(fields) =>
      if !multipart {
        UrlEncodeAscii(fields);
        UrlEncodeRoundTrip(fields);
        var s := UrlEncode(fields);
        assert Latin1Text(Latin1(s), s);
      }
    case Raw(_) =>
    case Text(text) => Utf8RoundTrip(text);
    case OtherData(_, _) =>
  }

  /** `b` is the byte-per-character form of the string `s`. */
  predicate Latin1Text(b: seq<byte>, s: string) {
    |b| == |s| && forall i :: 0 <= i < |s| ==> b[i] as int == s[i] as int
  }

  /** Sets Content-Type (when the data brings one) and then Content-Length to the body's length. */
  function WithBodyHeaders(h: HeaderList, p: Option<Payload>): (r: HeaderList)
    requires DistinctNames(h)
    ensures DistinctNames(r)
  {
    match p
    case None => h
    case Some(Payload(body, ctype)) =>
      var typed := if ctype.Some? then Set(h, "Content-Type", ctype.value) else h;
      Set(typed, "Content-Length", Decimal(|body|))
  }

  /**
   * With a body, Content-Length reads back as the body's exact length and
   * Content-Type is the one the data brought; without one, the headers are
   * left as they were.
   */
  lemma BodyHeadersDescribeBody(h: HeaderList, p: Option<Payload>)
    requires DistinctNames(h)
    ensures p.None? ==> WithBodyHeaders(h, p) == h
    ensures p.Some? ==> var cl := Lookup(WithBodyHeaders(h, p), "Content-Length");
      cl.Some? && ParseDecimal(cl.value) == Some(|p.value.body|)
    ensures p.Some? && p.value.contentType.Some? ==>
      Lookup(WithBodyHeaders(h, p), "Content-Type") == p.value.contentType
    ensures p.Some? && p.value.contentType.None? ==>
      Lookup(WithBodyHeaders(h, p), "Content-Type") == Lookup(h, "Content-Type")
    ensures p.Some? ==> forall n :: n != "Content-Type" && n != "Content-Length" ==>
      Lookup(WithBodyHeaders(h, p), n) == Lookup(h, n)
  {
    if p.Some? {
      DecimalRoundTrip(|p.value.body|);
    }
  }

  /**
   * The call `request` makes through the pool it selected: the caller's
   * headers completed with Accept-Encoding, Content-Type and Content-Length,
   * the body the data makes, and the request's own method, URL, timeouts and
   * decoding flag; or the configuration error of unusable data.
   */
  function Outgoing(req: Request, encodeMultipart: seq<(string, string)> -> (seq<byte>, string)): (r: Result<Call, Exc>)
    requires DistinctNames(req.headers)
    ensures r.Err? <==> Truthy(req.data) && req.data.OtherData?
    ensures r.Err? ==> r.error.Config?
    ensures r.Ok? ==> r.value.verb == req.verb && r.value.url == req.url && r.value.decodeContent == req.decodeContent
    ensures r.Ok? ==> r.value.connectTimeout == req.connectTimeout && r.value.readTimeout == req.timeout
    ensures r.Ok? ==> (r.value.body.Some? <==> Truthy(req.data))
    ensures r.Ok? ==> DistinctNames(r.value.headers)
  {
    match BuildBody(req.data, req.multipart, encodeMultipart)
    case Err(e) => Err(e)
    case Ok(p) =>
      var headers := WithBodyHeaders(WithAcceptEncoding(req.headers, req.contentEncoding), p);
      Ok(Call(req.verb, req.url, headers, if p.Some? then Some(p.value.body) else None,
              req.connectTimeout, req.timeout, req.decodeContent))
  }

  /**
   * The call `request` makes carries the body the data makes, announces its
   * exact length in Content-Length, and otherwise sends the caller's headers
   * as completed with Accept-Encoding.
   */
  lemma CallDescribesBody(req: Request, encodeMultipart: seq<(string, string)> -> (seq<byte>, string))
    requires DistinctNames(req.headers) && Outgoing(req, encodeMultipart).Ok?
    ensures var c := Outgoing(req, encodeMultipart).value;
      var h := WithAcceptEncoding(req.headers, req.contentEncoding);
      && (c.body.Some? <==> Truthy(req.data))
      && (c.body.Some? ==>
            && c.body.value == BuildBody(req.data, req.multipart, encodeMultipart).value.value.body
            && Lookup(c.headers, "Content-Length").Some?
            && ParseDecimal(Lookup(c.headers, "Content-Length").value) == Some(|c.body.value|)
            && (req.data.Form? ==> Lookup(c.headers, "Content-Type")
                                   == BuildBody(req.data, req.multipart, encodeMultipart).value.value.contentType)
            && (!req.data.Form? ==> Lookup(c.headers, "Content-Type") == Lookup(h, "Content-Type"))
            && forall n :: n != "Content-Type" && n != "Content-Length" ==> Lookup(c.headers, n) == Lookup(h, n))
      && (c.body.None? ==> c.headers == h)
  {
    var p := BuildBody(req.data, req.multipart, encodeMultipart).value;
    BodyHeadersDescribeBody(WithAcceptEncoding(req.headers, req.contentEncoding), p);
  }

  // ---------------------------------------------------------------------
  // The transport

  /** What `prepare_response` raises when there is no response to read from. */
  function NoResponseFault(): Exc {
    Backend(AttributeFailure(false), "'NoneType' object has no attribute 'headers'")
  }

  class Transport {
    /** The default pool, used for requests without a proxy. */
    var pool: Pool
    /** Proxy pools by `ProxyUrl`. */
    var proxyPools: map<string, Pool>
    /** The response of the last request that reached the server, if any. */
    var upstream: Upstream?
    /** Clock reading taken when the current request began. */
    var opStarted: int

    /** Without a pool, a direct pool is made; without proxy pools, the cache starts empty. */
    constructor (pool: Pool?, proxyPools: map<string, Pool>)
      ensures pool != null ==> this.pool == pool
      ensures pool == null ==> fresh(this.pool) && this.pool.kind == DirectPool && this.pool.certRequired
                               && this.pool.resolvingCache == map[]
      ensures this.proxyPools == proxyPools && upstream == null
    {
      if pool == null {
        this.pool := new Pool(DirectPool);
      } else {
        this.pool := pool;
      }
      this.proxyPools := proxyPools;
      upstream := null;
      opStarted := 0;
    }

    /**
     * `get_pool`: the default pool without a proxy; with one, the cached
     * pool of its `ProxyUrl`, made and cached on first use. An unknown proxy
     * type is rejected before anything is cached.
     */
    method GetPool(req: Request) returns (r: Result<Pool, Exc>)
      modifies this`proxyPools
      ensures req.proxy == "" ==> r == Ok(pool) && proxyPools == old(proxyPools)
      ensures req.proxy != "" ==>
        var key := ProxyUrl(req.proxyType, req.proxy);
        var made := NewProxyPoolKind(req.proxyType, key, req.proxyAuth);
        && (key in old(proxyPools) ==> r == Ok(old(proxyPools)[key]) && proxyPools == old(proxyPools))
        && (key !in old(proxyPools) && made.Err? ==> r == Err(made.error) && proxyPools == old(proxyPools))
        && (key !in old(proxyPools) && made.Ok? ==>
              r.Ok? && fresh(r.value) && r.value.kind == made.value && r.value.certRequired
              && r.value.resolvingCache == map[]
              && proxyPools == old(proxyPools)[key := r.value])
      ensures forall k :: k in old(proxyPools) ==> k in proxyPools && proxyPools[k] == old(proxyPools)[k]
      ensures forall k :: k in proxyPools && k !in old(proxyPools) ==>
        req.proxy != "" && k == ProxyUrl(req.proxyType, req.proxy)
    {
      if req.proxy != "" {
        var key := ProxyUrl(req.proxyType, req.proxy);
        if key !in proxyPools {
          var made := NewProxyPoolKind(req.proxyType, key, req.proxyAuth);
          if made.Err? {
            return Err(made.error);
          }
          var p := new Pool(made.value);
          proxyPools := proxyPools[key := p];
          r := Ok(p);
        } else {
          r := Ok(proxyPools[key]);
        }
      } else {
        r := Ok(pool);
      }
    }

    /** Writes every `resolve` entry into the default pool's resolution cache. */
    method InstallResolve(resolve: map<string, string>)
      modifies pool`resolvingCache
      ensures pool.resolvingCache == old(pool.resolvingCache) + resolve
    {
      var todo := resolve.Keys;
      while todo != {}
        invariant todo <= resolve.Keys
        invariant pool.resolvingCache == old(pool.resolvingCache) + map h | h in resolve.Keys - todo :: resolve[h]
        decreases todo
      {
        var host :| host in todo;
        pool.resolvingCache := pool.resolvingCache[host := resolve[host]];
        todo := todo - {host};
      }
      assert resolve == map h | h in resolve.Keys - todo :: resolve[h];
    }

    /**
     * The first half of `request`: installs DNS overrides, refusing them
     * together with a proxy before any pool is touched, then selects the pool.
     */
    method SelectPool(req: Request) returns (selected: Result<Pool, Exc>)
      modifies this`proxyPools, pool`resolvingCache
      // resolve together with proxy: a configuration error, and no pool is touched
      ensures |req.resolve| > 0 && req.proxy != "" ==>
        selected.Err? && selected.error.Config?
        && proxyPools == old(proxyPools) && pool.resolvingCache == old(pool.resolvingCache)
      // otherwise every override is installed
      ensures !(|req.resolve| > 0 && req.proxy != "") ==>
        pool.resolvingCache == old(pool.resolvingCache) + req.resolve
      // the proxy cache only ever gains the request's own key
      ensures forall k :: k in old(proxyPools) ==> k in proxyPools && proxyPools[k] == old(proxyPools)[k]
      ensures forall k :: k in proxyPools && k !in old(proxyPools) ==>
        req.proxy != "" && k == ProxyUrl(req.proxyType, req.proxy)
      ensures selected.Ok? ==>
        && (req.proxy == "" ==> selected.value == pool)
        && (req.proxy != "" ==> ProxyUrl(req.proxyType, req.proxy) in proxyPools
                                && selected.value == proxyPools[ProxyUrl(req.proxyType, req.proxy)])
      ensures selected.Err? ==> selected.error.Config?
      ensures selected.Err? && !(|req.resolve| > 0 && req.proxy != "") ==>
        req.proxy != "" && ProxyUrl(req.proxyType, req.proxy) !in old(proxyPools)
        && NewProxyPoolKind(req.proxyType, ProxyUrl(req.proxyType, req.proxy), req.proxyAuth).Err?
    {
      if |req.resolve| > 0 {
        if req.proxy != "" {
          return Err(Config("Request option `resolve` could not be used along option `proxy`"));
        }
        InstallResolve(req.resolve);
      }
      selected := GetPool(req);
    }

    /**
     * `request` up to and including `urlopen`: records the start time,
     * selects the pool, completes the headers, builds the body, and sends.
     * Returns the call made, if one was, and what was raised.
     */
    method Request(req: Request, clock: Clock,
                   urlopen: (Pool, Call) -> Sent,
                   encodeMultipart: seq<(string, string)> -> (seq<byte>, string))
      returns (sent: Option<(Pool, Call)>, raised: Option<Exc>)
      requires DistinctNames(req.headers)
      modifies this`opStarted, this`proxyPools, this`upstream, pool`resolvingCache, clock`calls
      ensures clock.calls == old(clock.calls) + 1 && opStarted == clock.reading(old(clock.calls))
      ensures pool == old(pool)
      // resolve together with proxy: a configuration error, and no pool is touched
      ensures |req.resolve| > 0 && req.proxy != "" ==>
        raised.Some? && raised.value.Config? && sent == None
        && proxyPools == old(proxyPools) && pool.resolvingCache == old(pool.resolvingCache)
      // otherwise every override is installed
      ensures !(|req.resolve| > 0 && req.proxy != "") ==>
        pool.resolvingCache == old(pool.resolvingCache) + req.resolve
      // the proxy cache only ever gains the request's own key
      ensures forall k :: k in old(proxyPools) ==> k in proxyPools && proxyPools[k] == old(proxyPools)[k]
      ensures forall k :: k in proxyPools && k !in old(proxyPools) ==>
        req.proxy != "" && k == ProxyUrl(req.proxyType, req.proxy)
      // the call goes through the selected pool
      ensures sent.Some? ==>
        && Outgoing(req, encodeMultipart) == Ok(sent.value.1)
        && (req.proxy == "" ==> sent.value.0 == pool)
        && (req.proxy != "" ==> ProxyUrl(req.proxyType, req.proxy) in proxyPools
                                && sent.value.0 == proxyPools[ProxyUrl(req.proxyType, req.proxy)])
      // what the server did becomes the open response or the mapped fault
      ensures sent.Some? ==>
        match urlopen(sent.value.0, sent.value.1)
        case Opened(status, headers, stream) =>
          raised == None && upstream != null && fresh(upstream)
          && upstream.status == status && upstream.headers == headers
          && upstream.stream == stream && upstream.releases == 0
        case SendFailed(fault) => raised == Some(MapFault(fault)) && upstream == old(upstream)
      // no call: the request was refused before anything was sent
      ensures sent == None ==> raised.Some? && raised.value.Config? && upstream == old(upstream)
      ensures sent == None && !(|req.resolve| > 0 && req.proxy != "") ==>
        (req.proxy != "" && ProxyUrl(req.proxyType, req.proxy) !in old(proxyPools)
         && NewProxyPoolKind(req.proxyType, ProxyUrl(req.proxyType, req.proxy), req.proxyAuth).Err?)
        || (Truthy(req.data) && req.data.OtherData?)
    {
      sent := None;
      opStarted := clock.Now();
      var selected := SelectPool(req);
      if selected.Err? {
        return None, Some(selected.error);
      }
      var p := selected.value;

      var out := Outgoing(req, encodeMultipart);
      if out.Err? {
        return None, Some(out.error);
      }
      var c := out.value;
      sent := Some((p, c));
      match urlopen(p, c)
      case Opened(status, responseHeaders, stream) =>
        upstream := new Upstream(status, responseHeaders, stream);
        raised := None;
      case SendFailed(fault) =>
        raised := Some(MapFault(fault));
    }

    /**
     * One turn of the loop of `read_with_timeout`: read a chunk, append what
     * fits under the limit, and read the clock unless the chunk ended the
     * loop. `whole` is the outcome of the entire read, which started with
     * body `body0`, response `stream0` and `calls0` clock readings; the
     * earlier turns appended `kept` and consumed `turns` chunks. The turn
     * reports what has been appended and consumed after it, and either that
     * the loop goes on or how it ended.
     */
    method ReadTurn(limit: nat, bytesRead: nat, timeout: int, res: Response, clock: Clock,
                    ghost whole: ReadOutcome, ghost body0: seq<byte>, ghost stream0: seq<Chunk>, ghost calls0: nat,
                    ghost kept: seq<byte>, ghost turns: nat)
      returns (stop: Option<Stop>, newRead: nat, ghost kept': seq<byte>, ghost turns': nat)
      requires upstream != null && (limit == 0 || bytesRead < limit)
      requires turns <= |stream0| && upstream.stream == stream0[turns..]
      requires res.body == body0 + kept && calls0 <= clock.calls
      requires whole == ReadLoop(upstream.stream, limit, bytesRead, clock.reading, clock.calls, opStarted, timeout)
                          .Behind(kept, turns, clock.calls - calls0)
      modifies res`body, upstream`stream, clock`calls
      ensures turns' <= |stream0| && upstream.stream == stream0[turns'..]
      ensures res.body == body0 + kept' && calls0 <= clock.calls
      ensures stop.Some? ==>
        && whole.appended == kept' && whole.stop == stop.value
        && whole.consumed == turns' && whole.clockReads == clock.calls - calls0
      ensures stop.None? ==>
        && turns' == turns + 1 && |upstream.stream| < |old(upstream.stream)| && (limit == 0 || newRead < limit)
        && whole == ReadLoop(upstream.stream, limit, newRead, clock.reading, clock.calls, opStarted, timeout)
                      .Behind(kept', turns', clock.calls - calls0)
    {
      newRead, kept', turns' := bytesRead, kept, turns;
      var chunk := upstream.Read();
      if old(upstream.stream) != [] {
        turns' := turns + 1;
        DropTwice(stream0, turns, 1);
      }
      if chunk.Raises? {
        return Some(Failed(chunk.fault)), newRead, kept', turns';
      }
      if chunk.data == [] {
        return Some(EndOfStream), newRead, kept', turns';
      }
      var chunkLimit := if limit > 0 then Min(|chunk.data|, limit - bytesRead) else |chunk.data|;
      var fits := chunk.data[..chunkLimit];
      res.body := res.body + fits;
      assert res.body == body0 + (kept + fits);
      kept' := kept + fits;
      newRead := bytesRead + chunkLimit;
      if limit > 0 && newRead >= limit {
        return Some(CapReached), newRead, kept', turns';
      }
      var now := clock.Now();
      if now - opStarted > timeout {
        return Some(Deadline), newRead, kept', turns';
      }
      BehindTwice(ReadLoop(upstream.stream, limit, newRead, clock.reading, clock.calls, opStarted, timeout),
                  fits, kept, turns, clock.calls - 1 - calls0);
      stop := None;
    }

    /**
     * `read_with_timeout`: appends the open response's body to `res.body`
     * turn by turn, as `ReadLoop` describes, and returns what it raises.
     */
    method ReadWithTimeout(req: Request, res: Response, clock: Clock) returns (raised: Option<Exc>)
      requires upstream != null
      modifies res`body, upstream`stream, clock`calls
      ensures var o := ReadLoop(old(upstream.stream), req.contentReadLimit, 0, clock.reading,
                                old(clock.calls), opStarted, req.timeout);
        && res.body == old(res.body) + o.appended
        && raised == o.Raised()
        && o.consumed <= |old(upstream.stream)| && upstream.stream == old(upstream.stream)[o.consumed..]
        && clock.calls == old(clock.calls) + o.clockReads
    {
      var up := upstream;
      var bytesRead: nat := 0;
      ghost var whole := ReadLoop(up.stream, req.contentReadLimit, 0, clock.reading, clock.calls, opStarted, req.timeout);
      ghost var kept: seq<byte> := [];
      ghost var consumed: nat := 0;
      BehindNothing(whole);
      var stop: Option<Stop> := None;
      while stop.None?
        invariant consumed <= |old(upstream.stream)| && up.stream == old(upstream.stream)[consumed..]
        invariant res.body == old(res.body) + kept && old(clock.calls) <= clock.calls
        invariant stop.None? ==>
          && (req.contentReadLimit == 0 || bytesRead < req.contentReadLimit)
          && whole == ReadLoop(up.stream, req.contentReadLimit, bytesRead, clock.reading, clock.calls, opStarted, req.timeout)
                     .Behind(kept, consumed, clock.calls - old(clock.calls))
        invariant stop.Some? ==>
          && whole.appended == kept && whole.stop == stop.value
          && whole.consumed == consumed && whole.clockReads == clock.calls - old(clock.calls)
        decreases |up.stream|, if stop.None? then 1 else 0
      {
        stop, bytesRead, kept, consumed := ReadTurn(req.contentReadLimit, bytesRead, req.timeout, res, clock,
                                                    whole, old(res.body), old(upstream.stream), old(clock.calls),
                                                    kept, consumed);
      }
      raised := ReadOutcome([], stop.value, 0, 0, 0).Raised();
    }

    /** Copies status and headers, then reads the body inside the error boundary. */
    method ReadPhase(req: Request, res: Response, clock: Clock) returns (fault: Option<Exc>)
      requires upstream != null
      modifies res`status, res`headers, res`body, upstream`stream, clock`calls
      ensures res.status == Some(upstream.status) && res.headers == upstream.headers
      ensures var o := ReadLoop(old(upstream.stream), req.contentReadLimit, 0, clock.reading,
                                old(clock.calls), opStarted, req.timeout);
        && res.body == old(res.body) + o.appended
        && fault == (if o.Raised().Some? then Some(MapFault(o.Raised().value)) else None)
        && o.consumed <= |old(upstream.stream)| && upstream.stream == old(upstream.stream)[o.consumed..]
        && clock.calls == old(clock.calls) + o.clockReads
    {
      res.headers := upstream.headers;
      res.status := Some(upstream.status);
      var raised := ReadWithTimeout(req, res, clock);
      fault := if raised.Some? then Some(MapFault(raised.value)) else None;
    }

    /**
     * `prepare_response`, with the lenient branch recording the read fault.
     * A send-phase error is stored and nothing is read; otherwise status and
     * headers are copied and the body is read. A network error from the
     * read propagates in strict mode and is stored on the response in
     * lenient mode; any other exception propagates. Whatever happens, the
     * transport's response, if it has one, is released exactly once.
     */
    method PrepareResponse(req: Request, res: Response, err: Option<Exc>, raiseNetworkError: bool, clock: Clock)
      returns (raised: Option<Exc>)
      modifies res, upstream, clock`calls
      ensures upstream == old(upstream)
      ensures upstream != null ==> upstream.releases == old(upstream.releases) + 1
      ensures err.Some? ==>
        && res.error == err && raised == None
        && res.status == old(res.status) && res.headers == old(res.headers) && res.body == old(res.body)
        && clock.calls == old(clock.calls)
        && (upstream != null ==> upstream.stream == old(upstream.stream))
      ensures err.None? && upstream == null ==>
        raised == Some(NoResponseFault()) && unchanged(res) && clock.calls == old(clock.calls)
      ensures err.None? && upstream != null ==>
        var o := ReadLoop(old(upstream.stream), req.contentReadLimit, 0, clock.reading,
                          old(clock.calls), opStarted, req.timeout);
        var fault := if o.Raised().Some? then Some(MapFault(o.Raised().value)) else None;
        && res.status == Some(upstream.status) && res.headers == upstream.headers
        && res.body == old(res.body) + o.appended
        && o.consumed <= |old(upstream.stream)| && upstream.stream == old(upstream.stream)[o.consumed..]
        && clock.calls == old(clock.calls) + o.clockReads
        && (fault.None? ==> raised == None && res.error == old(res.error))
        && (fault.Some? && fault.value.Network? && !raiseNetworkError ==> raised == None && res.error == fault)
        && (fault.Some? && (raiseNetworkError || !fault.value.Network?) ==>
              raised == fault && res.error == old(res.error))
    {
      raised := None;
      if err.Some? {
        res.error := err;
      } else if upstream == null {
        raised := Some(NoResponseFault());
      } else {
        var fault := ReadPhase(req, res, clock);
        if fault.Some? {
          if raiseNetworkError || !fault.value.Network? {
            raised := fault;
          } else {
            res.error := fault;
          }
        }
      }
      if upstream != null {
        upstream.ReleaseConn();
      }
    }

    /**
     * `prepare_response` exactly as written: in lenient mode the read fault
     * is replaced by `err`, which is None on that path, so the fault is lost.
     */
    method PrepareResponseAsWritten(req: Request, res: Response, err: Option<Exc>, raiseNetworkError: bool, clock: Clock)
      returns (raised: Option<Exc>)
      modifies res, upstream, clock`calls
      ensures upstream == old(upstream)
      ensures upstream != null ==> upstream.releases == old(upstream.releases) + 1
      ensures err.Some? ==> res.error == err && raised == None
      ensures err.None? && upstream != null ==>
        var o := ReadLoop(old(upstream.stream), req.contentReadLimit, 0, clock.reading,
                          old(clock.calls), opStarted, req.timeout);
        var fault := if o.Raised().Some? then Some(MapFault(o.Raised().value)) else None;
        && res.body == old(res.body) + o.appended
        && (fault.Some? && fault.value.Network? && !raiseNetworkError ==> raised == None && res.error == None)
    {
      raised := None;
      if err.Some? {
        res.error := err;
      } else if upstream == null {
        raised := Some(NoResponseFault());
      } else {
        var fault := ReadPhase(req, res, clock);
        if fault.Some? {
          if raiseNetworkError || !fault.value.Network? {
            raised := fault;
          } else {
            res.error := err;
          }
        }
      }
      if upstream != null {
        upstream.ReleaseConn();
      }
    }
  }
}
