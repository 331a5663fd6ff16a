/**
 * Whole requests through a fresh transport: the proxy-pool cache, the
 * refusal of `resolve` together with `proxy`, and what lenient finalisation
 * leaves on the response when the body read fails.
 */
module Scenarios {
  import opened Wrappers
  import opened Encoding
  import opened Errors
  import opened BodyReader
  import opened Transport

  /** A GET of `url` with every other option unset and a 10-second timeout. */
  function Get(url: string): Request {
    Request(url, "GET", [], NoData, false, "", "", "", map[], 5, 10, "", true, 0)
  }

  /** A multipart encoder for requests that never send a multipart form. */
  function NoMultipart(fields: seq<(string, string)>): (seq<byte>, string) {
    ([], "")
  }

  /** The exception urllib3 raises when a socket read times out. */
  function SocketTimeout(): Exc {
    Backend(ReadTimeout, "Read timed out.")
  }

  /** A server that answers 200 and then stalls after one byte of body. */
  function StallsAfterOneByte(p: Pool, c: Call): Sent {
    Opened(200, [], [Bytes([7]), Raises(SocketTimeout())])
  }

  /** A clock that never advances. */
  function Frozen(i: nat): int {
    0
  }

  /** Reading that server's body keeps the byte and fails with the socket timeout. */
  lemma ReadStallsAfterOneByte()
    ensures ReadLoop([Bytes([7]), Raises(SocketTimeout())], 0, 0, Frozen, 1, 0, 10)
            == ReadOutcome([7], Failed(SocketTimeout()), 2, 2, 1)
  {
    var s: seq<Chunk> := [Bytes([7]), Raises(SocketTimeout())];
    assert ReadLoop(s[1..], 0, 1, Frozen, 2, 0, 10) == ReadOutcome([], Failed(SocketTimeout()), 1, 1, 0);
    assert [7 as byte][..1] == [7];
  }

  /** A clock already past any budget. */
  function Late(i: nat): int {
    100
  }

  /**
   * A chunk that fills the body ends the read before the clock is consulted:
   * with a two-byte limit, a three-byte chunk arriving after the deadline is
   * cut to two bytes and no timeout is raised.
   */
  lemma CapFilledAfterDeadline()
    ensures ReadLoop([Bytes([1, 2, 3])], 2, 0, Late, 0, 0, 10) == ReadOutcome([1, 2], CapReached, 1, 1, 0)
  {
    assert [1 as byte, 2, 3][..2] == [1, 2];
  }

  /** Two requests through the same HTTP proxy get the same cached pool, built for that proxy. */
  method ProxyPoolReused(proxy: string) returns (first: Pool, second: Pool)
    requires proxy != ""
    ensures first == second
    ensures first.kind == HttpProxyPool("http://" + proxy, None) && first.certRequired
  {
    var t := new Transport(null, map[]);
    var req := Get("http://example.com/").(proxy := proxy, proxyType := "http");
    var r1 := t.GetPool(req);
    var r2 := t.GetPool(req);
    first, second := r1.value, r2.value;
  }

  /** A request with both `resolve` and `proxy` is refused before any pool is built or changed. */
  method ResolveWithProxyRefused(host: string, ip: string, proxy: string)
    returns (raised: Option<Exc>, cachedPools: nat, resolved: map<string, string>)
    requires proxy != ""
    ensures raised.Some? && raised.value.Config?
    ensures cachedPools == 0 && resolved == map[]
  {
    var t := new Transport(null, map[]);
    var clock := new Clock(Frozen);
    var req := Get("http://example.com/").(resolve := map[host := ip], proxy := proxy, proxyType := "http");
    var sent;
    sent, raised := t.Request(req, clock, StallsAfterOneByte, NoMultipart);
    cachedPools := |t.proxyPools|;
    resolved := t.pool.resolvingCache;
  }

  /** A GET of `url` through a fresh transport reaches the stalling server and reads nothing yet. */
  method SendToStallingServer(url: string) returns (t: Transport, clock: Clock, req: Request)
    ensures fresh(t) && fresh(clock) && req == Get(url)
    ensures clock.reading == Frozen && clock.calls == 1
    ensures t.upstream != null && fresh(t.upstream) && t.opStarted == 0
    ensures t.upstream.stream == [Bytes([7]), Raises(SocketTimeout())]
  {
    t := new Transport(null, map[]);
    clock := new Clock(Frozen);
    req := Get(url);
    var sent, sendFault := t.Request(req, clock, StallsAfterOneByte, NoMultipart);
  }

  /**
   * Lenient finalisation as written: the read times out after one byte, and
   * the response comes back with that byte and no error, as if complete.
   */
  method LenientReadFaultDropped(url: string) returns (error: Option<Exc>, body: seq<byte>, raised: Option<Exc>)
    ensures raised == None && error == None && body == [7]
  {
    var t, clock, req := SendToStallingServer(url);
    ReadStallsAfterOneByte();
    var res := new Response();
    raised := t.PrepareResponseAsWritten(req, res, None, false, clock);
    error, body := res.error, res.body;
  }

  /**
   * Lenient finalisation as intended: the same exchange leaves the byte read
   * and records the timeout, translated by the error boundary, on the response.
   */
  method LenientReadFaultRecorded(url: string) returns (error: Option<Exc>, body: seq<byte>, raised: Option<Exc>)
    ensures raised == None && body == [7]
    ensures error == Some(Network(OperationTimeout, "Read timed out.", Some(SocketTimeout())))
  {
    var t, clock, req := SendToStallingServer(url);
    ReadStallsAfterOneByte();
    assert MapFault(SocketTimeout()) == Network(OperationTimeout, "Read timed out.", Some(SocketTimeout()));
    var res := new Response();
    raised := t.PrepareResponse(req, res, None, false, clock);
    error, body := res.error, res.body;
  }
}
