/**
 * The error boundary of the transport (`handle_network_error`): backend
 * exceptions raised by urllib3, pyOpenSSL or the standard library are
 * translated into the ioweb network-error taxonomy; anything the boundary
 * does not recognise is re-raised unchanged.
 */
module Errors {
  import opened Wrappers

  /** The caller-visible network error classes of ioweb. */
  datatype NetworkKind = OperationTimeout | Connect | MalformedResponse | Proxy

  /** The exception classes the boundary distinguishes. */
  datatype BackendKind =
    | ReadTimeout        // urllib3 ReadTimeoutError
    | ConnectTimeout     // urllib3 ConnectTimeoutError
    | Protocol           // urllib3 ProtocolError
    | Ssl                // urllib3 SSLError
    | OpenSsl            // OpenSSL.SSL.Error
    | LocationParse      // urllib3 LocationParseError
    | Decode             // urllib3 DecodeError
    | InvalidHeader      // urllib3 InvalidHeader
    | ProxyFailure       // urllib3 ProxyError
      /** AttributeError; `raisedAtBracketCheck` says whether its traceback holds
          the urllib3 connectionpool frame `if host.startswith('[')`. */
    | AttributeFailure(raisedAtBracketCheck: bool)
    | ValueFailure       // ValueError
    | NameFailure        // NameError
    | OtherFailure(name: string)

  /** A raised exception. */
  datatype Exc =
    | Backend(kind: BackendKind, message: string)
      /** An ioweb NetworkError subclass with its message and wrapped cause. */
    | Network(networkKind: NetworkKind, message: string, cause: Option<Exc>)
      /** ioweb IowebConfigError. */
    | Config(message: string)

  const RedirectHeaderMessage := "Invalid redirect header"
  const Ipv6Signature := "Invalid IPv6 URL"

  predicate IsPrefix(p: string, s: string) {
    |p| <= |s| && s[..|p|] == p
  }

  /** `needle` occurs in `hay` starting at index `i`. */
  predicate OccursAt(hay: string, needle: string, i: int) {
    0 <= i <= |hay| - |needle| && hay[i..i + |needle|] == needle
  }

  /** `needle in hay` for strings. */
  function Contains(hay: string, needle: string): (r: bool)
    ensures r <==> exists i :: OccursAt(hay, needle, i)
    decreases |hay|
  {
    if IsPrefix(needle, hay) then
      assert OccursAt(hay, needle, 0);
      true
    else if hay == [] then false
    else
      var r := Contains(hay[1..], needle);
      assert forall i :: OccursAt(hay[1..], needle, i) <==> OccursAt(hay, needle, i + 1) by {
        forall i ensures OccursAt(hay[1..], needle, i) <==> OccursAt(hay, needle, i + 1) {
          if 0 <= i <= |hay| - 1 - |needle| {
            assert hay[1..][i..i + |needle|] == hay[i + 1..i + 1 + |needle|];
          }
        }
      }
      assert r ==> OccursAt(hay, needle, 1 + (var i :| OccursAt(hay[1..], needle, i); i));
      assert forall i :: OccursAt(hay, needle, i) ==> i >= 1 && OccursAt(hay[1..], needle, i - 1);
      r
  }

  /** A string none of whose characters starts `needle` does not contain it. */
  lemma NotContainsFirst(hay: string, needle: string)
    requires |needle| > 0
    requires forall j :: 0 <= j < |hay| ==> hay[j] != needle[0]
    ensures !Contains(hay, needle)
  {
    forall i | 0 <= i <= |hay| - |needle| ensures !OccursAt(hay, needle, i) {
      assert hay[i..i + |needle|][0] == hay[i];
    }
  }

  /**
   * `handle_network_error`: the first matching `except` clause decides.
   * A recognised backend exception becomes the network error of its class,
   * carrying the backend message and the exception as cause; the two
   * compatibility checks for a malformed IPv6 redirect header replace the
   * fault by a MalformedResponseError without cause; everything else
   * (ioweb's own errors included) leaves the boundary unchanged.
   */
  function MapFault(e: Exc): (r: Exc)
    ensures r == e || r.Network?
    ensures !e.Backend? ==> r == e
    ensures r != e ==> (r.cause == Some(e) && r.message == e.message) || r == RedirectFault()
  {
    match e
    case Backend(k, msg) =>
      (match k
       case ReadTimeout => Network(OperationTimeout, msg, Some(e))
       case ConnectTimeout => Network(Connect, msg, Some(e))
       case Protocol => Network(Connect, msg, Some(e))
       case Ssl => Network(Connect, msg, Some(e))
       case OpenSsl => Network(Connect, msg, Some(e))
       case LocationParse => Network(MalformedResponse, msg, Some(e))
       case Decode => Network(MalformedResponse, msg, Some(e))
       case InvalidHeader => Network(MalformedResponse, msg, Some(e))
       case ProxyFailure => Network(Proxy, msg, Some(e))
       case AttributeFailure(found) => if found then RedirectFault() else e
       case ValueFailure => if Contains(msg, Ipv6Signature) then RedirectFault() else e
       case NameFailure => e
       case OtherFailure(_) => e)
    case _ => e
  }

  /** `MalformedResponseError('Invalid redirect header')`. */
  function RedirectFault(): Exc {
    Network(MalformedResponse, RedirectHeaderMessage, None)
  }

  /** The classes the boundary always translates, with the network error each becomes. */
  function TableKind(k: BackendKind): Option<NetworkKind> {
    match k
    case ReadTimeout => Some(OperationTimeout)
    case ConnectTimeout | Protocol | Ssl | OpenSsl => Some(Connect)
    case LocationParse | Decode | InvalidHeader => Some(MalformedResponse)
    case ProxyFailure => Some(Proxy)
    case _ => None
  }

  /** Every class of the table is translated, keeping message and cause. */
  lemma MappingTable(k: BackendKind, msg: string)
    requires TableKind(k).Some?
    ensures MapFault(Backend(k, msg)) == Network(TableKind(k).value, msg, Some(Backend(k, msg)))
  {
  }

  /** A read-phase timeout is an OperationTimeoutError, a connect-phase timeout a ConnectError. */
  lemma TimeoutPhases(msg: string)
    ensures MapFault(Backend(ReadTimeout, msg)).networkKind == OperationTimeout
    ensures MapFault(Backend(ConnectTimeout, msg)).networkKind == Connect
  {
  }

  /**
   * The redirect shim: an AttributeError or ValueError becomes
   * MalformedResponseError('Invalid redirect header') exactly when its
   * signature matches, and is re-raised unchanged otherwise.
   */
  lemma RedirectShim(found: bool, msg: string)
    ensures MapFault(Backend(AttributeFailure(found), msg))
            == if found then RedirectFault() else Backend(AttributeFailure(found), msg)
    ensures MapFault(Backend(ValueFailure, msg))
            == if Contains(msg, Ipv6Signature) then RedirectFault() else Backend(ValueFailure, msg)
  {
  }

  /** The ValueError urllib.parse raises for `http://[::1` is recognised, whatever surrounds it. */
  lemma Ipv6ValueErrorRecognised(before: string, after: string)
    ensures MapFault(Backend(ValueFailure, before + Ipv6Signature + after)) == RedirectFault()
  {
    var m := before + Ipv6Signature + after;
    assert OccursAt(m, Ipv6Signature, |before|);
  }

  /** A ValueError whose message lacks the IPv6 signature passes through unchanged. */
  lemma OtherValueErrorReraised(msg: string)
    requires !Contains(msg, Ipv6Signature)
    ensures MapFault(Backend(ValueFailure, msg)) == Backend(ValueFailure, msg)
  {
  }

  /** The ValueError `int()` raises on bad input is such a message. */
  lemma IntParseValueErrorReraised()
    ensures MapFault(Backend(ValueFailure, "invalid literal for int()")) == Backend(ValueFailure, "invalid literal for int()")
  {
    NotContainsFirst("invalid literal for int()", Ipv6Signature);
    OtherValueErrorReraised("invalid literal for int()");
  }

  /** Exactly the table classes and the two matching signatures are translated. */
  lemma {:induction false} TranslatedIff(e: Exc)
    ensures MapFault(e) != e <==>
      e.Backend? && (TableKind(e.kind).Some? || e.kind == AttributeFailure(true)
                     || (e.kind == ValueFailure && Contains(e.message, Ipv6Signature)))
  {
    if e.Backend? && TableKind(e.kind).Some? {
      MappingTable(e.kind, e.message);
    }
  }

  /** Translation is idempotent: a fault the boundary has translated is not translated again. */
  lemma MapFaultIdempotent(e: Exc)
    ensures MapFault(MapFault(e)) == MapFault(e)
  {
  }
}
