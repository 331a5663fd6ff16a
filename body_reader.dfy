/**
 * What `read_with_timeout` does, as a function of what the open response
 * yields and what the clock says: the response is read 1024 bytes at a
 * time, each non-empty chunk is appended (cut to what is left of
 * `content_read_limit` when a limit is set), reaching the limit or an empty
 * chunk ends the read, and after every other chunk the time elapsed since
 * the request started is compared with the request's `timeout`.
 */
module BodyReader {
  import opened Wrappers
  import opened Encoding
  import opened Errors

  /** One `read(1024)` on the open response: the bytes it returns, or what it raises. */
  datatype Chunk = Bytes(data: seq<byte>) | Raises(fault: Exc)

  /** Why the read loop ended. */
  datatype Stop =
    | EndOfStream          // an empty chunk: normal completion
    | CapReached           // `content_read_limit` bytes are in the body
    | Deadline             // the elapsed time exceeded `timeout`
    | Failed(fault: Exc)   // the response's `read` raised

  /**
   * The result of a read: the bytes appended to the body, why the loop
   * stopped, how many `read` calls it made, how many chunks of the response
   * those calls consumed (a response with nothing left answers without
   * consuming one) and how many clock readings it took.
   */
  datatype ReadOutcome = ReadOutcome(appended: seq<byte>, stop: Stop, readCalls: nat, consumed: nat, clockReads: nat)
  {
    /** What `read_with_timeout` raises, if anything. */
    function Raised(): Option<Exc> {
      match stop
      case Deadline => Some(ReadTimeoutFault())
      case Failed(e) => Some(e)
      case _ => None
    }

    /** This outcome, seen from `turns` earlier turns that appended `piece` and read the clock `ticks` times. */
    function Behind(piece: seq<byte>, turns: nat, ticks: nat): ReadOutcome {
      ReadOutcome(piece + appended, stop, readCalls + turns, consumed + turns, clockReads + ticks)
    }
  }

  /** Looking back over one more turn composes with looking back over the earlier ones. */
  lemma BehindTwice(o: ReadOutcome, piece: seq<byte>, kept: seq<byte>, turns: nat, ticks: nat)
    ensures o.Behind(piece, 1, 1).Behind(kept, turns, ticks) == o.Behind(kept + piece, turns + 1, ticks + 1)
  {
    assert kept + (piece + o.appended) == (kept + piece) + o.appended;
  }

  /** Looking back over no turns changes nothing. */
  lemma BehindNothing(o: ReadOutcome)
    ensures o.Behind([], 0, 0) == o
  {
    assert [] + o.appended == o.appended;
  }

  /** Dropping `i` chunks and then `j` more drops `i + j`. */
  lemma DropTwice<T>(s: seq<T>, i: nat, j: nat)
    requires i + j <= |s|
    ensures s[i..][j..] == s[i + j..]
  {
    assert forall k :: 0 <= k < |s| - i - j ==> s[i..][j..][k] == s[i + j..][k];
  }

  /** `OperationTimeoutError('Timed out while reading response')`. */
  function ReadTimeoutFault(): Exc {
    Network(OperationTimeout, "Timed out while reading response", None)
  }

  function Min(a: int, b: int): int {
    if a <= b then a else b
  }

  /** Clock readings `from` up to (excluding) `to` are all within the budget. */
  ghost predicate InTime(clock: nat -> int, from: nat, to: nat, started: int, timeout: int) {
    forall i :: from <= i < to ==> clock(i) - started <= timeout
  }

  /**
   * The bytes the response yields before the first empty chunk or the first
   * failing read: everything an unbounded, unhurried read would keep.
   */
  function Available(stream: seq<Chunk>): seq<byte>
    decreases |stream|
  {
    if stream == [] || stream[0].Raises? || stream[0].data == [] then []
    else stream[0].data + Available(stream[1..])
  }

  /** How many chunks the response yields before its first empty chunk or failing read. */
  function Leading(stream: seq<Chunk>): (n: nat)
    ensures n <= |stream|
    decreases |stream|
  {
    if stream == [] || stream[0].Raises? || stream[0].data == [] then 0
    else 1 + Leading(stream[1..])
  }

  /**
   * The clock is within the budget at every reading the loop takes before
   * the body is full: the reading after the first `k` chunks is taken only
   * when the bytes they carry leave the body short of the limit.
   */
  ghost predicate InTimeUntilFull(stream: seq<Chunk>, limit: nat, bytesRead: nat,
                                  clock: nat -> int, call: nat, started: int, timeout: int) {
    forall k :: 0 < k <= |stream| && bytesRead + |Available(stream[..k])| < limit
      ==> clock(call + k - 1) - started <= timeout
  }

  /** The response ends with an empty chunk (or runs out) before any read fails. */
  predicate EndsCleanly(stream: seq<Chunk>)
    decreases |stream|
  {
    stream == [] || (stream[0].Bytes? && (stream[0].data == [] || EndsCleanly(stream[1..])))
  }

  /**
   * The read loop, entered with `bytesRead` bytes already appended and
   * `call` clock readings already taken. `clock(i)` is the time the `i`-th
   * reading returns; `started` is the time recorded when the request began.
   * A response that has nothing more yields empty chunks.
   */
  function ReadLoop(stream: seq<Chunk>, limit: nat, bytesRead: nat,
                    clock: nat -> int, call: nat, started: int, timeout: int): ReadOutcome
    requires limit == 0 || bytesRead < limit
    decreases |stream|, 1
  {
    if stream == [] then ReadOutcome([], EndOfStream, 1, 0, 0)
    else Consume(stream[0], stream[1..], limit, bytesRead, clock, call, started, timeout)
  }

  /** What the read loop does with `chunk`, the answer of one `read`, when `rest` follows it. */
  function Consume(chunk: Chunk, rest: seq<Chunk>, limit: nat, bytesRead: nat,
                   clock: nat -> int, call: nat, started: int, timeout: int): ReadOutcome
    requires limit == 0 || bytesRead < limit
    decreases |rest| + 1, 0
  {
    match chunk
    case Raises(e) => ReadOutcome([], Failed(e), 1, 1, 0)
    case Bytes(data) =>
      if data == [] then ReadOutcome([], EndOfStream, 1, 1, 0)
      else
        var take := if limit > 0 then Min(|data|, limit - bytesRead) else |data|;
        var read := bytesRead + take;
        if limit > 0 && read >= limit then ReadOutcome(data[..take], CapReached, 1, 1, 0)
        else if clock(call) - started > timeout then ReadOutcome(data[..take], Deadline, 1, 1, 1)
        else ReadLoop(rest, limit, read, clock, call + 1, started, timeout).Behind(data[..take], 1, 1)
  }

  /**
   * What every read keeps: the body never grows past the limit, a cap stop
   * means it is exactly full, and what is kept is what the response sent,
   * in order.
   */
  lemma {:induction false} ReadKeepsPrefix(stream: seq<Chunk>, limit: nat, bytesRead: nat,
                                 clock: nat -> int, call: nat, started: int, timeout: int)
    requires limit == 0 || bytesRead < limit
    ensures var o := ReadLoop(stream, limit, bytesRead, clock, call, started, timeout);
      && (limit > 0 ==> bytesRead + |o.appended| <= limit)
      && (o.stop == CapReached ==> limit > 0 && bytesRead + |o.appended| == limit)
      && o.appended <= Available(stream)
    decreases |stream|
  {
    if stream != [] && stream[0].Bytes? && stream[0].data != [] {
      var chunk := stream[0].data;
      var take := if limit > 0 then Min(|chunk|, limit - bytesRead) else |chunk|;
      if !(limit > 0 && bytesRead + take >= limit) && clock(call) - started <= timeout {
        ReadKeepsPrefix(stream[1..], limit, bytesRead + take, clock, call + 1, started, timeout);
      }
    }
  }

  /**
   * How many calls a read makes: every `read` call consumes a chunk except
   * the last one on a response that has run out; a failed read is the
   * chunk that raised; and the clock is read once after each chunk that
   * neither ended the response nor filled the body.
   */
  lemma {:induction false} ReadCounts(stream: seq<Chunk>, limit: nat, bytesRead: nat,
                                 clock: nat -> int, call: nat, started: int, timeout: int)
    requires limit == 0 || bytesRead < limit
    ensures var o := ReadLoop(stream, limit, bytesRead, clock, call, started, timeout);
      && o.consumed <= |stream| && o.readCalls > 0
      && (o.consumed == o.readCalls || (o.stop == EndOfStream && o.consumed == |stream| == o.readCalls - 1))
      && (o.stop.Failed? ==> o.consumed > 0 && stream[o.consumed - 1] == Raises(o.stop.fault))
      && (o.stop == Deadline ==> o.clockReads == o.readCalls)
      && (o.stop != Deadline ==> o.clockReads == o.readCalls - 1)
    decreases |stream|
  {
    if stream != [] && stream[0].Bytes? && stream[0].data != [] {
      var chunk := stream[0].data;
      var take := if limit > 0 then Min(|chunk|, limit - bytesRead) else |chunk|;
      if !(limit > 0 && bytesRead + take >= limit) && clock(call) - started <= timeout {
        ReadCounts(stream[1..], limit, bytesRead + take, clock, call + 1, started, timeout);
      }
    }
  }

  /**
   * Every clock reading a read takes is within the budget, except the last
   * one of a deadline stop, which is past it.
   */
  lemma {:induction false} ReadClock(stream: seq<Chunk>, limit: nat, bytesRead: nat,
                                 clock: nat -> int, call: nat, started: int, timeout: int)
    requires limit == 0 || bytesRead < limit
    ensures var o := ReadLoop(stream, limit, bytesRead, clock, call, started, timeout);
      && (o.stop == Deadline ==> o.clockReads > 0 && clock(call + o.clockReads - 1) - started > timeout)
      && InTime(clock, call, call + o.clockReads - (if o.stop == Deadline then 1 else 0), started, timeout)
    decreases |stream|
  {
    if stream != [] && stream[0].Bytes? && stream[0].data != [] {
      var chunk := stream[0].data;
      var take := if limit > 0 then Min(|chunk|, limit - bytesRead) else |chunk|;
      if !(limit > 0 && bytesRead + take >= limit) && clock(call) - started <= timeout {
        ReadClock(stream[1..], limit, bytesRead + take, clock, call + 1, started, timeout);
      }
    }
  }

  /**
   * A response that holds at least what is left of the limit, read in time
   * until the body is full, fills the body to exactly the limit and stops
   * without error: truncation is silent, even when the deadline has passed
   * by the time the filling chunk arrives.
   */
  lemma {:induction false} ReadFillsCap(stream: seq<Chunk>, limit: nat, bytesRead: nat,
                                        clock: nat -> int, call: nat, started: int, timeout: int)
    requires 0 < limit && bytesRead < limit
    requires |Available(stream)| >= limit - bytesRead
    requires InTimeUntilFull(stream, limit, bytesRead, clock, call, started, timeout)
    ensures var o := ReadLoop(stream, limit, bytesRead, clock, call, started, timeout);
      o.appended == Available(stream)[..limit - bytesRead] && o.stop == CapReached && o.Raised() == None
    decreases |stream|
  {
    var chunk := stream[0].data;
    var take := Min(|chunk|, limit - bytesRead);
    if bytesRead + take < limit {
      var tail := stream[1..];
      assert Available(stream[..1]) == chunk by {
        assert stream[..1][1..] == [];
      }
      forall k | 0 < k <= |tail| && bytesRead + take + |Available(tail[..k])| < limit
        ensures clock(call + 1 + k - 1) - started <= timeout
      {
        assert stream[..k + 1][1..] == tail[..k];
        assert Available(stream[..k + 1]) == chunk + Available(tail[..k]);
      }
      ReadFillsCap(tail, limit, bytesRead + take, clock, call + 1, started, timeout);
      var rest := Available(tail);
      assert Available(stream) == chunk + rest;
      assert (chunk + rest)[..limit - bytesRead] == chunk + rest[..limit - bytesRead - take];
    }
  }

  /**
   * A response that ends cleanly within the limit (or with no limit), read
   * in time, is kept whole. The clock is read only after the chunks that
   * carry data, so only those readings need to be in time.
   */
  lemma {:induction false} ReadKeepsAll(stream: seq<Chunk>, limit: nat, bytesRead: nat,
                                        clock: nat -> int, call: nat, started: int, timeout: int)
    requires limit == 0 || bytesRead + |Available(stream)| < limit
    requires EndsCleanly(stream)
    requires InTime(clock, call, call + Leading(stream), started, timeout)
    ensures var o := ReadLoop(stream, limit, bytesRead, clock, call, started, timeout);
      o.appended == Available(stream) && o.stop == EndOfStream && o.Raised() == None
    decreases |stream|
  {
    if stream != [] && stream[0].data != [] {
      var take := |stream[0].data|;
      ReadKeepsAll(stream[1..], limit, bytesRead + take, clock, call + 1, started, timeout);
    }
  }

  /** The bytes of the response's chunks, failing reads contributing nothing. */
  function Flatten(cs: seq<Chunk>): seq<byte> {
    if cs == [] then [] else (if cs[0].Bytes? then cs[0].data else []) + Flatten(cs[1..])
  }

  /**
   * A slow-drip sender: if the first `k + 1` chunks all carry data, stay
   * below the limit, and the clock is past the budget at the `k`-th reading,
   * the read fails with OperationTimeoutError no later than that chunk,
   * although no single read timed out.
   */
  lemma {:induction false} ReadSlowDrip(stream: seq<Chunk>, limit: nat, bytesRead: nat, k: nat,
                                        clock: nat -> int, call: nat, started: int, timeout: int)
    requires k < |stream|
    requires forall j :: 0 <= j <= k ==> stream[j].Bytes? && stream[j].data != []
    requires limit == 0 || bytesRead + |Flatten(stream[..k + 1])| < limit
    requires clock(call + k) - started > timeout
    ensures var o := ReadLoop(stream, limit, bytesRead, clock, call, started, timeout);
      o.stop == Deadline && o.Raised() == Some(ReadTimeoutFault()) && o.readCalls <= k + 1
    decreases k
  {
    var chunk := stream[0].data;
    FlattenCons(stream, k);
    assert limit > 0 ==> bytesRead + |chunk| < limit;
    if k > 0 && clock(call) - started <= timeout {
      var tail := stream[1..];
      assert forall j :: 0 <= j <= k - 1 ==> tail[j] == stream[j + 1];
      ReadSlowDrip(tail, limit, bytesRead + |chunk|, k - 1, clock, call + 1, started, timeout);
    }
  }

  lemma FlattenCons(stream: seq<Chunk>, k: nat)
    requires k < |stream| && stream[0].Bytes?
    ensures Flatten(stream[..k + 1]) == stream[0].data + Flatten(stream[1..][..k])
  {
    assert stream[..k + 1] == [stream[0]] + stream[1..][..k];
  }
}
