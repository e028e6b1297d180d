/**
 * The local socket as the connection handler sees it.
 *
 * The read side is deterministic: the peer's behaviour is a schedule of
 * arrivals (a block of bytes, a silence longer than any timeout, a read
 * error) that the socket consumes in order. Once the schedule is exhausted
 * and nothing is buffered, the peer has closed the connection.
 *
 * The write side is nondeterministic: a write may be accepted in full, in
 * part, or refused, and waiting for bytes to be written may fail. Each such
 * refusal is counted in the ghost field `faults`, so that contracts can say
 * what happens when the environment cooperates.
 */
module Socket {
  import opened Bytes

  /** One event of the peer, in the order the connection observes them. */
  datatype Arrival =
    | Chunk(bytes: seq<byte>)   // a block of bytes arrives
    | Pause                     // the peer stays silent longer than any timeout
    | Fault                     // the socket reports a read error

  /** The read side: buffered bytes, what the peer will still do, and the state. */
  datatype Inbound = Inbound(rx: seq<byte>, pending: seq<Arrival>, connected: bool)

  /** The bytes carried by a schedule, in order. */
  function Flatten(p: seq<Arrival>): (r: seq<byte>)
  {
    if |p| == 0 then []
    else (if p[0].Chunk? then p[0].bytes else []) + Flatten(p[1..])
  }

  /** The bytes that arrive before the first read error of a schedule. */
  function Reachable(p: seq<Arrival>): (r: seq<byte>)
  {
    if |p| == 0 then []
    else match p[0]
      case Chunk(b) => b + Reachable(p[1..])
      case Pause => Reachable(p[1..])
      case Fault => []
  }

  /** Every byte the peer has sent or will send that has not been read yet. */
  function Stream(i: Inbound): seq<byte>
  {
    i.rx + Flatten(i.pending)
  }

  /** The result of one `read`: the new read side, the return value and the bytes stored. */
  datatype ReadResult = ReadResult(next: Inbound, r: int, got: seq<byte>)

  /**
   * One `read` of at most `max` bytes on a connected socket: buffered bytes
   * first; with an empty buffer the next arrival is taken; a silence reads
   * nothing, a read error returns -1, and an exhausted schedule means the
   * peer closed, which leaves the connected state.
   */
  function ReadStep(i: Inbound, max: nat): (res: ReadResult)
    requires max > 0
    ensures res.r == -1 || res.r == |res.got|
    ensures |res.got| <= max
  {
    if |i.rx| > 0 then
      var k := if max < |i.rx| then max else |i.rx|;
      ReadResult(i.(rx := i.rx[k..]), k, i.rx[..k])
    else if |i.pending| == 0 then
      ReadResult(Inbound([], [], false), 0, [])
    else
      match i.pending[0]
      case Chunk(b) =>
        var k := if max < |b| then max else |b|;
        ReadResult(Inbound(b[k..], i.pending[1..], i.connected), k, b[..k])
      case Pause => ReadResult(i.(pending := i.pending[1..]), 0, [])
      case Fault => ReadResult(i.(pending := i.pending[1..]), -1, [])
  }

  /** A read loses no byte: what it stores is the front of the stream. */
  lemma ReadStepKeepsStream(i: Inbound, max: nat)
    requires max > 0
    ensures var res := ReadStep(i, max);
      Stream(i) == res.got + Stream(res.next)
  {
    if |i.rx| > 0 {
      var k := if max < |i.rx| then max else |i.rx|;
      assert i.rx == i.rx[..k] + i.rx[k..];
      AppendAssoc(i.rx[..k], i.rx[k..], Flatten(i.pending));
    } else if |i.pending| > 0 {
      var rest := Flatten(i.pending[1..]);
      match i.pending[0]
      case Chunk(b) =>
        var k := if max < |b| then max else |b|;
        assert b == b[..k] + b[k..];
        AppendAssoc(b[..k], b[k..], rest);
      case Pause =>
        assert Flatten(i.pending) == [] + rest;
      case Fault =>
        assert Flatten(i.pending) == [] + rest;
    }
  }

  /** A read never reconnects, and while connected it consumes an arrival or a buffered byte. */
  lemma ReadStepProgress(i: Inbound, max: nat)
    requires max > 0
    ensures var res := ReadStep(i, max);
      (res.next.connected ==> i.connected)
      && |res.next.pending| <= |i.pending|
      && (i.connected && res.next.connected ==>
            |res.next.pending| < |i.pending| || (|res.next.pending| == |i.pending| && |res.next.rx| < |i.rx|))
  {
  }

  /**
   * A read that returns a count has stored bytes from before the first read
   * error; one that returns -1, or finds the peer gone, had none left.
   */
  lemma ReadStepReachable(i: Inbound, max: nat)
    requires max > 0
    ensures var res := ReadStep(i, max);
      (res.r >= 0 ==> res.got + res.next.rx + Reachable(res.next.pending) == i.rx + Reachable(i.pending))
      && (res.r < 0 ==> i.rx + Reachable(i.pending) == [])
      && (i.connected && !res.next.connected ==> res.got == [] && i.rx + Reachable(i.pending) == [])
  {
    if |i.rx| > 0 {
      var k := if max < |i.rx| then max else |i.rx|;
      assert i.rx == i.rx[..k] + i.rx[k..];
    } else if |i.pending| > 0 && i.pending[0].Chunk? {
      var b := i.pending[0].bytes;
      var k := if max < |b| then max else |b|;
      assert b == b[..k] + b[k..];
    }
  }

  /** The result of `waitForReadyRead`: whether data is ready, and the new read side. */
  datatype WaitResult = WaitResult(ready: bool, next: Inbound)

  /**
   * `waitForReadyRead` with a buffer that may be empty: data already buffered
   * is ready at once; otherwise the next arrival decides.
   */
  function WaitStep(i: Inbound): (res: WaitResult)
    ensures Stream(res.next) == Stream(i)
    ensures res.ready ==> res.next.connected
    ensures res.next.connected ==> i.connected
    ensures res.next.rx + Reachable(res.next.pending) == i.rx + Reachable(i.pending)
      || (i.rx == [] && |i.pending| > 0 && i.pending[0].Fault?)
  {
    if !i.connected then WaitResult(false, i)
    else if |i.rx| > 0 then WaitResult(true, i)
    else if |i.pending| == 0 then WaitResult(false, Inbound([], [], false))
    else
      match i.pending[0]
      case Chunk(b) => WaitResult(true, Inbound(b, i.pending[1..], true))
      case Pause => WaitResult(false, i.(pending := i.pending[1..]))
      case Fault => WaitResult(false, i.(pending := i.pending[1..]))
  }

  class LocalSocket {
    var inbound: Inbound
    /** Every byte the socket accepted for sending, in order. */
    var output: seq<byte>
    /** How many of the accepted bytes still wait in the write buffer. */
    var unflushed: nat
    /** How many writes or flushes the environment refused. */
    ghost var faults: nat
    /** The size asked for by each `write` call, in order. */
    ghost var writeSizes: seq<nat>

    /** A freshly connected socket whose peer will behave as `schedule` says. */
    constructor(schedule: seq<Arrival>)
      ensures inbound == Inbound([], schedule, true)
      ensures output == [] && unflushed == 0 && faults == 0 && writeSizes == []
    {
      inbound := Inbound([], schedule, true);
      output := [];
      unflushed := 0;
      faults := 0;
      writeSizes := [];
    }

    /** `bytesAvailable()`. */
    function BytesAvailable(): (n: nat)
      reads this
      ensures n == |inbound.rx|
    {
      |inbound.rx|
    }

    /** `state() == ConnectedState`. */
    predicate Connected()
      reads this
    {
      inbound.connected
    }

    /** `read(buffer, max)`: stores the bytes `got` and returns their count, or -1. */
    method Read(max: nat) returns (r: int, got: seq<byte>)
      requires max > 0
      modifies this
      ensures ReadResult(inbound, r, got) == ReadStep(old(inbound), max)
      ensures output == old(output) && unflushed == old(unflushed)
      ensures faults == old(faults) && writeSizes == old(writeSizes)
    {
      var res := ReadStep(inbound, max);
      inbound, r, got := res.next, res.r, res.got;
    }

    /** `waitForReadyRead(timeout)`. */
    method WaitForReadyRead() returns (ready: bool)
      modifies this
      ensures WaitResult(ready, inbound) == WaitStep(old(inbound))
      ensures output == old(output) && unflushed == old(unflushed)
      ensures faults == old(faults) && writeSizes == old(writeSizes)
    {
      var res := WaitStep(inbound);
      ready, inbound := res.ready, res.next;
    }

    /**
     * `write(data, size)`: the environment accepts some prefix of `data`, or
     * refuses it and -1 is returned. Anything short of the whole is a fault.
     */
    method Write(data: seq<byte>) returns (w: int)
      modifies this
      ensures -1 <= w <= |data|
      ensures output == old(output) + (if w > 0 then data[..w] else [])
      ensures unflushed == old(unflushed) + (if w > 0 then w else 0)
      ensures faults == old(faults) + (if w == |data| then 0 else 1)
      ensures writeSizes == old(writeSizes) + [|data|]
      ensures inbound == old(inbound)
    {
      w :| -1 <= w <= |data|;
      if w > 0 {
        output := output + data[..w];
        unflushed := unflushed + w;
      }
      if w != |data| {
        faults := faults + 1;
      }
      writeSizes := writeSizes + [|data|];
    }

    /**
     * `waitForBytesWritten(timeout)`: either some buffered bytes leave (all of
     * them, if that is how it goes) or the wait fails, which is a fault.
     */
    method WaitForBytesWritten() returns (ok: bool)
      modifies this
      ensures ok ==> (unflushed < old(unflushed) || unflushed == old(unflushed) == 0)
      ensures !ok ==> unflushed == old(unflushed)
      ensures faults == old(faults) + (if ok then 0 else 1)
      ensures output == old(output) && writeSizes == old(writeSizes) && inbound == old(inbound)
    {
      ok :| true;
      if ok {
        if unflushed > 0 {
          var left: nat :| left < unflushed;
          unflushed := left;
        }
      } else {
        faults := faults + 1;
      }
    }

    /** `bytesToWrite()`. */
    function BytesToWrite(): (n: nat)
      reads this
      ensures n == unflushed
    {
      unflushed
    }
  }
}
