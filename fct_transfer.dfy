/**
 * The data exchange of one fcttest connection: the server reads exactly
 * `length` bytes into its buffer and answers with the one-byte token '$';
 * the client sends the flow, waits for the token and measures the time.
 * The socket is modelled by a Connection object standing for read(2) and
 * write(2) on a connected stream socket.
 */
module FctTransfer {
  import FctTime

  newtype byte = b: int | 0 <= b < 256

  /** The response token '$' (ASCII 36). */
  const TOKEN: byte := 36

  /** One end of a connected stream socket. `incoming` holds every byte the
      peer sends from now on; once it is drained, a read reports end of
      stream (0), or an error (-1) when `failsAtEnd` is set. How many bytes
      one read delivers is up to the kernel. */
  class Connection {
    var incoming: seq<byte>
    var failsAtEnd: bool
    var outgoing: seq<byte>

    constructor (incoming: seq<byte>, failsAtEnd: bool)
      ensures this.incoming == incoming && this.failsAtEnd == failsAtEnd
      ensures outgoing == []
    {
      this.incoming := incoming;
      this.failsAtEnd := failsAtEnd;
      outgoing := [];
    }

    /** read(fd, &buf[off], n): copies between 1 and n waiting bytes into
        buf[off..], or returns 0 / -1 when nothing more will arrive. */
    method Read(buf: array<byte>, off: nat, n: nat) returns (got: int)
      requires off + n <= buf.Length
      modifies this`incoming, buf
      ensures n == 0 ==> got == 0
      ensures n > 0 && old(incoming) == [] ==> got == (if failsAtEnd then -1 else 0)
      ensures n > 0 && old(incoming) != [] ==> 1 <= got <= n && got <= |old(incoming)|
      ensures got > 0 ==>
        buf[off..off + got] == old(incoming)[..got] && incoming == old(incoming)[got..]
      ensures got <= 0 ==> incoming == old(incoming)
      ensures forall k :: 0 <= k < buf.Length && !(off <= k < off + got) ==>
        buf[k] == old(buf[k])
    {
      if n == 0 || incoming == [] {
        got := if n > 0 && failsAtEnd then -1 else 0;
        return;
      }
      got :| 1 <= got <= n && got <= |incoming|;
      forall k | off <= k < off + got {
        buf[k] := incoming[k - off];
      }
      incoming := incoming[got..];
    }

    /** write(fd, data, |data|), taken to send everything. */
    method Write(data: seq<byte>)
      modifies this`outgoing
      ensures outgoing == old(outgoing) + data
    {
      outgoing := outgoing + data;
    }
  }

  /** How do_server's handling of one connection ends. */
  datatype ServeResult = TokenSent | ReadFailed(got: int)

  /** One iteration of do_server's accept loop, after accept: read until
      `total` reaches `length`, aborting on a read that returns <= 0, then
      write the token. `buffer` is the malloc(length) buffer. */
  method ServeConnection(conn: Connection, buffer: array<byte>, length: int)
    returns (r: ServeResult)
    requires length <= buffer.Length
    modifies conn, buffer
    ensures conn.failsAtEnd == old(conn.failsAtEnd)
    ensures r == TokenSent <==> length <= |old(conn.incoming)|
    ensures r.TokenSent? ==>
      && conn.outgoing == old(conn.outgoing) + [TOKEN]
      && (length > 0 ==> buffer[..length] == old(conn.incoming)[..length]
                          && conn.incoming == old(conn.incoming)[length..])
      && (length <= 0 ==> conn.incoming == old(conn.incoming))
    ensures r.ReadFailed? ==>
      && r.got == (if conn.failsAtEnd then -1 else 0)
      && conn.outgoing == old(conn.outgoing)
      && buffer[..|old(conn.incoming)|] == old(conn.incoming)
      && conn.incoming == []
  {
    var total := 0;
    var got := 0;
    while total < length
      invariant 0 <= total <= |old(conn.incoming)|
      invariant total == 0 || total <= length
      invariant buffer[..total] == old(conn.incoming)[..total]
      invariant conn.incoming == old(conn.incoming)[total..]
      invariant conn.outgoing == old(conn.outgoing)
      invariant conn.failsAtEnd == old(conn.failsAtEnd)
      decreases length - total
    {
      got := conn.Read(buffer, total, length - total);
      if got <= 0 {
        return ReadFailed(got);
      }
      assert buffer[..total + got] == buffer[..total] + buffer[total..total + got];
      assert old(conn.incoming)[..total + got]
        == old(conn.incoming)[..total] + old(conn.incoming)[total..][..got];
      total := total + got;
    }
    conn.Write([TOKEN]);
    return TokenSent;
  }

  /** The client's token check: read one byte and accept only a single '$'. */
  method AwaitToken(conn: Connection, buff: array<byte>) returns (ok: bool)
    requires 1 <= buff.Length
    modifies conn`incoming, buff
    ensures ok <==> old(conn.incoming) != [] && old(conn.incoming)[0] == TOKEN
    ensures conn.incoming == if old(conn.incoming) == [] then [] else old(conn.incoming)[1..]
  {
    var got := conn.Read(buff, 0, 1);
    ok := !(got != 1 || buff[0] != TOKEN);
  }

  /** How do_client ends after connect. */
  datatype ClientResult = BadToken | Elapsed(nanodiff: int, time: FctTime.Duration)

  /** do_client after connect: send `length` bytes of `buff`, wait for the
      token and compute the elapsed time from the two clock readings taken
      around the exchange. */
  method RunClient(conn: Connection, buff: array<byte>, length: int,
                   start: FctTime.Timespec, finish: FctTime.Timespec)
    returns (r: ClientResult)
    requires 1 <= length <= buff.Length
    requires FctTime.Valid(start) && FctTime.Valid(finish)
    modifies conn, buff
    ensures conn.outgoing == old(conn.outgoing) + old(buff[..length])
    ensures conn.incoming ==
      if old(conn.incoming) == [] then [] else old(conn.incoming)[1..]
    ensures conn.failsAtEnd == old(conn.failsAtEnd)
    ensures r.Elapsed? <==> old(conn.incoming) != [] && old(conn.incoming)[0] == TOKEN
    ensures r.Elapsed? ==>
      r.nanodiff == FctTime.NanoDiff(start, finish) && r.time == FctTime.Split(r.nanodiff)
  {
    conn.Write(buff[..length]);
    var ok := AwaitToken(conn, buff);
    if !ok {
      return BadToken;
    }
    var nanodiff := FctTime.NanoDiff(start, finish);
    return Elapsed(nanodiff, FctTime.Split(nanodiff));
  }
}
