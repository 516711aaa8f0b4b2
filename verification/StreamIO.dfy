/** send_all and recv_all of protocol.c over a byte stream that accepts and
    delivers any amount at a time, or fails. */
module StreamIO {
  import opened Wire

  /** One direction of a connection: the bytes in flight, and what the kernel
      will do at the next calls (a count it handles, or a failure). */
  class Channel {
    var data: seq<byte>
    var schedule: seq<int>

    constructor (schedule: seq<int>)
      ensures data == [] && this.schedule == schedule
    {
      this.data, this.schedule := [], schedule;
    }

    /** recv(): up to `limit` of the oldest bytes, or nothing and a result <= 0. */
    method Recv(limit: nat) returns (n: int, chunk: seq<byte>)
      modifies this
      ensures |chunk| <= limit && n <= limit
      ensures chunk + data == old(data)
      ensures if n > 0 then |chunk| == n else chunk == []
    {
      n, chunk := 0, [];
      if schedule != [] {
        n, schedule := schedule[0], schedule[1..];
        if n > limit { n := limit; }
        if n > |data| { n := |data|; }
        if n > 0 {
          chunk, data := data[..n], data[n..];
        }
      }
    }

    /** send(): a first part of the bytes, or nothing and a result <= 0. */
    method Send(bytes: seq<byte>) returns (n: int)
      modifies this
      ensures n <= |bytes|
      ensures data == old(data) + if n > 0 then bytes[..n] else []
    {
      n := 0;
      if schedule != [] {
        n, schedule := schedule[0], schedule[1..];
        if n > |bytes| { n := |bytes|; }
        if n > 0 {
          data := data + bytes[..n];
        }
      }
    }
  }

  /** Success means that exactly `len` bytes of the stream are in the buffer, in
      order; on failure the bytes taken so far are a prefix of the stream. */
  method RecvAll(ch: Channel, buf: array<byte>, len: nat) returns (ok: bool, ghost taken: nat)
    requires len <= buf.Length
    modifies ch, buf
    ensures taken <= len && (ok <==> taken == len)
    ensures buf[..taken] + ch.data == old(ch.data)
    ensures buf[taken..] == old(buf[taken..])
  {
    var total := 0;
    while total < len
      invariant total <= len
      invariant buf[..total] + ch.data == old(ch.data)
      invariant buf[total..] == old(buf[total..])
      decreases len - total
    {
      ghost var before := buf[..];
      var n, chunk := ch.Recv(len - total);
      if n <= 0 {
        return false, total;
      }
      forall i | 0 <= i < n {
        buf[total + i] := chunk[i];
      }
      assert buf[..total] == before[..total];
      assert buf[..total + n] == buf[..total] + chunk;
      assert buf[total + n..] == before[total + n..];
      total := total + n;
    }
    return true, total;
  }

  /** Success means that exactly the given bytes were appended to the stream; on
      failure a proper prefix of them was. */
  method SendAll(ch: Channel, bytes: seq<byte>) returns (ok: bool, ghost sent: nat)
    modifies ch
    ensures sent <= |bytes| && (ok <==> sent == |bytes|)
    ensures ch.data == old(ch.data) + bytes[..sent]
  {
    var total := 0;
    while total < |bytes|
      invariant total <= |bytes|
      invariant ch.data == old(ch.data) + bytes[..total]
      decreases |bytes| - total
    {
      var n := ch.Send(bytes[total..]);
      if n <= 0 {
        return false, total;
      }
      assert bytes[..total] + bytes[total..][..n] == bytes[..total + n];
      total := total + n;
    }
    return true, total;
  }

  /** A header sent over any chunking is received byte for byte, or one of the
      two calls has reported a failure. */
  method CarryRequest(ch: Channel, r: Request, buf: array<byte>) returns (ok: bool)
    requires ch.data == [] && buf.Length == REQUEST_SIZE && ValidRequest(r)
    modifies ch, buf
    ensures ok ==> DecodeRequest(buf[..]) == r && ch.data == []
  {
    hide EncodeRequest, DecodeRequest;
    var sent, n := SendAll(ch, EncodeRequest(r));
    if !sent {
      return false;
    }
    assert ch.data == EncodeRequest(r);
    ghost var stream := ch.data;
    var received, m := RecvAll(ch, buf, REQUEST_SIZE);
    if received {
      assert buf[..REQUEST_SIZE] + ch.data == stream;
      assert ch.data == [] && buf[..REQUEST_SIZE] == stream;
      RequestRoundTrip(r);
      assert buf[..REQUEST_SIZE] == buf[..];
    }
    return received;
  }
}
