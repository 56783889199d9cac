/** A connected stream socket, seen from the receiving side. */
module Socket {
  import opened Bytes

  /** `inbox` holds every byte that the connection will still deliver. `Recv` hands it out in pieces
      whose sizes nobody controls; once it is empty the connection has ended and every further
      `Recv` fails. */
  class Socket {
    var inbox: seq<byte>

    constructor (stream: seq<byte>)
      ensures inbox == stream
    {
      inbox := stream;
    }

    /** recv(sock, ..., want, 0); an empty result stands for a return value of zero or less. */
    method Recv(want: nat) returns (got: seq<byte>)
      requires want > 0
      modifies this
      ensures old(inbox) == [] ==> got == [] && inbox == []
      ensures old(inbox) != [] ==> 1 <= |got| <= want
      ensures old(inbox) == got + inbox
    {
      if inbox == [] {
        return [];
      }
      var n: nat :| 1 <= n <= want && n <= |inbox|;
      got, inbox := inbox[..n], inbox[n..];
    }
  }

  /** What an exact read of `len` bytes leaves of the stream `s`: all of it on failure is gone. */
  function AfterExact(s: seq<byte>, len: nat): (rest: seq<byte>)
    ensures len <= |s| ==> s == s[..len] + rest
  {
    if len <= |s| then s[len..] else []
  }

  /** sock_read_exact: fill `buf[..len]` from the socket, however `Recv` splits the stream. */
  method ReadExact(sock: Socket, buf: array<byte>, len: nat) returns (ok: bool)
    requires len <= buf.Length
    modifies sock, buf
    ensures ok == (len <= |old(sock.inbox)|)
    ensures sock.inbox == AfterExact(old(sock.inbox), len)
    ensures var k := Min(len, |old(sock.inbox)|);
            buf[..k] == old(sock.inbox)[..k] && buf[k..] == old(buf[k..])
  {
    ghost var stream := sock.inbox;
    var total := 0;
    while total < len
      invariant 0 <= total <= len && total <= |stream|
      invariant sock.inbox == stream[total..]
      invariant buf[..total] == stream[..total]
      invariant buf[total..] == old(buf[total..])
    {
      var got := sock.Recv(len - total);
      if got == [] {
        return false;
      }
      ghost var before := buf[..];
      forall i | 0 <= i < |got| {
        buf[total + i] := got[i];
      }
      assert buf[..total] == before[..total];
      assert buf[total + |got|..] == before[total + |got|..];
      assert before[total + |got|..] == before[total..][|got|..];
      assert stream[total..] == got + sock.inbox;
      assert stream[..total + |got|] == stream[..total] + got;
      assert buf[..total + |got|] == buf[..total] + got;
      total := total + |got|;
    }
    ok := true;
  }

  /** The skip loops: read and drop `len` bytes, at most `chunk` at a time. */
  method Drain(sock: Socket, len: nat, chunk: nat) returns (ok: bool)
    requires chunk > 0
    modifies sock
    ensures ok == (len <= |old(sock.inbox)|)
    ensures sock.inbox == AfterExact(old(sock.inbox), len)
  {
    ghost var stream := sock.inbox;
    var rem := len;
    while rem > 0
      invariant 0 <= rem <= len && len - rem <= |stream|
      invariant sock.inbox == stream[len - rem..]
    {
      var got := sock.Recv(if rem > chunk then chunk else rem);
      if got == [] {
        return false;
      }
      assert stream[len - rem..] == got + sock.inbox;
      rem := rem - |got|;
    }
    ok := true;
  }
}
