/** The outgoing half of a connection in `wayland/server.c`: posted messages collect in a buffer, file
    descriptors beside it, and a flush hands both to the socket. */
module Outgoing {
  import opened Wire
  import opened Messages

  const MAX_FDS := 256
  const SIZEOF_INT := 4

  /** A posted message and the descriptor that goes with it; 0 for none. */
  datatype Posted = Posted(message: Message, fd: int)

  predicate Postable(ps: seq<Posted>) { forall k :: 0 <= k < |ps| ==> Fits(ps[k].message) }

  function BytesOf(ps: seq<Posted>): seq<byte>
    requires Postable(ps)
  {
    if ps == [] then [] else BytesOf(ps[..|ps| - 1]) + MessageBytes(ps[|ps| - 1].message)
  }

  function FdsOf(ps: seq<Posted>): seq<int> {
    if ps == [] then [] else FdsOf(ps[..|ps| - 1]) + (if ps[|ps| - 1].fd != 0 then [ps[|ps| - 1].fd] else [])
  }

  // ---------------------------------------------------------------- what a flush does to the buffer

  /** The bytes that stay after the socket has taken n of `size`: the source moves down what lies behind
      the filled part, not behind the part that was sent. */
  function Kept(memory: seq<byte>, size: nat, n: nat): seq<byte>
    requires 0 < n <= size && size + size <= |memory|
  {
    memory[size..size + (size - n)]
  }

  /** For all buffer contents, what is kept is what was not sent: exactly when everything was sent. */
  lemma FlushConserves(size: nat, n: nat)
    requires 0 < n <= size
    ensures (forall memory: seq<byte> :: size + size <= |memory| ==> Kept(memory, size, n) == memory[n..size]) <==>
      n == size
  {
    if n < size {
      var memory: seq<byte> := seq(size + size, i => if i < size then 1 else 0);
      assert Kept(memory, size, n)[0] == 0 && memory[n..size][0] == 1;
    }
  }

  class Connection {
    /** The connection's buffer; `behind` is the memory that follows it. */
    const buffer: array<byte>
    const behind: seq<byte>
    var bufferSize: nat
    const sendFds: array<int>
    var sendFdN: nat

    ghost var posted: seq<Posted>
    /** How many of the posted messages have left. */
    ghost var left: nat
    ghost var sent: seq<byte>
    ghost var fdsSent: seq<int>

    ghost predicate Valid()
      reads this, buffer, sendFds
    {
      && buffer.Length == BUFFER_SIZE && |behind| == BUFFER_SIZE && bufferSize <= BUFFER_SIZE
      && sendFds.Length == MAX_FDS && sendFdN <= MAX_FDS
      && Postable(posted) && left <= |posted|
      && sent == BytesOf(posted[..left]) && fdsSent == FdsOf(posted[..left])
      && sent + buffer[..bufferSize] == BytesOf(posted) && fdsSent + sendFds[..sendFdN] == FdsOf(posted)
    }

    constructor (behind: seq<byte>)
      requires |behind| == BUFFER_SIZE
      ensures Valid() && posted == [] && sent == [] && fdsSent == [] && fresh(buffer) && fresh(sendFds)
    {
      this.behind := behind;
      buffer := new byte[BUFFER_SIZE](_ => 0);
      sendFds := new int[MAX_FDS](_ => 0);
      bufferSize, sendFdN := 0, 0;
      posted, left, sent, fdsSent := [], 0, [], [];
    }

    /** c_wl_connection_flush; n is what send or sendmsg returns. */
    method Flush(n: int) returns (status: int)
      requires Valid() && n <= bufferSize
      modifies this`bufferSize, this`sendFdN, this`left, this`sent, this`fdsSent, buffer
      ensures status == if old(bufferSize) == 0 then 0 else n
      ensures old(bufferSize) == 0 || n <= 0 ==>
        Valid() && bufferSize == old(bufferSize) && sendFdN == old(sendFdN) && sent == old(sent) &&
          fdsSent == old(fdsSent)
      ensures 0 < n ==>
        && bufferSize == old(bufferSize) - n
        && sent == old(sent + buffer[..n]) && fdsSent == old(fdsSent + sendFds[..sendFdN]) && sendFdN == 0
        && buffer[..bufferSize] == Kept(old(buffer[..]) + behind, old(bufferSize), n)
      ensures n == old(bufferSize) ==>
        Valid() && bufferSize == 0 && sendFdN == 0 && sent == BytesOf(posted) && fdsSent == FdsOf(posted)
    {
      hide BytesOf, FdsOf, MessageBytes;
      if bufferSize == 0 {
        assert sent + buffer[..0] == sent;
        AllLeft(posted, left);
        return 0;
      }
      ghost var bytes, fds := buffer[..], sendFds[..sendFdN];
      assert buffer[..bufferSize] == bytes[..bufferSize];
      if n > 0 {
        sent := sent + buffer[..n];
        fdsSent := fdsSent + sendFds[..sendFdN];
        left := |posted|;
        sendFdN := 0;
        var remaining := bufferSize - n;
        if remaining != 0 {
          ghost var memory := buffer[..] + behind;
          var moved := (buffer[..] + behind)[bufferSize..bufferSize + remaining];
          var i := 0;
          while i < remaining
            invariant 0 <= i <= remaining && forall k :: 0 <= k < i ==> buffer[k] == moved[k]
            invariant sent == old(sent) + bytes[..n] && fdsSent == old(fdsSent) + fds && sendFdN == 0
            invariant left == |posted|
            invariant bufferSize == old(bufferSize)
          {
            buffer[i] := moved[i];
            i := i + 1;
          }
          assert buffer[..remaining] == moved;
        }
        bufferSize := remaining;
        assert posted[..|posted|] == posted && buffer[..0] == [] && sendFds[..0] == [];
      }
      return n;
    }

    /** c_wl_connection_post on a live object. The flush it may need sends everything; once one fails,
        nothing more is posted. */
    method Post(m: Message, fd: int)
      requires Valid() && Fits(m) && sendFdN < MAX_FDS
      modifies this, buffer, sendFds
      ensures Valid() && posted == old(posted) + [Posted(m, fd)]
      ensures sent == if old(bufferSize) + Size(m) >= BUFFER_SIZE then BytesOf(old(posted)) else old(sent)
      ensures bufferSize <= BUFFER_SIZE
    {
      hide BytesOf, FdsOf, MessageBytes, ArgsBytes;
      PostedPlus(posted, Posted(m, fd));
      var tmp := new byte[BUFFER_SIZE](_ => 0);
      var offset := Marshal(tmp, m);
      if bufferSize + offset >= BUFFER_SIZE {
        var _ := Flush(bufferSize);
      } else {
        // the source compares the number of descriptors with the size of their array in bytes
        assert sendFdN + 1 < MAX_FDS * SIZEOF_INT;
      }
      Append(tmp, offset);
      assert sent + buffer[..bufferSize] == BytesOf(posted) + MessageBytes(m);
      assert fdsSent + sendFds[..sendFdN] == FdsOf(posted);
      AppendFd(fd);
      assert fdsSent + sendFds[..sendFdN] == FdsOf(posted) + if fd != 0 then [fd] else [];
      PlusPrefix(posted, Posted(m, fd), left);
      posted := posted + [Posted(m, fd)];
    }

    /** A message that has a descriptor queues it. */
    method AppendFd(fd: int)
      requires sendFdN < sendFds.Length
      modifies this`sendFdN, sendFds
      ensures sendFdN == old(sendFdN) + (if fd != 0 then 1 else 0)
      ensures sendFds[..sendFdN] == old(sendFds[..sendFdN]) + if fd != 0 then [fd] else []
    {
      if fd != 0 {
        sendFds[sendFdN] := fd;
        sendFdN := sendFdN + 1;
      }
    }

    /** memcpy(conn->buffer + conn->buffer_size, tmp_buffer, offset) */
    method Append(tmp: array<byte>, offset: nat)
      requires offset <= tmp.Length && bufferSize + offset <= buffer.Length && tmp != buffer
      modifies this`bufferSize, buffer
      ensures bufferSize == old(bufferSize) + offset
      ensures buffer[..bufferSize] == old(buffer[..bufferSize]) + old(tmp[..offset])
    {
      var i := 0;
      while i < offset
        invariant 0 <= i <= offset && bufferSize == old(bufferSize)
        invariant buffer[..bufferSize] == old(buffer[..bufferSize]) && buffer[bufferSize..bufferSize + i] == tmp[..i]
        invariant tmp[..offset] == old(tmp[..offset])
      {
        buffer[bufferSize + i] := tmp[i];
        i := i + 1;
      }
      assert buffer[..bufferSize + i] == buffer[..bufferSize] + buffer[bufferSize..bufferSize + i];
      bufferSize := bufferSize + offset;
    }
  }

  lemma PostedPlus(ps: seq<Posted>, p: Posted)
    requires Postable(ps) && Fits(p.message)
    ensures Postable(ps + [p]) && BytesOf(ps + [p]) == BytesOf(ps) + MessageBytes(p.message)
    ensures FdsOf(ps + [p]) == FdsOf(ps) + if p.fd != 0 then [p.fd] else []
  {
    assert (ps + [p])[..|ps|] == ps;
  }

  lemma PlusPrefix(ps: seq<Posted>, p: Posted, k: nat)
    requires k <= |ps|
    ensures (ps + [p])[..k] == ps[..k]
  {
  }

  lemma {:induction false} BytesGrow(ps: seq<Posted>, k: nat)
    requires Postable(ps) && k <= |ps|
    ensures |BytesOf(ps[..k])| + HEADER_SIZE * (|ps| - k) <= |BytesOf(ps)|
    decreases |ps|
  {
    hide MessageBytes;
    if k == |ps| {
      assert ps[..k] == ps;
    } else {
      var n := |ps| - 1;
      assert ps[..n][..k] == ps[..k];
      BytesGrow(ps[..n], k);
    }
  }

  /** When all bytes have left, all messages have, and with them all descriptors. */
  lemma AllLeft(ps: seq<Posted>, k: nat)
    requires Postable(ps) && k <= |ps| && BytesOf(ps[..k]) == BytesOf(ps)
    ensures k == |ps| && ps[..k] == ps
  {
    BytesGrow(ps, k);
  }
}
