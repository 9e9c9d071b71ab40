/** src/OutgoingBuffer.hpp: the message being sent, header included. */
module Outgoing {
  import opened Wrappers
  import opened Framing

  /** What send does; it takes at most the bytes it is given. */
  datatype SendIO = SendError | Accepted(count: nat)

  function Sent(unsent: Bytes, io: SendIO): Bytes {
    if io.Accepted? then unsent[Min(io.count, |unsent|)..] else unsent
  }

  class OutgoingBuffer {
    /** The bytes not yet handed to the socket. */
    ghost var unsent: Bytes
    /** A null buffer is an empty one. */
    var buffer: array<byte>
    var size: nat
    var sent: nat

    ghost predicate Valid()
      reads this, buffer
    {
      sent <= size == buffer.Length && unsent == buffer[sent..]
    }

    constructor ()
      ensures Valid() && unsent == [] && fresh(buffer)
    {
      buffer := new byte[0];
      size, sent := 0, 0;
      unsent := [];
    }

    method SetMessage(payload: Bytes)
      requires Valid()
      modifies this
      ensures Valid() && fresh(buffer)
      ensures unsent == Frame(payload)
    {
      size := |payload| + HEADER_SIZE;
      var bytes := new byte[size];
      var h := Header(|payload|);
      forall k | 0 <= k < HEADER_SIZE {
        bytes[k] := h[k];
      }
      forall k | 0 <= k < |payload| {
        bytes[HEADER_SIZE + k] := payload[k];
      }
      buffer := bytes;
      sent := 0;
      unsent := Frame(payload);
      assert bytes[..] == Frame(payload);
    }

    method NeedSend() returns (need: bool)
      requires Valid()
      ensures need <==> unsent != []
    {
      need := sent < size;
    }

    /** Returns the bytes that went out, and whether the socket still works. */
    method Send(io: SendIO) returns (success: bool, out: Bytes)
      requires Valid()
      modifies this`sent, this`unsent
      ensures Valid()
      ensures out + unsent == old(unsent) && unsent == Sent(old(unsent), io)
      ensures success <==> old(unsent) == [] || io.Accepted?
    {
      out := [];
      if sent < size {
        var left := size - sent;
        match io
        case SendError =>
          return false, [];
        case Accepted(count) =>
          var here := Min(count, left);
          out := buffer[sent..sent + here];
          sent := sent + here;
          unsent := unsent[here..];
      }
      success := true;
    }
  }
}
