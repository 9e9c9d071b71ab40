/** src/IncomingBuffer.hpp: the message being received, in a buffer that is reused. */
module Incoming {
  import opened Wrappers
  import opened Framing

  /** Refused is the exit on a message above the maximum size. */
  datatype Status = Success | Failure(connReset: bool) | Refused

  class IncomingBuffer {
    /** What has been read of the current message, header included. */
    ghost var progress: Bytes
    /** A null buffer is an empty one. */
    var buffer: array<byte>
    /** The memory of m_size while the header arrives, in network order. */
    var header: Bytes
    var size: nat
    var haveSize: bool
    var received: nat
    var capacity: nat

    ghost predicate Valid()
      reads this, buffer
    {
      && |header| == HEADER_SIZE
      && capacity == buffer.Length
      && if haveSize then
           size == SizeOf(header) && received <= size <= capacity && progress == header + buffer[..received]
         else
           received < HEADER_SIZE && progress == header[..received]
    }

    constructor ()
      ensures Valid() && progress == [] && fresh(buffer)
    {
      buffer, capacity := new byte[0], 0;
      header := [0, 0, 0, 0];
      size, haveSize, received := 0, false, 0;
      progress := [];
    }

    /** Bytes left over from an earlier message stay in the buffer, out of sight. */
    method Reset()
      requires Valid()
      modifies this
      ensures Valid() && buffer == old(buffer) && progress == []
    {
      header := [0, 0, 0, 0];
      size, haveSize, received := 0, false, 0;
      progress := [];
    }

    method NeedReceive() returns (need: bool)
      requires Valid()
      ensures need <==> !Complete(progress)
    {
      need := !haveSize || received < size;
    }

    /** The bytes given to the message parser. */
    method GetMessage() returns (payload: Bytes)
      requires Valid() && Complete(progress)
      ensures payload == Payload(progress)
    {
      payload := buffer[..size];
    }

    method Receive(io: RecvIO) returns (r: Status)
      requires Valid()
      modifies this, buffer
      ensures buffer == old(buffer) || fresh(buffer)
      ensures match Framing.Receive(old(progress), io)
        case Progressed(p) => r == Success && Valid() && progress == p
        case RecvFailed(reset) => r == Failure(reset) && Valid() && progress == old(progress)
        case Oversize => r == Refused
    {
      if haveSize {
        r := ReceiveBody(io);
      } else {
        r := ReceiveHeader(io);
      }
    }

    method ReceiveBody(io: RecvIO) returns (r: Status)
      requires Valid() && haveSize
      modifies this`received, this`progress, buffer
      ensures Valid()
      ensures match Framing.Receive(old(progress), io)
        case Progressed(p) => r == Success && progress == p
        case RecvFailed(reset) => r == Failure(reset) && progress == old(progress)
        case Oversize => false
    {
      var left := size - received;
      match io
      case RecvError(reset) =>
        r := Failure(reset);
      case Offered(bytes) =>
        var chunk := bytes[..Min(|bytes|, left)];
        if chunk == [] {
          r := Failure(true);
        } else {
          ghost var was := buffer[..received];
          forall k | 0 <= k < |chunk| {
            buffer[received + k] := chunk[k];
          }
          received := received + |chunk|;
          assert buffer[..received] == was + chunk;
          progress := progress + chunk;
          r := Success;
        }
    }

    method ReceiveHeader(io: RecvIO) returns (r: Status)
      requires Valid() && !haveSize
      modifies this
      ensures buffer == old(buffer) || fresh(buffer)
      ensures match Framing.Receive(old(progress), io)
        case Progressed(p) => r == Success && Valid() && progress == p
        case RecvFailed(reset) => r == Failure(reset) && Valid() && progress == old(progress)
        case Oversize => r == Refused
    {
      var left := HEADER_SIZE - received;
      match io
      case RecvError(reset) =>
        r := Failure(reset);
      case Offered(bytes) =>
        var chunk := bytes[..Min(|bytes|, left)];
        progress := progress + chunk;
        header := header[..received] + chunk + header[received + |chunk|..];
        received := received + |chunk|;
        assert header[..received] == progress;
        if received == HEADER_SIZE {
          size := SizeOf(header);
          if size > MAX_INCOMING_FILE_SIZE {
            return Refused;
          }
          haveSize := true;
          received := 0;
          if capacity < size {
            buffer := new byte[size];
            capacity := size;
          }
        }
        r := Success;
    }
  }
}
