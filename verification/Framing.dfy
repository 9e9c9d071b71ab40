/**
 * Length-prefixed messages over a byte stream: a 4-byte big-endian size, then
 * the payload. The state of a receiver is the part of the current message it
 * has read so far, header included.
 */
module Framing {
  import opened Wrappers

  newtype byte = b: int | 0 <= b < 256

  type Bytes = seq<byte>

  const HEADER_SIZE: nat := 4
  const MAX_INCOMING_FILE_SIZE: nat := 10 * 1024 * 1024
  /** ByteSize() is an int. */
  const MAX_MESSAGE_SIZE: nat := 0x7FFF_FFFF

  /** htonl of a size truncated to 32 bits. */
  function Header(size: nat): (h: Bytes)
    ensures |h| == HEADER_SIZE
  {
    [(size / 0x100_0000 % 0x100) as byte, (size / 0x1_0000 % 0x100) as byte,
     (size / 0x100 % 0x100) as byte, (size % 0x100) as byte]
  }

  /** ntohl of the four header bytes. */
  function SizeOf(h: Bytes): (size: nat)
    requires |h| >= HEADER_SIZE
    ensures size < 0x1_0000_0000
  {
    ((h[0] as nat * 0x100 + h[1] as nat) * 0x100 + h[2] as nat) * 0x100 + h[3] as nat
  }

  function Frame(payload: Bytes): (f: Bytes)
    ensures |f| == HEADER_SIZE + |payload|
  {
    Header(|payload|) + payload
  }

  lemma HeaderRoundTrip(size: nat)
    requires size < 0x1_0000_0000
    ensures SizeOf(Header(size)) == size
  {
    var a, b, c := size / 0x100, size / 0x1_0000, size / 0x100_0000;
    assert b == a / 0x100 && c == b / 0x100;
    assert c % 0x100 == c;
  }

  /** The most significant byte comes first. */
  lemma NetworkOrder(a: byte, b: byte, c: byte, d: byte, rest: Bytes)
    ensures var size := a as nat * 0x100_0000 + b as nat * 0x1_0000 + c as nat * 0x100 + d as nat;
      SizeOf([a, b, c, d] + rest) == size && Header(size) == [a, b, c, d]
  {
    var size := a as nat * 0x100_0000 + b as nat * 0x1_0000 + c as nat * 0x100 + d as nat;
    assert size / 0x100 == a as nat * 0x1_0000 + b as nat * 0x100 + c as nat;
    assert size / 0x1_0000 == a as nat * 0x100 + b as nat;
    assert size / 0x100_0000 == a as nat;
  }

  /** How many more bytes recv is asked for. */
  function Want(progress: Bytes): nat {
    if |progress| < HEADER_SIZE then HEADER_SIZE - |progress|
    else if |progress| < HEADER_SIZE + SizeOf(progress) then HEADER_SIZE + SizeOf(progress) - |progress|
    else 0
  }

  predicate Complete(progress: Bytes) {
    |progress| >= HEADER_SIZE && |progress| >= HEADER_SIZE + SizeOf(progress)
  }

  /** The payload of a complete message. */
  function Payload(progress: Bytes): Bytes
    requires Complete(progress)
  {
    progress[HEADER_SIZE..HEADER_SIZE + SizeOf(progress)]
  }

  /** What recv does; offered bytes beyond those asked for stay in the socket. */
  datatype RecvIO = RecvError(connReset: bool) | Offered(bytes: Bytes)

  datatype Received = Progressed(progress: Bytes) | RecvFailed(connReset: bool) | Oversize

  /**
   * IncomingBuffer::receive. End of file fails inside a payload, but counts as
   * no progress inside a header. A size above the maximum is fatal.
   */
  function Receive(progress: Bytes, io: RecvIO): Received {
    match io
    case RecvError(reset) => RecvFailed(reset)
    case Offered(bytes) =>
      var chunk := bytes[..Min(|bytes|, Want(progress))];
      var next := progress + chunk;
      if |progress| >= HEADER_SIZE && chunk == [] then RecvFailed(true)
      else if |progress| < HEADER_SIZE == |next| && SizeOf(next) > MAX_INCOMING_FILE_SIZE then Oversize
      else Progressed(next)
  }

  /** A strict prefix of a message says how much of that message is missing. */
  lemma PrefixWants(progress: Bytes, rest: Bytes, payload: Bytes)
    requires |payload| <= MAX_MESSAGE_SIZE && progress + rest == Frame(payload)
    ensures Want(progress) <= |rest| && (rest != [] ==> Want(progress) > 0)
    ensures Complete(progress) <==> rest == []
    ensures rest == [] ==> Payload(progress) == payload
  {
    HeaderRoundTrip(|payload|);
    if |progress| >= HEADER_SIZE {
      assert Frame(payload)[..HEADER_SIZE] == Header(|payload|);
      assert progress[..HEADER_SIZE] == Header(|payload|);
      assert forall k :: 0 <= k < HEADER_SIZE ==> progress[k] == Header(|payload|)[k];
      assert SizeOf(progress) == |payload|;
      if rest == [] {
        assert progress == Frame(payload);
        assert Frame(payload)[HEADER_SIZE..] == payload;
      }
    }
  }

  /**
   * Receiving part of a message that fits never fails unless the socket does;
   * it takes bytes of this message only.
   */
  lemma ReceivePart(progress: Bytes, rest: Bytes, payload: Bytes, offered: Bytes)
    requires |payload| <= MAX_MESSAGE_SIZE && progress + rest == Frame(payload) && rest != []
    requires offered != [] && (offered <= rest || rest <= offered)
    ensures var n := Min(|offered|, Want(progress));
      && 0 < n <= |rest| && offered[..n] == rest[..n]
      && progress + offered[..n] + rest[n..] == Frame(payload)
      && (Receive(progress, Offered(offered)) == Progressed(progress + offered[..n])
          || (|payload| > MAX_INCOMING_FILE_SIZE && Receive(progress, Offered(offered)) == Oversize))
  {
    PrefixWants(progress, rest, payload);
    var n := Min(|offered|, Want(progress));
    var next := progress + offered[..n];
    assert rest == rest[..n] + rest[n..];
    assert next + rest[n..] == Frame(payload);
    if |progress| < HEADER_SIZE && |next| == HEADER_SIZE {
      assert next == Frame(payload)[..HEADER_SIZE] == Header(|payload|);
      HeaderRoundTrip(|payload|);
    }
  }
}
