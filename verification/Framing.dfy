/** Length-prefixed framing over a stream the network may cut anywhere (utils/crypto.py). */
module Framing {
  import opened Common

  const LENGTH_LIMIT: nat := 0x1_0000_0000

  function U32(n: nat): (b: Bytes)
    requires n < LENGTH_LIMIT
    ensures |b| == 4
  {
    [(n / 0x100_0000) as Byte, (n / 0x1_0000 % 0x100) as Byte, (n / 0x100 % 0x100) as Byte, (n % 0x100) as Byte]
  }

  function FromU32(b: Bytes): (n: nat)
    requires |b| == 4
    ensures n < LENGTH_LIMIT
  {
    b[0] as nat * 0x100_0000 + b[1] as nat * 0x1_0000 + b[2] as nat * 0x100 + b[3] as nat
  }

  lemma LengthRoundTrip(n: nat)
    requires n < LENGTH_LIMIT
    ensures FromU32(U32(n)) == n
  {
    assert n / 0x1_0000 == n / 0x100_0000 * 0x100 + n / 0x1_0000 % 0x100;
    assert n / 0x100 == n / 0x1_0000 * 0x100 + n / 0x100 % 0x100;
  }

  datatype PackError = LengthDoesNotFit

  /** struct.pack(">I") raises for a length of 2^32 or more. */
  function Pack(data: Bytes): Result<Bytes, PackError> {
    if |data| < LENGTH_LIMIT then Ok(U32(|data|) + data) else Err(LengthDoesNotFit)
  }

  datatype ReadError = ClosedInLength | FrameTooLarge(length: nat) | ClosedInData

  function Taken(stream: Bytes, size: nat): Bytes { if size <= |stream| then stream[..size] else stream }

  function Left(stream: Bytes, size: nat): Bytes { if size <= |stream| then stream[size..] else [] }

  /** What one unpack_frame does to the bytes the peer sends before it closes. */
  function Unpack(stream: Bytes, maxSize: nat): (Result<Bytes, ReadError>, Bytes) {
    if |stream| < 4 then (Err(ClosedInLength), [])
    else
      var length := FromU32(stream[..4]);
      if length > maxSize then (Err(FrameTooLarge(length)), stream[4..])
      else if |stream| - 4 < length then (Err(ClosedInData), [])
      else (Ok(stream[4..][..length]), stream[4..][length..])
  }

  /** The receiving end: `pending` is everything the peer will have sent when it closes. */
  class Socket {
    var pending: Bytes

    constructor (bytes: Bytes)
      ensures pending == bytes
    {
      pending := bytes;
    }

    /** recv: any non-empty segment up to `size`, or nothing once the stream has ended. */
    method Recv(size: nat) returns (chunk: Bytes)
      requires size > 0
      modifies this
      ensures chunk + pending == old(pending)
      ensures |chunk| <= size
      ensures chunk == [] <==> old(pending) == []
    {
      if pending == [] {
        chunk := [];
      } else {
        var k: nat :| 1 <= k <= size && k <= |pending|;
        chunk, pending := pending[..k], pending[k..];
      }
    }

    method RecvExact(size: nat) returns (result: Bytes)
      modifies this
      ensures result == Taken(old(pending), size)
      ensures pending == Left(old(pending), size)
    {
      result := [];
      while |result| < size
        invariant result + pending == old(pending)
        invariant |result| <= size
      {
        var chunk := Recv(size - |result|);
        if chunk == [] { break; }
        assert result + (chunk + pending) == result + chunk + pending;
        result := result + chunk;
      }
    }

    method UnpackFrame(maxSize: nat) returns (frame: Result<Bytes, ReadError>)
      modifies this
      ensures (frame, pending) == Unpack(old(pending), maxSize)
    {
      var rawLength := RecvExact(4);
      if |rawLength| != 4 { return Err(ClosedInLength); }
      var length := FromU32(rawLength);
      if length > maxSize { return Err(FrameTooLarge(length)); }
      var data := RecvExact(length);
      if |data| != length { return Err(ClosedInData); }
      return Ok(data);
    }

    /** A reader that calls unpack_frame until it raises; the segmentation is Recv's choice. */
    method ReadAll(maxSize: nat) returns (frames: seq<Bytes>, end: ReadError)
      modifies this
      ensures (frames, end) == AllFrames(old(pending), maxSize)
    {
      frames := [];
      ghost var whole := AllFrames(pending, maxSize);
      while true
        invariant frames + AllFrames(pending, maxSize).0 == whole.0
        invariant AllFrames(pending, maxSize).1 == whole.1
        decreases |pending|
      {
        ghost var rest := AllFrames(pending, maxSize);
        var frame := UnpackFrame(maxSize);
        if frame.Err? {
          assert frames + rest.0 == frames;
          return frames, frame.error;
        }
        assert rest.0 == [frame.value] + AllFrames(pending, maxSize).0;
        assert frames + rest.0 == (frames + [frame.value]) + AllFrames(pending, maxSize).0;
        frames := frames + [frame.value];
      }
    }
  }

  function AllFrames(stream: Bytes, maxSize: nat): (seq<Bytes>, ReadError)
    decreases |stream|
  {
    match Unpack(stream, maxSize)
    case (Err(e), _) => ([], e)
    case (Ok(data), rest) =>
      var (frames, e) := AllFrames(rest, maxSize);
      ([data] + frames, e)
  }

  ghost predicate Sendable(payloads: seq<Bytes>, maxSize: nat) {
    forall p :: p in payloads ==> |p| <= maxSize && |p| < LENGTH_LIMIT
  }

  function PackAll(payloads: seq<Bytes>): Bytes {
    if payloads == [] then []
    else (match Pack(payloads[0]) case Ok(b) => b case Err(_) => []) + PackAll(payloads[1..])
  }

  lemma UnpackOfPack(data: Bytes, rest: Bytes, maxSize: nat)
    requires |data| <= maxSize && |data| < LENGTH_LIMIT
    ensures Unpack(U32(|data|) + data + rest, maxSize) == (Ok(data), rest)
  {
    var stream := U32(|data|) + data + rest;
    LengthRoundTrip(|data|);
    assert stream[..4] == U32(|data|);
    assert stream[4..] == data + rest;
  }

  /** How many whole frames fit into the first `cut` bytes. */
  function WholeFrames(payloads: seq<Bytes>, cut: nat): (k: nat)
    ensures k <= |payloads|
    ensures |PackAll(payloads[..k])| <= cut
    ensures Sendable(payloads, LENGTH_LIMIT) && k < |payloads| ==> cut < |PackAll(payloads[..k + 1])|
  {
    if payloads == [] then 0
    else if |payloads[0]| >= LENGTH_LIMIT || cut < 4 + |payloads[0]| then
      assert payloads[..0 + 1] == [payloads[0]] && payloads[..1][1..] == [];
      0
    else
      var k := WholeFrames(payloads[1..], cut - 4 - |payloads[0]|);
      assert payloads[..k + 1][1..] == payloads[1..][..k];
      assert k < |payloads| - 1 ==> payloads[..k + 2][1..] == payloads[1..][..k + 1];
      1 + k
  }

  /** A stream cut inside its first frame is an error, not a short frame. */
  lemma CutFrameIsAnError(data: Bytes, rest: Bytes, maxSize: nat, cut: nat)
    requires |data| <= maxSize && |data| < LENGTH_LIMIT
    requires cut < 4 + |data|
    ensures Unpack((U32(|data|) + data + rest)[..cut], maxSize).0
            == if cut < 4 then Err(ClosedInLength) else Err(ClosedInData)
  {
    var stream := (U32(|data|) + data + rest)[..cut];
    LengthRoundTrip(|data|);
    if cut >= 4 {
      assert stream[..4] == U32(|data|);
    }
  }

  lemma FirstFrameRead(data: Bytes, rest: Bytes, maxSize: nat)
    requires |data| <= maxSize && |data| < LENGTH_LIMIT
    ensures AllFrames(U32(|data|) + data + rest, maxSize)
            == ([data] + AllFrames(rest, maxSize).0, AllFrames(rest, maxSize).1)
  {
    UnpackOfPack(data, rest, maxSize);
  }

  ghost predicate CutRead(payloads: seq<Bytes>, k: nat, read: (seq<Bytes>, ReadError))
    requires k <= |payloads|
  {
    && read.0 == payloads[..k]
    && !read.1.FrameTooLarge?
    && (read.1.ClosedInLength? || k < |payloads|)
  }

  lemma OneMoreRead(payloads: seq<Bytes>, k: nat, read: (seq<Bytes>, ReadError))
    requires payloads != [] && k < |payloads| && CutRead(payloads[1..], k, read)
    ensures CutRead(payloads, k + 1, ([payloads[0]] + read.0, read.1))
  {
    assert payloads[..k + 1] == [payloads[0]] + payloads[1..][..k];
  }

  lemma CutAfterFirst(data: Bytes, tail: Bytes, cut: nat)
    requires |data| < LENGTH_LIMIT && 4 + |data| <= cut <= 4 + |data| + |tail|
    ensures |U32(|data|)| == 4 && (U32(|data|) + data + tail)[..cut] == U32(|data|) + data + tail[..cut - 4 - |data|]
  {
  }

  /** Round trip under truncation: whatever the segmentation, a reader of the first `cut` bytes
      gets exactly the payloads sent whole, in order, and then an error, never a short frame. */
  lemma {:induction false} ReadersGetWholeFrames(payloads: seq<Bytes>, maxSize: nat, cut: nat)
    requires Sendable(payloads, maxSize) && cut <= |PackAll(payloads)|
    ensures CutRead(payloads, WholeFrames(payloads, cut), AllFrames(PackAll(payloads)[..cut], maxSize))
    decreases |payloads|
  {
    if payloads != [] {
      var data, tail := payloads[0], PackAll(payloads[1..]);
      assert PackAll(payloads) == U32(|data|) + data + tail;
      assert |U32(|data|)| == 4;
      if cut < 4 + |data| {
        CutFrameIsAnError(data, tail, maxSize, cut);
      } else {
        var rest := cut - 4 - |data|;
        CutAfterFirst(data, tail, cut);
        FirstFrameRead(data, tail[..rest], maxSize);
        ReadersGetWholeFrames(payloads[1..], maxSize, rest);
        OneMoreRead(payloads, WholeFrames(payloads[1..], rest), AllFrames(tail[..rest], maxSize));
      }
    }
  }

  /** The untruncated case: exactly the packed payloads, then the end of the stream. */
  lemma FramingRoundTrip(payloads: seq<Bytes>, maxSize: nat)
    requires Sendable(payloads, maxSize)
    ensures AllFrames(PackAll(payloads), maxSize) == (payloads, ClosedInLength)
  {
    var all := PackAll(payloads);
    assert all[..|all|] == all;
    ReadersGetWholeFrames(payloads, maxSize, |all|);
    var k := WholeFrames(payloads, |all|);
    if k < |payloads| {
      PackAllPrefix(payloads, k + 1);
      assert false;
    }
    assert payloads[..k] == payloads;
  }

  lemma {:induction false} PackAllPrefix(payloads: seq<Bytes>, k: nat)
    requires k <= |payloads|
    ensures |PackAll(payloads[..k])| <= |PackAll(payloads)|
    decreases |payloads|
  {
    if k > 0 {
      assert payloads[..k][1..] == payloads[1..][..k - 1];
      PackAllPrefix(payloads[1..], k - 1);
    }
  }

  /** AES-GCM adds a 12-byte nonce and a 16-byte tag. A sealed chunk fits the receiver's bound
      for data frames exactly up to 36 bytes over CHUNK_SIZE, so every sender chunk does, and a
      control frame fits exactly up to HEADER_MAX_SIZE + 36 plain bytes. */
  lemma SealedFrameFits(plain: Bytes, sealed: Bytes, rest: Bytes)
    requires |sealed| == NONCE_SIZE + |plain| + TAG_SIZE && |sealed| < LENGTH_LIMIT
    ensures |plain| <= CHUNK_SIZE + 36 <==> Unpack(U32(|sealed|) + sealed + rest, CHUNK_SIZE + 64).0 == Ok(sealed)
    ensures |plain| <= HEADER_MAX_SIZE + 36
            <==> Unpack(U32(|sealed|) + sealed + rest, HEADER_MAX_SIZE + 64).0 == Ok(sealed)
  {
    var stream := U32(|sealed|) + sealed + rest;
    LengthRoundTrip(|sealed|);
    assert stream[..4] == U32(|sealed|);
    if |plain| <= CHUNK_SIZE + 36 { UnpackOfPack(sealed, rest, CHUNK_SIZE + 64); }
    if |plain| <= HEADER_MAX_SIZE + 36 { UnpackOfPack(sealed, rest, HEADER_MAX_SIZE + 64); }
  }
}
