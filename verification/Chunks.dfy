/** The two chunk loops as loops, tied to the step machine (core/transfer.py,
    _receive_v3_file_data and the inner loop of _send_v3_payload). */
module Chunks {
  import opened Common
  import opened Lifecycle
  import opened Protocol
  import opened Resume
  import opened Receiver
  import opened ReceiverSafety
  import opened Fidelity

  // ---- sending

  datatype SendEnd = AllSent | CancelledByUser | SourceChanged

  function CeilDiv(n: nat, d: nat): nat
    requires d > 0
  {
    (n + d - 1) / d
  }

  /** What the next read returns; a source that has shrunk below the position gives nothing. */
  function ReadNext(content: Bytes, pos: nat): (raw: Bytes)
    ensures |raw| <= CHUNK_SIZE && (raw == [] <==> pos >= |content|)
  {
    if pos <= |content| then ReadAt(content, pos) else []
  }

  /** The k-th chunk sent from `offset`: index and offset advance together, the data are the next
      read of the source. */
  function ChunkAt(transferId: string, f: FileMeta, content: Bytes, offset: nat, k: nat): Frame {
    var pos := offset + k * CHUNK_SIZE;
    var raw := ReadNext(content, pos);
    Chunk(transferId, f.id, offset / CHUNK_SIZE + k, pos, |raw|, raw)
  }

  /** Chunks a source of this length yields before the offered size is reached or it runs dry. */
  function Yield(size: nat, length: nat, offset: nat): nat { CeilDiv(Max(Min(size, length) - offset, 0), CHUNK_SIZE) }

  /** The source ends before the offered size. */
  predicate RunsDry(size: nat, length: nat, offset: nat) { offset < size && length < size }

  /** Where the sender stands after n chunks. */
  function PosAfter(length: nat, offset: nat, n: nat): nat {
    if n == 0 then offset else Min(offset + n * CHUNK_SIZE, length)
  }

  lemma YieldMeaning(size: nat, length: nat, offset: nat, n: nat)
    requires n <= Yield(size, length, offset)
    ensures n > 0 ==> offset + (n - 1) * CHUNK_SIZE < Min(size, length)
    ensures n < Yield(size, length, offset) ==>
              PosAfter(length, offset, n) == offset + n * CHUNK_SIZE < Min(size, length)
    ensures n == Yield(size, length, offset) && offset <= size ==>
              (PosAfter(length, offset, n) < size <==> RunsDry(size, length, offset))
              && (RunsDry(size, length, offset) ==> PosAfter(length, offset, n) >= length)
  {
  }

  ghost predicate Sent(frames: seq<Frame>, transferId: string, f: FileMeta, content: Bytes, offset: nat) {
    forall k :: 0 <= k < |frames| ==> frames[k] == ChunkAt(transferId, f, content, offset, k)
  }

  /** One read below the offered size: the next chunk while the source yields one, then nothing. */
  lemma ReadOnce(frames: seq<Frame>, transferId: string, f: FileMeta, content: Bytes, offset: nat)
    requires Sent(frames, transferId, f, content, offset) && |frames| <= Yield(f.size, |content|, offset)
    requires PosAfter(|content|, offset, |frames|) < f.size && offset <= f.size
    ensures var pos, index := PosAfter(|content|, offset, |frames|), offset / CHUNK_SIZE + |frames|;
            var raw := ReadNext(content, pos);
            && (raw == [] <==> |frames| == Yield(f.size, |content|, offset))
            && (raw == [] ==> RunsDry(f.size, |content|, offset))
            && (raw != [] ==>
                  && pos + |raw| == PosAfter(|content|, offset, |frames| + 1)
                  && Sent(frames + [Chunk(transferId, f.id, index, pos, |raw|, raw)], transferId, f, content, offset))
  {
    YieldMeaning(f.size, |content|, offset, |frames|);
  }

  /** The sender's loop over a source that may have changed since it was hashed. `cancelAt` is the round
      in which the cancel event is found set, if any. Until it stops it sends exactly the chunks the
      source yields; it reports the change exactly when the source is too short. */
  method SendChunks(transferId: string, f: FileMeta, content: Bytes, info: TransferInfo, offset: nat,
                    cancelAt: Option<nat>)
    returns (frames: seq<Frame>, end: SendEnd)
    requires offset <= f.size
    modifies info`bytesTransferred, info`bytesThisAttempt, info`resumeOffset
    ensures var rounds := Yield(f.size, |content|, offset) + (if RunsDry(f.size, |content|, offset) then 1 else 0);
            && (end.CancelledByUser? <==> cancelAt.Some? && cancelAt.value < rounds)
            && (end.SourceChanged? <==> !end.CancelledByUser? && RunsDry(f.size, |content|, offset))
    ensures !end.CancelledByUser? ==> |frames| == Yield(f.size, |content|, offset)
    ensures end.CancelledByUser? ==> |frames| == cancelAt.value + 1 && frames[cancelAt.value] == Cancel(transferId)
    ensures var chunks := if end.CancelledByUser? then frames[..|frames| - 1] else frames;
            && Sent(chunks, transferId, f, content, offset)
            && info.bytesTransferred == PosAfter(|content|, offset, |chunks|)
    ensures info.resumeOffset == offset && info.bytesTransferred == offset + info.bytesThisAttempt
    ensures |content| <= f.size ==> info.bytesTransferred <= f.size
    ensures end.AllSent? ==> info.bytesTransferred >= f.size
  {
    info.resumeOffset, info.bytesTransferred, info.bytesThisAttempt := offset, offset, 0;
    frames := [];
    var index := offset / CHUNK_SIZE;
    ghost var yield_ := Yield(f.size, |content|, offset);
    YieldMeaning(f.size, |content|, offset, 0);
    while info.bytesTransferred < f.size
      invariant |frames| <= yield_ && info.bytesTransferred == PosAfter(|content|, offset, |frames|)
      invariant info.resumeOffset == offset && info.bytesTransferred == offset + info.bytesThisAttempt
      invariant index == offset / CHUNK_SIZE + |frames|
      invariant Sent(frames, transferId, f, content, offset)
      invariant cancelAt.Some? ==> |frames| <= cancelAt.value
      decreases yield_ - |frames|
    {
      ReadOnce(frames, transferId, f, content, offset);
      if cancelAt == Some(|frames|) {
        return frames + [Cancel(transferId)], CancelledByUser;
      }
      var raw := ReadNext(content, info.bytesTransferred);
      if raw == [] { return frames, SourceChanged; }
      frames := frames + [Chunk(transferId, f.id, index, info.bytesTransferred, |raw|, raw)];
      info.bytesTransferred := info.bytesTransferred + |raw|;
      info.bytesThisAttempt := info.bytesThisAttempt + |raw|;
      index := index + 1;
    }
    YieldMeaning(f.size, |content|, offset, |frames|);
    end := AllSent;
  }

  // ---- receiving

  class Incoming {
    var incoming: seq<Input>

    constructor (incoming: seq<Input>)
      ensures this.incoming == incoming
    {
      this.incoming := incoming;
    }

    /** A receive call; when nothing more will come the connection is lost. */
    method Receive() returns (input: Input)
      modifies this
      ensures input == if old(incoming) == [] then Lost else old(incoming)[0]
      ensures incoming == if old(incoming) == [] then [] else old(incoming)[1..]
    {
      if incoming == [] { return Lost; }
      input, incoming := incoming[0], incoming[1..];
    }
  }

  /** The open partial: its content and the position of the handle. */
  class PartialFile {
    var content: Bytes
    var position: nat

    constructor (content: Bytes, position: nat)
      ensures this.content == content && this.position == position
    {
      this.content, this.position := content, position;
    }

    method Write(data: Bytes)
      modifies this
      ensures content == Overwrite(old(content), old(position), data) && position == old(position) + |data|
    {
      content := Overwrite(content, position, data);
      position := position + |data|;
    }
  }

  /** How the loop ends: all data in, or one of the three kinds of exception. */
  datatype LoopEnd = DataComplete | PeerCancelled | Violation | ConnectionLost

  function HandlerStatus(end: LoopEnd): Status
    requires !end.DataComplete?
  {
    match end
    case PeerCancelled => Cancelled
    case Violation => Failed
    case ConnectionLost => Interrupted
  }

  /** The machine fed with a whole sequence of inputs. */
  ghost function Feed(r: Receiver, inputs: seq<Input>, sha: Digest): (q: Receiver)
    requires RInv(r, sha)
    ensures RInv(q, sha)
    decreases |inputs|
  {
    if inputs == [] then r
    else
      var k := |inputs| - 1;
      var q := Feed(r, inputs[..k], sha);
      ReceiveKeepsInv(q, inputs[k], sha);
      Receive(q, inputs[k], sha)
  }

  lemma FeedOne(r: Receiver, inputs: seq<Input>, input: Input, sha: Digest)
    requires RInv(r, sha)
    ensures Feed(r, inputs + [input], sha) == Receive(Feed(r, inputs, sha), input, sha)
  {
    assert (inputs + [input])[..|inputs|] == inputs;
  }

  /** The loop's variables are the machine's: same bytes on disk, same counters, same index. */
  ghost predicate Reflects(q: Receiver, offer: Offer, f: FileMeta, content: Bytes, bytes: nat, attempt: nat,
      index: nat)
  {
    && q.session.next < |q.session.offer.files| && q.session.offer == offer && Current(q) == f
    && q.session.next < |q.session.plans| && q.session.plans[q.session.next].finalPath.None?
    && f.id in q.disk.partials && q.disk.partials[f.id].bytes == content
    && f.id in q.index && q.index[f.id].bytes == bytes && q.index[f.id].attempt == attempt
    && q.session.chunkIndex == index
    && (if bytes < f.size then q.session.phase.InChunks? else q.session.phase.AwaitEnd?)
  }

  /** A prefix of what was to come, or all of it and then the loss of the connection. */
  ghost predicate Consumed(all: seq<Input>, consumed: seq<Input>, pending: seq<Input>) {
    if |consumed| <= |all| then consumed == all[..|consumed|] && pending == all[|consumed|..]
    else pending == [] && all <= consumed && forall k :: |all| <= k < |consumed| ==> consumed[k] == Lost
  }

  lemma ConsumeOne(all: seq<Input>, consumed: seq<Input>, pending: seq<Input>, input: Input)
    requires Consumed(all, consumed, pending)
    requires input == if pending == [] then Lost else pending[0]
    ensures Consumed(all, consumed + [input], if pending == [] then [] else pending[1..])
  {
  }

  /** The chunk the loop takes next, and what it does not take. */
  predicate Fits(input: Input, offer: Offer, f: FileMeta, bytes: nat, index: nat) {
    && input.Got? && input.frame.Chunk? && |input.frame.data| == input.frame.size
    && ChunkHeaderOk(input.frame.transferId, input.frame.fileId, input.frame.index, input.frame.offset,
                     input.frame.size,
                     offer.transferId, f.id, index, bytes, f.size - bytes)
  }

  function EndOf(input: Input, offer: Offer): LoopEnd {
    if input.Lost? then ConnectionLost
    else if input.Got? && input.frame.Cancel? && input.frame.transferId == offer.transferId then PeerCancelled
    else Violation
  }

  ghost predicate Ended(q: Receiver, f: FileMeta, content: Bytes, bytes: nat, attempt: nat, end: LoopEnd) {
    && f.id in q.disk.partials && q.disk.partials[f.id].bytes == content && f.id in q.index
    && q.index[f.id].bytes == bytes && q.index[f.id].attempt == attempt
    && !end.DataComplete? && q.session.phase.Closed? && q.index[f.id].status == HandlerStatus(end)
  }

  lemma LoopStops(q: Receiver, input: Input, offer: Offer, f: FileMeta, content: Bytes, bytes: nat, attempt: nat,
      index: nat, sha: Digest)
    requires RInv(q, sha) && bytes < f.size && Reflects(q, offer, f, content, bytes, attempt, index)
    requires !Fits(input, offer, f, bytes, index)
    ensures Ended(Receive(q, input, sha), f, content, bytes, attempt, EndOf(input, offer))
  {
    if input.Got? { assert !ChunkFits(q, input.frame); }
  }

  lemma LoopWrites(q: Receiver, input: Input, offer: Offer, f: FileMeta, content: Bytes, bytes: nat, attempt: nat,
      index: nat, sha: Digest)
    requires RInv(q, sha) && bytes < f.size && Reflects(q, offer, f, content, bytes, attempt, index)
    requires Fits(input, offer, f, bytes, index)
    ensures var n := |input.frame.data|;
            && bytes == |content| && 0 < n <= f.size - bytes
            && Overwrite(content, bytes, input.frame.data) == content + input.frame.data
            && Reflects(Receive(q, input, sha), offer, f, content + input.frame.data, bytes + n, attempt + n, index + 1)
  {
    AppendAtEnd(content, input.frame.data);
    assert ChunkFits(q, input.frame);
  }

  /** One round of the loop. */
  method TakeChunk(conn: Incoming, offer: Offer, f: FileMeta, file: PartialFile, info: TransferInfo, index: nat,
                   ghost q: Receiver, sha: Digest)
    returns (stop: Option<LoopEnd>, ghost input: Input)
    requires RInv(q, sha) && info.bytesTransferred < f.size && file.position == info.bytesTransferred
    requires Reflects(q, offer, f, file.content, info.bytesTransferred, info.bytesThisAttempt, index)
    modifies conn, file, info`bytesTransferred, info`bytesThisAttempt
    ensures input == if old(conn.incoming) == [] then Lost else old(conn.incoming)[0]
    ensures conn.incoming == if old(conn.incoming) == [] then [] else old(conn.incoming)[1..]
    ensures stop.Some? ==> file.content == old(file.content) && info.bytesTransferred == old(info.bytesTransferred)
    ensures stop.Some? ==>
              Ended(Receive(q, input, sha), f, file.content, info.bytesTransferred, info.bytesThisAttempt, stop.value)
    ensures stop.None? ==>
      && old(info.bytesTransferred) < info.bytesTransferred <= f.size && file.position == info.bytesTransferred
      && Reflects(Receive(q, input, sha), offer, f, file.content, info.bytesTransferred, info.bytesThisAttempt,
                  index + 1)
  {
    var received := conn.Receive();
    input := received;
    ghost var content, bytes, attempt := file.content, info.bytesTransferred, info.bytesThisAttempt;
    if !Fits(input, offer, f, bytes, index) {
      LoopStops(q, input, offer, f, content, bytes, attempt, index, sha);
    } else {
      LoopWrites(q, input, offer, f, content, bytes, attempt, index, sha);
    }
    if received.Lost? { return Some(ConnectionLost), input; }
    if received.Garbled? { return Some(Violation), input; }
    var frame, remaining := received.frame, f.size - info.bytesTransferred;
    if frame.Cancel? {
      return Some(if frame.transferId == offer.transferId then PeerCancelled else Violation), input;
    }
    if !frame.Chunk? || !ChunkHeaderOk(frame.transferId, frame.fileId, frame.index, frame.offset, frame.size,
                                       offer.transferId, f.id, index, info.bytesTransferred, remaining)
    {
      return Some(Violation), input;
    }
    if |frame.data| != frame.size { return Some(Violation), input; }
    file.Write(frame.data);
    info.bytesTransferred := info.bytesTransferred + |frame.data|;
    info.bytesThisAttempt := info.bytesThisAttempt + |frame.data|;
    return None, input;
  }

  /** _receive_v3_file_data up to the file_end: whatever arrives, the loop does to the file and the
      record exactly what the step machine does, and ends in the exception whose handler status the
      machine has set. */
  method ReceiveChunks(conn: Incoming, offer: Offer, f: FileMeta, file: PartialFile, info: TransferInfo,
                       ghost r: Receiver, sha: Digest)
    returns (end: LoopEnd, ghost consumed: seq<Input>)
    requires RInv(r, sha)
    requires Reflects(r, offer, f, file.content, info.bytesTransferred, info.bytesThisAttempt,
                      info.bytesTransferred / CHUNK_SIZE)
    modifies conn, file, info`bytesTransferred, info`bytesThisAttempt
    ensures Consumed(old(conn.incoming), consumed, conn.incoming)
    ensures end.DataComplete? ==>
      info.bytesTransferred == f.size
      && Reflects(Feed(r, consumed, sha), offer, f, file.content, f.size, info.bytesThisAttempt,
                  r.session.chunkIndex + |consumed|)
    ensures !end.DataComplete? ==>
      Ended(Feed(r, consumed, sha), f, file.content, info.bytesTransferred, info.bytesThisAttempt, end)
  {
    file.position := info.bytesTransferred;
    var index: nat := info.bytesTransferred / CHUNK_SIZE;
    consumed := [];
    ghost var all := conn.incoming;
    while info.bytesTransferred < f.size
      invariant Consumed(all, consumed, conn.incoming) && index == r.session.chunkIndex + |consumed|
      invariant Reflects(Feed(r, consumed, sha), offer, f, file.content, info.bytesTransferred, info.bytesThisAttempt,
                         index)
      invariant file.position == info.bytesTransferred <= f.size
      decreases f.size - info.bytesTransferred
    {
      ghost var pending := conn.incoming;
      var stop; ghost var input;
      stop, input := TakeChunk(conn, offer, f, file, info, index, Feed(r, consumed, sha), sha);
      ConsumeOne(all, consumed, pending, input);
      FeedOne(r, consumed, input, sha);
      consumed := consumed + [input];
      if stop.Some? { end := stop.value; return; }
      index := index + 1;
    }
    end := DataComplete;
  }

  // ---- the two loops together

  /** The first n chunks of a file of the offered size, as the receiver meets them. */
  ghost function Stream(transferId: string, f: FileMeta, content: Bytes, offset: nat, n: nat): (inputs: seq<Input>)
    ensures |inputs| == n
  {
    if n == 0 then []
    else Stream(transferId, f, content, offset, n - 1) + [Got(ChunkAt(transferId, f, content, offset, n - 1), true)]
  }

  lemma ChunkIsWithin(size: nat, offset: nat, k: nat, n: nat)
    requires offset <= size && k < n <= CeilDiv(size - offset, CHUNK_SIZE)
    ensures offset + k * CHUNK_SIZE < size
  {
  }

  lemma SentChunkFits(offer: Offer, f: FileMeta, content: Bytes, offset: nat, k: nat)
    requires |content| == f.size && offset + k * CHUNK_SIZE < f.size
    ensures var pos := offset + k * CHUNK_SIZE;
            && Fits(Got(ChunkAt(offer.transferId, f, content, offset, k), true), offer, f, pos, offset / CHUNK_SIZE + k)
            && content[..pos] + ReadAt(content, pos) == content[..Min(pos + CHUNK_SIZE, f.size)]
            && pos + |ReadAt(content, pos)| == Min(pos + CHUNK_SIZE, f.size)
  {
  }

  lemma SentChunkIsWritten(q: Receiver, offer: Offer, f: FileMeta, content: Bytes, offset: nat, k: nat, sha: Digest)
    requires RInv(q, sha) && |content| == f.size && offset + k * CHUNK_SIZE < f.size
    requires Reflects(q, offer, f, content[..offset + k * CHUNK_SIZE], offset + k * CHUNK_SIZE, k * CHUNK_SIZE,
                      offset / CHUNK_SIZE + k)
    ensures var pos := Min(offset + k * CHUNK_SIZE + CHUNK_SIZE, f.size);
            Reflects(Receive(q, Got(ChunkAt(offer.transferId, f, content, offset, k), true), sha),
                     offer, f, content[..pos], pos, pos - offset, offset / CHUNK_SIZE + k + 1)
  {
    var pos := offset + k * CHUNK_SIZE;
    SentChunkFits(offer, f, content, offset, k);
    var input := Got(ChunkAt(offer.transferId, f, content, offset, k), true);
    LoopWrites(q, input, offer, f, content[..pos], pos, pos - offset, offset / CHUNK_SIZE + k, sha);
  }

  /** After n sent chunks the partial is exactly the source up to the position both have reached. */
  ghost predicate InStep(q: Receiver, offer: Offer, f: FileMeta, content: Bytes, offset: nat, n: nat)
    requires |content| == f.size && offset <= f.size
  {
    var pos := Min(offset + n * CHUNK_SIZE, f.size);
    Reflects(q, offer, f, content[..pos], pos, pos - offset, offset / CHUNK_SIZE + n)
  }

  lemma OneMoreInStep(q: Receiver, offer: Offer, f: FileMeta, content: Bytes, offset: nat, n: nat, sha: Digest)
    requires RInv(q, sha) && |content| == f.size && offset <= f.size
    requires offset + n * CHUNK_SIZE < f.size && InStep(q, offer, f, content, offset, n)
    ensures InStep(Receive(q, Got(ChunkAt(offer.transferId, f, content, offset, n), true), sha), offer, f, content,
                   offset, n + 1)
  {
    assert Min(offset + n * CHUNK_SIZE, f.size) == offset + n * CHUNK_SIZE;
    SentChunkIsWritten(q, offer, f, content, offset, n, sha);
  }

  /** What the first n chunks of the file leave behind. */
  ghost predicate Arrived(r: Receiver, offer: Offer, f: FileMeta, content: Bytes, offset: nat, n: nat, sha: Digest)
    requires RInv(r, sha) && |content| == f.size && offset <= f.size
  {
    && (n == 0 || offset + (n - 1) * CHUNK_SIZE < f.size)
    && InStep(Feed(r, Stream(offer.transferId, f, content, offset, n), sha), offer, f, content, offset, n)
  }

  lemma NoneArrived(r: Receiver, offer: Offer, f: FileMeta, content: Bytes, offset: nat, sha: Digest)
    requires RInv(r, sha) && |content| == f.size && offset <= f.size && InStep(r, offer, f, content, offset, 0)
    ensures Arrived(r, offer, f, content, offset, 0, sha)
  {
    assert Feed(r, Stream(offer.transferId, f, content, offset, 0), sha) == r;
  }

  lemma OneMoreArrived(r: Receiver, offer: Offer, f: FileMeta, content: Bytes, offset: nat, n: nat, sha: Digest)
    requires RInv(r, sha) && |content| == f.size && offset <= f.size && offset + n * CHUNK_SIZE < f.size
    requires Arrived(r, offer, f, content, offset, n, sha)
    ensures Arrived(r, offer, f, content, offset, n + 1, sha)
  {
    var sent := Stream(offer.transferId, f, content, offset, n);
    FeedOne(r, sent, Got(ChunkAt(offer.transferId, f, content, offset, n), true), sha);
    OneMoreInStep(Feed(r, sent, sha), offer, f, content, offset, n, sha);
  }

  /** Chunk arithmetic: from any offset, on a chunk boundary or not, every chunk the sender's loop
      emits passes the receiver's header check, with the same index and offset on both sides. */
  lemma ChunksArriveInStep(r: Receiver, offer: Offer, f: FileMeta, content: Bytes, offset: nat,
      n: nat, sha: Digest)
    requires RInv(r, sha) && |content| == f.size && offset <= f.size && InStep(r, offer, f, content, offset, 0)
    requires n <= CeilDiv(f.size - offset, CHUNK_SIZE)
    ensures Arrived(r, offer, f, content, offset, n, sha)
  {
    NoneArrived(r, offer, f, content, offset, sha);
    var k: nat := 0;
    while k < n
      invariant k <= n && Arrived(r, offer, f, content, offset, k, sha)
    {
      ChunkIsWithin(f.size, offset, k, n);
      OneMoreArrived(r, offer, f, content, offset, k, sha);
      k := k + 1;
    }
  }
}
