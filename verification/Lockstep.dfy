/** The two loops are dual: the receiver, once it has caught up with the channel, is always exactly
    where the sender is (core/transfer.py, _send_v3_payload and _receive_v3_session). */
module Lockstep {
  import opened Common
  import opened Lifecycle
  import opened Protocol
  import opened Naming
  import opened Resume
  import opened Receiver
  import opened ReceiverSafety
  import opened System
  import opened Fidelity

  // ---- the receiver caught up with the channel

  ghost function Drain(r: Receiver, ch: seq<Frame>, sha: Digest): (q: Receiver)
    requires RInv(r, sha)
    ensures RInv(q, sha)
    decreases |ch|
  {
    if ch == [] then r
    else
      ReceiveKeepsInv(r, Got(ch[0], true), sha);
      Drain(Receive(r, Got(ch[0], true), sha), ch[1..], sha)
  }

  lemma {:induction false} DrainAppend(r: Receiver, ch: seq<Frame>, frame: Frame, sha: Digest)
    requires RInv(r, sha)
    ensures Drain(r, ch + [frame], sha) == Receive(Drain(r, ch, sha), Got(frame, true), sha)
    decreases |ch|
  {
    if ch == [] {
      assert (ch + [frame])[1..] == [];
    } else {
      ReceiveKeepsInv(r, Got(ch[0], true), sha);
      assert (ch + [frame])[1..] == ch[1..] + [frame];
      DrainAppend(Receive(r, Got(ch[0], true), sha), ch[1..], frame, sha);
    }
  }

  lemma {:induction false} DrainStaysTrue(r: Receiver, ch: seq<Frame>, offer: Offer, source: Source, sha: Digest)
    requires RInv(r, sha) && ReceiverTrue(r, offer.files, source) && Hashed(source, offer.files, sha)
    requires r.session.offer == offer && forall k :: 0 <= k < |ch| ==> FrameTrue(ch[k], offer.files, source)
    ensures ReceiverTrue(Drain(r, ch, sha), offer.files, source) && Drain(r, ch, sha).session.offer == offer
    decreases |ch|
  {
    if ch != [] {
      ReceiveKeepsInv(r, Got(ch[0], true), sha);
      ReceiveGrowsLog(r, Got(ch[0], true), sha);
      TakeStaysTrue(r, Got(ch[0], true), offer, source, sha);
      DrainStaysTrue(Receive(r, Got(ch[0], true), sha), ch[1..], offer, source, sha);
    }
  }

  lemma {:induction false} ClosedStaysClosed(r: Receiver, ch: seq<Frame>, sha: Digest)
    requires RInv(r, sha) && Idle(r)
    ensures Drain(r, ch, sha) == r
    decreases |ch|
  {
    if ch != [] { ClosedStaysClosed(r, ch[1..], sha); }
  }


  function Popped(r: Receiver): Receiver
    requires r.out != []
  {
    r.(out := r.out[1..])
  }

  /** `q` is a state reached from `r`, and `q'` the one reached from `r` with its first reply read. */
  ghost predicate PopCommutes(r: Receiver, q: Receiver, q': Receiver) {
    r.out != [] && r.out <= q.out && q' == Popped(q)
  }

  lemma ConcludePops(r: Receiver, path: string)
    requires r.session.next < |r.session.offer.files| && Current(r).id in r.index && r.out != []
    ensures PopCommutes(r, Conclude(r, path, true), Conclude(Popped(r), path, true))
  {
  }

  lemma EndPops(r: Receiver, frame: Frame, sha: Digest)
    requires AtEnd(r) && r.out != []
    ensures PopCommutes(r, OnEnd(r, frame, true, sha), OnEnd(Popped(r), frame, true, sha))
  {
    var f, s := Current(r), r.session;
    if frame == FileEnd(s.offer.transferId, f.id) {
      if s.plans[s.next].finalPath.Some? {
        ConcludePops(r, s.plans[s.next].finalPath.value);
      } else if sha(r.disk.partials[f.id].bytes) == f.sha256 {
        var path, partial := FreeName(r.disk.received.Keys, f.name), r.disk.partials[f.id];
        var held := Held(r.epoch, f, path, partial.bytes, partial.counted, true);
        ConcludePops(r.(disk := Committed(r.disk, f), log := r.log + [held]), path);
      }
    }
  }

  /** Neither looking a record up nor a request on it touches the reply queue. */
  lemma RecordsPop(r: Receiver, id: string, offset: nat, target: Status)
    requires r.out != []
    ensures GetOrCreate(r, id, offset).0.out == r.out
    ensures GetOrCreate(Popped(r), id, offset) == (Popped(GetOrCreate(r, id, offset).0), GetOrCreate(r, id, offset).1)
    ensures id in r.index ==>
              Request(r, id, target).out == r.out && Request(Popped(r), id, target) == Popped(Request(r, id, target))
  {
  }

  /** The second half of file_start, once the record is there. */
  lemma OpeningPops(known: Receiver, f: FileMeta, plan: Plan)
    requires known.session.next < |known.session.offer.files| && Current(known) == f
    requires f.id in known.index && known.out != []
    ensures var active := Request(known, f.id, Active);
            && active.out == known.out && Request(Popped(known), f.id, Active) == Popped(active)
            && Abort(active, Failed).out == known.out && Abort(Popped(active), Failed) == Popped(Abort(active, Failed))
  {
    RecordsPop(known, f.id, plan.offset, Active);
    RecordsPop(Request(known, f.id, Active), f.id, plan.offset, Failed);
  }

  lemma StartPops(r: Receiver, frame: Frame)
    requires r.session.next < |r.session.offer.files| && r.session.next < |r.session.plans| && r.out != []
    ensures PopCommutes(r, OnStart(r, frame), OnStart(Popped(r), frame))
  {
    var f, plan := Current(r), r.session.plans[r.session.next];
    RecordsPop(r, f.id, plan.offset, Active);
    var known := GetOrCreate(r, f.id, plan.offset).0;
    if frame == FileStart(r.session.offer.transferId, f.id) && f.id in known.index {
      OpeningPops(known, f, plan);
    }
  }

  lemma QueryPops(r: Receiver, frame: Frame, sha: Digest)
    requires r.out != []
    ensures PopCommutes(r, OnQuery(r, frame, true, sha), OnQuery(Popped(r), frame, true, sha))
  {
  }

  lemma ChunkPops(r: Receiver, frame: Frame)
    requires r.session.next < |r.session.offer.files| && r.out != []
    requires Current(r).id in r.index && Current(r).id in r.disk.partials
    ensures PopCommutes(r, OnChunk(r, frame), OnChunk(Popped(r), frame))
  {
  }

  lemma PoppedInv(r: Receiver, sha: Digest)
    requires RInv(r, sha) && r.out != []
    ensures RInv(Popped(r), sha)
  {
    forall k | 0 <= k < |Popped(r).out| ensures ReplyOk(Popped(r).out[k], r.session.offer.files, r.log) {
      assert ReplyOk(r.out[k + 1], r.session.offer.files, r.log);
    }
  }

  lemma ReceivePops(r: Receiver, frame: Frame, sha: Digest)
    requires r.out != [] && RInv(r, sha) && RInv(Popped(r), sha)
    ensures PopCommutes(r, Receive(r, Got(frame, true), sha), Receive(Popped(r), Got(frame, true), sha))
  {
    match r.session.phase
    case Closed =>
    case Finished =>
    case AwaitFin =>
    case AwaitQuery => QueryPops(r, frame, sha);
    case AwaitStart => StartPops(r, frame);
    case InChunks => ChunkPops(r, frame);
    case AwaitEnd => EndPops(r, frame, sha);
  }

  lemma {:induction false} DrainPops(r: Receiver, ch: seq<Frame>, sha: Digest)
    requires r.out != [] && RInv(r, sha) && RInv(Popped(r), sha)
    ensures PopCommutes(r, Drain(r, ch, sha), Drain(Popped(r), ch, sha))
    decreases |ch|
  {
    if ch != [] {
      var r' := Receive(r, Got(ch[0], true), sha);
      ReceiveKeepsInv(r, Got(ch[0], true), sha);
      ReceiveKeepsInv(Popped(r), Got(ch[0], true), sha);
      ReceivePops(r, ch[0], sha);
      DrainPops(r', ch[1..], sha);
    }
  }

  // ---- the mirror

  ghost predicate SameOffsets(s: Sender, q: Receiver, files: seq<FileMeta>)
    requires |q.session.plans| == |files|
  {
    forall i :: 0 <= i < |files| ==> files[i].id in s.offsets && s.offsets[files[i].id] == q.session.plans[i].offset
  }

  predicate AtFile(q: Receiver, next: nat, n: nat) {
    q.session.next == next && next <= n && (if next < n then q.session.phase.AwaitStart? else q.session.phase.AwaitFin?)
  }

  /** Where the receiver stands once it has read everything the sender has sent. */
  ghost predicate Mirror(s: Sender, q: Receiver, offer: Offer) {
    var files, n, tid := offer.files, |offer.files|, offer.transferId;
    && q.session.offer == offer
    && (s.phase.SendQuery? || |q.session.plans| == n)
    && match s.phase
       case SendQuery => q.session.phase.AwaitQuery? && q.out == []
       case AwaitState =>
         AtFile(q, 0, n) && q.out == [ResumeState(tid, EntriesFor(files, PlanOffsets(q.session.plans)))]
       case SendStart => AtFile(q, s.next, n) && q.out == [] && SameOffsets(s, q, files)
       case InFile =>
         && q.session.next == s.next < n && q.out == [] && SameOffsets(s, q, files)
         && files[s.next].id in q.index && q.index[files[s.next].id].bytes == s.bytes
         && (if s.bytes < files[s.next].size then q.session.phase.InChunks? && q.session.chunkIndex == s.index
             else q.session.phase.AwaitEnd?)
       case AwaitResult =>
         && s.next < n && AtFile(q, s.next + 1, n) && SameOffsets(s, q, files)
         && q.out == [FileResult(tid, files[s.next].id, true)]
       case AwaitComplete => q.session.phase.Finished? && q.out == [SessionComplete(tid)]
       case _ => false
  }

  /** One send of the sender, read at once by a receiver that has caught up, keeps the mirror. */
  lemma MirrorQuery(s: Sender, q: Receiver, offer: Offer, source: Source, sha: Digest)
    requires s.phase.SendQuery? && Mirror(s, q, offer) && Ready(q, offer.files) && RInv(q, sha)
    requires ReceiverTrue(q, offer.files, source) && Hashed(source, offer.files, sha)
    ensures var (s', frames) := SenderFrame(s, offer, []);
            var q' := Receive(q, Got(frames[0], true), sha);
            Mirror(s', q', offer) && Ready(q', offer.files)
  {
    var files := offer.files;
    var q' := OnQuery(q, Query(offer.transferId, files), true, sha);
    assert q'.session.plans == Plans(q.disk, files, sha);
    var offsets := seq(|q'.session.plans|, i requires 0 <= i < |q'.session.plans| => q'.session.plans[i].offset);
    assert offsets == PlanOffsets(q'.session.plans);
    forall i | 0 <= i < |files| ensures ReadyFor(q', files[i]) {
      assert ReadyFor(q, files[i]) && FinalTrue(q.disk, files[i], source);
      PreparedAt(q.disk, files, sha, i);
    }
  }

  /** file_start ends no record that was not ended before, and touches no metadata. */
  lemma StartStaysReadyFor(q: Receiver, frame: Frame, f: FileMeta, sha: Digest)
    requires RInv(q, sha) && q.session.phase.AwaitStart? && ReadyFor(q, f) && ReadyFor(q, Current(q))
    ensures ReadyFor(OnStart(q, frame), f)
  {
    GetOrCreateKeepsCore(q, Current(q).id, q.session.plans[q.session.next].offset, sha);
  }

  lemma StartStaysReady(q: Receiver, frame: Frame, sha: Digest)
    requires RInv(q, sha) && q.session.phase.AwaitStart? && Ready(q, q.session.offer.files)
    ensures Ready(OnStart(q, frame), q.session.offer.files)
  {
    var files := q.session.offer.files;
    assert ReadyFor(q, files[q.session.next]);
    forall i | 0 <= i < |files| ensures ReadyFor(OnStart(q, frame), files[i]) {
      assert ReadyFor(q, files[i]);
      StartStaysReadyFor(q, frame, files[i], sha);
    }
  }

  /** A ready file is opened where its plan says, and nothing is answered yet. */
  lemma StartReaches(q: Receiver, sha: Digest)
    requires RInv(q, sha) && q.session.phase.AwaitStart? && ReadyFor(q, Current(q))
    ensures var f, plan := Current(q), q.session.plans[q.session.next];
            var q' := OnStart(q, FileStart(q.session.offer.transferId, f.id));
            && q'.out == q.out && q'.session.offer == q.session.offer
            && q'.session.plans == q.session.plans && q'.session.next == q.session.next
            && f.id in q'.index && q'.index[f.id].bytes == plan.offset
            && (if plan.offset < f.size
                then q'.session.phase.InChunks? && q'.session.chunkIndex == plan.offset / CHUNK_SIZE
                else q'.session.phase.AwaitEnd?)
  {
    GetOrCreateKeepsCore(q, Current(q).id, q.session.plans[q.session.next].offset, sha);
  }

  lemma MirrorStart(s: Sender, q: Receiver, offer: Offer, source: Source, sha: Digest)
    requires s.phase.SendStart? && s.next < |offer.files| && Mirror(s, q, offer) && Ready(q, offer.files)
    requires RInv(q, sha)
    ensures var (s', frames) := SenderFrame(s, offer, []);
            var q' := Receive(q, Got(frames[0], true), sha);
            Mirror(s', q', offer) && Ready(q', offer.files)
  {
    assert ReadyFor(q, offer.files[s.next]);
    StartReaches(q, sha);
    StartStaysReady(q, FileStart(offer.transferId, offer.files[s.next].id), sha);
  }

  lemma MirrorChunk(s: Sender, q: Receiver, offer: Offer, raw: Bytes, sha: Digest)
    requires s.phase.InFile? && Mirror(s, q, offer) && Ready(q, offer.files) && RInv(q, sha)
    requires s.bytes < offer.files[s.next].size && 0 < |raw| <= CHUNK_SIZE
    requires |raw| <= offer.files[s.next].size - s.bytes
    ensures var (s', frames) := SenderFrame(s, offer, raw);
            var q' := Receive(q, Got(frames[0], true), sha);
            Mirror(s', q', offer) && Ready(q', offer.files)
  {
    var files, f := offer.files, offer.files[s.next];
    var frame := Chunk(offer.transferId, f.id, s.index, s.bytes, |raw|, raw);
    assert ChunkFits(q, frame);
    var q' := Write(q, raw);
    forall i | 0 <= i < |files| ensures ReadyFor(q', files[i]) {
      assert ReadyFor(q, files[i]);
    }
  }

  /** A positive answer for the current file: its record COMPLETE, the next file awaited. */
  ghost predicate AnsweredOk(q: Receiver, q': Receiver) {
    && q.session.next < |q.session.offer.files|
    && var f, s := Current(q), q.session;
    && q'.index.Keys == q.index.Keys && f.id in q.index && q'.index[f.id].status.Complete?
    && (forall id :: id in q.index && id != f.id ==> q'.index[id] == q.index[id])
    && q'.out == q.out + [FileResult(s.offer.transferId, f.id, true)]
    && q'.session == s.(next := s.next + 1, phase := if s.next + 1 < |s.offer.files| then AwaitStart else AwaitFin)
  }

  lemma ConcludeAnswers(x: Receiver, path: string)
    requires x.session.next < |x.session.offer.files| && Current(x).id in x.index
    requires !Judge(x.index[Current(x).id].status, Complete).Refused?
    ensures AnsweredOk(x, Conclude(x, path, true)) && Conclude(x, path, true).disk == x.disk
  {
  }

  lemma EndAnswers(q: Receiver, offer: Offer, source: Source, sha: Digest)
    requires RInv(q, sha) && q.session.phase.AwaitEnd? && q.session.offer == offer && ReadyFor(q, Current(q))
    requires ReceiverTrue(q, offer.files, source) && Hashed(source, offer.files, sha)
    ensures var q' := OnEnd(q, FileEnd(offer.transferId, Current(q).id), true, sha);
            && AnsweredOk(q, q')
            && q'.disk
               == if q.session.plans[q.session.next].finalPath.Some? then q.disk else Committed(q.disk, Current(q))
  {
    var f, s := Current(q), q.session;
    if s.plans[s.next].finalPath.Some? {
      ConcludeAnswers(q, s.plans[s.next].finalPath.value);
    } else {
      CommitStaysTrue(q, source, sha);
      var partial := q.disk.partials[f.id];
      var path := FreeName(q.disk.received.Keys, f.name);
      var held := Held(q.epoch, f, path, partial.bytes, partial.counted, true);
      ConcludeAnswers(q.(disk := Committed(q.disk, f), log := q.log + [held]), path);
    }
  }

  lemma MirrorEnd(s: Sender, q: Receiver, offer: Offer, source: Source, sha: Digest)
    requires s.phase.InFile? && Mirror(s, q, offer) && Ready(q, offer.files) && RInv(q, sha)
    requires s.bytes >= offer.files[s.next].size
    requires ReceiverTrue(q, offer.files, source) && Hashed(source, offer.files, sha)
    ensures var (s', frames) := SenderFrame(s, offer, []);
            var q' := Receive(q, Got(frames[0], true), sha);
            Mirror(s', q', offer) && Ready(q', offer.files)
  {
    var files, f := offer.files, offer.files[s.next];
    assert ReadyFor(q, f);
    EndAnswers(q, offer, source, sha);
    var q' := OnEnd(q, FileEnd(offer.transferId, f.id), true, sha);
    forall i | 0 <= i < |files| ensures ReadyFor(q', files[i]) {
      assert ReadyFor(q, files[i]);
      if files[i].id == f.id { assert i == s.next; }
    }
  }
}
