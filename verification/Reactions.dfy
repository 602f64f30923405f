/** What the receiver does on each thing it can meet, errors included (core/transfer.py,
    _receive_v3_session and _receive_v3_file_data with their handlers). */
module Reactions {
  import opened Common
  import opened Lifecycle
  import opened Protocol
  import opened Naming
  import opened Resume
  import opened Receiver
  import opened ReceiverSafety

  /** The one frame the receiver is waiting for. */
  ghost predicate Awaited(r: Receiver, frame: Frame)
    requires !Idle(r) && (r.session.phase.AwaitQuery? || r.session.phase.AwaitFin?
                          || r.session.next < |r.session.offer.files|)
    requires r.session.phase.InChunks? ==> Current(r).id in r.index
  {
    var tid := r.session.offer.transferId;
    match r.session.phase
    case AwaitQuery => frame == Query(tid, r.session.offer.files)
    case AwaitStart => frame == FileStart(tid, Current(r).id)
    case InChunks =>
      && frame.Chunk? && frame.transferId == tid && frame.fileId == Current(r).id
      && frame.index == r.session.chunkIndex && frame.offset == r.index[Current(r).id].bytes
      && frame.size == |frame.data| && 0 < |frame.data| <= CHUNK_SIZE
      && frame.offset + frame.size <= Current(r).size
    case AwaitEnd => frame == FileEnd(tid, Current(r).id)
    case AwaitFin => frame == Fin(tid)
    case _ => false
  }

  /** The status a file gets when something else comes: a cancel counts only where chunks are read. */
  predicate IsCancel(r: Receiver, input: Input) {
    r.session.phase.InChunks? && input.Got? && input.frame == Cancel(r.session.offer.transferId)
  }

  /** A request made of one record: granted unless it has ended; no other record changes. */
  predicate Asked(r: Receiver, z: Receiver, id: string, target: Status)
    requires id in r.index
  {
    var was := r.index[id].status;
    && z.index.Keys == r.index.Keys
    && z.index[id] == r.index[id].(status := if IsTerminal(was) then was else target)
    && (forall other :: other in r.index && other != id ==> z.index[other] == r.index[other])
    && z.refused == if IsTerminal(was) && was != target then r.refused + [Refusal(was, target)] else r.refused
  }

  /** Nothing written, nothing answered, nothing logged. */
  predicate Untouched(r: Receiver, z: Receiver) {
    z.disk == r.disk && z.log == r.log && z.out == r.out && z.epoch == r.epoch && z.session.offer == r.session.offer
  }

  lemma AbortMeans(r: Receiver, target: Status)
    requires r.session.next < |r.session.offer.files| && Current(r).id in r.index
    requires ReceiverStatus(r.index[Current(r).id].status)
    requires target.Failed? || target.Interrupted? || target.Cancelled?
    ensures var z := Abort(r, target);
            Untouched(r, z) && z.session.phase.Closed? && Asked(r, z, Current(r).id, target)
  {
  }

  /** Anything but the awaited frame ends the session without an answer and without touching the disk.
      Between files no record changes; inside a file a lost connection makes it INTERRUPTED, a cancel
      CANCELLED, and anything else FAILED. */
  lemma WrongInputEndsSession(r: Receiver, input: Input, sha: Digest)
    requires RInv(r, sha) && !Idle(r) && !(input.Got? && Awaited(r, input.frame))
    ensures var z := Receive(r, input, sha);
            && Untouched(r, z) && z.session.phase.Closed?
            && (!InFile(r) ==> z.index == r.index && z.refused == r.refused)
            && (InFile(r) ==> Asked(r, z, Current(r).id, if IsCancel(r, input) then Cancelled
                                                         else if input.Lost? then Interrupted else Failed))
  {
    if InFile(r) {
      AbortMeans(r, if IsCancel(r, input) then Cancelled else if input.Lost? then Interrupted else Failed);
    }
  }

  /** The query is answered with what prepare decided, file by file; if the answer cannot be sent the
      session is over, but what prepare has done stays. */
  lemma QueryIsAnswered(r: Receiver, sendOk: bool, sha: Digest)
    requires RInv(r, sha) && r.session.phase.AwaitQuery?
    ensures var offer := r.session.offer;
            var z := Receive(r, Got(Query(offer.transferId, offer.files), sendOk), sha);
            && z.index == r.index && z.log == r.log && z.refused == r.refused && z.session.offer == offer
            && AllDecided(r.disk, z.disk, offer.files, PlanMap(r.disk, offer.files, sha), sha)
            && |z.session.plans| == |offer.files|
            && (forall i :: 0 <= i < |offer.files| ==>
                  FileDecided(r.disk, z.disk.partials, offer.files[i], z.session.plans[i], sha))
            && (!sendOk ==> z.session.phase.Closed? && z.out == r.out)
            && (sendOk ==>
                  && z.session.next == 0 && (if offer.files == [] then z.session.phase.AwaitFin?
                                             else z.session.phase.AwaitStart?)
                  && z.out == r.out + [ResumeState(offer.transferId,
                                                   EntriesFor(offer.files, PlanOffsets(z.session.plans)))])
  {
    var offer := r.session.offer;
    PrepareDecides(r.disk, offer.files, sha);
    forall i | 0 <= i < |offer.files|
      ensures FileDecided(r.disk, Prepared(r.disk, offer.files, sha).partials, offer.files[i],
                          PlanFor(r.disk, offer.files[i], sha), sha)
    {
      OneFileDecided(r.disk, offer.files, i, sha);
    }
  }

  predicate Ended(r: Receiver, id: string) { id in r.index && IsTerminal(r.index[id].status) }

  /** The counters of a file that starts: at its offset, with nothing yet in this attempt. */
  predicate StartsAt(info: Info, offset: nat) { info.resumeOffset == info.bytes == offset && info.attempt == 0 }

  ghost predicate StartedAs(r: Receiver, z: Receiver, f: FileMeta, plan: Plan) {
    && f.id in z.index && StartsAt(z.index[f.id], plan.offset)
    && var status := z.index[f.id].status;
       if Ended(r, f.id) then
         && status == r.index[f.id].status
         && (if plan.finalPath.Some? then z.session.phase.AwaitEnd? && z.refused == r.refused
             else z.session.phase.Closed? && Refusal(status, Active) in z.refused)
       else
         && z.refused == r.refused
         && (if plan.finalPath.Some? then
               && z.session.phase.AwaitEnd?
               && status == if f.id in r.index || plan.offset > 0 then Resuming else Active
             else
               && status.Active? && f.id in z.disk.partials && z.session.chunkIndex == plan.offset / CHUNK_SIZE
               && (if plan.offset < f.size then z.session.phase.InChunks? else z.session.phase.AwaitEnd?))
  }

  lemma LookupMeans(r: Receiver, id: string, offset: nat)
    requires id in r.index ==> ReceiverStatus(r.index[id].status)
    ensures var (x, ok) := GetOrCreate(r, id, offset);
            && ok && id in x.index && StartsAt(x.index[id], offset) && x.refused == r.refused
            && x.disk == r.disk && x.session == r.session
            && x.index[id].status == if Ended(r, id) then r.index[id].status
                                     else if id in r.index || offset > 0 then Resuming else Active
  {
  }

  /** The known record has ended, or is ACTIVE or RESUMING. */
  lemma RequestActive(known: Receiver, id: string)
    requires id in known.index
    requires var status := known.index[id].status; IsTerminal(status) || status.Active? || status.Resuming?
    ensures var z, was := Request(known, id, Active), known.index[id];
            && z.disk == known.disk && z.session == known.session
            && (if IsTerminal(was.status) then
                  z.index == known.index && z.refused == known.refused + [Refusal(was.status, Active)]
                else z.index == known.index[id := was.(status := Active)] && z.refused == known.refused)
            && (Judge(was.status, Active).Refused? <==> IsTerminal(was.status))
  {
  }

  lemma StartMeans(r: Receiver, sha: Digest)
    requires RInv(r, sha) && r.session.phase.AwaitStart?
    ensures StartedAs(r, OnStart(r, FileStart(r.session.offer.transferId, Current(r).id)), Current(r),
                      r.session.plans[r.session.next])
  {
    var f, plan := Current(r), r.session.plans[r.session.next];
    LookupMeans(r, f.id, plan.offset);
    var known := GetOrCreate(r, f.id, plan.offset).0;
    if plan.finalPath.None? {
      RequestActive(known, f.id);
      var active := Request(known, f.id, Active);
      if Ended(r, f.id) { AbortMeans(active, Failed); }
    }
  }

  /** file_start answers nothing and writes nothing but an empty partial; the record starts at the
      negotiated offset, RESUMING or ACTIVE as it must be, and an ended record that would have to be
      received again ends the session. */
  lemma StartIsTaken(r: Receiver, sendOk: bool, sha: Digest)
    requires RInv(r, sha) && r.session.phase.AwaitStart?
    ensures var f, plan := Current(r), r.session.plans[r.session.next];
            var z := Receive(r, Got(FileStart(r.session.offer.transferId, f.id), sendOk), sha);
            && z.out == r.out && z.log == r.log && z.session.next == r.session.next
            && z.disk == r.disk.(partials := z.disk.partials)
            && (z.disk.partials == r.disk.partials
                || (f.id !in r.disk.partials && z.disk.partials == r.disk.partials[f.id := Partial([], f, 0)]))
            && (forall id :: id in r.index && id != f.id ==> id in z.index && z.index[id] == r.index[id])
            && z.index.Keys == r.index.Keys + {f.id}
            && StartedAs(r, z, f, plan)
  {
    StartMeans(r, sha);
    StartLeaves(r, FileStart(r.session.offer.transferId, Current(r).id));
  }

  lemma StartLeaves(r: Receiver, frame: Frame)
    requires r.session.next < |r.session.offer.files| && r.session.next < |r.session.plans|
    requires frame == FileStart(r.session.offer.transferId, Current(r).id)
    ensures var f, z := Current(r), OnStart(r, frame);
            && z.out == r.out && z.log == r.log && z.session.next == r.session.next
            && z.disk == r.disk.(partials := z.disk.partials)
            && (z.disk.partials == r.disk.partials
                || (f.id !in r.disk.partials && z.disk.partials == r.disk.partials[f.id := Partial([], f, 0)]))
            && (forall id :: id in r.index && id != f.id ==> id in z.index && z.index[id] == r.index[id])
            && z.index.Keys == r.index.Keys + {f.id}
  {
    var f, plan := Current(r), r.session.plans[r.session.next];
    LookupLeaves(r, f.id, plan.offset);
    var known := GetOrCreate(r, f.id, plan.offset).0;
    RequestLeaves(known, f.id, Active);
    RequestLeaves(Request(known, f.id, Active), f.id, Failed);
  }

  /** The awaited chunk is appended to the partial and counted, and nothing else changes. */
  lemma ChunkIsAppended(r: Receiver, frame: Frame, sendOk: bool, sha: Digest)
    requires RInv(r, sha) && r.session.phase.InChunks? && Awaited(r, frame)
    ensures var f, z := Current(r), Receive(r, Got(frame, sendOk), sha);
            var partial, info := r.disk.partials[f.id], r.index[f.id];
            var n := |frame.data|;
            && z.disk == r.disk.(partials := r.disk.partials[f.id :=
                 Partial(partial.bytes + frame.data, partial.under, partial.counted + n)])
            && z.index == r.index[f.id := info.(bytes := info.bytes + n, attempt := info.attempt + n)]
            && z.out == r.out && z.log == r.log && z.refused == r.refused
            && z.session.next == r.session.next && z.session.chunkIndex == r.session.chunkIndex + 1
            && (if info.bytes + n < f.size then z.session.phase.InChunks? else z.session.phase.AwaitEnd?)
  {
    AppendAtEnd(r.disk.partials[Current(r).id].bytes, frame.data);
  }

  /** file_end over bytes with another digest: the sender is told no and the file is FAILED, or, if it
      cannot be told, INTERRUPTED; either way nothing is committed and the session is over. */
  lemma FailedVerification(r: Receiver, sendOk: bool, sha: Digest)
    requires RInv(r, sha) && r.session.phase.AwaitEnd? && r.session.plans[r.session.next].finalPath.None?
    requires sha(r.disk.partials[Current(r).id].bytes) != Current(r).sha256
    ensures var f, tid := Current(r), r.session.offer.transferId;
            var z := Receive(r, Got(FileEnd(tid, f.id), sendOk), sha);
            && z.disk == r.disk && z.log == r.log && z.session.phase.Closed? && z.refused == r.refused
            && z.out == (if sendOk then r.out + [FileResult(tid, f.id, false)] else r.out)
            && Asked(r, z, f.id, if sendOk then Failed else Interrupted)
            && z.index[f.id].status == if sendOk then Failed else Interrupted
  {
    var f, tid := Current(r), r.session.offer.transferId;
    AbortMeans(r, Interrupted);
    AbortMeans(r.(out := r.out + [FileResult(tid, f.id, false)]), Failed);
  }

  /** The file is answered for: COMPLETE with all its bytes, the sender told so and the session one file
      further, or, if it cannot be told, the session over with the record still COMPLETE. */
  predicate AnsweredFor(r: Receiver, z: Receiver, f: FileMeta, path: string, sendOk: bool) {
    var s := r.session;
    && f.id in z.index && z.index[f.id].status.Complete? && z.index[f.id].bytes == f.size
    && z.index[f.id].finalPath == Some(path)
    && (forall id :: id in r.index && id != f.id ==> id in z.index && z.index[id] == r.index[id])
    && z.index.Keys == r.index.Keys
    && (if sendOk then
          && z.out == r.out + [FileResult(s.offer.transferId, f.id, true)] && z.refused == r.refused
          && z.session.next == s.next + 1
          && (if s.next + 1 < |s.offer.files| then z.session.phase.AwaitStart? else z.session.phase.AwaitFin?)
        else
          z.out == r.out && z.session.phase.Closed? && z.refused == r.refused + [Refusal(Complete, Interrupted)])
  }

  lemma RequestComplete(r: Receiver, id: string)
    requires id in r.index && ReceiverStatus(r.index[id].status) && !r.index[id].status.Interrupted?
    ensures var z, was := Request(r, id, Complete), r.index[id];
            && z.disk == r.disk && z.session == r.session && z.log == r.log && z.out == r.out && z.epoch == r.epoch
            && (if IsTerminal(was.status) && !was.status.Complete? then
                  z.index == r.index && z.refused == r.refused + [Refusal(was.status, Complete)]
                else z.index == r.index[id := was.(status := Complete)] && z.refused == r.refused)
            && (Judge(was.status, Complete).Refused? <==> IsTerminal(was.status) && !was.status.Complete?)
  {
  }

  lemma ConcludeMeans(r: Receiver, path: string, sendOk: bool)
    requires r.session.next < |r.session.offer.files| && Current(r).id in r.index
    requires ReceiverStatus(r.index[Current(r).id].status) && !r.index[Current(r).id].status.Interrupted?
    ensures var z, was := Conclude(r, path, sendOk), r.index[Current(r).id].status;
            && z.disk == r.disk && z.log == r.log && z.epoch == r.epoch && z.session.offer == r.session.offer
            && (if IsTerminal(was) && !was.Complete?
                then z.out == r.out && z.session.phase.Closed? && z.index[Current(r).id].status == was
                else AnsweredFor(r, z, Current(r), path, sendOk))
  {
    var f := Current(r);
    var counted := r.(index := r.index[f.id := r.index[f.id].(bytes := f.size, finalPath := Some(path))]);
    RequestComplete(counted, f.id);
    AbortMeans(Request(counted, f.id, Complete), Failed);
    AbortMeans(Request(counted, f.id, Complete), Interrupted);
  }

  /** file_end over the right bytes: they appear under the free name, the partial goes, the record of the
      store gets the path, one commit is logged, and the file is answered for. */
  lemma VerifiedIsCommitted(r: Receiver, sendOk: bool, sha: Digest)
    requires RInv(r, sha) && r.session.phase.AwaitEnd? && r.session.plans[r.session.next].finalPath.None?
    requires sha(r.disk.partials[Current(r).id].bytes) == Current(r).sha256
    ensures var f := Current(r);
            var z := Receive(r, Got(FileEnd(r.session.offer.transferId, f.id), sendOk), sha);
            var path, bytes := FreeName(r.disk.received.Keys, f.name), r.disk.partials[f.id].bytes;
            && z.disk.received == r.disk.received[path := bytes] && path !in r.disk.received
            && z.disk.partials == r.disk.partials - {f.id}
            && z.disk.metadata == r.disk.metadata[f.id := r.disk.metadata[f.id].(finalPath := Some(path))]
            && |z.log| == |r.log| + 1 && r.log <= z.log
            && z.log[|r.log|] == Held(r.epoch, f, path, bytes, r.disk.partials[f.id].counted, true)
            && AnsweredFor(r, z, f, path, sendOk)
  {
    var f, path, partial := Current(r), FreeName(r.disk.received.Keys, Current(r).name), r.disk.partials[Current(r).id];
    var held := Held(r.epoch, f, path, partial.bytes, partial.counted, true);
    ConcludeMeans(r.(disk := Committed(r.disk, f), log := r.log + [held]), path, sendOk);
  }

  /** file_end for a file that was finished before: nothing is written; it is answered for, unless its
      record had ended otherwise. */
  lemma FinishedBeforeIsAnswered(r: Receiver, sendOk: bool, sha: Digest)
    requires RInv(r, sha) && r.session.phase.AwaitEnd? && r.session.plans[r.session.next].finalPath.Some?
    ensures var f, path, s := Current(r), r.session.plans[r.session.next].finalPath.value, r.session;
            var z, was := Receive(r, Got(FileEnd(s.offer.transferId, f.id), sendOk), sha), r.index[f.id].status;
            && z.disk == r.disk
            && (if IsTerminal(was) && !was.Complete?
                then z.out == r.out && z.session.phase.Closed? && z.index[f.id].status == was && z.log == r.log
                else
                  && AnsweredFor(r, z, f, path, sendOk)
                  && z.log == if sendOk then r.log + [Held(r.epoch, f, path, s.verified[s.next], 0, false)] else r.log)
  {
    ConcludeMeans(r, r.session.plans[r.session.next].finalPath.value, sendOk);
  }

  /** fin is answered by session_complete, and only then is the partial directory removed; no record and no
      received file changes. */
  lemma FinIsAnswered(r: Receiver, sendOk: bool, sha: Digest)
    requires RInv(r, sha) && r.session.phase.AwaitFin?
    ensures var tid := r.session.offer.transferId;
            var z := Receive(r, Got(Fin(tid), sendOk), sha);
            && z.index == r.index && z.log == r.log && z.refused == r.refused
            && (if sendOk then
                  && z.session.phase.Finished? && z.out == r.out + [SessionComplete(tid)]
                  && z.disk == Disk(map[], map[], r.disk.received)
                else z.session.phase.Closed? && z.out == r.out && z.disk == r.disk)
  {
  }

  /** A connection that is closed or finished reads nothing more. */
  lemma IdleReadsNothing(r: Receiver, input: Input, sha: Digest)
    requires RInv(r, sha) && Idle(r)
    ensures Receive(r, input, sha) == r
  {
  }
}
