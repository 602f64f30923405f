/** What the receiver keeps over every run, whatever its peers send (core/transfer.py, FileServer). */
module ReceiverSafety {
  import opened Common
  import opened Lifecycle
  import opened Protocol
  import opened Naming
  import opened Resume
  import opened Receiver

  /** The invariant without the part about the live session. */
  ghost predicate Core(r: Receiver, sha: Digest) {
    && Consistent(r.disk) && PartialsOk(r.disk.partials) && IndexOk(r.index)
    && LogOk(r.log, r.index, r.epoch, sha) && CommittedOnce(r.log) && RefusalsTerminal(r.refused)
    && OutOk(r.out, r.session.offer.files, r.log) && UniqueIds(r.session.offer.files)
  }

  lemma RequestKeepsCore(r: Receiver, id: string, target: Status, sha: Digest)
    requires Core(r, sha) && id in r.index
    requires ReceiverStatus(target) && (target.Complete? ==> !r.index[id].status.Interrupted?)
    requires target.Active? ==> !r.index[id].status.Interrupted?
    ensures Core(Request(r, id, target), sha)
    ensures Judge(r.index[id].status, target).Refused? ==> IsTerminal(r.index[id].status)
  {
    var r' := Request(r, id, target);
    forall k | 0 <= k < |r'.log| ensures EntryOk(r'.log[k], r'.index, r'.epoch, sha) {
      assert EntryOk(r.log[k], r.index, r.epoch, sha);
    }
  }

  /** Looking a record up makes sure there is one, and leaves everything but the index alone. */
  lemma LookupLeaves(a: Receiver, id: string, offset: nat)
    ensures var (x, ok) := GetOrCreate(a, id, offset);
            && id in x.index && x == a.(index := x.index, refused := x.refused)
            && x.index.Keys == a.index.Keys + {id} && forall k :: k in a.index && k != id ==> x.index[k] == a.index[k]
  {
  }

  lemma RequestLeaves(r: Receiver, id: string, target: Status)
    requires id in r.index
    ensures var z := Request(r, id, target);
            && z == r.(index := z.index, refused := z.refused) && z.index.Keys == r.index.Keys
            && forall k :: k in r.index && k != id ==> z.index[k] == r.index[k]
  {
  }

  lemma AbortKeepsInv(r: Receiver, target: Status, sha: Digest)
    requires Core(r, sha) && r.session.next < |r.session.offer.files| && Current(r).id in r.index
    requires target.Failed? || target.Interrupted? || target.Cancelled?
    ensures RInv(Abort(r, target), sha)
  {
    RequestKeepsCore(r, Current(r).id, target, sha);
  }

  /** Work on one file leaves the plans of the files after it as they were. */
  lemma AheadSurvives(d: Disk, d': Disk, s: Session, id: string, from: nat, sha: Digest)
    requires |s.plans| == |s.verified| == |s.offer.files|
    requires AllAhead(d, s, from, sha) && forall i :: from <= i < |s.offer.files| ==> s.offer.files[i].id != id
    requires d.metadata.Keys <= d'.metadata.Keys
    requires forall x :: x in d.metadata && x != id ==> d'.metadata[x] == d.metadata[x]
    requires forall x :: x != id ==> (x in d.partials <==> x in d'.partials)
    requires forall x :: x in d.partials && x != id ==> d'.partials[x] == d.partials[x]
    ensures AllAhead(d', s, from, sha)
  {
    forall i | from <= i < |s.offer.files| ensures Ahead(d', s.offer.files[i], s.plans[i], s.verified[i], sha) {
      assert Ahead(d, s.offer.files[i], s.plans[i], s.verified[i], sha);
    }
  }

  /** The log only asks whether a committed file's record is terminal. */
  lemma LogSurvives(r: Receiver, index: map<string, Info>, sha: Digest)
    requires LogOk(r.log, r.index, r.epoch, sha)
    requires forall id :: id in r.index && IsTerminal(r.index[id].status) ==>
              id in index && IsTerminal(index[id].status)
    ensures LogOk(r.log, index, r.epoch, sha)
  {
    forall k | 0 <= k < |r.log| ensures EntryOk(r.log[k], index, r.epoch, sha) {
      assert EntryOk(r.log[k], r.index, r.epoch, sha);
    }
  }

  /** After prepare every planned file is described by what is on disk. */
  lemma PreparedIsAhead(d: Disk, files: seq<FileMeta>, i: nat, sha: Digest)
    requires Consistent(d) && UniqueIds(files) && i < |files|
    ensures Ahead(Prepared(d, files, sha), files[i], Plans(d, files, sha)[i], FinalContents(d, files, sha)[i], sha)
  {
    PlansAreSafe(d, files, sha, i);
    PreparedAt(d, files, sha, i);
  }

  lemma PreparedPartialsOk(d: Disk, files: seq<FileMeta>, sha: Digest)
    requires PartialsOk(d.partials)
    ensures PartialsOk(Prepared(d, files, sha).partials)
  {
  }

  lemma QueryKeepsInv(r: Receiver, frame: Frame, sendOk: bool, sha: Digest)
    requires RInv(r, sha) && r.session.phase.AwaitQuery?
    ensures RInv(OnQuery(r, frame, sendOk, sha), sha)
  {
    var r', offer := OnQuery(r, frame, sendOk, sha), r.session.offer;
    if frame == Query(offer.transferId, offer.files) {
      PrepareIsCrashSafe(r.disk, offer.files, sha);
      PreparedPartialsOk(r.disk, offer.files, sha);
      forall i | 0 <= i < |offer.files|
        ensures Ahead(r'.disk, offer.files[i], r'.session.plans[i], r'.session.verified[i], sha)
      {
        PreparedIsAhead(r.disk, offer.files, i, sha);
      }
    }
  }

  lemma GetOrCreateKeepsCore(r: Receiver, id: string, offset: nat, sha: Digest)
    requires Core(r, sha)
    ensures var (r', ok) := GetOrCreate(r, id, offset);
            && Core(r', sha) && ok && id in r'.index && r'.index[id].bytes == offset
            && r' == r.(index := r'.index) && !r'.index[id].status.Interrupted?
  {
    var (r', ok) := GetOrCreate(r, id, offset);
    LogSurvives(r, r'.index, sha);
  }

  lemma StartKeepsInv(r: Receiver, frame: Frame, sha: Digest)
    requires RInv(r, sha) && r.session.phase.AwaitStart?
    ensures RInv(OnStart(r, frame), sha)
  {
    var f, plan, s := Current(r), r.session.plans[r.session.next], r.session;
    if frame == FileStart(s.offer.transferId, f.id) {
      GetOrCreateKeepsCore(r, f.id, plan.offset, sha);
      var (known, _) := GetOrCreate(r, f.id, plan.offset);
      if plan.finalPath.None? {
        RequestKeepsCore(known, f.id, Active, sha);
        var active := Request(known, f.id, Active);
        if Judge(known.index[f.id].status, Active).Refused? {
          AbortKeepsInv(active, Failed, sha);
        } else {
          OpenedKeepsInv(r, active, sha);
        }
      }
    }
  }

  /** The partial is open and the record is ACTIVE at the planned offset. */
  lemma OpenedKeepsInv(r: Receiver, active: Receiver, sha: Digest)
    requires RInv(r, sha) && r.session.phase.AwaitStart? && r.session.plans[r.session.next].finalPath.None?
    requires Core(active, sha) && active == r.(index := active.index) && Current(r).id in active.index
    requires active.index[Current(r).id].status.Active?
    requires active.index[Current(r).id].bytes == r.session.plans[r.session.next].offset
    ensures var f, plan := Current(r), r.session.plans[r.session.next];
            RInv(active.(disk := OpenPartial(active.disk, f),
                         session := active.session.(phase := if plan.offset < f.size then InChunks else AwaitEnd,
                                                    chunkIndex := plan.offset / CHUNK_SIZE)), sha)
  {
    var f, s := Current(r), r.session;
    AheadSurvives(r.disk, OpenPartial(active.disk, f), s, f.id, s.next + 1, sha);
  }

  lemma AppendAtEnd(bytes: Bytes, data: Bytes)
    ensures Overwrite(bytes, |bytes|, data) == bytes + data
  {
  }

  lemma WriteKeepsInv(r: Receiver, data: Bytes, sha: Digest)
    requires RInv(r, sha) && r.session.phase.InChunks?
    requires |data| <= Current(r).size - r.index[Current(r).id].bytes
    ensures RInv(Write(r, data), sha)
    ensures Write(r, data).disk.partials[Current(r).id].bytes == r.disk.partials[Current(r).id].bytes + data
  {
    var f, s, r' := Current(r), r.session, Write(r, data);
    AppendAtEnd(r.disk.partials[f.id].bytes, data);
    LogSurvives(r, r'.index, sha);
    AheadSurvives(r.disk, r'.disk, s, f.id, s.next + 1, sha);
  }

  lemma ChunkKeepsInv(r: Receiver, frame: Frame, sha: Digest)
    requires RInv(r, sha) && r.session.phase.InChunks?
    ensures RInv(OnChunk(r, frame), sha)
  {
    if frame.Cancel? {
      AbortKeepsInv(r, if frame.transferId == r.session.offer.transferId then Cancelled else Failed, sha);
    } else if ChunkFits(r, frame) {
      WriteKeepsInv(r, frame.data, sha);
    } else {
      AbortKeepsInv(r, Failed, sha);
    }
  }

  lemma HoldsGrows(log: seq<Held>, e: Held, f: FileMeta)
    requires Holds(log, f) || e.file == f
    ensures Holds(log + [e], f)
  {
    if Holds(log, f) {
      var k :| 0 <= k < |log| && log[k].file == f;
      assert (log + [e])[k].file == f;
    } else {
      assert (log + [e])[|log|].file == f;
    }
  }

  lemma OutGrows(out: seq<Reply>, files: seq<FileMeta>, log: seq<Held>, e: Held)
    requires OutOk(out, files, log)
    ensures OutOk(out, files, log + [e])
  {
    forall k | 0 <= k < |out| ensures ReplyOk(out[k], files, log + [e]) {
      assert ReplyOk(out[k], files, log);
      forall j | 0 <= j < |files| && Holds(log, files[j]) ensures Holds(log + [e], files[j]) {
        HoldsGrows(log, e, files[j]);
      }
    }
  }

  /** What a new log entry for the current file needs, and what it gives. */
  lemma LogGrows(r: Receiver, e: Held, sha: Digest)
    requires Core(r, sha) && EntryOk(e, r.index, r.epoch, sha) && e.epoch == r.epoch
    requires e.committed ==> forall k :: 0 <= k < |r.log| && r.log[k].committed && r.log[k].epoch == r.epoch ==>
              r.log[k].file.id != e.file.id
    ensures Core(r.(log := r.log + [e]), sha)
  {
    OutGrows(r.out, r.session.offer.files, r.log, e);
  }

  /** While a record is live nothing has been committed under it in this process. */
  lemma LiveMeansUncommitted(r: Receiver, id: string, sha: Digest)
    requires LogOk(r.log, r.index, r.epoch, sha) && id in r.index && !IsTerminal(r.index[id].status)
    ensures forall k :: 0 <= k < |r.log| && r.log[k].committed && r.log[k].epoch == r.epoch ==> r.log[k].file.id != id
  {
    forall k | 0 <= k < |r.log| && r.log[k].committed && r.log[k].epoch == r.epoch ensures r.log[k].file.id != id {
      assert EntryOk(r.log[k], r.index, r.epoch, sha);
    }
  }

  function Advance(r: Receiver): Receiver
    requires r.session.next < |r.session.offer.files|
  {
    var s := r.session;
    r.(out := r.out + [FileResult(s.offer.transferId, Current(r).id, true)],
       session := s.(next := s.next + 1, phase := if s.next + 1 < |s.offer.files| then AwaitStart else AwaitFin))
  }

  /** Once the log has the current file, a positive result and the next file are safe. */
  lemma AdvanceKeepsInv(r: Receiver, log: seq<Held>, e: Held, sha: Digest)
    requires Core(r, sha) && r.session.next < |r.session.offer.files| && r.log == log + [e] && e.file == Current(r)
    requires |r.session.plans| == |r.session.verified| == |r.session.offer.files|
    requires AllHeld(log, r.session.offer.files, r.session.next) && AllAhead(r.disk, r.session, r.session.next + 1, sha)
    ensures RInv(Advance(r), sha)
  {
    var s, files := r.session, r.session.offer.files;
    forall i | 0 <= i < s.next + 1 ensures Holds(r.log, files[i]) {
      HoldsGrows(log, e, files[i]);
    }
    var reply := FileResult(s.offer.transferId, Current(r).id, true);
    assert ReplyOk(reply, files, r.log);
  }

  /** The counters of Conclude. */
  function Counted(r: Receiver, path: string): Receiver
    requires r.session.next < |r.session.offer.files| && Current(r).id in r.index
  {
    r.(index := r.index[Current(r).id := r.index[Current(r).id].(bytes := Current(r).size, finalPath := Some(path))])
  }

  lemma CompletionKeepsCore(r: Receiver, path: string, sha: Digest)
    requires Core(r, sha) && r.session.next < |r.session.offer.files| && Current(r).id in r.index
    requires !r.index[Current(r).id].status.Interrupted? && r.index[Current(r).id].bytes == Current(r).size
    ensures Core(Counted(r, path), sha) && Core(Request(Counted(r, path), Current(r).id, Complete), sha)
  {
    LogSurvives(r, Counted(r, path).index, sha);
    RequestKeepsCore(Counted(r, path), Current(r).id, Complete, sha);
  }

  /** A re-verified file: nothing on disk moves. */
  lemma VerifiedKeepsInv(r: Receiver, path: string, sendOk: bool, sha: Digest)
    requires RInv(r, sha) && r.session.phase.AwaitEnd? && r.session.plans[r.session.next].finalPath == Some(path)
    ensures var r' := Conclude(r, path, sendOk);
            RInv(if r'.session.phase.Closed? then r'
                 else r'.(log :=
                   r.log + [Held(r.epoch, Current(r), path, r.session.verified[r.session.next], 0, false)]), sha)
  {
    var f, s := Current(r), r.session;
    CompletionKeepsCore(r, path, sha);
    var counted := Counted(r, path);
    var done := Request(counted, f.id, Complete);
    if Judge(counted.index[f.id].status, Complete).Refused? {
      AbortKeepsInv(done, Failed, sha);
    } else if !sendOk {
      AbortKeepsInv(done, Interrupted, sha);
    } else {
      var e := Held(r.epoch, f, path, s.verified[s.next], 0, false);
      LogGrows(done, e, sha);
      var logged := done.(log := r.log + [e]);
      AdvanceKeepsInv(logged, r.log, e, sha);
      assert Advance(logged) == Conclude(r, path, sendOk).(log := r.log + [e]);
    }
  }

  lemma CommitFacts(r: Receiver, sha: Digest)
    requires RInv(r, sha) && r.session.phase.AwaitEnd? && r.session.plans[r.session.next].finalPath.None?
    ensures var d := Committed(r.disk, Current(r));
            Consistent(d) && PartialsOk(d.partials) && AllAhead(d, r.session, r.session.next + 1, sha)
  {
    var f, d := Current(r), Committed(r.disk, Current(r));
    CommitKeepsConsistent(r.disk, f);
    AheadSurvives(r.disk, d, r.session, f.id, r.session.next + 1, sha);
  }

  /** A committed file: its record was live, so this is its first commit in this process. */
  lemma CommittedKeepsInv(r: Receiver, sendOk: bool, sha: Digest)
    requires RInv(r, sha) && r.session.phase.AwaitEnd? && r.session.plans[r.session.next].finalPath.None?
    requires sha(r.disk.partials[Current(r).id].bytes) == Current(r).sha256
    ensures var f, partial := Current(r), r.disk.partials[Current(r).id];
            var path := FreeName(r.disk.received.Keys, f.name);
            var held := Held(r.epoch, f, path, partial.bytes, partial.counted, true);
            RInv(Conclude(r.(disk := Committed(r.disk, f), log := r.log + [held]), path, sendOk), sha)
  {
    var f, partial := Current(r), r.disk.partials[Current(r).id];
    var path := FreeName(r.disk.received.Keys, f.name);
    var e := Held(r.epoch, f, path, partial.bytes, partial.counted, true);
    CommitFacts(r, sha);
    var base := r.(disk := Committed(r.disk, f));
    assert Core(base, sha);
    CompletionKeepsCore(base, path, sha);
    LiveMeansUncommitted(r, f.id, sha);
    var done := Request(Counted(base, path), f.id, Complete);
    LogGrows(done, e, sha);
    var logged := done.(log := r.log + [e]);
    if sendOk {
      AdvanceKeepsInv(logged, r.log, e, sha);
    } else {
      AbortKeepsInv(logged, Interrupted, sha);
    }
  }

  lemma EndKeepsInv(r: Receiver, frame: Frame, sendOk: bool, sha: Digest)
    requires RInv(r, sha) && r.session.phase.AwaitEnd?
    ensures RInv(OnEnd(r, frame, sendOk, sha), sha)
  {
    var f, s := Current(r), r.session;
    if frame != FileEnd(s.offer.transferId, f.id) {
      AbortKeepsInv(r, Failed, sha);
    } else if s.plans[s.next].finalPath.Some? {
      VerifiedKeepsInv(r, s.plans[s.next].finalPath.value, sendOk, sha);
    } else if sha(r.disk.partials[f.id].bytes) != f.sha256 {
      var told := r.(out := r.out + [FileResult(s.offer.transferId, f.id, false)]);
      AbortKeepsInv(told, Failed, sha);
      AbortKeepsInv(r, Interrupted, sha);
    } else {
      CommittedKeepsInv(r, sendOk, sha);
    }
  }

  lemma FinKeepsInv(r: Receiver, frame: Frame, sendOk: bool, sha: Digest)
    requires RInv(r, sha) && r.session.phase.AwaitFin?
    ensures RInv(OnFin(r, frame, sendOk), sha)
  {
    var reply := SessionComplete(r.session.offer.transferId);
    assert ReplyOk(reply, r.session.offer.files, r.log);
  }

  lemma ReceiveKeepsInv(r: Receiver, input: Input, sha: Digest)
    requires RInv(r, sha)
    ensures RInv(Receive(r, input, sha), sha)
  {
    var target := if input.Lost? then Interrupted else Failed;
    match r.session.phase
    case Closed =>
    case Finished =>
    case AwaitQuery => if input.Got? { QueryKeepsInv(r, input.frame, input.sendOk, sha); }
    case AwaitStart => if input.Got? { StartKeepsInv(r, input.frame, sha); }
    case InChunks => if input.Got? { ChunkKeepsInv(r, input.frame, sha); } else { AbortKeepsInv(r, target, sha); }
    case AwaitEnd =>
      if input.Got? { EndKeepsInv(r, input.frame, input.sendOk, sha); } else { AbortKeepsInv(r, target, sha); }
    case AwaitFin => if input.Got? { FinKeepsInv(r, input.frame, input.sendOk, sha); }
  }

  lemma RebootKeepsInv(r: Receiver, d: Disk, sha: Digest)
    requires RInv(r, sha) && Consistent(d) && PartialsOk(d.partials)
    ensures RInv(Rebooted(r.(disk := d)), sha)
  {
    var r' := Rebooted(r.(disk := d));
    forall k | 0 <= k < |r'.log| ensures EntryOk(r'.log[k], r'.index, r'.epoch, sha) {
      assert EntryOk(r.log[k], r.index, r.epoch, sha);
    }
  }

  lemma OutsideKeepsInv(r: Receiver, received: map<string, Bytes>, sha: Digest)
    requires RInv(r, sha)
    ensures RInv(r.(disk := r.disk.(received := received)), sha)
  {
    var s, d := r.session, r.disk.(received := received);
    if !s.phase.Closed? && !s.phase.Finished? && !s.phase.AwaitQuery? {
      forall i | s.next + 1 <= i < |s.offer.files| ensures Ahead(d, s.offer.files[i], s.plans[i], s.verified[i], sha) {
        assert Ahead(r.disk, s.offer.files[i], s.plans[i], s.verified[i], sha);
      }
    }
  }

  lemma NextKeepsInv(r: Receiver, a: Action, sha: Digest)
    requires RInv(r, sha) && Enabled(r, a)
    ensures RInv(Next(r, a, sha), sha)
  {
    match a
    case Accept(offer) =>
    case Take(input) => ReceiveKeepsInv(r, input, sha);
    case Tear(id, keep) =>
    case Restart => RebootKeepsInv(r, r.disk, sha);
    case CrashInPrepare(k) =>
      PrepareIsCrashSafe(r.disk, r.session.offer.files, sha);
      RebootKeepsInv(r, DuringPrepare(r.disk, r.session.offer.files, k), sha);
    case Outside(received) => OutsideKeepsInv(r, received, sha);
    case DropDirectory =>
  }
}
