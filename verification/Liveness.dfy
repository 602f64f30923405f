/** An uninterrupted session of an unchanged batch always completes, whatever the scheduler does,
    and cut sessions always leave a state from which the next one does. */
module Liveness {
  import opened Common
  import opened Lifecycle
  import opened Protocol
  import opened Naming
  import opened Resume
  import opened Receiver
  import opened ReceiverSafety
  import opened System
  import opened Fidelity
  import opened Lockstep
  import opened Twins

  // ---- the receiver stays ready

  lemma QueryKeepsReady(r: Receiver, frame: Frame, sendOk: bool, source: Source, sha: Digest)
    requires Ready(r, r.session.offer.files) && UniqueIds(r.session.offer.files)
    requires DiskTrue(r.disk, r.session.offer.files, source) && Hashed(source, r.session.offer.files, sha)
    ensures Ready(OnQuery(r, frame, sendOk, sha), r.session.offer.files)
  {
    var files := r.session.offer.files;
    forall i | 0 <= i < |files| ensures ReadyFor(OnQuery(r, frame, sendOk, sha), files[i]) {
      assert ReadyFor(r, files[i]) && FinalTrue(r.disk, files[i], source);
      PreparedAt(r.disk, files, sha, i);
    }
  }

  lemma ChunkKeepsReady(r: Receiver, frame: Frame)
    requires Ready(r, r.session.offer.files) && r.session.next < |r.session.offer.files|
    requires Current(r).id in r.index && Current(r).id in r.disk.partials
    requires !OnChunk(r, frame).session.phase.Closed?
    ensures Ready(OnChunk(r, frame), r.session.offer.files)
  {
    var files := r.session.offer.files;
    forall i | 0 <= i < |files| ensures ReadyFor(OnChunk(r, frame), files[i]) {
      assert ReadyFor(r, files[i]);
    }
  }

  lemma EndKeepsReady(r: Receiver, frame: Frame, sendOk: bool, sha: Digest)
    requires RInv(r, sha) && r.session.phase.AwaitEnd? && Ready(r, r.session.offer.files)
    requires !OnEnd(r, frame, true, sha).session.phase.Closed?
    ensures Ready(OnEnd(r, frame, sendOk, sha), r.session.offer.files)
  {
    var files, f, s := r.session.offer.files, Current(r), r.session;
    if s.plans[s.next].finalPath.Some? {
      ConcludeKeepsReady(r, s.plans[s.next].finalPath.value, sendOk, files);
    } else {
      var partial := r.disk.partials[f.id];
      var path := FreeName(r.disk.received.Keys, f.name);
      var held := Held(r.epoch, f, path, partial.bytes, partial.counted, true);
      ConcludeKeepsReady(r.(disk := Committed(r.disk, f), log := r.log + [held]), path, sendOk, files);
    }
  }

  lemma ConcludeKeepsReady(x: Receiver, path: string, sendOk: bool, files: seq<FileMeta>)
    requires x.session.next < |files| && files == x.session.offer.files && UniqueIds(files) && Current(x).id in x.index
    requires Matches(x.disk, Current(x)) && x.disk.metadata[Current(x).id].finalPath.Some?
    requires !Judge(x.index[Current(x).id].status, Complete).Refused?
    requires forall i :: 0 <= i < |files| && i != x.session.next ==> ReadyFor(x, files[i])
    ensures Ready(Conclude(x, path, sendOk), files)
  {
    var r' := Conclude(x, path, sendOk);
    forall i | 0 <= i < |files| ensures ReadyFor(r', files[i]) {
      assert i != x.session.next ==> ReadyFor(x, files[i]);
    }
  }

  /** A frame the receiver does not close on leaves it ready, even if its own answer is not sent. */
  lemma DeliverKeepsReady(r: Receiver, frame: Frame, sendOk: bool, source: Source, sha: Digest)
    requires RInv(r, sha) && Ready(r, r.session.offer.files) && ReceiverTrue(r, r.session.offer.files, source)
    requires Hashed(source, r.session.offer.files, sha)
    requires !Receive(r, Got(frame, true), sha).session.phase.Closed?
    ensures !Receive(r, Got(frame, sendOk), sha).session.phase.Finished? ==>
              Ready(Receive(r, Got(frame, sendOk), sha), r.session.offer.files)
  {
    match r.session.phase
    case Closed =>
    case Finished =>
    case AwaitFin => FinKeepsReady(r, frame);
    case AwaitQuery => QueryKeepsReady(r, frame, sendOk, source, sha);
    case AwaitStart => StartStaysReady(r, frame, sha);
    case InChunks => ChunkKeepsReady(r, frame);
    case AwaitEnd => EndKeepsReady(r, frame, sendOk, sha);
  }

  lemma FinKeepsReady(r: Receiver, frame: Frame)
    requires Ready(r, r.session.offer.files)
    ensures Ready(OnFin(r, frame, false), r.session.offer.files)
  {
    var files := r.session.offer.files;
    forall i | 0 <= i < |files| ensures ReadyFor(OnFin(r, frame, false), files[i]) { assert ReadyFor(r, files[i]); }
  }

  /** A lost connection interrupts the current file at most. */
  lemma LostKeepsReady(r: Receiver, files: seq<FileMeta>, sha: Digest)
    requires RInv(r, sha) && Ready(r, files)
    ensures Ready(Receive(r, Lost, sha), files) && Idle(Receive(r, Lost, sha))
    ensures Receive(r, Lost, sha).session.phase.Finished? ==> r.session.phase.Finished?
  {
    forall i | 0 <= i < |files| ensures ReadyFor(Receive(r, Lost, sha), files[i]) { assert ReadyFor(r, files[i]); }
  }

  // ---- the invariant of honest sessions

  ghost predicate Mirrored(y: System, offer: Offer, sha: Digest)
    requires RInv(y.r, sha)
  {
    var q := Drain(y.r, y.ch, sha);
    Mirror(y.s, q, offer) && (!y.s.phase.AwaitComplete? ==> Ready(q, offer.files))
  }

  ghost predicate LockInv(y: System, offer: Offer, source: Source, sha: Digest) {
    && TrueInv(y, offer, source, sha)
    && (!y.over ==> Ready(y.r, offer.files))
    && (Live(y.s) && y.ready ==> Mirrored(y, offer, sha))
    && (Live(y.s) && !y.over ==> y.ready)
    && (y.r.session.phase.Finished? ==> y.over)
    && (y.s.phase.Off? || (!Live(y.s) && !y.over) ==> y.ch == [] && Idle(y.r))
  }

  lemma OpenKeepsLock(y: System, offer: Offer, source: Source, sha: Digest)
    requires LockInv(y, offer, source, sha) && Hashed(source, offer.files, sha) && UniqueIds(offer.files)
    requires Possible(y, Open, offer)
    ensures LockInv(Step(y, Open, offer, sha), offer, source, sha)
  {
    StepStaysTrue(y, Open, offer, source, sha);
    var y' := Step(y, Open, offer, sha);
    assert !y.over ==> Ready(y'.r, offer.files) by {
      forall i | 0 <= i < |offer.files| && !y.over ensures ReadyFor(y'.r, offer.files[i]) {
        assert ReadyFor(y.r, offer.files[i]);
      }
    }
  }

  lemma MirrorPush(s: Sender, q: Receiver, offer: Offer, raw: Bytes, source: Source, sha: Digest)
    requires CanPush(s) && Mirror(s, q, offer) && Ready(q, offer.files) && RInv(q, sha)
    requires ReceiverTrue(q, offer.files, source) && Hashed(source, offer.files, sha)
    requires s.phase.InFile? && s.bytes < offer.files[s.next].size ==>
              raw == ReadAt(source(offer.files[s.next]), s.bytes)
    ensures var (s', frames) := SenderFrame(s, offer, raw);
            && |frames| == 1 && Live(s')
            && var q' := Receive(q, Got(frames[0], true), sha);
            Mirror(s', q', offer) && (!s'.phase.AwaitComplete? ==> Ready(q', offer.files))
  {
    match s.phase
    case SendQuery => MirrorQuery(s, q, offer, source, sha);
    case SendStart => if s.next < |offer.files| { MirrorStart(s, q, offer, source, sha); }
    case InFile =>
      if s.bytes < offer.files[s.next].size { MirrorChunk(s, q, offer, raw, sha); }
      else { MirrorEnd(s, q, offer, source, sha); }
  }

  lemma PushKeepsLock(y: System, raw: Bytes, offer: Offer, source: Source, sha: Digest)
    requires LockInv(y, offer, source, sha) && Hashed(source, offer.files, sha) && UniqueIds(offer.files)
    requires Possible(y, Push(raw), offer) && Faithful(y, Push(raw), offer, source)
    ensures LockInv(Step(y, Push(raw), offer, sha), offer, source, sha)
    ensures y.ready ==> Live(Step(y, Push(raw), offer, sha).s)
  {
    StepStaysTrue(y, Push(raw), offer, source, sha);
    if y.ready {
      DrainStaysTrue(y.r, y.ch, offer, source, sha);
      MirrorPush(y.s, Drain(y.r, y.ch, sha), offer, raw, source, sha);
      DrainAppend(y.r, y.ch, SenderFrame(y.s, offer, raw).1[0], sha);
    }
  }

  lemma MirrorPull(s: Sender, q: Receiver, offer: Offer, sha: Digest)
    requires CanPull(s) && Mirror(s, q, offer) && RInv(q, sha) && UniqueIds(offer.files)
    requires !s.phase.AwaitComplete? ==> Ready(q, offer.files)
    ensures |q.out| == 1
    ensures var s' := SenderReply(s, offer, q.out[0]);
            && s'.phase.Done? == s.phase.AwaitComplete? && !s'.phase.Stopped?
            && (!s'.phase.Done? ==> Mirror(s', Popped(q), offer) && Ready(Popped(q), offer.files))
  {
    var files := offer.files;
    if s.phase.AwaitState? {
      var offsets := PlanOffsets(q.session.plans);
      forall i | 0 <= i < |files| ensures offsets[i] <= files[i].size {
        assert Ahead(q.disk, files[i], q.session.plans[i], q.session.verified[i], sha);
      }
      NegotiationIsExact(files, offsets);
    }
    if !s.phase.AwaitComplete? {
      forall i | 0 <= i < |files| ensures ReadyFor(Popped(q), files[i]) { assert ReadyFor(q, files[i]); }
    }
  }

  lemma PullKeepsLock(y: System, offer: Offer, source: Source, sha: Digest)
    requires LockInv(y, offer, source, sha) && Hashed(source, offer.files, sha) && UniqueIds(offer.files)
    requires Possible(y, Pull, offer)
    ensures LockInv(Step(y, Pull, offer, sha), offer, source, sha)
    ensures y.ready ==> Live(Step(y, Pull, offer, sha).s) || Step(y, Pull, offer, sha).s.phase.Done?
  {
    StepStaysTrue(y, Pull, offer, source, sha);
    var q, y' := Drain(y.r, y.ch, sha), Step(y, Pull, offer, sha);
    PoppedInv(y.r, sha);
    DrainPops(y.r, y.ch, sha);
    if y.ready {
      MirrorPull(y.s, q, offer, sha);
      assert y.r.out[0] == q.out[0];
      if y.s.phase.AwaitComplete? { RepliedMeansFinished(y, offer, sha); }
    }
    assert !y.over ==> Ready(y'.r, offer.files) by {
      forall i | 0 <= i < |offer.files| && !y.over ensures ReadyFor(y'.r, offer.files[i]) {
        assert ReadyFor(y.r, offer.files[i]);
      }
    }
  }

  /** A session_complete already in the reply queue was sent by a receiver that has finished. */
  lemma RepliedMeansFinished(y: System, offer: Offer, sha: Digest)
    requires RInv(y.r, sha) && Mirrored(y, offer, sha) && y.s.phase.AwaitComplete? && y.r.out != []
    ensures y.r.session.phase.Finished?
  {
    NoReplyLeft(y.r, y.ch, sha);
  }

  lemma {:induction false} NoReplyLeft(r: Receiver, ch: seq<Frame>, sha: Digest)
    requires RInv(r, sha) && r.out != [] && |Drain(r, ch, sha).out| == 1 && Drain(r, ch, sha).session.phase.Finished?
    ensures r.session.phase.Finished?
    decreases |ch|
  {
    if ch != [] && !r.session.phase.Finished? {
      ReceiveKeepsInv(r, Got(ch[0], true), sha);
      PoppedInv(r, sha);
      ReceivePops(r, ch[0], sha);
      var r' := Receive(r, Got(ch[0], true), sha);
      if r'.session.phase.Finished? { ClosedStaysClosed(r', ch[1..], sha); }
      NoReplyLeft(r', ch[1..], sha);
    }
  }

  lemma MirrorIsOpen(s: Sender, q: Receiver, offer: Offer)
    requires Mirror(s, q, offer)
    ensures !q.session.phase.Closed?
  {
  }

  /** While the sender is in step, the receiver's next frame never makes it close. */
  lemma InStepMeansOpen(y: System, offer: Offer, sha: Digest)
    requires RInv(y.r, sha) && Mirrored(y, offer, sha) && y.ch != []
    ensures !Receive(y.r, Got(y.ch[0], true), sha).session.phase.Closed?
  {
    ReceiveKeepsInv(y.r, Got(y.ch[0], true), sha);
    var r := Receive(y.r, Got(y.ch[0], true), sha);
    var q := Drain(r, y.ch[1..], sha);
    MirrorIsOpen(y.s, q, offer);
    if Idle(r) { ClosedStaysClosed(r, y.ch[1..], sha); }
  }

  lemma DeliverKeepsLock(y: System, offer: Offer, source: Source, sha: Digest)
    requires LockInv(y, offer, source, sha) && Hashed(source, offer.files, sha) && UniqueIds(offer.files)
    requires Possible(y, Deliver, offer)
    ensures LockInv(Step(y, Deliver, offer, sha), offer, source, sha)
  {
    StepStaysTrue(y, Deliver, offer, source, sha);
    if !y.over {
      InStepMeansOpen(y, offer, sha);
      if !Idle(y.r) { DeliverKeepsReady(y.r, y.ch[0], true, source, sha); }
    }
  }

  /** What is left of a session that died: the receiver idle, its records as they were or interrupted. */
  lemma CutLeavesLock(y: System, y': System, last: Receiver, offer: Offer, source: Source, sha: Digest)
    requires TrueInv(y', offer, source, sha) && y'.r == last.(out := []) && y'.ch == [] && y'.s == Disconnected(y.s)
    requires Idle(last) && y'.over == (y.over || last.session.phase.Finished?)
    requires !y'.over ==> Ready(last, offer.files)
    ensures LockInv(y', offer, source, sha)
  {
    forall i | 0 <= i < |offer.files| && !y'.over ensures ReadyFor(y'.r, offer.files[i]) {
      assert ReadyFor(last, offer.files[i]);
    }
  }

  /** The connection dies while the receiver waits. */
  lemma LostKeepsLock(y: System, offer: Offer, source: Source, sha: Digest)
    requires LockInv(y, offer, source, sha) && Hashed(source, offer.files, sha) && UniqueIds(offer.files)
    ensures LockInv(Step(y, Cut(false), offer, sha), offer, source, sha)
  {
    StepStaysTrue(y, Cut(false), offer, source, sha);
    ReceiveKeepsInv(y.r, Lost, sha);
    var r, y' := Receive(y.r, Lost, sha), Step(y, Cut(false), offer, sha);
    LostIsIdle(y.r, sha);
    LostIsIdle(r, sha);
    if !y'.over {
      LostKeepsReady(y.r, offer.files, sha);
      LostKeepsReady(r, offer.files, sha);
    }
    CutLeavesLock(y, y', Receive(r, Lost, sha), offer, source, sha);
  }

  lemma LostIsIdle(r: Receiver, sha: Digest)
    requires RInv(r, sha)
    ensures Idle(Receive(r, Lost, sha))
    ensures Receive(r, Lost, sha).session.phase.Finished? <==> r.session.phase.Finished?
  {
  }

  /** The connection dies under the receiver's own send. */
  lemma UnsentKeepsLock(y: System, offer: Offer, source: Source, sha: Digest)
    requires LockInv(y, offer, source, sha) && Hashed(source, offer.files, sha) && UniqueIds(offer.files) && y.ch != []
    ensures LockInv(Step(y, Cut(true), offer, sha), offer, source, sha)
  {
    StepStaysTrue(y, Cut(true), offer, source, sha);
    var input := Got(y.ch[0], false);
    ReceiveKeepsInv(y.r, input, sha);
    var r, y' := Receive(y.r, input, sha), Step(y, Cut(true), offer, sha);
    LostIsIdle(r, sha);
    if !y'.over {
      InStepMeansOpen(y, offer, sha);
      if !Idle(y.r) { DeliverKeepsReady(y.r, y.ch[0], false, source, sha); }
      LostKeepsReady(r, offer.files, sha);
    }
    CutLeavesLock(y, y', Receive(r, Lost, sha), offer, source, sha);
  }

  lemma CutKeepsLock(y: System, sending: bool, offer: Offer, source: Source, sha: Digest)
    requires LockInv(y, offer, source, sha) && Hashed(source, offer.files, sha) && UniqueIds(offer.files)
    requires Possible(y, Cut(sending), offer)
    ensures LockInv(Step(y, Cut(sending), offer, sha), offer, source, sha)
  {
    if sending { UnsentKeepsLock(y, offer, source, sha); } else { LostKeepsLock(y, offer, source, sha); }
  }

  lemma SoloKeepsReady(r: Receiver, a: Action, files: seq<FileMeta>, sha: Digest)
    requires RInv(r, sha) && Ready(r, files) && Enabled(r, a) && !a.Accept? && !a.Take? && !a.DropDirectory?
    ensures Ready(Next(r, a, sha), files)
  {
    forall i | 0 <= i < |files| ensures ReadyFor(Next(r, a, sha), files[i]) { assert ReadyFor(r, files[i]); }
  }

  /** A restarted receiver has no records, so every file is ready again. */
  lemma RebootKeepsLock(y: System, a: Action, offer: Offer, source: Source, sha: Digest)
    requires LockInv(y, offer, source, sha) && Hashed(source, offer.files, sha) && UniqueIds(offer.files)
    requires (a.Restart? || a.CrashInPrepare?) && Possible(y, Solo(a), offer)
    ensures LockInv(Step(y, Solo(a), offer, sha), offer, source, sha)
  {
    StepStaysTrue(y, Solo(a), offer, source, sha);
  }

  /** Between sessions, or after the receiver has finished, the store may change under it. */
  lemma StoreKeepsLock(y: System, a: Action, offer: Offer, source: Source, sha: Digest)
    requires LockInv(y, offer, source, sha) && Hashed(source, offer.files, sha) && UniqueIds(offer.files)
    requires (a.Tear? || a.DropDirectory?) && Possible(y, Solo(a), offer)
    ensures LockInv(Step(y, Solo(a), offer, sha), offer, source, sha)
  {
    StepStaysTrue(y, Solo(a), offer, source, sha);
    NextKeepsInv(y.r, a, sha);
    if !y.over && a.Tear? { SoloKeepsReady(y.r, a, offer.files, sha); }
    if Live(y.s) && y.ready { IdleKeepsMirror(y, Next(y.r, a, sha), offer, sha); }
  }

  /** While the receiver is idle only its session, its records and its replies matter to the sender. */
  lemma IdleKeepsMirror(y: System, r: Receiver, offer: Offer, sha: Digest)
    requires RInv(y.r, sha) && RInv(r, sha) && Idle(y.r) && Mirrored(y, offer, sha)
    requires r == y.r.(disk := r.disk)
    ensures Mirrored(y.(r := r), offer, sha)
  {
    ClosedStaysClosed(y.r, y.ch, sha);
    ClosedStaysClosed(r, y.ch, sha);
  }

  lemma OutsideKeepsLock(y: System, received: map<string, Bytes>, offer: Offer, source: Source, sha: Digest)
    requires LockInv(y, offer, source, sha) && Hashed(source, offer.files, sha) && UniqueIds(offer.files)
    requires OnlyAdds(y.r.disk.received, received)
    ensures LockInv(Step(y, Solo(Outside(received)), offer, sha), offer, source, sha)
  {
    StepStaysTrue(y, Solo(Outside(received)), offer, source, sha);
    if !y.over { SoloKeepsReady(y.r, Outside(received), offer.files, sha); }
    if Live(y.s) && y.ready { OutsideKeepsMirror(y, received, offer, source, sha); }
  }

  lemma SoloKeepsLock(y: System, a: Action, offer: Offer, source: Source, sha: Digest)
    requires LockInv(y, offer, source, sha) && Hashed(source, offer.files, sha) && UniqueIds(offer.files)
    requires Possible(y, Solo(a), offer) && Faithful(y, Solo(a), offer, source)
    ensures LockInv(Step(y, Solo(a), offer, sha), offer, source, sha)
  {
    match a
    case Tear(_, _) => StoreKeepsLock(y, a, offer, source, sha);
    case DropDirectory => StoreKeepsLock(y, a, offer, source, sha);
    case Restart => RebootKeepsLock(y, a, offer, source, sha);
    case CrashInPrepare(_) => RebootKeepsLock(y, a, offer, source, sha);
    case Outside(received) => OutsideKeepsLock(y, received, offer, source, sha);
  }

  /** Files may appear in the receive directory at any moment. */
  lemma OutsideKeepsMirror(y: System, received: map<string, Bytes>, offer: Offer, source: Source, sha: Digest)
    requires LockInv(y, offer, source, sha) && Live(y.s) && y.ready && OnlyAdds(y.r.disk.received, received)
    ensures RInv(Added(y.r, received), sha) && Mirrored(y.(r := Added(y.r, received)), offer, sha)
  {
    NextKeepsInv(y.r, Outside(received), sha);
    AddedDrainsAlike(y.r, received, y.ch, source, sha);
    var q, q' := Drain(y.r, y.ch, sha), Drain(Added(y.r, received), y.ch, sha);
    TwinMirror(y.s, q, q', offer);
    if !y.s.phase.AwaitComplete? { TwinReady(q, q', offer.files); }
  }

  lemma StepKeepsLock(y: System, m: Move, offer: Offer, source: Source, sha: Digest)
    requires LockInv(y, offer, source, sha) && Hashed(source, offer.files, sha) && UniqueIds(offer.files)
    requires Possible(y, m, offer) && Faithful(y, m, offer, source)
    ensures LockInv(Step(y, m, offer, sha), offer, source, sha)
  {
    match m
    case Open => OpenKeepsLock(y, offer, source, sha);
    case Push(raw) => PushKeepsLock(y, raw, offer, source, sha);
    case Abandon => StepStaysTrue(y, m, offer, source, sha);
    case Pull => PullKeepsLock(y, offer, source, sha);
    case Deliver => DeliverKeepsLock(y, offer, source, sha);
    case Cut(sending) => CutKeepsLock(y, sending, offer, source, sha);
    case Solo(a) => SoloKeepsLock(y, a, offer, source, sha);
  }
}
