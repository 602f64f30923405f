/** Whole sessions: an uninterrupted one completes exactly when the receiver's records were ready for it
    when it was opened, whatever the scheduler does and whatever came before. */
module Sessions {
  import opened Common
  import opened Lifecycle
  import opened Protocol
  import opened Naming
  import opened Resume
  import opened Receiver
  import ReceiverSafety
  import ReceiverRuns
  import opened System
  import opened Fidelity
  import opened Lockstep
  import opened Liveness

  // ---- honest runs

  lemma {:induction false} RunKeepsLock(y: System, moves: seq<Move>, offer: Offer, source: Source, sha: Digest)
    requires LockInv(y, offer, source, sha) && Hashed(source, offer.files, sha) && UniqueIds(offer.files)
    requires Legal(y, moves, offer, sha) && AllFaithful(y, moves, offer, source, sha)
    ensures LockInv(Run(y, moves, offer, sha), offer, source, sha)
    decreases |moves|
  {
    if moves != [] {
      StepKeepsLock(y, moves[0], offer, source, sha);
      RunKeepsLock(Step(y, moves[0], offer, sha), moves[1..], offer, source, sha);
    }
  }

  lemma StartIsLocked(d: Disk, offer: Offer, source: Source, sha: Digest)
    requires NewTransfer(d) && Hashed(source, offer.files, sha) && UniqueIds(offer.files)
    ensures LockInv(Start(d), offer, source, sha)
  {
  }

  /** The file is in the receive directory and is exactly the source. */
  ghost predicate Delivered(r: Receiver, f: FileMeta, source: Source) {
    exists k :: 0 <= k < |r.log| && r.log[k].file == f
                && r.log[k].path in r.disk.received && r.disk.received[r.log[k].path] == source(f)
  }

  lemma OnTimeStep(y: System, m: Move, offer: Offer, source: Source, sha: Digest)
    requires LockInv(y, offer, source, sha) && Hashed(source, offer.files, sha) && UniqueIds(offer.files)
    requires Possible(y, m, offer) && Faithful(y, m, offer, source) && Live(y.s) && y.ready && !m.Abandon?
    ensures !Step(y, m, offer, sha).s.phase.Stopped?
    ensures m.Deliver? ==> !Step(y, m, offer, sha).r.session.phase.Closed?
  {
    match m
    case Push(raw) => PushKeepsLock(y, raw, offer, source, sha);
    case Pull => PullKeepsLock(y, offer, source, sha);
    case Deliver => InStepMeansOpen(y, offer, sha);
    case _ =>
  }

  /** Honest sessions never raise a ProtocolError, on either side: after any honest run, in a session
      opened while every record at the receiver was ready, no move but the user's cancel stops the
      sender, and no frame makes the receiver give up. */
  lemma HonestSessionsNeverFail(d: Disk, moves: seq<Move>, m: Move, offer: Offer, source: Source, sha: Digest)
    requires NewTransfer(d) && Hashed(source, offer.files, sha) && UniqueIds(offer.files)
    requires Legal(Start(d), moves, offer, sha) && AllFaithful(Start(d), moves, offer, source, sha)
    requires var y := Run(Start(d), moves, offer, sha);
             Possible(y, m, offer) && Faithful(y, m, offer, source) && Live(y.s) && y.ready && !m.Abandon?
    ensures var y' := Step(Run(Start(d), moves, offer, sha), m, offer, sha);
            !y'.s.phase.Stopped? && (m.Deliver? ==> !y'.r.session.phase.Closed?)
  {
    StartIsLocked(d, offer, source, sha);
    RunKeepsLock(Start(d), moves, offer, source, sha);
    OnTimeStep(Run(Start(d), moves, offer, sha), m, offer, source, sha);
  }

  lemma CancelInStep(y: System, offer: Offer, source: Source, sha: Digest)
    requires LockInv(y, offer, source, sha) && Live(y.s) && y.ready && Possible(y, Abandon, offer)
    ensures CancelMeetsChunkLoop(y, offer, sha)
  {
    DrainAppend(y.r, y.ch, Cancel(offer.transferId), sha);
    var q := Drain(y.r, y.ch, sha);
    assert ReadyFor(q, offer.files[y.s.next]);
  }

  /** Once everything under way has arrived, the cancel is read inside the chunk loop: the file becomes
      CANCELLED, the session ends there, and no request is refused. */
  ghost predicate CancelMeetsChunkLoop(y: System, offer: Offer, sha: Digest)
    requires RInv(y.r, sha) && y.s.next < |offer.files|
  {
    var q, q' := Drain(y.r, y.ch, sha), Drain(y.r, y.ch + [Cancel(offer.transferId)], sha);
    && q.session.phase.InChunks? && q'.session.phase.Closed? && q'.refused == q.refused
    && offer.files[y.s.next].id in q'.index && q'.index[offer.files[y.s.next].id].status.Cancelled?
  }

  /** After any honest run, in a session opened while the records were ready, a cancel sent from the
      sender's chunk loop meets the receiver in its own. */
  lemma CancelIsHandled(d: Disk, moves: seq<Move>, offer: Offer, source: Source, sha: Digest)
    requires NewTransfer(d) && Hashed(source, offer.files, sha) && UniqueIds(offer.files)
    requires Legal(Start(d), moves, offer, sha) && AllFaithful(Start(d), moves, offer, source, sha)
    requires var y := Run(Start(d), moves, offer, sha); Live(y.s) && y.ready && Possible(y, Abandon, offer)
    ensures CancelMeetsChunkLoop(Run(Start(d), moves, offer, sha), offer, sha)
  {
    StartIsLocked(d, offer, source, sha);
    RunKeepsLock(Start(d), moves, offer, source, sha);
    CancelInStep(Run(Start(d), moves, offer, sha), offer, source, sha);
  }

  // ---- a scheduler

  function Weight(files: seq<FileMeta>, from: nat): nat
    requires from <= |files|
    decreases |files| - from
  {
    if from == |files| then 0 else files[from].size + 3 + Weight(files, from + 1)
  }

  /** Sends and receives the sender can still make. */
  function Remaining(s: Sender, files: seq<FileMeta>): nat {
    match s.phase
    case SendQuery => Weight(files, 0) + 4
    case AwaitState => Weight(files, 0) + 3
    case SendStart => if s.next <= |files| then Weight(files, s.next) + 2 else 0
    case InFile =>
      if s.next < |files| then Max(files[s.next].size - s.bytes, 0) + 4 + Weight(files, s.next + 1) else 0
    case AwaitResult => if s.next < |files| then 3 + Weight(files, s.next + 1) else 0
    case AwaitComplete => 1
    case _ => 0
  }

  function Measure(y: System, files: seq<FileMeta>): nat { 3 * Remaining(y.s, files) + |y.ch| }

  /** What a scheduler may pick: its favourite if possible, else whatever is. */
  datatype Turn = SenderFirst | ReceiverFirst

  ghost function Pick(y: System, turn: Turn, offer: Offer, source: Source): Move {
    var raw := if y.s.phase.InFile? && y.s.next < |offer.files| && y.s.bytes < |source(offer.files[y.s.next])|
               then ReadAt(source(offer.files[y.s.next]), y.s.bytes) else [];
    if turn.ReceiverFirst? && y.ch != [] then Deliver
    else if CanPush(y.s) then Push(raw)
    else if CanPull(y.s) && y.r.out != [] then Pull
    else Deliver
  }

  lemma PushLowers(s: Sender, offer: Offer, raw: Bytes)
    requires CanPush(s) && (s.phase.SendStart? ==> s.next <= |offer.files|)
    requires (s.phase.InFile? ==> s.next < |offer.files|)
    requires s.phase.InFile? && s.bytes < offer.files[s.next].size ==> 0 < |raw| <= offer.files[s.next].size - s.bytes
    ensures var (s', frames) := SenderFrame(s, offer, raw);
            |frames| == 1 && 3 * Remaining(s', offer.files) + 1 < 3 * Remaining(s, offer.files)
  {
  }

  lemma PullLowers(s: Sender, offer: Offer, reply: Reply)
    requires CanPull(s) && (s.phase.AwaitResult? ==> s.next < |offer.files|)
    ensures Remaining(SenderReply(s, offer, reply), offer.files) < Remaining(s, offer.files)
  {
  }

  /** A waiting sender with no reply to read still has frames under way. */
  lemma WaitingMeansPending(y: System, offer: Offer, sha: Digest)
    requires RInv(y.r, sha) && Mirrored(y, offer, sha) && UniqueIds(offer.files) && CanPull(y.s) && y.r.out == []
    ensures y.ch != []
  {
    MirrorPull(y.s, Drain(y.r, y.ch, sha), offer, sha);
  }

  predicate CanMove(y: System) { CanPush(y.s) || (CanPull(y.s) && y.r.out != []) || y.ch != [] }

  ghost predicate Lower(y: System, y': System, files: seq<FileMeta>) { Measure(y', files) < Measure(y, files) }

  lemma PickPushes(y: System, raw: Bytes, offer: Offer, source: Source, sha: Digest)
    requires TrueInv(y, offer, source, sha) && Hashed(source, offer.files, sha) && UniqueIds(offer.files)
    requires Live(y.s) && CanPush(y.s) && (y.s.phase.InFile? ==> y.s.next < |offer.files|)
    requires raw == if y.s.phase.InFile? && y.s.bytes < |source(offer.files[y.s.next])|
                    then ReadAt(source(offer.files[y.s.next]), y.s.bytes) else []
    ensures Possible(y, Push(raw), offer) && Faithful(y, Push(raw), offer, source)
    ensures Lower(y, Step(y, Push(raw), offer, sha), offer.files)
  {
    PushLowers(y.s, offer, raw);
  }

  /** Whatever a scheduler picks in a session is possible, and lowers a measure of what is left. */
  lemma PickLowers(y: System, turn: Turn, offer: Offer, source: Source, sha: Digest)
    requires TrueInv(y, offer, source, sha) && Hashed(source, offer.files, sha) && UniqueIds(offer.files)
    requires Live(y.s) && CanMove(y)
    ensures var m := Pick(y, turn, offer, source);
            && Possible(y, m, offer) && Faithful(y, m, offer, source) && (m.Push? || m.Pull? || m.Deliver?)
            && Lower(y, Step(y, m, offer, sha), offer.files)
  {
    var m := Pick(y, turn, offer, source);
    if m.Push? { PickPushes(y, m.raw, offer, source, sha); }
    else if m.Pull? { PullLowers(y.s, offer, y.r.out[0]); }
  }

  /** A session played to its end: until the sender is through, or nothing is left to send or read. */
  ghost function Play(y: System, turns: nat -> Turn, t: nat, offer: Offer, source: Source, sha: Digest): (z: System)
    requires TrueInv(y, offer, source, sha) && Hashed(source, offer.files, sha) && UniqueIds(offer.files)
    ensures TrueInv(z, offer, source, sha)
    decreases Measure(y, offer.files)
  {
    if !Live(y.s) || !CanMove(y) then y
    else
      PickLowers(y, turns(t), offer, source, sha);
      StepStaysTrue(y, Pick(y, turns(t), offer, source), offer, source, sha);
      Play(Step(y, Pick(y, turns(t), offer, source), offer, sha), turns, t + 1, offer, source, sha)
  }

  // ---- ready sessions complete

  /** No deadlock: in a session opened ready some move is always possible, and whatever is picked keeps
      the sender out of every error exit. */
  lemma PickAdvances(y: System, turn: Turn, offer: Offer, source: Source, sha: Digest)
    requires LockInv(y, offer, source, sha) && Hashed(source, offer.files, sha) && UniqueIds(offer.files)
    requires Live(y.s) && y.ready
    ensures CanMove(y)
    ensures var m := Pick(y, turn, offer, source);
            && Possible(y, m, offer)
            && var y' := Step(y, m, offer, sha);
               LockInv(y', offer, source, sha) && y'.ready && (Live(y'.s) || y'.s.phase.Done?)
  {
    if CanPull(y.s) && y.r.out == [] { WaitingMeansPending(y, offer, sha); }
    PickLowers(y, turn, offer, source, sha);
    var m := Pick(y, turn, offer, source);
    StepKeepsLock(y, m, offer, source, sha);
    if m.Push? { PushKeepsLock(y, m.raw, offer, source, sha); }
    else if m.Pull? { PullKeepsLock(y, offer, source, sha); }
  }

  lemma {:induction false} ReadyPlayCompletes(y: System, turns: nat -> Turn, t: nat, offer: Offer, source: Source,
      sha: Digest)
    requires LockInv(y, offer, source, sha) && Hashed(source, offer.files, sha) && UniqueIds(offer.files)
    requires (Live(y.s) && y.ready) || y.s.phase.Done?
    ensures Play(y, turns, t, offer, source, sha).s.phase.Done?
    decreases Measure(y, offer.files)
  {
    if !y.s.phase.Done? {
      PickAdvances(y, turns(t), offer, source, sha);
      PickLowers(y, turns(t), offer, source, sha);
      ReadyPlayCompletes(Step(y, Pick(y, turns(t), offer, source), offer, sha), turns, t + 1, offer, source, sha);
    }
  }

  // ---- sessions that were not ready fail

  /** The i-th file has a terminal record and will be planned, or is planned, so that the record refuses:
      it is not COMPLETE, or the file would have to be received again. */
  ghost predicate Blocked(r: Receiver, i: nat) {
    var s := r.session;
    && i < |s.offer.files| && ReceiverRuns.Settled(r, s.offer.files[i].id)
    && !s.phase.Finished? && SessionComplete(s.offer.transferId) !in r.out
    && (s.phase.AwaitQuery? ==> !ReadyFor(r, s.offer.files[i]))
    && (!s.phase.Closed? && !s.phase.AwaitQuery? ==>
          && i < |s.plans| && s.next <= i
          && (!r.index[s.offer.files[i].id].status.Complete? || s.plans[i].finalPath.None?))
  }

  lemma QueryStaysBlocked(r: Receiver, frame: Frame, i: nat, sha: Digest)
    requires Blocked(r, i) && r.session.phase.AwaitQuery?
    ensures Blocked(OnQuery(r, frame, true, sha), i)
  {
  }

  lemma StartStaysBlocked(r: Receiver, frame: Frame, i: nat)
    requires Blocked(r, i) && r.session.phase.AwaitStart? && r.session.next < |r.session.plans|
    ensures Blocked(OnStart(r, frame), i)
  {
    var id := r.session.offer.files[i].id;
    ReceiverRuns.StartLeavesSettled(r, frame, id);
    StartKeepsPlace(r, frame);
  }

  /** file_start moves on to no other file and answers nothing. */
  lemma StartKeepsPlace(r: Receiver, frame: Frame)
    requires r.session.next < |r.session.offer.files| && r.session.next < |r.session.plans|
    requires r.session.phase.AwaitStart?
    ensures var z := OnStart(r, frame);
            && z.out == r.out && z.session.next == r.session.next && z.session.plans == r.session.plans
            && z.session.offer == r.session.offer && !z.session.phase.Finished? && !z.session.phase.AwaitQuery?
  {
  }

  lemma ChunkStaysBlocked(r: Receiver, frame: Frame, i: nat)
    requires Blocked(r, i) && r.session.phase.InChunks? && r.session.next < |r.session.offer.files|
    requires Current(r).id in r.index && Current(r).id in r.disk.partials
    ensures Blocked(OnChunk(r, frame), i)
  {
    ReceiverRuns.ChunkLeavesSettled(r, frame, r.session.offer.files[i].id);
  }

  /** file_end passes on to the next file only from one whose record is live. */
  lemma EndStaysBlocked(r: Receiver, frame: Frame, i: nat, sha: Digest)
    requires RInv(r, sha) && Blocked(r, i) && r.session.phase.AwaitEnd?
    ensures Blocked(OnEnd(r, frame, true, sha), i)
  {
    ReceiverRuns.EndLeavesSettled(r, frame, true, r.session.offer.files[i].id, sha);
    EndAdvances(r, frame, sha);
    EndReplies(r, frame, sha);
  }

  lemma EndReplies(r: Receiver, frame: Frame, sha: Digest)
    requires AtEnd(r)
    ensures var z, no := OnEnd(r, frame, true, sha), FileResult(r.session.offer.transferId, Current(r).id, false);
            || z.out == r.out
            || z.out == r.out + [no.(ok := true)]
            || z.out == r.out + [no]
  {
  }

  /** Verification passes on to the next file or gives up; it changes nothing else of the session. */
  lemma ConcludeAdvances(r: Receiver, path: string)
    requires r.session.next < |r.session.offer.files| && Current(r).id in r.index
    ensures var z, s := Conclude(r, path, true), r.session;
            && z.session.plans == s.plans && z.session.offer == s.offer
            && (z.session.phase.Closed? || z.session.phase.AwaitStart? || z.session.phase.AwaitFin?)
            && (!z.session.phase.Closed? ==> z.session.next == s.next + 1)
            && (!z.session.phase.Closed? ==> !Judge(r.index[Current(r).id].status, Complete).Refused?)
  {
  }

  lemma EndAdvances(r: Receiver, frame: Frame, sha: Digest)
    requires RInv(r, sha) && r.session.phase.AwaitEnd?
    ensures var z, s := OnEnd(r, frame, true, sha), r.session;
            && z.session.plans == s.plans && z.session.offer == s.offer
            && (z.session.phase.Closed? || z.session.phase.AwaitStart? || z.session.phase.AwaitFin?)
            && (!z.session.phase.Closed? ==> z.session.next == s.next + 1)
            && (!z.session.phase.Closed? ==> !Judge(r.index[Current(r).id].status, Complete).Refused?)
  {
    var s, f := r.session, Current(r);
    if frame == FileEnd(s.offer.transferId, f.id) {
      if s.plans[s.next].finalPath.Some? {
        ConcludeAdvances(r, s.plans[s.next].finalPath.value);
      } else if sha(r.disk.partials[f.id].bytes) == f.sha256 {
        var path, partial := FreeName(r.disk.received.Keys, f.name), r.disk.partials[f.id];
        var held := Held(r.epoch, f, path, partial.bytes, partial.counted, true);
        ConcludeAdvances(r.(disk := Committed(r.disk, f), log := r.log + [held]), path);
      }
    }
  }

  lemma ReceiveStaysBlocked(r: Receiver, frame: Frame, i: nat, sha: Digest)
    requires RInv(r, sha) && Blocked(r, i)
    ensures Blocked(Receive(r, Got(frame, true), sha), i)
  {
    match r.session.phase
    case Closed =>
    case AwaitQuery => QueryStaysBlocked(r, frame, i, sha);
    case AwaitStart => StartStaysBlocked(r, frame, i);
    case InChunks => ChunkStaysBlocked(r, frame, i);
    case AwaitEnd => EndStaysBlocked(r, frame, i, sha);
    case AwaitFin =>
  }

  ghost predicate BlockedAt(y: System, i: nat, offer: Offer) {
    y.r.session.offer == offer && Blocked(y.r, i) && !y.s.phase.Done?
  }

  lemma PickStaysBlocked(y: System, m: Move, i: nat, offer: Offer, sha: Digest)
    requires SafeInv(y, offer, sha) && UniqueIds(offer.files) && Possible(y, m, offer)
    requires (m.Push? || m.Pull? || m.Deliver?)
    requires BlockedAt(y, i, offer)
    ensures BlockedAt(Step(y, m, offer, sha), i, offer)
  {
    if m.Deliver? {
      ReceiveStaysBlocked(y.r, y.ch[0], i, sha);
      ReceiveGrowsLog(y.r, Got(y.ch[0], true), sha);
    } else if m.Pull? {
      assert y.r.out[0] in y.r.out && forall x :: x in y.r.out[1..] ==> x in y.r.out;
    }
  }

  lemma {:induction false} BlockedPlayFails(y: System, i: nat, turns: nat -> Turn, t: nat, offer: Offer,
      source: Source, sha: Digest)
    requires TrueInv(y, offer, source, sha) && Hashed(source, offer.files, sha) && UniqueIds(offer.files)
    requires BlockedAt(y, i, offer)
    ensures !Play(y, turns, t, offer, source, sha).s.phase.Done?
    decreases Measure(y, offer.files)
  {
    if Live(y.s) && CanMove(y) {
      var m := Pick(y, turns(t), offer, source);
      PickLowers(y, turns(t), offer, source, sha);
      StepStaysTrue(y, m, offer, source, sha);
      PickStaysBlocked(y, m, i, offer, sha);
      BlockedPlayFails(Step(y, m, offer, sha), i, turns, t + 1, offer, source, sha);
    }
  }

  // ---- the theorem

  lemma OpenedLock(y: System, offer: Offer, source: Source, sha: Digest)
    requires LockInv(y, offer, source, sha) && Hashed(source, offer.files, sha) && UniqueIds(offer.files)
    requires y.s.phase.Off?
    ensures Possible(y, Open, offer) && TrueInv(Step(y, Open, offer, sha), offer, source, sha)
    ensures LockInv(Step(y, Open, offer, sha), offer, source, sha)
  {
    OpenKeepsLock(y, offer, source, sha);
  }

  lemma OpenedBlocked(y: System, offer: Offer, source: Source, sha: Digest) returns (i: nat)
    requires LockInv(y, offer, source, sha) && UniqueIds(offer.files) && y.s.phase.Off? && !Ready(y.r, offer.files)
    ensures BlockedAt(Step(y, Open, offer, sha), i, offer)
  {
    i :| 0 <= i < |offer.files| && !ReadyFor(y.r, offer.files[i]);
  }

  /** After any run, cut sessions, torn writes, restarts, crashes and deleted partial directories
      included, the session opened next runs to session_complete exactly when every record at the
      receiver is ready for its file, whatever the scheduler does; and then every file is COMPLETE at the
      sender and byte for byte the source in the receive directory. */
  lemma SessionCompletesIffReady(d: Disk, moves: seq<Move>, turns: nat -> Turn, offer: Offer, source: Source,
      sha: Digest)
    requires NewTransfer(d) && Hashed(source, offer.files, sha) && UniqueIds(offer.files)
    requires Legal(Start(d), moves, offer, sha) && AllFaithful(Start(d), moves, offer, source, sha)
    requires Run(Start(d), moves, offer, sha).s.phase.Off?
    ensures var y := Run(Start(d), moves, offer, sha);
            && Possible(y, Open, offer) && TrueInv(Step(y, Open, offer, sha), offer, source, sha)
            && var z := Play(Step(y, Open, offer, sha), turns, 0, offer, source, sha);
            && (z.s.phase.Done? <==> Ready(y.r, offer.files))
            && (z.s.phase.Done? ==> forall i :: 0 <= i < |offer.files| ==>
                  offer.files[i].id in z.s.complete && Delivered(z.r, offer.files[i], source))
  {
    StartIsLocked(d, offer, source, sha);
    RunKeepsLock(Start(d), moves, offer, source, sha);
    var y := Run(Start(d), moves, offer, sha);
    OpenedLock(y, offer, source, sha);
    var z := Play(Step(y, Open, offer, sha), turns, 0, offer, source, sha);
    if Ready(y.r, offer.files) {
      ReadyPlayCompletes(Step(y, Open, offer, sha), turns, 0, offer, source, sha);
      DoneIsDelivered(z, offer, source, sha);
    } else {
      var i := OpenedBlocked(y, offer, source, sha);
      BlockedPlayFails(Step(y, Open, offer, sha), i, turns, 0, offer, source, sha);
    }
  }

  lemma DoneIsDelivered(z: System, offer: Offer, source: Source, sha: Digest)
    requires TrueInv(z, offer, source, sha) && z.s.phase.Done?
    ensures forall i :: 0 <= i < |offer.files| ==>
              offer.files[i].id in z.s.complete && Delivered(z.r, offer.files[i], source)
  {
    forall i | 0 <= i < |offer.files|
      ensures offer.files[i].id in z.s.complete && Delivered(z.r, offer.files[i], source)
    {
      assert Holds(z.r.log, offer.files[i]);
      var k :| 0 <= k < |z.r.log| && z.r.log[k].file == offer.files[i];
    }
  }

  /** The records are ready unless, since the receiver last started, it has finished the batch, the user
      has cancelled, or the partial directory was deleted. A new receiver process is always ready. */
  lemma ReadyUnlessOver(d: Disk, moves: seq<Move>, offer: Offer, source: Source, sha: Digest)
    requires NewTransfer(d) && Hashed(source, offer.files, sha) && UniqueIds(offer.files)
    requires Legal(Start(d), moves, offer, sha) && AllFaithful(Start(d), moves, offer, source, sha)
    ensures var y := Run(Start(d), moves, offer, sha); !y.over ==> Ready(y.r, offer.files)
  {
    StartIsLocked(d, offer, source, sha);
    RunKeepsLock(Start(d), moves, offer, source, sha);
  }

  // ---- a lost session_complete

  /** Every file answered for in this session has a terminal record; a finished batch has no metadata. */
  ghost predicate Answered(r: Receiver) {
    var s := r.session;
    && (s.phase.Finished? ==> s.next == |s.offer.files| && r.disk.metadata == map[])
    && (!s.phase.Closed? && !s.phase.AwaitQuery? ==>
          s.next <= |s.offer.files| && forall j :: 0 <= j < s.next ==> ReceiverRuns.Settled(r, s.offer.files[j].id))
  }

  lemma EndStaysAnswered(r: Receiver, frame: Frame, sha: Digest)
    requires RInv(r, sha) && Answered(r) && r.session.phase.AwaitEnd?
    ensures Answered(OnEnd(r, frame, true, sha))
  {
    var z, files := OnEnd(r, frame, true, sha), r.session.offer.files;
    EndAdvances(r, frame, sha);
    if !z.session.phase.Closed? {
      forall j | 0 <= j < z.session.next ensures ReceiverRuns.Settled(z, files[j].id) {
        if j < r.session.next { ReceiverRuns.EndLeavesSettled(r, frame, true, files[j].id, sha); }
        else { EndSettles(r, frame, sha); }
      }
    }
  }

  lemma EndSettles(r: Receiver, frame: Frame, sha: Digest)
    requires RInv(r, sha) && r.session.phase.AwaitEnd?
    ensures var z := OnEnd(r, frame, true, sha); !z.session.phase.Closed? ==> ReceiverRuns.Settled(z, Current(r).id)
  {
  }

  lemma StartStaysAnswered(r: Receiver, frame: Frame)
    requires Answered(r) && r.session.phase.AwaitStart?
    requires r.session.next < |r.session.offer.files| && r.session.next < |r.session.plans|
    ensures Answered(OnStart(r, frame))
  {
    StartKeepsPlace(r, frame);
    forall j | 0 <= j < r.session.next ensures ReceiverRuns.Settled(OnStart(r, frame), r.session.offer.files[j].id) {
      ReceiverRuns.StartLeavesSettled(r, frame, r.session.offer.files[j].id);
    }
  }

  lemma ReceiveStaysAnswered(r: Receiver, frame: Frame, sha: Digest)
    requires RInv(r, sha) && Answered(r)
    ensures Answered(Receive(r, Got(frame, true), sha))
  {
    match r.session.phase
    case Closed =>
    case Finished =>
    case AwaitQuery =>
    case AwaitStart => StartStaysAnswered(r, frame);
    case InChunks =>
      forall j | 0 <= j < r.session.next ensures ReceiverRuns.Settled(OnChunk(r, frame), r.session.offer.files[j].id) {
        ReceiverRuns.ChunkLeavesSettled(r, frame, r.session.offer.files[j].id);
      }
    case AwaitEnd => EndStaysAnswered(r, frame, sha);
    case AwaitFin =>
  }

  /** The moves that take a ready session to the point where the receiver has finished, and then cut it. */
  ghost function LoseCompletion(y: System, offer: Offer, source: Source, sha: Digest): (moves: seq<Move>)
    requires LockInv(y, offer, source, sha) && Hashed(source, offer.files, sha) && UniqueIds(offer.files)
    requires Live(y.s) && y.ready
    decreases Measure(y, offer.files)
  {
    if y.r.session.phase.Finished? then [Cut(false)]
    else
      PickAdvances(y, ReceiverFirst, offer, source, sha);
      PickLowers(y, ReceiverFirst, offer, source, sha);
      var next := Step(y, Pick(y, ReceiverFirst, offer, source), offer, sha);
      [Pick(y, ReceiverFirst, offer, source)] + if Live(next.s) then LoseCompletion(next, offer, source, sha) else []
  }

  lemma UnfinishedStaysLive(y: System, offer: Offer, source: Source, sha: Digest)
    requires LockInv(y, offer, source, sha) && Hashed(source, offer.files, sha) && UniqueIds(offer.files)
    requires Live(y.s) && y.ready && !y.r.session.phase.Finished?
    ensures Possible(y, Pick(y, ReceiverFirst, offer, source), offer)
    ensures Live(Step(y, Pick(y, ReceiverFirst, offer, source), offer, sha).s)
  {
    var m := Pick(y, ReceiverFirst, offer, source);
    if CanPull(y.s) && y.r.out == [] { WaitingMeansPending(y, offer, sha); }
    PickLowers(y, ReceiverFirst, offer, source, sha);
    if m.Push? {
      PushKeepsLock(y, m.raw, offer, source, sha);
    } else if m.Pull? {
      PullKeepsLock(y, offer, source, sha);
      DoneOnlyAtTheEnd(y.s, offer, y.r.out[0]);
      if y.s.phase.AwaitComplete? { RepliedMeansFinished(y, offer, sha); }
    }
  }

  lemma DoneOnlyAtTheEnd(s: Sender, offer: Offer, reply: Reply)
    requires CanPull(s)
    ensures SenderReply(s, offer, reply).phase.Done? ==> s.phase.AwaitComplete?
  {
  }

  /** One pick on the way to the finish. */
  lemma LoseStep(y: System, offer: Offer, source: Source, sha: Digest)
    requires LockInv(y, offer, source, sha) && Hashed(source, offer.files, sha) && UniqueIds(offer.files)
    requires Live(y.s) && y.ready && Answered(y.r) && !y.r.session.phase.Finished?
    ensures var m := Pick(y, ReceiverFirst, offer, source);
            && Possible(y, m, offer) && Faithful(y, m, offer, source)
            && var next := Step(y, m, offer, sha);
               && LockInv(next, offer, source, sha) && Live(next.s) && next.ready && Answered(next.r)
               && Lower(y, next, offer.files)
               && LoseCompletion(y, offer, source, sha) == [m] + LoseCompletion(next, offer, source, sha)
  {
    UnfinishedStaysLive(y, offer, source, sha);
    PickAdvances(y, ReceiverFirst, offer, source, sha);
    PickLowers(y, ReceiverFirst, offer, source, sha);
    if Pick(y, ReceiverFirst, offer, source).Deliver? { ReceiveStaysAnswered(y.r, y.ch[0], sha); }
  }

  lemma {:induction false} LostCompletionRuns(y: System, offer: Offer, source: Source, sha: Digest)
    requires LockInv(y, offer, source, sha) && Hashed(source, offer.files, sha) && UniqueIds(offer.files)
    requires Live(y.s) && y.ready && Answered(y.r) && offer.files != []
    ensures var moves := LoseCompletion(y, offer, source, sha);
            && Legal(y, moves, offer, sha) && AllFaithful(y, moves, offer, source, sha)
            && Run(y, moves, offer, sha).s.phase.Off? && !Ready(Run(y, moves, offer, sha).r, offer.files)
    decreases Measure(y, offer.files)
  {
    var moves := LoseCompletion(y, offer, source, sha);
    if y.r.session.phase.Finished? {
      assert moves[1..] == [];
      StepIsSafe(y, Cut(false), offer, sha);
      FinishedIsNotReady(Step(y, Cut(false), offer, sha).r, offer.files);
    } else {
      var m := Pick(y, ReceiverFirst, offer, source);
      LoseStep(y, offer, source, sha);
      StepIsSafe(y, m, offer, sha);
      var next := Step(y, m, offer, sha);
      assert moves[1..] == LoseCompletion(next, offer, source, sha) && moves[0] == m;
      LostCompletionRuns(next, offer, source, sha);
    }
  }

  lemma FinishedIsNotReady(r: Receiver, files: seq<FileMeta>)
    requires files != [] && ReceiverRuns.Settled(r, files[0].id) && r.disk.metadata == map[]
    ensures !Ready(r, files)
  {
    assert !ReadyFor(r, files[0]);
  }

  // ---- records that are not ready stay so

  /** prepare forgets a final path or keeps it; it never brings one back. */
  lemma QueryKeepsUnready(r: Receiver, frame: Frame, sendOk: bool, f: FileMeta, sha: Digest)
    requires UniqueIds(r.session.offer.files) && ReceiverRuns.Settled(r, f.id) && !ReadyFor(r, f)
    ensures !ReadyFor(OnQuery(r, frame, sendOk, sha), f)
  {
    var files := r.session.offer.files;
    if i :| 0 <= i < |files| && files[i].id == f.id { PreparedAt(r.disk, files, sha, i); }
  }

  lemma StartKeepsMetadata(r: Receiver, frame: Frame)
    requires r.session.next < |r.session.offer.files| && r.session.next < |r.session.plans|
    ensures OnStart(r, frame).disk.metadata == r.disk.metadata
  {
  }

  /** file_end changes the metadata by a commit at most, and only a file being received is committed. */
  lemma EndCommitsReceived(r: Receiver, frame: Frame, sendOk: bool, sha: Digest)
    requires RInv(r, sha) && r.session.phase.AwaitEnd?
    ensures var d, id := OnEnd(r, frame, sendOk, sha).disk, Current(r).id;
            d.metadata == r.disk.metadata
            || (r.index[id].status.Active? && d.metadata.Keys == r.disk.metadata.Keys
                && forall x :: x in d.metadata && x != id ==> d.metadata[x] == r.disk.metadata[x])
  {
    var f, s := Current(r), r.session;
    if frame == FileEnd(s.offer.transferId, f.id) {
      if s.plans[s.next].finalPath.Some? {
        ReceiverRuns.ConcludeTouchesNeither(r, s.plans[s.next].finalPath.value, sendOk);
      } else if sha(r.disk.partials[f.id].bytes) == f.sha256 {
        var path, partial := FreeName(r.disk.received.Keys, f.name), r.disk.partials[f.id];
        var held := Held(r.epoch, f, path, partial.bytes, partial.counted, true);
        ReceiverRuns.ConcludeTouchesNeither(r.(disk := Committed(r.disk, f), log := r.log + [held]), path, sendOk);
      }
    }
  }

  lemma ReceiveKeepsUnready(r: Receiver, input: Input, f: FileMeta, sha: Digest)
    requires RInv(r, sha) && !ReadyFor(r, f)
    ensures !ReadyFor(Receive(r, input, sha), f)
  {
    ReceiverRuns.ReceiveLeavesSettled(r, input, f.id, sha);
    if input.Got? {
      match r.session.phase
      case AwaitQuery => QueryKeepsUnready(r, input.frame, input.sendOk, f, sha);
      case AwaitStart => StartKeepsMetadata(r, input.frame);
      case AwaitEnd => EndCommitsReceived(r, input.frame, input.sendOk, sha);
      case _ =>
    }
  }

  predicate SameProcess(m: Move) { m.Solo? ==> ReceiverRuns.SameProcess(m.action) }

  /** A record that is not ready for its file never becomes so in the same receiver process. */
  lemma StepKeepsUnready(y: System, m: Move, f: FileMeta, offer: Offer, sha: Digest)
    requires SafeInv(y, offer, sha) && UniqueIds(offer.files) && Possible(y, m, offer) && SameProcess(m)
    requires !ReadyFor(y.r, f)
    ensures !ReadyFor(Step(y, m, offer, sha).r, f)
  {
    match m
    case Deliver => ReceiveKeepsUnready(y.r, Got(y.ch[0], true), f, sha);
    case Cut(sending) =>
      var input := if sending then Got(y.ch[0], false) else Lost;
      ReceiveKeepsUnready(y.r, input, f, sha);
      ReceiverSafety.ReceiveKeepsInv(y.r, input, sha);
      ReceiveKeepsUnready(Receive(y.r, input, sha), Lost, f, sha);
    case _ =>
  }

  /** The sender has not been through, and this file keeps it from it: now, or once a session is opened. */
  ghost predicate Stuck(y: System, i: nat, offer: Offer) {
    && i < |offer.files| && !ReadyFor(y.r, offer.files[i]) && !y.s.phase.Done?
    && (Live(y.s) ==> BlockedAt(y, i, offer))
  }

  lemma StepStaysStuck(y: System, m: Move, i: nat, offer: Offer, sha: Digest)
    requires SafeInv(y, offer, sha) && UniqueIds(offer.files) && Possible(y, m, offer) && SameProcess(m)
    requires Stuck(y, i, offer)
    ensures Stuck(Step(y, m, offer, sha), i, offer)
  {
    StepKeepsUnready(y, m, offer.files[i], offer, sha);
    if Live(y.s) && (m.Push? || m.Pull? || m.Deliver?) { PickStaysBlocked(y, m, i, offer, sha); }
  }

  predicate NoRestart(moves: seq<Move>) { forall i :: 0 <= i < |moves| ==> SameProcess(moves[i]) }

  lemma {:induction false} StuckForGood(y: System, moves: seq<Move>, i: nat, offer: Offer, sha: Digest)
    requires SafeInv(y, offer, sha) && UniqueIds(offer.files) && Legal(y, moves, offer, sha) && NoRestart(moves)
    requires Stuck(y, i, offer)
    ensures Stuck(Run(y, moves, offer, sha), i, offer)
    decreases |moves|
  {
    if moves != [] {
      StepStaysStuck(y, moves[0], i, offer, sha);
      StepIsSafe(y, moves[0], offer, sha);
      assert forall k :: 0 <= k < |moves[1..]| ==> moves[1..][k] == moves[k + 1];
      StuckForGood(Step(y, moves[0], offer, sha), moves[1..], i, offer, sha);
    }
  }

  /** Between sessions, with a record that is not ready: whatever peers, schedulers and the source do from
      then on, over any number of sessions, the sender never gets its session_complete, and no later moment
      finds the records ready, until the receiver restarts. */
  lemma NotReadyIsFinal(y: System, moves: seq<Move>, offer: Offer, sha: Digest)
    requires SafeInv(y, offer, sha) && UniqueIds(offer.files) && y.s.phase.Off? && !Ready(y.r, offer.files)
    requires Legal(y, moves, offer, sha) && NoRestart(moves)
    ensures !Run(y, moves, offer, sha).s.phase.Done? && !Ready(Run(y, moves, offer, sha).r, offer.files)
  {
    var i :| 0 <= i < |offer.files| && !ReadyFor(y.r, offer.files[i]);
    StuckForGood(y, moves, i, offer, sha);
    assert !ReadyFor(Run(y, moves, offer, sha).r, offer.files[i]);
  }

  /** A run in which only the last frame is lost: every file has been received, but the sender cannot get
      its session_complete from this receiver process any more, neither in the session opened next nor
      in whatever follows. */
  lemma LostCompletionIsNotRecovered(d: Disk, offer: Offer, source: Source, turns: nat -> Turn, sha: Digest)
    returns (moves: seq<Move>)
    requires NewTransfer(d) && Hashed(source, offer.files, sha) && UniqueIds(offer.files) && offer.files != []
    ensures Legal(Start(d), moves, offer, sha) && AllFaithful(Start(d), moves, offer, source, sha)
    ensures var y := Run(Start(d), moves, offer, sha);
            && y.s.phase.Off? && Possible(y, Open, offer) && TrueInv(Step(y, Open, offer, sha), offer, source, sha)
            && !Play(Step(y, Open, offer, sha), turns, 0, offer, source, sha).s.phase.Done?
    ensures var y := Run(Start(d), moves, offer, sha);
            forall more :: Legal(y, more, offer, sha) && NoRestart(more) ==>
              !Run(y, more, offer, sha).s.phase.Done? && !Ready(Run(y, more, offer, sha).r, offer.files)
  {
    StartIsLocked(d, offer, source, sha);
    OpenedLock(Start(d), offer, source, sha);
    StepIsSafe(Start(d), Open, offer, sha);
    var y := Step(Start(d), Open, offer, sha);
    LostCompletionRuns(y, offer, source, sha);
    moves := [Open] + LoseCompletion(y, offer, source, sha);
    assert moves[0] == Open && moves[1..] == LoseCompletion(y, offer, source, sha);
    SessionCompletesIffReady(d, moves, turns, offer, source, sha);
    var lost := Run(Start(d), moves, offer, sha);
    forall more | Legal(lost, more, offer, sha) && NoRestart(more)
      ensures !Run(lost, more, offer, sha).s.phase.Done? && !Ready(Run(lost, more, offer, sha).r, offer.files)
    {
      NotReadyIsFinal(lost, more, offer, sha);
    }
  }
}
