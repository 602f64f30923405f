/** Sender, receiver and the FIFO between them over any number of sessions of one batch
    (core/transfer.py, _send_v3_payload against _receive_v3_session). */
module System {
  import opened Common
  import opened Lifecycle
  import opened Protocol
  import opened Resume
  import opened Receiver
  import opened ReceiverSafety

  datatype SenderPhase =
    | Off | SendQuery | AwaitState | SendStart | InFile | AwaitResult | AwaitComplete | Done
    | Stopped  // cancelled, or ended by a ProtocolError

  /** The sender's locals. `complete` holds the IDs whose record it has set to COMPLETE. */
  datatype Sender = Sender(phase: SenderPhase, next: nat, offsets: map<string, int>, bytes: nat, index: nat,
      complete: set<string>)

  /** `over`: since the receiver last started, it has finished the batch, a cancel was sent or the partial
      directory was deleted. `ready`: when the current session was opened, every record at the receiver
      let its file be received or answered for. Both are history. */
  datatype System = System(s: Sender, r: Receiver, ch: seq<Frame>, over: bool, ready: bool)

  /** The receiver's record of this file lets it be received or answered for again. */
  ghost predicate ReadyFor(r: Receiver, f: FileMeta) {
    f.id in r.index && IsTerminal(r.index[f.id].status) ==>
      r.index[f.id].status.Complete? && Matches(r.disk, f) && r.disk.metadata[f.id].finalPath.Some?
  }

  ghost predicate Ready(r: Receiver, files: seq<FileMeta>) {
    forall i :: 0 <= i < |files| ==> ReadyFor(r, files[i])
  }

  predicate Live(s: Sender) { !s.phase.Off? && !s.phase.Done? && !s.phase.Stopped? }

  function Start(d: Disk): System {
    System(Sender(Off, 0, map[], 0, 0, {}), Fresh(d), [], false, false)
  }

  /** One send of the sender; `raw` is what the next file read returns. */
  function SenderFrame(s: Sender, offer: Offer, raw: Bytes): (Sender, seq<Frame>)
    requires s.phase.SendQuery? || s.phase.SendStart? || s.phase.InFile?
    requires s.phase.InFile? ==> s.next < |offer.files|
  {
    var tid := offer.transferId;
    match s.phase
    case SendQuery => (s.(phase := AwaitState), [Query(tid, offer.files)])
    case SendStart =>
      if s.next >= |offer.files| then (s.(phase := AwaitComplete), [Fin(tid)])
      else
        var f := offer.files[s.next];
        var offset := if f.id in s.offsets && s.offsets[f.id] >= 0 then s.offsets[f.id] else 0;
        (s.(phase := InFile, bytes := offset, index := offset / CHUNK_SIZE), [FileStart(tid, f.id)])
    case InFile =>
      var f := offer.files[s.next];
      if s.bytes >= f.size then (s.(phase := AwaitResult), [FileEnd(tid, f.id)])
      else if raw == [] then (s.(phase := Stopped), [])  // "Source file changed during transfer"
      else (s.(bytes := s.bytes + |raw|, index := s.index + 1), [Chunk(tid, f.id, s.index, s.bytes, |raw|, raw)])
  }

  /** One blocked receive of the sender. */
  ghost function SenderReply(s: Sender, offer: Offer, reply: Reply): Sender
    requires s.phase.AwaitState? || s.phase.AwaitResult? || s.phase.AwaitComplete?
  {
    match s.phase
    case AwaitState =>
      if reply.ResumeState? && reply.transferId == offer.transferId && GoodEntries(reply.entries, offer.files)
      then s.(phase := SendStart, next := 0, offsets := OffsetMap(reply.entries))
      else s.(phase := Stopped)
    case AwaitResult =>
      if s.next < |offer.files| && reply == FileResult(offer.transferId, offer.files[s.next].id, true)
      then s.(phase := SendStart, next := s.next + 1, complete := s.complete + {offer.files[s.next].id})
      else s.(phase := Stopped)
    case AwaitComplete =>
      s.(phase := if reply == SessionComplete(offer.transferId) then Done else Stopped)
  }

  /** The one reply that lets the sender go on. */
  ghost predicate Welcome(s: Sender, offer: Offer, reply: Reply) {
    match s.phase
    case AwaitState =>
      reply.ResumeState? && reply.transferId == offer.transferId && GoodEntries(reply.entries, offer.files)
    case AwaitResult => s.next < |offer.files| && reply == FileResult(offer.transferId, offer.files[s.next].id, true)
    case AwaitComplete => reply == SessionComplete(offer.transferId)
    case _ => false
  }

  /** Any other reply stops the sender, with no file more COMPLETE. The right one gives it the receiver's
      offsets, one more COMPLETE file, or a normal end. */
  lemma SenderReplyIsExact(s: Sender, offer: Offer, reply: Reply)
    requires CanPull(s) && UniqueIds(offer.files)
    ensures var s' := SenderReply(s, offer, reply);
            && (s'.phase.Stopped? <==> !Welcome(s, offer, reply))
            && (!Welcome(s, offer, reply) ==> s'.complete == s.complete)
            && (Welcome(s, offer, reply) ==>
                  match s.phase
                  case AwaitState =>
                    && s'.phase.SendStart? && s'.next == 0 && s'.complete == s.complete
                    && s'.offsets.Keys == Ids(offer.files)
                    && forall i :: 0 <= i < |reply.entries| ==> s'.offsets[reply.entries[i].0] == reply.entries[i].1
                  case AwaitResult =>
                    && s'.phase.SendStart? && s'.next == s.next + 1 && s'.offsets == s.offsets
                    && s'.complete == s.complete + {offer.files[s.next].id}
                  case _ => s'.phase.Done? && s'.complete == s.complete)
  {
    if s.phase.AwaitState? && Welcome(s, offer, reply) { OffsetsAreTheEntries(reply.entries, offer.files); }
  }

  lemma OffsetsAreTheEntries(entries: Entries, files: seq<FileMeta>)
    requires UniqueIds(files) && GoodEntries(entries, files)
    ensures OffsetMap(entries).Keys == Ids(files)
    ensures forall i :: 0 <= i < |entries| ==> entries[i].0 in OffsetMap(entries)
                                               && OffsetMap(entries)[entries[i].0] == entries[i].1
  {
    CoverageIsImplied(entries, files);
  }

  /** A source that ends before the offered size stops the sender without another frame, and never lets
      the file end. */
  lemma ShrunkSourceStops(s: Sender, offer: Offer)
    requires s.phase.InFile? && s.next < |offer.files| && s.bytes < offer.files[s.next].size
    ensures var (s', frames) := SenderFrame(s, offer, []);
            s'.phase.Stopped? && frames == [] && s'.complete == s.complete
  {
  }

  datatype Move =
    | Open                     // connection, handshake, accepted offer
    | Push(raw: Bytes)         // the sender sends
    | Abandon                  // the sender's user cancels inside the chunk loop
    | Pull                     // the sender receives
    | Deliver                  // the receiver receives
    | Cut(sending: bool)       // the connection dies, possibly under the receiver's own send
    | Solo(action: Action)     // Tear, Restart, CrashInPrepare, Outside, DropDirectory

  predicate CanPush(s: Sender) { s.phase.SendQuery? || s.phase.SendStart? || s.phase.InFile? }

  predicate CanPull(s: Sender) { s.phase.AwaitState? || s.phase.AwaitResult? || s.phase.AwaitComplete? }

  ghost predicate Possible(y: System, m: Move, offer: Offer) {
    match m
    case Open => y.s.phase.Off? && Idle(y.r)
    case Push(raw) => CanPush(y.s) && (y.s.phase.InFile? ==> y.s.next < |offer.files|) && |raw| <= CHUNK_SIZE
    case Abandon => y.s.phase.InFile? && y.s.next < |offer.files| && y.s.bytes < offer.files[y.s.next].size
    case Pull => CanPull(y.s) && y.r.out != []
    case Deliver => y.ch != []
    case Cut(sending) => sending ==> y.ch != []
    case Solo(a) => !a.Accept? && !a.Take? && Enabled(y.r, a)
  }

  function Disconnected(s: Sender): Sender { if Live(s) then s.(phase := Off) else s }

  ghost function Step(y: System, m: Move, offer: Offer, sha: Digest): System
    requires RInv(y.r, sha) && UniqueIds(offer.files) && Possible(y, m, offer)
  {
    match m
    case Open =>
      y.(s := y.s.(phase := SendQuery), r := Next(y.r, Accept(offer), sha), ch := [], ready := Ready(y.r, offer.files))
    case Push(raw) =>
      var (s, frames) := SenderFrame(y.s, offer, raw);
      y.(s := s, ch := y.ch + frames)
    case Abandon => y.(s := y.s.(phase := Stopped), ch := y.ch + [Cancel(offer.transferId)], over := true)
    case Pull => y.(s := SenderReply(y.s, offer, y.r.out[0]), r := y.r.(out := y.r.out[1..]))
    case Deliver =>
      var r := Receive(y.r, Got(y.ch[0], true), sha);
      y.(r := r, ch := y.ch[1..], over := y.over || r.session.phase.Finished?)
    case Cut(sending) =>
      var input := if sending then Got(y.ch[0], false) else Lost;
      var r := Receive(y.r, input, sha);
      ReceiveKeepsInv(y.r, input, sha);
      y.(s := Disconnected(y.s), r := Receive(r, Lost, sha).(out := []), ch := [],
         over := y.over || r.session.phase.Finished?)
    case Solo(a) =>
      var r := Next(y.r, a, sha);
      if a.Restart? || a.CrashInPrepare? then y.(s := Disconnected(y.s), r := r, ch := [], over := false)
      else y.(r := r, over := y.over || a.DropDirectory?)
  }

  // ---- distributed safety, whatever the source file does meanwhile

  ghost predicate SafeInv(y: System, offer: Offer, sha: Digest) {
    && RInv(y.r, sha)
    && (y.r.session.offer == offer || (y.r.out == [] && y.ch == []))
    && (Live(y.s) || !Idle(y.r) ==> y.r.session.offer == offer)
    && (forall i :: 0 <= i < |offer.files| && offer.files[i].id in y.s.complete ==> Holds(y.r.log, offer.files[i]))
    && (Live(y.s) && !y.s.phase.SendQuery? && !y.s.phase.AwaitState? ==>
          y.s.next <= |offer.files| && forall i :: 0 <= i < y.s.next ==> offer.files[i].id in y.s.complete)
    && (y.s.phase.InFile? || y.s.phase.AwaitResult? ==> y.s.next < |offer.files|)
    && (y.s.phase.AwaitComplete? || y.s.phase.Done? ==> forall i :: 0 <= i < |offer.files| ==>
        offer.files[i].id in y.s.complete)
  }

  /** The receiver's log only grows, so what was held once stays on record. */
  lemma LogGrowsOnly(r: Receiver, a: Action, sha: Digest)
    requires RInv(r, sha) && Enabled(r, a)
    ensures r.log <= Next(r, a, sha).log && (!a.Accept? ==> Next(r, a, sha).session.offer == r.session.offer)
  {
    if a.Take? { ReceiveGrowsLog(r, a.input, sha); }
  }

  lemma ReceiveGrowsLog(r: Receiver, input: Input, sha: Digest)
    requires RInv(r, sha)
    ensures r.log <= Receive(r, input, sha).log && Receive(r, input, sha).session.offer == r.session.offer
  {
    if r.session.phase.AwaitEnd? && input.Got? { EndGrowsLog(r, input.frame, input.sendOk, sha); }
    else if r.session.phase.AwaitStart? && input.Got? { StartGrowsLog(r, input.frame); }
  }

  lemma EndGrowsLog(r: Receiver, frame: Frame, sendOk: bool, sha: Digest)
    requires AtEnd(r)
    ensures r.log <= OnEnd(r, frame, sendOk, sha).log && OnEnd(r, frame, sendOk, sha).session.offer == r.session.offer
  {
  }

  lemma StartGrowsLog(r: Receiver, frame: Frame)
    requires r.session.next < |r.session.offer.files| && r.session.next < |r.session.plans|
    ensures OnStart(r, frame).log == r.log && OnStart(r, frame).session.offer == r.session.offer
  {
  }

  lemma HoldsInLonger(log: seq<Held>, longer: seq<Held>, f: FileMeta)
    requires Holds(log, f) && log <= longer
    ensures Holds(longer, f)
  {
    var k :| 0 <= k < |log| && log[k].file == f;
    assert longer[k].file == f;
  }

  lemma SafetyThroughReceiver(y: System, y': System, offer: Offer, sha: Digest)
    requires SafeInv(y, offer, sha) && RInv(y'.r, sha) && y.r.log <= y'.r.log && y'.r.session.offer == y.r.session.offer
    requires y'.s == y.s || y'.s == Disconnected(y.s)
    requires (y'.r.out == [] && y'.ch == []) || y.r.session.offer == offer
    requires Idle(y.r) ==> Idle(y'.r)
    ensures SafeInv(y', offer, sha)
  {
    forall i | 0 <= i < |offer.files| && offer.files[i].id in y'.s.complete ensures Holds(y'.r.log, offer.files[i]) {
      HoldsInLonger(y.r.log, y'.r.log, offer.files[i]);
    }
  }

  /** One receive of the sender: COMPLETE is only ever set on a truthful positive result. */
  lemma PullIsSafe(y: System, offer: Offer, sha: Digest)
    requires SafeInv(y, offer, sha) && UniqueIds(offer.files) && CanPull(y.s) && y.r.out != []
    ensures SafeInv(Step(y, Pull, offer, sha), offer, sha)
  {
    var reply, y' := y.r.out[0], Step(y, Pull, offer, sha);
    assert ReplyOk(reply, offer.files, y.r.log);
    forall k | 0 <= k < |y'.r.out| ensures ReplyOk(y'.r.out[k], offer.files, y.r.log) {
      assert ReplyOk(y.r.out[k + 1], offer.files, y.r.log);
    }
    if y.s.phase.AwaitResult? && y'.s.phase.SendStart? {
      var f := offer.files[y.s.next];
      forall i | 0 <= i < |offer.files| && offer.files[i].id in y'.s.complete ensures Holds(y.r.log, offer.files[i]) {
        if offer.files[i].id == f.id { assert i == y.s.next; }
      }
    }
  }

  lemma CutIsSafe(y: System, sending: bool, offer: Offer, sha: Digest)
    requires SafeInv(y, offer, sha) && UniqueIds(offer.files) && (sending ==> y.ch != [])
    ensures SafeInv(Step(y, Cut(sending), offer, sha), offer, sha)
  {
    var input := if sending then Got(y.ch[0], false) else Lost;
    ReceiveKeepsInv(y.r, input, sha);
    ReceiveGrowsLog(y.r, input, sha);
    var r := Receive(y.r, input, sha);
    ReceiveKeepsInv(r, Lost, sha);
    ReceiveGrowsLog(r, Lost, sha);
    SafetyThroughReceiver(y, Step(y, Cut(sending), offer, sha), offer, sha);
  }

  lemma SoloIsSafe(y: System, a: Action, offer: Offer, sha: Digest)
    requires SafeInv(y, offer, sha) && UniqueIds(offer.files) && Possible(y, Solo(a), offer)
    ensures SafeInv(Step(y, Solo(a), offer, sha), offer, sha)
  {
    NextKeepsInv(y.r, a, sha);
    LogGrowsOnly(y.r, a, sha);
    SafetyThroughReceiver(y, Step(y, Solo(a), offer, sha), offer, sha);
  }

  lemma DeliverIsSafe(y: System, offer: Offer, sha: Digest)
    requires SafeInv(y, offer, sha) && UniqueIds(offer.files) && y.ch != []
    ensures SafeInv(Step(y, Deliver, offer, sha), offer, sha)
  {
    ReceiveKeepsInv(y.r, Got(y.ch[0], true), sha);
    ReceiveGrowsLog(y.r, Got(y.ch[0], true), sha);
    SafetyThroughReceiver(y, Step(y, Deliver, offer, sha), offer, sha);
  }

  lemma StepIsSafe(y: System, m: Move, offer: Offer, sha: Digest)
    requires SafeInv(y, offer, sha) && UniqueIds(offer.files) && Possible(y, m, offer)
    ensures SafeInv(Step(y, m, offer, sha), offer, sha)
  {
    match m
    case Open => NextKeepsInv(y.r, Accept(offer), sha);
    case Push(raw) =>
    case Abandon =>
    case Pull => PullIsSafe(y, offer, sha);
    case Deliver => DeliverIsSafe(y, offer, sha);
    case Cut(sending) => CutIsSafe(y, sending, offer, sha);
    case Solo(a) => SoloIsSafe(y, a, offer, sha);
  }

  ghost predicate Legal(y: System, moves: seq<Move>, offer: Offer, sha: Digest)
    requires SafeInv(y, offer, sha) && UniqueIds(offer.files)
    decreases |moves|
  {
    moves == [] || (Possible(y, moves[0], offer)
                    && (StepIsSafe(y, moves[0], offer, sha);
                        Legal(Step(y, moves[0], offer, sha), moves[1..], offer, sha)))
  }

  ghost function Run(y: System, moves: seq<Move>, offer: Offer, sha: Digest): (y': System)
    requires SafeInv(y, offer, sha) && UniqueIds(offer.files) && Legal(y, moves, offer, sha)
    ensures SafeInv(y', offer, sha)
    decreases |moves|
  {
    if moves == [] then y
    else
      StepIsSafe(y, moves[0], offer, sha);
      Run(Step(y, moves[0], offer, sha), moves[1..], offer, sha)
  }

  /** Distributed safety. In every reachable state, even when the source file changes while it is
      sent: a file the sender has set to COMPLETE is on the receiver's record with the offered size
      and digest; the sender returns normally only with every file COMPLETE; and a session_complete
      in flight means the receiver answers for every offered file. */
  lemma DistributedSafety(d: Disk, moves: seq<Move>, offer: Offer, sha: Digest)
    requires Consistent(d) && PartialsOk(d.partials) && UniqueIds(offer.files)
    requires Legal(Start(d), moves, offer, sha)
    ensures var y := Run(Start(d), moves, offer, sha);
            && (forall i :: 0 <= i < |offer.files| && offer.files[i].id in y.s.complete ==>
                VerifiedOnRecord(y.r.log, offer.files[i], sha))
            && (y.s.phase.Done? ==> forall i :: 0 <= i < |offer.files| ==> offer.files[i].id in y.s.complete)
            && (SessionComplete(offer.transferId) in y.r.out ==>
                  forall i :: 0 <= i < |offer.files| ==> VerifiedOnRecord(y.r.log, offer.files[i], sha))
  {
    var y := Run(Start(d), moves, offer, sha);
    forall i | 0 <= i < |offer.files| && Holds(y.r.log, offer.files[i])
      ensures VerifiedOnRecord(y.r.log, offer.files[i], sha)
    {
      var k :| 0 <= k < |y.r.log| && y.r.log[k].file == offer.files[i];
      assert EntryOk(y.r.log[k], y.r.index, y.r.epoch, sha);
    }
    if SessionComplete(offer.transferId) in y.r.out {
      var k :| 0 <= k < |y.r.out| && y.r.out[k] == SessionComplete(offer.transferId);
      assert ReplyOk(y.r.out[k], offer.files, y.r.log);
    }
  }

  ghost predicate VerifiedOnRecord(log: seq<Held>, f: FileMeta, sha: Digest) {
    exists k :: 0 <= k < |log| && log[k].file == f && |log[k].content| == f.size && sha(log[k].content) == f.sha256
  }
}
