/** The receiving side of a protocol-v3 session as a step machine (core/transfer.py, FileServer).
    One receiver process serves one transfer ID over any number of sessions; inputs are arbitrary.
    A chunk is its header together with the data frame that follows it. */
module Receiver {
  import opened Common
  import opened Lifecycle
  import opened Protocol
  import opened Naming
  import opened Resume

  datatype Frame =
    | Query(transferId: string, files: seq<FileMeta>)
    | FileStart(transferId: string, fileId: string)
    | Chunk(transferId: string, fileId: string, index: int, offset: int, size: int, data: Bytes)
    | FileEnd(transferId: string, fileId: string)
    | Fin(transferId: string)
    | Cancel(transferId: string)
    | Other

  /** What a receive call meets: a frame (and whether the send that may follow succeeds), a frame
      that fails decryption or decoding, or a lost connection. */
  datatype Input = Got(frame: Frame, sendOk: bool) | Garbled | Lost

  datatype Reply =
    | ResumeState(transferId: string, entries: Entries)
    | FileResult(transferId: string, fileId: string, ok: bool)
    | SessionComplete(transferId: string)

  datatype Info = Info(status: Status, resumeOffset: nat, attempt: nat, bytes: nat, finalPath: Option<string>)

  /** History: a file the receiver answered for, either committed by it or re-verified in place. */
  datatype Held = Held(epoch: nat, file: FileMeta, path: string, content: Bytes, counted: nat, committed: bool)

  datatype Refusal = Refusal(from: Status, target: Status)

  datatype Phase = AwaitQuery | AwaitStart | InChunks | AwaitEnd | AwaitFin | Finished | Closed

  datatype Session = Session(offer: Offer, phase: Phase, plans: seq<Plan>, verified: seq<Bytes>, next: nat,
      chunkIndex: nat)

  datatype Receiver = Receiver(disk: Disk, index: map<string, Info>, epoch: nat, session: Session, out: seq<Reply>,
                               log: seq<Held>, refused: seq<Refusal>)

  const NO_OFFER := Offer("", [], 0, None)

  function Fresh(disk: Disk): Receiver {
    Receiver(disk, map[], 0, Session(NO_OFFER, Closed, [], [], 0, 0), [], [], [])
  }

  predicate Idle(r: Receiver) { r.session.phase.Closed? || r.session.phase.Finished? }

  predicate InFile(r: Receiver) { r.session.phase.InChunks? || r.session.phase.AwaitEnd? }

  function Current(r: Receiver): FileMeta
    requires r.session.next < |r.session.offer.files|
  {
    r.session.offer.files[r.session.next]
  }

  function ToPhase(r: Receiver, phase: Phase): Receiver { r.(session := r.session.(phase := phase)) }

  /** set_status on the shared record; a refusal is remembered. */
  function Request(r: Receiver, id: string, target: Status): Receiver
    requires id in r.index
  {
    var info := r.index[id];
    if Judge(info.status, target).Refused? then r.(refused := r.refused + [Refusal(info.status, target)])
    else r.(index := r.index[id := info.(status := target)])
  }

  /** An error inside the try block: the handler's set_status, then the session is over. */
  function Abort(r: Receiver, target: Status): Receiver
    requires r.session.next < |r.session.offer.files| && Current(r).id in r.index
  {
    ToPhase(Request(r, Current(r).id, target), Closed)
  }

  function FinalContent(d: Disk, f: FileMeta, sha: Digest): Bytes {
    if PlanFor(d, f, sha).finalPath.Some? then d.received[PlanFor(d, f, sha).finalPath.value] else []
  }

  function FinalContents(d: Disk, files: seq<FileMeta>, sha: Digest): (contents: seq<Bytes>)
    ensures |contents| == |files| && forall i :: 0 <= i < |files| ==> contents[i] == FinalContent(d, files[i], sha)
  {
    seq(|files|, i requires 0 <= i < |files| => FinalContent(d, files[i], sha))
  }

  function PlanOffsets(plans: seq<Plan>): (offsets: seq<nat>)
    ensures |offsets| == |plans| && forall i :: 0 <= i < |plans| ==> offsets[i] == plans[i].offset
  {
    seq(|plans|, i requires 0 <= i < |plans| => plans[i].offset)
  }

  function OnQuery(r: Receiver, frame: Frame, sendOk: bool, sha: Digest): Receiver {
    var offer := r.session.offer;
    if frame != Query(offer.transferId, offer.files) then ToPhase(r, Closed)
    else
      var plans := Plans(r.disk, offer.files, sha);
      var session := Session(offer, if offer.files == [] then AwaitFin else AwaitStart, plans,
                             FinalContents(r.disk, offer.files, sha), 0, 0);
      var prepared := r.(disk := Prepared(r.disk, offer.files, sha), session := session);
      var state := ResumeState(offer.transferId, EntriesFor(offer.files, PlanOffsets(plans)));
      if sendOk then prepared.(out := r.out + [state])
      else ToPhase(prepared, Closed)
  }

  /** _get_or_create_v3_transfer; None when its own RESUMING request is refused. */
  function GetOrCreate(r: Receiver, id: string, offset: nat): (Receiver, bool) {
    if id !in r.index then
      (r.(index := r.index[id := Info(if offset != 0 then Resuming else Active, offset, 0, offset, None)]), true)
    else if IsTerminal(r.index[id].status) then
      (r.(index := r.index[id := r.index[id].(resumeOffset := offset, attempt := 0, bytes := offset)]), true)
    else if Judge(r.index[id].status, Resuming).Refused? then (Request(r, id, Resuming), false)
    else (r.(index := r.index[id := Info(Resuming, offset, 0, offset, None)]), true)
  }

  function OpenPartial(d: Disk, f: FileMeta): Disk {
    if f.id in d.partials then d else d.(partials := d.partials[f.id := Partial([], f, 0)])
  }

  function OnStart(r: Receiver, frame: Frame): Receiver
    requires r.session.next < |r.session.offer.files| && r.session.next < |r.session.plans|
  {
    var f, plan := Current(r), r.session.plans[r.session.next];
    if frame != FileStart(r.session.offer.transferId, f.id) then ToPhase(r, Closed)
    else
      var (known, ok) := GetOrCreate(r, f.id, plan.offset);
      if !ok then ToPhase(known, Closed)
      else if plan.finalPath.Some? then ToPhase(known, AwaitEnd)
      else
        var active := Request(known, f.id, Active);
        if Judge(known.index[f.id].status, Active).Refused? then Abort(active, Failed)
        else
          active.(disk := OpenPartial(active.disk, f),
                  session := active.session.(phase := if plan.offset < f.size then InChunks else AwaitEnd,
                                             chunkIndex := plan.offset / CHUNK_SIZE))
  }

  /** Writing `data` at `pos`: what was there beyond the end of the write stays. */
  function Overwrite(old_: Bytes, pos: nat, data: Bytes): Bytes {
    if pos <= |old_| then
      old_[..pos] + data + (if pos + |data| <= |old_| then old_[pos + |data|..] else [])
    else old_ + seq(pos - |old_|, _ => 0) + data
  }

  /** A chunk with the expected header whose data frame has the declared length. */
  predicate ChunkFits(r: Receiver, frame: Frame)
    requires r.session.next < |r.session.offer.files| && Current(r).id in r.index
  {
    var f, s, bytes := Current(r), r.session, r.index[Current(r).id].bytes;
    && frame.Chunk?
    && ChunkHeaderOk(frame.transferId, frame.fileId, frame.index, frame.offset, frame.size,
                     s.offer.transferId, f.id, s.chunkIndex, bytes, f.size - bytes)
    && |frame.data| == frame.size
  }

  function Write(r: Receiver, data: Bytes): Receiver
    requires r.session.next < |r.session.offer.files|
    requires Current(r).id in r.index && Current(r).id in r.disk.partials
  {
    var f, s := Current(r), r.session;
    var info, partial := r.index[f.id], r.disk.partials[f.id];
    var written := partial.(bytes := Overwrite(partial.bytes, info.bytes, data), counted := partial.counted + |data|);
    r.(disk := r.disk.(partials := r.disk.partials[f.id := written]),
       index := r.index[f.id := info.(bytes := info.bytes + |data|, attempt := info.attempt + |data|)],
       session := s.(chunkIndex := s.chunkIndex + 1,
                     phase := if info.bytes + |data| < f.size then InChunks else AwaitEnd))
  }

  function OnChunk(r: Receiver, frame: Frame): Receiver
    requires r.session.next < |r.session.offer.files|
    requires Current(r).id in r.index && Current(r).id in r.disk.partials
  {
    if frame.Cancel? then Abort(r, if frame.transferId == r.session.offer.transferId then Cancelled else Failed)
    else if ChunkFits(r, frame) then Write(r, frame.data)
    else Abort(r, Failed)
  }

  /** After verification: counters, COMPLETE, and the positive result. */
  function Conclude(r: Receiver, path: string, sendOk: bool): Receiver
    requires r.session.next < |r.session.offer.files| && Current(r).id in r.index
  {
    var f, s := Current(r), r.session;
    var counted := r.(index := r.index[f.id := r.index[f.id].(bytes := f.size, finalPath := Some(path))]);
    var done := Request(counted, f.id, Complete);
    if Judge(counted.index[f.id].status, Complete).Refused? then Abort(done, Failed)
    else if !sendOk then Abort(done, Interrupted)
    else
      done.(out := r.out + [FileResult(s.offer.transferId, f.id, true)],
            session := s.(next := s.next + 1, phase := if s.next + 1 < |s.offer.files| then AwaitStart else AwaitFin))
  }

  ghost predicate AtEnd(r: Receiver) {
    && r.session.next < |r.session.offer.files| == |r.session.plans| == |r.session.verified|
    && Current(r).id in r.index
    && (r.session.plans[r.session.next].finalPath.None? ==>
          && Current(r).id in r.disk.partials && Current(r).id in r.disk.metadata
          && |r.disk.partials[Current(r).id].bytes| == Current(r).size)
  }

  ghost function OnEnd(r: Receiver, frame: Frame, sendOk: bool, sha: Digest): Receiver
    requires AtEnd(r)
  {
    var f, s := Current(r), r.session;
    if frame != FileEnd(s.offer.transferId, f.id) then Abort(r, Failed)
    else if s.plans[s.next].finalPath.Some? then
      var path := s.plans[s.next].finalPath.value;
      var r' := Conclude(r, path, sendOk);
      if r'.session.phase.Closed? then r'
      else r'.(log := r.log + [Held(r.epoch, f, path, s.verified[s.next], 0, false)])
    else
      var partial := r.disk.partials[f.id];
      if sha(partial.bytes) != f.sha256 then
        if sendOk then Abort(r.(out := r.out + [FileResult(s.offer.transferId, f.id, false)]), Failed)
        else Abort(r, Interrupted)
      else
        var path := FreeName(r.disk.received.Keys, f.name);
        var held := Held(r.epoch, f, path, partial.bytes, partial.counted, true);
        Conclude(r.(disk := Committed(r.disk, f), log := r.log + [held]), path, sendOk)
  }

  function OnFin(r: Receiver, frame: Frame, sendOk: bool): Receiver {
    var tid := r.session.offer.transferId;
    if frame != Fin(tid) || !sendOk then ToPhase(r, Closed)
    else ToPhase(r.(out := r.out + [SessionComplete(tid)], disk := Removed(r.disk)), Finished)
  }

  // ---- the invariant

  ghost predicate Holds(log: seq<Held>, f: FileMeta) {
    exists k :: 0 <= k < |log| && log[k].file == f
  }

  ghost predicate AllHeld(log: seq<Held>, files: seq<FileMeta>, n: nat)
    requires n <= |files|
  {
    forall i :: 0 <= i < n ==> Holds(log, files[i])
  }

  ghost predicate EntryOk(e: Held, index: map<string, Info>, epoch: nat, sha: Digest) {
    && |e.content| == e.file.size && sha(e.content) == e.file.sha256 && e.epoch <= epoch
    && (e.committed ==> e.counted >= e.file.size)
    && (e.committed && e.epoch == epoch ==> e.file.id in index && IsTerminal(index[e.file.id].status))
  }

  ghost predicate LogOk(log: seq<Held>, index: map<string, Info>, epoch: nat, sha: Digest) {
    forall k :: 0 <= k < |log| ==> EntryOk(log[k], index, epoch, sha)
  }

  /** Within one receiver process every file ID is committed at most once. */
  ghost predicate CommittedOnce(log: seq<Held>) {
    forall i, j :: 0 <= i < j < |log| && log[i].committed && log[j].committed && log[i].epoch == log[j].epoch
      ==> log[i].file.id != log[j].file.id
  }

  ghost predicate RefusalsTerminal(refused: seq<Refusal>) {
    forall k :: 0 <= k < |refused| ==> IsTerminal(refused[k].from)
  }

  predicate ReceiverStatus(s: Status) {
    s.Active? || s.Resuming? || s.Interrupted? || s.Complete? || s.Failed? || s.Cancelled?
  }

  ghost predicate IndexOk(index: map<string, Info>) {
    forall id :: id in index ==>
        ReceiverStatus(index[id].status) && index[id].bytes == index[id].resumeOffset + index[id].attempt
  }

  ghost predicate PartialsOk(partials: map<string, Partial>) {
    forall id :: id in partials ==>
        |partials[id].bytes| <= partials[id].under.size && |partials[id].bytes| <= partials[id].counted
  }

  ghost predicate ReplyOk(reply: Reply, files: seq<FileMeta>, log: seq<Held>) {
    match reply
    case FileResult(_, fid, ok) => ok ==> forall j :: 0 <= j < |files| && files[j].id == fid ==> Holds(log, files[j])
    case SessionComplete(_) => AllHeld(log, files, |files|)
    case ResumeState(_, _) => true
  }

  ghost predicate OutOk(out: seq<Reply>, files: seq<FileMeta>, log: seq<Held>) {
    forall k :: 0 <= k < |out| ==> ReplyOk(out[k], files, log)
  }

  predicate SameMeta(f: FileMeta, g: FileMeta) { f.name == g.name && f.size == g.size && f.sha256 == g.sha256 }

  /** A file the session has still to reach: its plan describes what is on disk. */
  ghost predicate Ahead(d: Disk, f: FileMeta, plan: Plan, verified: Bytes, sha: Digest) {
    && Matches(d, f) && d.metadata[f.id].finalPath == plan.finalPath && plan.offset <= f.size
    && (plan.finalPath.Some? ==> plan.offset == f.size == |verified| && sha(verified) == f.sha256)
    && (plan.finalPath.None? ==> plan.offset == if f.id in d.partials then |d.partials[f.id].bytes| else 0)
  }

  ghost predicate AllAhead(d: Disk, s: Session, from: nat, sha: Digest)
    requires |s.plans| == |s.verified| == |s.offer.files|
  {
    forall i :: from <= i < |s.offer.files| ==> Ahead(d, s.offer.files[i], s.plans[i], s.verified[i], sha)
  }

  /** The file being received: the open partial is exactly what has been counted. */
  ghost predicate Here(d: Disk, info: Info, f: FileMeta, plan: Plan, verified: Bytes, phase: Phase, sha: Digest) {
    && Matches(d, f) && d.metadata[f.id].finalPath == plan.finalPath && !info.status.Interrupted?
    && (plan.finalPath.Some? ==> phase.AwaitEnd? && |verified| == f.size == info.bytes && sha(verified) == f.sha256)
    && (plan.finalPath.None? ==>
          && info.status.Active? && f.id in d.partials && SameMeta(d.partials[f.id].under, f)
          && |d.partials[f.id].bytes| == info.bytes
          && (if phase.InChunks? then info.bytes < f.size else info.bytes == f.size))
  }

  ghost predicate SessionOk(d: Disk, index: map<string, Info>, s: Session, log: seq<Held>, sha: Digest) {
    var files := s.offer.files;
    && UniqueIds(files)
    && (!s.phase.Closed? && !s.phase.Finished? && !s.phase.AwaitQuery? ==>
          && |s.plans| == |s.verified| == |files|
          && s.next <= |files| && (s.next == |files| <==> s.phase.AwaitFin?)
          && AllHeld(log, files, s.next)
          && AllAhead(d, s, s.next + 1, sha)
          && (s.phase.AwaitStart? ==> Ahead(d, files[s.next], s.plans[s.next], s.verified[s.next], sha))
          && (s.phase.InChunks? || s.phase.AwaitEnd? ==>
                && files[s.next].id in index
                && Here(d, index[files[s.next].id], files[s.next], s.plans[s.next], s.verified[s.next], s.phase, sha)))
  }

  ghost predicate RInv(r: Receiver, sha: Digest) {
    && Consistent(r.disk) && PartialsOk(r.disk.partials) && IndexOk(r.index)
    && LogOk(r.log, r.index, r.epoch, sha) && CommittedOnce(r.log) && RefusalsTerminal(r.refused)
    && OutOk(r.out, r.session.offer.files, r.log)
    && SessionOk(r.disk, r.index, r.session, r.log, sha)
  }

  // ---- steps

  ghost function Receive(r: Receiver, input: Input, sha: Digest): Receiver
    requires RInv(r, sha)
  {
    match r.session.phase
    case Closed => r
    case Finished => r
    case AwaitQuery => if input.Got? then OnQuery(r, input.frame, input.sendOk, sha) else ToPhase(r, Closed)
    case AwaitStart => if input.Got? then OnStart(r, input.frame) else ToPhase(r, Closed)
    case InChunks =>
      if input.Got? then OnChunk(r, input.frame) else Abort(r, if input.Lost? then Interrupted else Failed)
    case AwaitEnd =>
      if input.Got? then OnEnd(r, input.frame, input.sendOk, sha)
      else Abort(r, if input.Lost? then Interrupted else Failed)
    case AwaitFin => if input.Got? then OnFin(r, input.frame, input.sendOk) else ToPhase(r, Closed)
  }

  /** Everything that can happen to one receiver: an accepted offer, an input, a suffix of a partial
      lost with the machine, a restart, a crash inside prepare, the receive directory changed by
      anyone, the partial directory deleted between sessions. */
  datatype Action =
    | Accept(offer: Offer)
    | Take(input: Input)
    | Tear(id: string, keep: nat)
    | Restart
    | CrashInPrepare(unlinks: nat)
    | Outside(received: map<string, Bytes>)
    | DropDirectory

  ghost predicate Enabled(r: Receiver, a: Action) {
    match a
    case Accept(offer) => Idle(r) && UniqueIds(offer.files)
    case Take(_) => true
    case Tear(id, keep) => Idle(r) && id in r.disk.partials && keep <= |r.disk.partials[id].bytes|
    case Restart => true
    case CrashInPrepare(k) => r.session.phase.AwaitQuery? && k <= |r.session.offer.files|
    case Outside(_) => true
    case DropDirectory => Idle(r)
  }

  function Rebooted(r: Receiver): Receiver {
    r.(index := map[], epoch := r.epoch + 1, out := [], session := r.session.(phase := Closed))
  }

  ghost function Next(r: Receiver, a: Action, sha: Digest): Receiver
    requires RInv(r, sha) && Enabled(r, a)
  {
    match a
    case Accept(offer) => r.(session := Session(offer, AwaitQuery, [], [], 0, 0), out := [])
    case Take(input) => Receive(r, input, sha)
    case Tear(id, keep) =>
      var partial := r.disk.partials[id];
      r.(disk := r.disk.(partials := r.disk.partials[id := partial.(bytes := partial.bytes[..keep])]))
    case Restart => Rebooted(r)
    case CrashInPrepare(k) => Rebooted(r.(disk := DuringPrepare(r.disk, r.session.offer.files, k)))
    case Outside(received) => r.(disk := r.disk.(received := received))
    case DropDirectory => r.(disk := Removed(r.disk))
  }
}
