/** Resume correctness with an unchanged source: partials are prefixes of it and whatever is
    committed is exactly it, over every cut, tear and restart. */
module Fidelity {
  import opened Common
  import opened Lifecycle
  import opened Protocol
  import opened Naming
  import opened Resume
  import opened Receiver
  import opened ReceiverSafety
  import opened System

  type Source = FileMeta -> Bytes

  /** The files the sender hashed when it made the offer. */
  ghost predicate Hashed(source: Source, files: seq<FileMeta>, sha: Digest) {
    forall i :: 0 <= i < |files| ==> |source(files[i])| == files[i].size && sha(source(files[i])) == files[i].sha256
  }

  /** file_handle.read(CHUNK_SIZE) at `pos` of an unchanged file. */
  function ReadAt(content: Bytes, pos: nat): Bytes
    requires pos <= |content|
  {
    content[pos..Min(pos + CHUNK_SIZE, |content|)]
  }

  ghost predicate FrameTrue(frame: Frame, files: seq<FileMeta>, source: Source) {
    frame.Chunk? ==> forall i :: 0 <= i < |files| && files[i].id == frame.fileId ==>
      && 0 <= frame.offset <= |source(files[i])|
      && frame.data <= source(files[i])[frame.offset..]
  }

  ghost predicate PartialTrue(d: Disk, f: FileMeta, source: Source) {
    Matches(d, f) && f.id in d.partials ==> d.partials[f.id].bytes <= source(f)
  }

  ghost predicate FinalTrue(d: Disk, f: FileMeta, source: Source) {
    Matches(d, f) && d.metadata[f.id].finalPath.Some? ==>
      d.metadata[f.id].finalPath.value in d.received && d.received[d.metadata[f.id].finalPath.value] == source(f)
  }

  ghost predicate DiskTrue(d: Disk, files: seq<FileMeta>, source: Source) {
    forall i :: 0 <= i < |files| ==> PartialTrue(d, files[i], source) && FinalTrue(d, files[i], source)
  }

  /** Every file answered for is in place, and its content is the source's. */
  ghost predicate LogTrue(log: seq<Held>, received: map<string, Bytes>, source: Source) {
    forall k :: 0 <= k < |log| ==>
      log[k].path in received && received[log[k].path] == log[k].content == source(log[k].file)
  }

  ghost predicate VerifiedTrue(s: Session, received: map<string, Bytes>, source: Source) {
    forall i :: 0 <= i < |s.offer.files| && i < |s.plans| && i < |s.verified| && s.plans[i].finalPath.Some? ==>
      s.plans[i].finalPath.value in received
      && received[s.plans[i].finalPath.value] == s.verified[i] == source(s.offer.files[i])
  }

  ghost predicate ReceiverTrue(r: Receiver, files: seq<FileMeta>, source: Source) {
    && DiskTrue(r.disk, files, source)
    && LogTrue(r.log, r.disk.received, source)
    && VerifiedTrue(r.session, r.disk.received, source)
  }

  /** The receive directory keeps what it had. */
  ghost predicate OnlyAdds(before: map<string, Bytes>, after: map<string, Bytes>) {
    forall name :: name in before ==> name in after && after[name] == before[name]
  }

  lemma QueryStaysTrue(r: Receiver, frame: Frame, sendOk: bool, source: Source, sha: Digest)
    requires ReceiverTrue(r, r.session.offer.files, source) && UniqueIds(r.session.offer.files)
    ensures ReceiverTrue(OnQuery(r, frame, sendOk, sha), r.session.offer.files, source)
  {
    var files := r.session.offer.files;
    if frame == Query(r.session.offer.transferId, files) {
      var d := Prepared(r.disk, files, sha);
      forall i | 0 <= i < |files| ensures PartialTrue(d, files[i], source) && FinalTrue(d, files[i], source) {
        PreparedAt(r.disk, files, sha, i);
        assert PartialTrue(r.disk, files[i], source) && FinalTrue(r.disk, files[i], source);
        if files[i].id in d.partials { assert !Unlinks(r.disk, files[i]); }
      }
      var r' := OnQuery(r, frame, sendOk, sha);
      forall i | 0 <= i < |files| && r'.session.plans[i].finalPath.Some?
        ensures r'.session.plans[i].finalPath.value in d.received
                && d.received[r'.session.plans[i].finalPath.value] == r'.session.verified[i] == source(files[i])
      {
        assert FinalTrue(r.disk, files[i], source);
      }
    }
  }

  lemma IndexOnly(r: Receiver, id: string, offset: nat, target: Status)
    ensures var r' := GetOrCreate(r, id, offset).0;
            r'.disk == r.disk && r'.log == r.log && r'.session == r.session
    ensures id in r.index ==> var r' := Request(r, id, target);
            r'.disk == r.disk && r'.log == r.log && r'.session == r.session
  {
  }

  /** file_start leaves the disk alone or creates one empty partial. */
  lemma StartTouches(r: Receiver, frame: Frame)
    requires r.session.next < |r.session.offer.files| && r.session.next < |r.session.plans|
    ensures var r' := OnStart(r, frame);
            && (r'.disk == r.disk || r'.disk == OpenPartial(r.disk, Current(r))) && r'.log == r.log
            && r'.session.offer == r.session.offer
            && r'.session.plans == r.session.plans
            && r'.session.verified == r.session.verified
  {
    var f, plan := Current(r), r.session.plans[r.session.next];
    var (known, ok) := GetOrCreate(r, f.id, plan.offset);
    IndexOnly(r, f.id, plan.offset, Active);
    IndexOnly(known, f.id, plan.offset, Active);
    if f.id in known.index { IndexOnly(Request(known, f.id, Active), f.id, plan.offset, Failed); }
  }

  lemma StartStaysTrue(r: Receiver, frame: Frame, source: Source)
    requires ReceiverTrue(r, r.session.offer.files, source)
    requires r.session.next < |r.session.offer.files| && r.session.next < |r.session.plans|
    ensures ReceiverTrue(OnStart(r, frame), r.session.offer.files, source)
  {
    StartTouches(r, frame);
    var d, files := OpenPartial(r.disk, Current(r)), r.session.offer.files;
    forall i | 0 <= i < |files| ensures PartialTrue(d, files[i], source) && FinalTrue(d, files[i], source) {
      assert PartialTrue(r.disk, files[i], source) && FinalTrue(r.disk, files[i], source);
    }
  }

  lemma PrefixGrows(bytes: Bytes, data: Bytes, whole: Bytes)
    requires bytes <= whole && data <= whole[|bytes|..]
    ensures bytes + data <= whole
  {
  }

  lemma ChunkStaysTrue(r: Receiver, frame: Frame, source: Source, sha: Digest)
    requires ReceiverTrue(r, r.session.offer.files, source) && FrameTrue(frame, r.session.offer.files, source)
    requires RInv(r, sha) && r.session.phase.InChunks?
    ensures ReceiverTrue(OnChunk(r, frame), r.session.offer.files, source)
  {
    var r', files, f := OnChunk(r, frame), r.session.offer.files, Current(r);
    if !frame.Cancel? && ChunkFits(r, frame) {
      WriteKeepsInv(r, frame.data, sha);
      assert PartialTrue(r.disk, f, source);
      PrefixGrows(r.disk.partials[f.id].bytes, frame.data, source(f));
      forall i | 0 <= i < |files|
        ensures PartialTrue(r'.disk, files[i], source) && FinalTrue(r'.disk, files[i], source)
      {
        assert PartialTrue(r.disk, files[i], source) && FinalTrue(r.disk, files[i], source);
        if files[i].id == f.id { assert i == r.session.next; }
      }
    }
  }

  /** Names that only appear keep every path in place. */
  lemma AddingKeepsTrue(r: Receiver, received: map<string, Bytes>, files: seq<FileMeta>, source: Source)
    requires ReceiverTrue(r, files, source) && OnlyAdds(r.disk.received, received)
    ensures ReceiverTrue(r.(disk := r.disk.(received := received)), files, source)
  {
    var d := r.disk.(received := received);
    forall i | 0 <= i < |files| ensures PartialTrue(d, files[i], source) && FinalTrue(d, files[i], source) {
      assert PartialTrue(r.disk, files[i], source) && FinalTrue(r.disk, files[i], source);
    }
  }

  lemma CommitStaysTrue(r: Receiver, source: Source, sha: Digest)
    requires ReceiverTrue(r, r.session.offer.files, source) && Hashed(source, r.session.offer.files, sha)
    requires RInv(r, sha) && r.session.phase.AwaitEnd? && r.session.plans[r.session.next].finalPath.None?
    ensures var f, partial := Current(r), r.disk.partials[Current(r).id];
            var path := FreeName(r.disk.received.Keys, f.name);
            var held := Held(r.epoch, f, path, partial.bytes, partial.counted, true);
            && partial.bytes == source(f)
            && ReceiverTrue(r.(disk := Committed(r.disk, f), log := r.log + [held]), r.session.offer.files, source)
  {
    var f, partial, files := Current(r), r.disk.partials[Current(r).id], r.session.offer.files;
    assert PartialTrue(r.disk, f, source);
    assert partial.bytes == source(f);
    var path, d := FreeName(r.disk.received.Keys, f.name), Committed(r.disk, f);
    AddingKeepsTrue(r, d.received, files, source);
    var added := r.disk.(received := d.received);
    forall i | 0 <= i < |files| ensures PartialTrue(d, files[i], source) && FinalTrue(d, files[i], source) {
      assert PartialTrue(added, files[i], source) && FinalTrue(added, files[i], source);
      if files[i].id == f.id { assert i == r.session.next; }
    }
  }

  lemma EndStaysTrue(r: Receiver, frame: Frame, sendOk: bool, source: Source, sha: Digest)
    requires ReceiverTrue(r, r.session.offer.files, source) && Hashed(source, r.session.offer.files, sha)
    requires RInv(r, sha) && r.session.phase.AwaitEnd?
    ensures ReceiverTrue(OnEnd(r, frame, sendOk, sha), r.session.offer.files, source)
  {
    var f, s := Current(r), r.session;
    if frame == FileEnd(s.offer.transferId, f.id) {
      if s.plans[s.next].finalPath.Some? {
        ConcludeTouches(r, s.plans[s.next].finalPath.value, sendOk);
      } else {
        CommitStaysTrue(r, source, sha);
        var partial := r.disk.partials[f.id];
        var path := FreeName(r.disk.received.Keys, f.name);
        var held := Held(r.epoch, f, path, partial.bytes, partial.counted, true);
        ConcludeTouches(r.(disk := Committed(r.disk, f), log := r.log + [held]), path, sendOk);
      }
    }
  }

  lemma ConcludeTouches(r: Receiver, path: string, sendOk: bool)
    requires r.session.next < |r.session.offer.files| && Current(r).id in r.index
    ensures var r' := Conclude(r, path, sendOk);
            && r'.disk == r.disk && r'.log == r.log && r'.epoch == r.epoch && r'.session.offer == r.session.offer
            && r'.session.plans == r.session.plans && r'.session.verified == r.session.verified
  {
  }

  lemma ReceiveStaysTrue(r: Receiver, input: Input, source: Source, sha: Digest)
    requires ReceiverTrue(r, r.session.offer.files, source) && Hashed(source, r.session.offer.files, sha)
    requires RInv(r, sha) && (input.Got? ==> FrameTrue(input.frame, r.session.offer.files, source))
    ensures ReceiverTrue(Receive(r, input, sha), r.session.offer.files, source)
  {
    match r.session.phase
    case Closed =>
    case Finished =>
    case AwaitFin => if input.Got? { FinStaysTrue(r, input.frame, input.sendOk, source); }
    case AwaitQuery => if input.Got? { QueryStaysTrue(r, input.frame, input.sendOk, source, sha); }
    case AwaitStart => if input.Got? { StartStaysTrue(r, input.frame, source); }
    case InChunks => if input.Got? { ChunkStaysTrue(r, input.frame, source, sha); }
    case AwaitEnd => if input.Got? { EndStaysTrue(r, input.frame, input.sendOk, source, sha); }
  }

  lemma FinStaysTrue(r: Receiver, frame: Frame, sendOk: bool, source: Source)
    requires ReceiverTrue(r, r.session.offer.files, source)
    ensures ReceiverTrue(OnFin(r, frame, sendOk), r.session.offer.files, source)
  {
  }

  // ---- the whole system

  /** Moves of an unchanged source in a receive directory nobody else removes from. */
  ghost predicate Faithful(y: System, m: Move, offer: Offer, source: Source) {
    match m
    case Push(raw) =>
      y.s.phase.InFile? && y.s.next < |offer.files| && y.s.bytes < |source(offer.files[y.s.next])|
      ==> raw == ReadAt(source(offer.files[y.s.next]), y.s.bytes)
    case Solo(Outside(received)) => OnlyAdds(y.r.disk.received, received)
    case _ => true
  }

  ghost predicate TrueInv(y: System, offer: Offer, source: Source, sha: Digest) {
    && SafeInv(y, offer, sha)
    && ReceiverTrue(y.r, offer.files, source)
    && (forall k :: 0 <= k < |y.ch| ==> FrameTrue(y.ch[k], offer.files, source))
  }

  lemma TakeStaysTrue(r: Receiver, input: Input, offer: Offer, source: Source, sha: Digest)
    requires RInv(r, sha) && ReceiverTrue(r, offer.files, source) && Hashed(source, offer.files, sha)
    requires Idle(r) || r.session.offer == offer
    requires input.Got? ==> FrameTrue(input.frame, offer.files, source)
    ensures ReceiverTrue(Receive(r, input, sha), offer.files, source)
  {
    if !Idle(r) { ReceiveStaysTrue(r, input, source, sha); }
  }

  lemma CutStaysTrue(y: System, sending: bool, offer: Offer, source: Source, sha: Digest)
    requires TrueInv(y, offer, source, sha) && Hashed(source, offer.files, sha) && UniqueIds(offer.files)
    requires sending ==> y.ch != []
    ensures TrueInv(Step(y, Cut(sending), offer, sha), offer, source, sha)
  {
    CutIsSafe(y, sending, offer, sha);
    var input := if sending then Got(y.ch[0], false) else Lost;
    ReceiveKeepsInv(y.r, input, sha);
    ReceiveGrowsLog(y.r, input, sha);
    TakeStaysTrue(y.r, input, offer, source, sha);
    var r := Receive(y.r, input, sha);
    TakeStaysTrue(r, Lost, offer, source, sha);
    CutLeaves(y, Step(y, Cut(sending), offer, sha), Receive(r, Lost, sha), offer, source, sha);
  }

  lemma CutLeaves(y: System, y': System, r: Receiver, offer: Offer, source: Source, sha: Digest)
    requires SafeInv(y', offer, sha) && ReceiverTrue(r, offer.files, source) && y'.r == r.(out := []) && y'.ch == []
    ensures TrueInv(y', offer, source, sha)
  {
  }

  lemma ShrunkStaysTrue(r: Receiver, partials: map<string, Partial>, files: seq<FileMeta>, source: Source)
    requires ReceiverTrue(r, files, source)
    requires forall id :: id in partials ==> id in r.disk.partials && partials[id].bytes <= r.disk.partials[id].bytes
    ensures ReceiverTrue(r.(disk := r.disk.(partials := partials)), files, source)
  {
    var d := r.disk.(partials := partials);
    forall i | 0 <= i < |files| ensures PartialTrue(d, files[i], source) && FinalTrue(d, files[i], source) {
      assert PartialTrue(r.disk, files[i], source) && FinalTrue(r.disk, files[i], source);
    }
  }

  lemma SoloStaysTrue(y: System, a: Action, offer: Offer, source: Source, sha: Digest)
    requires TrueInv(y, offer, source, sha) && UniqueIds(offer.files) && Possible(y, Solo(a), offer)
    requires Faithful(y, Solo(a), offer, source)
    ensures TrueInv(Step(y, Solo(a), offer, sha), offer, source, sha)
  {
    SoloIsSafe(y, a, offer, sha);
    match a
    case Tear(id, keep) => ShrunkStaysTrue(y.r, Next(y.r, a, sha).disk.partials, offer.files, source);
    case CrashInPrepare(k) => ShrunkStaysTrue(y.r, Next(y.r, a, sha).disk.partials, offer.files, source);
    case Outside(received) => AddingKeepsTrue(y.r, received, offer.files, source);
    case _ =>
  }

  lemma PushStaysTrue(y: System, raw: Bytes, offer: Offer, source: Source, sha: Digest)
    requires TrueInv(y, offer, source, sha) && Hashed(source, offer.files, sha) && UniqueIds(offer.files)
    requires Possible(y, Push(raw), offer) && Faithful(y, Push(raw), offer, source)
    ensures TrueInv(Step(y, Push(raw), offer, sha), offer, source, sha)
  {
    StepIsSafe(y, Push(raw), offer, sha);
  }

  lemma StepStaysTrue(y: System, m: Move, offer: Offer, source: Source, sha: Digest)
    requires TrueInv(y, offer, source, sha) && Hashed(source, offer.files, sha) && UniqueIds(offer.files)
    requires Possible(y, m, offer) && Faithful(y, m, offer, source)
    ensures TrueInv(Step(y, m, offer, sha), offer, source, sha)
  {
    StepIsSafe(y, m, offer, sha);
    match m
    case Open =>
    case Push(raw) => PushStaysTrue(y, raw, offer, source, sha);
    case Abandon =>
    case Pull =>
    case Deliver => TakeStaysTrue(y.r, Got(y.ch[0], true), offer, source, sha);
    case Cut(sending) => CutStaysTrue(y, sending, offer, source, sha);
    case Solo(a) => SoloStaysTrue(y, a, offer, source, sha);
  }

  ghost predicate AllFaithful(y: System, moves: seq<Move>, offer: Offer, source: Source, sha: Digest)
    requires SafeInv(y, offer, sha) && UniqueIds(offer.files) && Legal(y, moves, offer, sha)
    decreases |moves|
  {
    moves == [] || (Faithful(y, moves[0], offer, source)
                    && (StepIsSafe(y, moves[0], offer, sha);
                        AllFaithful(Step(y, moves[0], offer, sha), moves[1..], offer, source, sha)))
  }

  lemma {:induction false} RunStaysTrue(y: System, moves: seq<Move>, offer: Offer, source: Source, sha: Digest)
    requires TrueInv(y, offer, source, sha) && Hashed(source, offer.files, sha) && UniqueIds(offer.files)
    requires Legal(y, moves, offer, sha) && AllFaithful(y, moves, offer, source, sha)
    ensures TrueInv(Run(y, moves, offer, sha), offer, source, sha)
    decreases |moves|
  {
    if moves != [] {
      StepStaysTrue(y, moves[0], offer, source, sha);
      RunStaysTrue(Step(y, moves[0], offer, sha), moves[1..], offer, source, sha);
    }
  }

  /** A new transfer ID: no metadata under it yet; stale partials and any received files may exist. */
  ghost predicate NewTransfer(d: Disk) { d.metadata == map[] && PartialsOk(d.partials) }

  /** Resume correctness. After any number of sessions cut at any step, with torn writes, restarts
      and crashes inside prepare: a partial standing under its metadata is a prefix of the source,
      and everything answered for is in the receive directory and is exactly the source. */
  lemma ResumeCorrectness(d: Disk, moves: seq<Move>, offer: Offer, source: Source, sha: Digest)
    requires NewTransfer(d) && Hashed(source, offer.files, sha) && UniqueIds(offer.files)
    requires Legal(Start(d), moves, offer, sha) && AllFaithful(Start(d), moves, offer, source, sha)
    ensures var r := Run(Start(d), moves, offer, sha).r;
            && (forall i :: 0 <= i < |offer.files|
                            && Matches(r.disk, offer.files[i]) && offer.files[i].id in r.disk.partials
                  ==> r.disk.partials[offer.files[i].id].bytes <= source(offer.files[i]))
            && (forall k :: 0 <= k < |r.log| ==>
                  r.log[k].path in r.disk.received && r.disk.received[r.log[k].path] == source(r.log[k].file))
  {
    RunStaysTrue(Start(d), moves, offer, source, sha);
    var r := Run(Start(d), moves, offer, sha).r;
    forall i | 0 <= i < |offer.files| && Matches(r.disk, offer.files[i]) && offer.files[i].id in r.disk.partials
      ensures r.disk.partials[offer.files[i].id].bytes <= source(offer.files[i])
    {
      assert PartialTrue(r.disk, offer.files[i], source);
    }
  }
}
