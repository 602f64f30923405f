/** Files that others add to the receive directory do not disturb a running session: two receivers
    that differ only in what is there, and so in the names they commit under, stay alike. */
module Twins {
  import opened Common
  import opened Lifecycle
  import opened Protocol
  import opened Naming
  import opened Resume
  import opened Receiver
  import opened ReceiverSafety
  import opened System
  import opened Fidelity
  import opened Lockstep

  predicate TwinPlan(a: Plan, b: Plan) { a.offset == b.offset && a.finalPath.Some? == b.finalPath.Some? }

  predicate TwinInfo(a: Info, b: Info) {
    a.status == b.status && a.resumeOffset == b.resumeOffset && a.attempt == b.attempt && a.bytes == b.bytes
  }

  predicate TwinRecord(a: Record, b: Record) {
    a.name == b.name && a.size == b.size && a.sha256 == b.sha256 && a.finalPath.Some? == b.finalPath.Some?
  }

  ghost predicate TwinIndex(a: map<string, Info>, b: map<string, Info>) {
    a.Keys == b.Keys && forall id :: id in a ==> TwinInfo(a[id], b[id])
  }

  ghost predicate TwinMetadata(a: map<string, Record>, b: map<string, Record>) {
    a.Keys == b.Keys && forall id :: id in a ==> TwinRecord(a[id], b[id])
  }

  ghost predicate TwinDisk(a: Disk, b: Disk) { a.partials == b.partials && TwinMetadata(a.metadata, b.metadata) }

  ghost predicate TwinSession(a: Session, b: Session) {
    && a.offer == b.offer && a.phase == b.phase && a.next == b.next && a.chunkIndex == b.chunkIndex
    && |a.plans| == |b.plans| && forall i :: 0 <= i < |a.plans| ==> TwinPlan(a.plans[i], b.plans[i])
  }

  ghost predicate Twin(a: Receiver, b: Receiver) {
    TwinDisk(a.disk, b.disk) && TwinIndex(a.index, b.index) && TwinSession(a.session, b.session) && a.out == b.out
  }

  lemma TwinRequest(a: Receiver, b: Receiver, id: string, target: Status)
    requires Twin(a, b) && id in a.index
    ensures Twin(Request(a, id, target), Request(b, id, target))
  {
  }

  lemma TwinAbort(a: Receiver, b: Receiver, target: Status)
    requires Twin(a, b) && a.session.next < |a.session.offer.files| && Current(a).id in a.index
    ensures Twin(Abort(a, target), Abort(b, target))
  {
    TwinRequest(a, b, Current(a).id, target);
  }

  lemma TwinLookup(a: Receiver, b: Receiver, id: string, offset: nat)
    requires Twin(a, b)
    ensures TwinInfo(GetOrCreate(a, id, offset).0.index[id], GetOrCreate(b, id, offset).0.index[id])
    ensures GetOrCreate(a, id, offset).1 == GetOrCreate(b, id, offset).1
  {
    assert id in a.index ==> TwinInfo(a.index[id], b.index[id]);
  }

  lemma TwinGetOrCreate(a: Receiver, b: Receiver, id: string, offset: nat)
    requires Twin(a, b)
    ensures Twin(GetOrCreate(a, id, offset).0, GetOrCreate(b, id, offset).0)
    ensures GetOrCreate(a, id, offset).1 == GetOrCreate(b, id, offset).1
    ensures id in GetOrCreate(a, id, offset).0.index
    ensures GetOrCreate(a, id, offset).0.session == a.session && GetOrCreate(b, id, offset).0.session == b.session
  {
    var x, y := GetOrCreate(a, id, offset).0, GetOrCreate(b, id, offset).0;
    LookupLeaves(a, id, offset);
    LookupLeaves(b, id, offset);
    TwinLookup(a, b, id, offset);
    forall k | k in x.index ensures TwinInfo(x.index[k], y.index[k]) {
      assert k != id ==> TwinInfo(a.index[k], b.index[k]);
    }
  }

  lemma TwinStart(a: Receiver, b: Receiver, frame: Frame)
    requires Twin(a, b) && a.session.next < |a.session.offer.files| && a.session.next < |a.session.plans|
    ensures Twin(OnStart(a, frame), OnStart(b, frame))
  {
    var f, plan := Current(a), a.session.plans[a.session.next];
    TwinGetOrCreate(a, b, f.id, plan.offset);
    var (x, ok) := GetOrCreate(a, f.id, plan.offset);
    var (y, _) := GetOrCreate(b, f.id, plan.offset);
    assert TwinPlan(plan, b.session.plans[b.session.next]) && TwinInfo(x.index[f.id], y.index[f.id]);
    if frame == FileStart(a.session.offer.transferId, f.id) && ok && plan.finalPath.None? {
      TwinRequest(x, y, f.id, Active);
      var v, w := Request(x, f.id, Active), Request(y, f.id, Active);
      if Judge(x.index[f.id].status, Active).Refused? {
        TwinAbort(v, w, Failed);
      } else {
        TwinOpened(v, w, f, plan);
      }
    }
  }

  lemma TwinOpened(v: Receiver, w: Receiver, f: FileMeta, plan: Plan)
    requires Twin(v, w)
    ensures var phase := if plan.offset < f.size then InChunks else AwaitEnd;
            var index := plan.offset / CHUNK_SIZE;
            Twin(v.(disk := OpenPartial(v.disk, f), session := v.session.(phase := phase, chunkIndex := index)),
                 w.(disk := OpenPartial(w.disk, f), session := w.session.(phase := phase, chunkIndex := index)))
  {
  }

  lemma TwinChunk(a: Receiver, b: Receiver, frame: Frame)
    requires Twin(a, b) && a.session.next < |a.session.offer.files|
    requires Current(a).id in a.index && Current(a).id in a.disk.partials
    ensures Twin(OnChunk(a, frame), OnChunk(b, frame))
  {
    assert TwinInfo(a.index[Current(a).id], b.index[Current(a).id]);
    if frame.Cancel? {
      TwinAbort(a, b, if frame.transferId == a.session.offer.transferId then Cancelled else Failed);
    } else if !ChunkFits(a, frame) {
      TwinAbort(a, b, Failed);
    } else {
      TwinWrite(a, b, frame.data);
    }
  }

  lemma TwinWrite(a: Receiver, b: Receiver, data: Bytes)
    requires Twin(a, b) && a.session.next < |a.session.offer.files|
    requires Current(a).id in a.index && Current(a).id in a.disk.partials
    ensures Twin(Write(a, data), Write(b, data))
  {
    assert TwinInfo(a.index[Current(a).id], b.index[Current(a).id]);
  }

  lemma TwinConclude(a: Receiver, b: Receiver, p: string, q: string)
    requires Twin(a, b) && a.session.next < |a.session.offer.files| && Current(a).id in a.index
    ensures Twin(Conclude(a, p, true), Conclude(b, q, true))
  {
    var f := Current(a);
    assert TwinInfo(a.index[f.id], b.index[f.id]);
    var x := a.(index := a.index[f.id := a.index[f.id].(bytes := f.size, finalPath := Some(p))]);
    var y := b.(index := b.index[f.id := b.index[f.id].(bytes := f.size, finalPath := Some(q))]);
    assert Twin(x, y);
    TwinRequest(x, y, f.id, Complete);
    if Judge(x.index[f.id].status, Complete).Refused? {
      TwinAbort(Request(x, f.id, Complete), Request(y, f.id, Complete), Failed);
    }
  }

  lemma TwinEnd(a: Receiver, b: Receiver, frame: Frame, sha: Digest)
    requires AtEnd(a) && AtEnd(b) && Twin(a, b)
    ensures Twin(OnEnd(a, frame, true, sha), OnEnd(b, frame, true, sha))
  {
    var f, s, z := Current(a), a.session, b.session;
    assert TwinPlan(s.plans[s.next], z.plans[z.next]);
    if frame != FileEnd(s.offer.transferId, f.id) {
      TwinAbort(a, b, Failed);
    } else if s.plans[s.next].finalPath.Some? {
      TwinConclude(a, b, s.plans[s.next].finalPath.value, z.plans[z.next].finalPath.value);
    } else if sha(a.disk.partials[f.id].bytes) != f.sha256 {
      var no := [FileResult(s.offer.transferId, f.id, false)];
      TwinAbort(a.(out := a.out + no), b.(out := b.out + no), Failed);
    } else {
      TwinCommit(a, b, frame, sha);
    }
  }

  lemma TwinCommit(a: Receiver, b: Receiver, frame: Frame, sha: Digest)
    requires AtEnd(a) && AtEnd(b) && Twin(a, b) && a.session.plans[a.session.next].finalPath.None?
    requires frame == FileEnd(a.session.offer.transferId, Current(a).id)
    requires sha(a.disk.partials[Current(a).id].bytes) == Current(a).sha256
    ensures Twin(OnEnd(a, frame, true, sha), OnEnd(b, frame, true, sha))
  {
    var f := Current(a);
    assert TwinRecord(a.disk.metadata[f.id], b.disk.metadata[f.id]);
    assert TwinPlan(a.session.plans[a.session.next], b.session.plans[b.session.next]);
    var p, q := FreeName(a.disk.received.Keys, f.name), FreeName(b.disk.received.Keys, f.name);
    var held := Held(a.epoch, f, p, a.disk.partials[f.id].bytes, a.disk.partials[f.id].counted, true);
    var held' := Held(b.epoch, f, q, b.disk.partials[f.id].bytes, b.disk.partials[f.id].counted, true);
    var x := a.(disk := Committed(a.disk, f), log := a.log + [held]);
    var y := b.(disk := Committed(b.disk, f), log := b.log + [held']);
    assert TwinDisk(x.disk, y.disk);
    TwinConclude(x, y, p, q);
  }

  lemma TwinFin(a: Receiver, b: Receiver, frame: Frame)
    requires Twin(a, b)
    ensures Twin(OnFin(a, frame, true), OnFin(b, frame, true))
  {
  }

  lemma TwinReceive(a: Receiver, b: Receiver, frame: Frame, sha: Digest)
    requires RInv(a, sha) && RInv(b, sha) && Twin(a, b) && !a.session.phase.AwaitQuery?
    ensures Twin(Receive(a, Got(frame, true), sha), Receive(b, Got(frame, true), sha))
  {
    match a.session.phase
    case Closed =>
    case Finished =>
    case AwaitStart => TwinStart(a, b, frame);
    case InChunks => TwinChunk(a, b, frame);
    case AwaitEnd => TwinEnd(a, b, frame, sha);
    case AwaitFin => TwinFin(a, b, frame);
  }

  lemma NoSecondQuery(r: Receiver, frame: Frame, sha: Digest)
    requires RInv(r, sha)
    ensures !Receive(r, Got(frame, true), sha).session.phase.AwaitQuery?
  {
    match r.session.phase
    case AwaitStart => NoQueryAfterStart(r, frame);
    case AwaitEnd => NoQueryAfterEnd(r, frame, sha);
    case _ =>
  }

  lemma NoQueryAfterStart(r: Receiver, frame: Frame)
    requires r.session.next < |r.session.offer.files| && r.session.next < |r.session.plans|
    requires r.session.phase.AwaitStart?
    ensures !OnStart(r, frame).session.phase.AwaitQuery?
  {
  }

  lemma NoQueryAfterEnd(r: Receiver, frame: Frame, sha: Digest)
    requires AtEnd(r) && r.session.phase.AwaitEnd?
    ensures !OnEnd(r, frame, true, sha).session.phase.AwaitQuery?
  {
  }

  lemma {:induction false} TwinDrain(a: Receiver, b: Receiver, ch: seq<Frame>, sha: Digest)
    requires RInv(a, sha) && RInv(b, sha) && Twin(a, b) && !a.session.phase.AwaitQuery?
    ensures Twin(Drain(a, ch, sha), Drain(b, ch, sha))
    decreases |ch|
  {
    if ch != [] {
      TwinReceive(a, b, ch[0], sha);
      NoSecondQuery(a, ch[0], sha);
      ReceiveKeepsInv(a, Got(ch[0], true), sha);
      ReceiveKeepsInv(b, Got(ch[0], true), sha);
      TwinDrain(Receive(a, Got(ch[0], true), sha), Receive(b, Got(ch[0], true), sha), ch[1..], sha);
    }
  }

  function Added(r: Receiver, received: map<string, Bytes>): Receiver { r.(disk := r.disk.(received := received)) }

  /** prepare sees the same final files, for those it has on record are all in place. */
  lemma SamePlans(d: Disk, d': Disk, files: seq<FileMeta>, source: Source, sha: Digest)
    requires DiskTrue(d, files, source) && OnlyAdds(d.received, d'.received) && d' == d.(received := d'.received)
    ensures Plans(d, files, sha) == Plans(d', files, sha) && Unlinked(d, files) == Unlinked(d', files)
    ensures NewMetadata(d, files, sha) == NewMetadata(d', files, sha)
  {
    forall i | 0 <= i < |files|
      ensures PlanFor(d, files[i], sha) == PlanFor(d', files[i], sha)
      ensures Unlinks(d, files[i]) == Unlinks(d', files[i])
    {
      assert FinalTrue(d, files[i], source);
    }
    assert Plans(d, files, sha) == Plans(d', files, sha);
    SameMetadata(d, d', files, sha);
  }

  lemma SamePrepared(d: Disk, d': Disk, files: seq<FileMeta>, source: Source, sha: Digest)
    requires DiskTrue(d, files, source) && OnlyAdds(d.received, d'.received) && d' == d.(received := d'.received)
    ensures Prepared(d', files, sha) == Prepared(d, files, sha).(received := d'.received)
  {
    SamePlans(d, d', files, source, sha);
  }

  lemma TwinQuery(r: Receiver, received: map<string, Bytes>, frame: Frame, source: Source, sha: Digest)
    requires DiskTrue(r.disk, r.session.offer.files, source) && OnlyAdds(r.disk.received, received)
    ensures Twin(OnQuery(r, frame, true, sha), OnQuery(Added(r, received), frame, true, sha))
  {
    var files := r.session.offer.files;
    SamePlans(r.disk, Added(r, received).disk, files, source, sha);
    SamePrepared(r.disk, Added(r, received).disk, files, source, sha);
  }

  lemma {:induction false} SameMetadata(d: Disk, d': Disk, files: seq<FileMeta>, sha: Digest)
    requires forall i :: 0 <= i < |files| ==> PlanFor(d, files[i], sha) == PlanFor(d', files[i], sha)
    ensures NewMetadata(d, files, sha) == NewMetadata(d', files, sha)
  {
    if files != [] {
      var k := |files| - 1;
      assert forall i :: 0 <= i < k ==> files[..k][i] == files[i];
      SameMetadata(d, d', files[..k], sha);
    }
  }

  /** Whatever is in flight, the receiver that has caught up is the same up to the names it chose. */
  lemma AddedDrainsAlike(r: Receiver, received: map<string, Bytes>, ch: seq<Frame>, source: Source, sha: Digest)
    requires RInv(r, sha) && RInv(Added(r, received), sha) && OnlyAdds(r.disk.received, received)
    requires DiskTrue(r.disk, r.session.offer.files, source)
    ensures Twin(Drain(r, ch, sha), Drain(Added(r, received), ch, sha))
  {
    var r' := Added(r, received);
    assert Twin(r, r');
    if !r.session.phase.AwaitQuery? {
      TwinDrain(r, r', ch, sha);
    } else if ch != [] {
      TwinQuery(r, received, ch[0], source, sha);
      NoSecondQuery(r, ch[0], sha);
      ReceiveKeepsInv(r, Got(ch[0], true), sha);
      ReceiveKeepsInv(r', Got(ch[0], true), sha);
      TwinDrain(Receive(r, Got(ch[0], true), sha), Receive(r', Got(ch[0], true), sha), ch[1..], sha);
    }
  }

  lemma TwinMirror(s: Sender, q: Receiver, q': Receiver, offer: Offer)
    requires Twin(q, q') && Mirror(s, q, offer)
    ensures Mirror(s, q', offer)
  {
    assert PlanOffsets(q.session.plans) == PlanOffsets(q'.session.plans) by {
      forall i | 0 <= i < |q.session.plans| ensures q.session.plans[i].offset == q'.session.plans[i].offset {
        assert TwinPlan(q.session.plans[i], q'.session.plans[i]);
      }
    }
    assert forall id :: id in q.index ==> TwinInfo(q.index[id], q'.index[id]);
  }

  lemma TwinReady(q: Receiver, q': Receiver, files: seq<FileMeta>)
    requires Twin(q, q') && Ready(q, files)
    ensures Ready(q', files)
  {
    forall i | 0 <= i < |files| ensures ReadyFor(q', files[i]) {
      assert ReadyFor(q, files[i]);
      assert files[i].id in q.index ==> TwinInfo(q.index[files[i].id], q'.index[files[i].id]);
      assert files[i].id in q.disk.metadata ==> TwinRecord(q.disk.metadata[files[i].id], q'.disk.metadata[files[i].id]);
    }
  }
}
