/** What resuming is for: a partial is never lost between sessions, and the next session continues it
    (core/resume.py, prepare; core/transfer.py, FileServer). */
module Resumption {
  import opened Common
  import opened Lifecycle
  import opened Protocol
  import opened Naming
  import opened Resume
  import opened Receiver
  import opened ReceiverSafety
  import ReceiverRuns
  import System

  /** The partial can be resumed and starts with these bytes. */
  ghost predicate Kept(r: Receiver, f: FileMeta, bytes: Bytes) {
    Resumable(r.disk, f) && bytes <= r.disk.partials[f.id].bytes
  }

  /** The file has been answered for since the log had n entries. */
  ghost predicate AnsweredSince(r: Receiver, f: FileMeta, n: nat) {
    exists k :: n <= k < |r.log| && r.log[k].file == f
  }

  /** The session, if one is open, offers this file and has not passed it. */
  ghost predicate NotPassed(r: Receiver, f: FileMeta) {
    Idle(r) || (f in r.session.offer.files
                && (!r.session.phase.AwaitQuery? ==>
                      forall i :: 0 <= i < |r.session.offer.files| && r.session.offer.files[i] == f ==>
                          r.session.next <= i))
  }

  /** Sessions keep offering the file unchanged, and nobody takes its partial away or tears it. */
  ghost predicate Spares(a: Action, f: FileMeta) {
    match a
    case Accept(offer) => f in offer.files
    case Tear(id, _) => id != f.id
    case DropDirectory => false
    case _ => true
  }

  ghost predicate Continues(r: Receiver, r': Receiver, f: FileMeta, bytes: Bytes) {
    AnsweredSince(r', f, |r.log|) || (Kept(r', f, bytes) && NotPassed(r', f))
  }

  lemma PreparedKeeps(d: Disk, files: seq<FileMeta>, f: FileMeta, sha: Digest)
    requires Consistent(d) && UniqueIds(files) && f in files && Resumable(d, f)
    ensures Resumable(Prepared(d, files, sha), f) && Prepared(d, files, sha).partials[f.id] == d.partials[f.id]
  {
    var i :| 0 <= i < |files| && files[i] == f;
    OneFileOnRecord(d, files, i, sha);
  }

  lemma CrashKeeps(d: Disk, files: seq<FileMeta>, k: nat, f: FileMeta)
    requires UniqueIds(files) && f in files && Resumable(d, f) && k <= |files|
    ensures Resumable(DuringPrepare(d, files, k), f)
    ensures DuringPrepare(d, files, k).partials[f.id] == d.partials[f.id]
  {
    var i :| 0 <= i < |files| && files[i] == f;
    forall j | 0 <= j < k && files[..k][j].id == f.id ensures !Unlinks(d, files[..k][j]) {
      assert files[j] == files[..k][j] && j == i;
    }
  }

  /** file_start adds an empty partial at most, and stays at its file. */
  lemma StartStays(r: Receiver, frame: Frame)
    requires r.session.next < |r.session.offer.files| && r.session.next < |r.session.plans|
    requires r.session.phase.AwaitStart?
    ensures var z := OnStart(r, frame);
            && (z.disk == r.disk || z.disk == OpenPartial(r.disk, Current(r)))
            && z.session.offer == r.session.offer && z.session.next == r.session.next
            && !z.session.phase.AwaitQuery? && !z.session.phase.Finished?
  {
  }

  lemma StartContinues(r: Receiver, frame: Frame, f: FileMeta, bytes: Bytes, sha: Digest)
    requires RInv(r, sha) && r.session.phase.AwaitStart? && Kept(r, f, bytes) && NotPassed(r, f)
    ensures Continues(r, OnStart(r, frame), f, bytes)
  {
    StartStays(r, frame);
  }

  lemma ChunkContinues(r: Receiver, frame: Frame, f: FileMeta, bytes: Bytes, sha: Digest)
    requires RInv(r, sha) && r.session.phase.InChunks? && Kept(r, f, bytes) && NotPassed(r, f)
    ensures Continues(r, OnChunk(r, frame), f, bytes)
  {
    if ChunkFits(r, frame) { AppendAtEnd(r.disk.partials[Current(r).id].bytes, frame.data); }
  }

  /** The end of a verified file leaves disk and log alone, and moves on by one file at most. */
  lemma ConcludeStays(r: Receiver, path: string, sendOk: bool)
    requires r.session.next < |r.session.offer.files| && Current(r).id in r.index
    ensures var z := Conclude(r, path, sendOk);
            && z.disk == r.disk && z.log == r.log && z.session.offer == r.session.offer
            && (Idle(z) || (!z.session.phase.AwaitQuery? && z.session.next == r.session.next + 1))
  {
  }

  lemma CommitContinues(r: Receiver, sendOk: bool, f: FileMeta, bytes: Bytes, sha: Digest)
    requires RInv(r, sha) && r.session.phase.AwaitEnd? && Kept(r, f, bytes) && NotPassed(r, f)
    requires r.session.plans[r.session.next].finalPath.None?
    ensures var g, path := Current(r), FreeName(r.disk.received.Keys, Current(r).name);
            var held := Held(r.epoch, g, path, r.disk.partials[g.id].bytes, r.disk.partials[g.id].counted, true);
            Continues(r, Conclude(r.(disk := Committed(r.disk, g), log := r.log + [held]), path, sendOk), f, bytes)
  {
    var g, path := Current(r), FreeName(r.disk.received.Keys, Current(r).name);
    var held := Held(r.epoch, g, path, r.disk.partials[g.id].bytes, r.disk.partials[g.id].counted, true);
    var q := r.(disk := Committed(r.disk, g), log := r.log + [held]);
    ConcludeStays(q, path, sendOk);
    if g == f {
      assert q.log[|r.log|].file == f;
    } else {
      assert g.id != f.id by {
        var i :| 0 <= i < |r.session.offer.files| && r.session.offer.files[i] == f;
      }
    }
  }

  lemma ReverifyContinues(r: Receiver, sendOk: bool, f: FileMeta, bytes: Bytes, sha: Digest)
    requires RInv(r, sha) && r.session.phase.AwaitEnd? && Kept(r, f, bytes) && NotPassed(r, f)
    requires r.session.plans[r.session.next].finalPath.Some?
    ensures var z := Conclude(r, r.session.plans[r.session.next].finalPath.value, sendOk);
            Kept(z, f, bytes) && NotPassed(z, f)
  {
    ConcludeStays(r, r.session.plans[r.session.next].finalPath.value, sendOk);
    assert Current(r) != f;
  }

  lemma EndContinues(r: Receiver, frame: Frame, sendOk: bool, f: FileMeta, bytes: Bytes, sha: Digest)
    requires RInv(r, sha) && r.session.phase.AwaitEnd? && Kept(r, f, bytes) && NotPassed(r, f)
    ensures Continues(r, OnEnd(r, frame, sendOk, sha), f, bytes)
  {
    var g, s := Current(r), r.session;
    if frame == FileEnd(s.offer.transferId, g.id) {
      if s.plans[s.next].finalPath.Some? { ReverifyContinues(r, sendOk, f, bytes, sha); }
      else if sha(r.disk.partials[g.id].bytes) == g.sha256 { CommitContinues(r, sendOk, f, bytes, sha); }
    }
  }

  lemma QueryContinues(r: Receiver, frame: Frame, sendOk: bool, f: FileMeta, bytes: Bytes, sha: Digest)
    requires RInv(r, sha) && r.session.phase.AwaitQuery? && Kept(r, f, bytes) && NotPassed(r, f)
    ensures Continues(r, OnQuery(r, frame, sendOk, sha), f, bytes)
  {
    PreparedKeeps(r.disk, r.session.offer.files, f, sha);
  }

  lemma ReceiveContinues(r: Receiver, input: Input, f: FileMeta, bytes: Bytes, sha: Digest)
    requires RInv(r, sha) && Kept(r, f, bytes) && NotPassed(r, f)
    ensures Continues(r, Receive(r, input, sha), f, bytes)
  {
    match r.session.phase
    case Closed =>
    case Finished =>
    case AwaitQuery => if input.Got? { QueryContinues(r, input.frame, input.sendOk, f, bytes, sha); }
    case AwaitStart => if input.Got? { StartContinues(r, input.frame, f, bytes, sha); }
    case InChunks => if input.Got? { ChunkContinues(r, input.frame, f, bytes, sha); }
    case AwaitEnd => if input.Got? { EndContinues(r, input.frame, input.sendOk, f, bytes, sha); }
    case AwaitFin =>
  }

  lemma NextContinues(r: Receiver, a: Action, f: FileMeta, bytes: Bytes, sha: Digest)
    requires RInv(r, sha) && Enabled(r, a) && Spares(a, f) && Kept(r, f, bytes) && NotPassed(r, f)
    ensures Continues(r, Next(r, a, sha), f, bytes)
  {
    match a
    case Take(input) => ReceiveContinues(r, input, f, bytes, sha);
    case CrashInPrepare(k) => CrashKeeps(r.disk, r.session.offer.files, k, f);
    case _ =>
  }

  lemma NextGrowsLog(r: Receiver, a: Action, f: FileMeta, n: nat, sha: Digest)
    requires RInv(r, sha) && Enabled(r, a) && n <= |r.log|
    ensures |r.log| <= |Next(r, a, sha).log|
    ensures AnsweredSince(r, f, n) ==> AnsweredSince(Next(r, a, sha), f, n)
  {
    System.LogGrowsOnly(r, a, sha);
    if k :| n <= k < |r.log| && r.log[k].file == f { assert Next(r, a, sha).log[k].file == f; }
  }

  lemma {:induction false} AnsweredStays(r: Receiver, actions: seq<Action>, f: FileMeta, n: nat, sha: Digest)
    requires RInv(r, sha) && ReceiverRuns.Legal(r, actions, sha) && n <= |r.log| && AnsweredSince(r, f, n)
    ensures AnsweredSince(ReceiverRuns.Run(r, actions, sha), f, n)
    decreases |actions|
  {
    if actions != [] {
      NextGrowsLog(r, actions[0], f, n, sha);
      NextKeepsInv(r, actions[0], sha);
      AnsweredStays(Next(r, actions[0], sha), actions[1..], f, n, sha);
    }
  }

  /** A partial is never lost: over any number of sessions, restarts and crashes inside prepare, whatever
      the peers send, as long as the file keeps being offered unchanged and nobody tears its partial or
      deletes the directory, the bytes received so far stay and only more are added behind them, until
      the file has been answered for. */
  lemma {:induction false} PartialsOnlyGrow(r: Receiver, actions: seq<Action>, f: FileMeta, bytes: Bytes, sha: Digest)
    requires RInv(r, sha) && ReceiverRuns.Legal(r, actions, sha) && Kept(r, f, bytes) && NotPassed(r, f)
    requires forall i :: 0 <= i < |actions| ==> Spares(actions[i], f)
    ensures Continues(r, ReceiverRuns.Run(r, actions, sha), f, bytes)
    decreases |actions|
  {
    if actions != [] {
      var next, rest := Next(r, actions[0], sha), actions[1..];
      NextContinues(r, actions[0], f, bytes, sha);
      NextKeepsInv(r, actions[0], sha);
      NextGrowsLog(r, actions[0], f, 0, sha);
      assert forall i :: 0 <= i < |rest| ==> rest[i] == actions[i + 1];
      if AnsweredSince(next, f, |r.log|) {
        AnsweredStays(next, rest, f, |r.log|, sha);
      } else {
        PartialsOnlyGrow(next, rest, f, bytes, sha);
      }
    }
  }

  /** And the next session continues there: its resume_state offers at least these bytes back. */
  lemma NextSessionContinues(r: Receiver, actions: seq<Action>, offer: Offer, f: FileMeta, bytes: Bytes, sha: Digest)
    requires RInv(r, sha) && ReceiverRuns.Legal(r, actions, sha) && Kept(r, f, bytes) && NotPassed(r, f)
    requires forall i :: 0 <= i < |actions| ==> Spares(actions[i], f)
    requires Enabled(ReceiverRuns.Run(r, actions, sha), Accept(offer)) && f in offer.files
    ensures var end := ReceiverRuns.Run(r, actions, sha);
            var asked := Next(end, Accept(offer), sha);
            AnsweredSince(end, f, |r.log|) ||
            (RInv(asked, sha)
             && var z := Receive(asked, Got(Query(offer.transferId, offer.files), true), sha);
                exists i: nat, entries: Entries :: 0 <= i < |offer.files| == |entries| && offer.files[i] == f
                  && z.out == [ResumeState(offer.transferId, entries)]
                  && entries[i].0 == f.id && entries[i].1 >= |bytes|)
  {
    PartialsOnlyGrow(r, actions, f, bytes, sha);
    var end := ReceiverRuns.Run(r, actions, sha);
    NextKeepsInv(end, Accept(offer), sha);
    var asked := Next(end, Accept(offer), sha);
    if !AnsweredSince(end, f, |r.log|) {
      var i :| 0 <= i < |offer.files| && offer.files[i] == f;
      OneFileDecided(end.disk, offer.files, i, sha);
      var plans := Plans(end.disk, offer.files, sha);
      var entries := EntriesFor(offer.files, PlanOffsets(plans));
      assert Receive(asked, Got(Query(offer.transferId, offer.files), true), sha).out
             == [ResumeState(offer.transferId, entries)];
      assert entries[i].0 == f.id && entries[i].1 >= |bytes|;
    }
  }
}
