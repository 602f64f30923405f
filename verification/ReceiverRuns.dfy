/** Theorems about whole runs of one receiver: any offers, any inputs, cuts, tears, restarts. */
module ReceiverRuns {
  import opened Common
  import opened Lifecycle
  import opened Naming
  import opened Resume
  import opened Receiver
  import opened ReceiverSafety

  ghost predicate Legal(r: Receiver, actions: seq<Action>, sha: Digest)
    requires RInv(r, sha)
    decreases |actions|
  {
    actions == [] ||
    (Enabled(r, actions[0]) && (NextKeepsInv(r, actions[0], sha); Legal(Next(r, actions[0], sha), actions[1..], sha)))
  }

  ghost function Run(r: Receiver, actions: seq<Action>, sha: Digest): (r': Receiver)
    requires RInv(r, sha) && Legal(r, actions, sha)
    ensures RInv(r', sha)
    decreases |actions|
  {
    if actions == [] then r
    else
      NextKeepsInv(r, actions[0], sha);
      Run(Next(r, actions[0], sha), actions[1..], sha)
  }

  /** How a receiver process can find its disk: crash-consistent, partials within bounds. */
  ghost predicate SoundDisk(d: Disk) { Consistent(d) && PartialsOk(d.partials) }

  ghost function Boot(d: Disk, sha: Digest): (r: Receiver)
    requires SoundDisk(d)
    ensures RInv(r, sha)
  {
    Fresh(d)
  }

  /** Receiver safety. After any run: each file ID was committed at most once per process; whatever
      was answered for had the offered size and digest; metadata never stand over foreign bytes;
      every refused status request had started from a terminal status; and every byte count is the
      resume offset plus the bytes of this attempt, within the size of the file being received. */
  lemma SafetyOverRuns(d: Disk, actions: seq<Action>, sha: Digest)
    requires SoundDisk(d)
    requires Legal(Boot(d, sha), actions, sha)
    ensures var r := Run(Boot(d, sha), actions, sha);
            && (forall i, j :: 0 <= i < j < |r.log|
                               && r.log[i].committed && r.log[j].committed && r.log[i].epoch == r.log[j].epoch
                  ==> r.log[i].file.id != r.log[j].file.id)
            && (forall k :: 0 <= k < |r.log| ==>
                |r.log[k].content| == r.log[k].file.size && sha(r.log[k].content) == r.log[k].file.sha256)
            && (forall id :: id in r.disk.metadata && id in r.disk.partials ==>
                  Describes(r.disk.metadata[id], r.disk.partials[id].under) && r.disk.metadata[id].finalPath.None?)
            && (forall k :: 0 <= k < |r.refused| ==> IsTerminal(r.refused[k].from))
            && (forall id :: id in r.index ==> r.index[id].bytes == r.index[id].resumeOffset + r.index[id].attempt)
            && (InFile(r) ==> r.session.next < |r.session.offer.files| && Current(r).id in r.index
                              && r.index[Current(r).id].bytes <= Current(r).size)
  {
    var r := Run(Boot(d, sha), actions, sha);
    forall k | 0 <= k < |r.log|
      ensures |r.log[k].content| == r.log[k].file.size && sha(r.log[k].content) == r.log[k].file.sha256
    {
      assert EntryOk(r.log[k], r.index, r.epoch, sha);
    }
  }

  // ---- terminal statuses

  ghost predicate Settled(r: Receiver, id: string) { id in r.index && IsTerminal(r.index[id].status) }

  ghost predicate SameStatus(r: Receiver, r': Receiver, id: string) {
    Settled(r, id) && Settled(r', id) && r'.index[id].status == r.index[id].status
  }

  predicate SameProcess(a: Action) { !a.Restart? && !a.CrashInPrepare? }

  lemma RequestLeavesSettled(r: Receiver, x: string, target: Status, id: string)
    requires Settled(r, id) && x in r.index
    ensures SameStatus(r, Request(r, x, target), id)
  {
  }

  lemma GetOrCreateLeavesSettled(r: Receiver, x: string, offset: nat, id: string)
    requires Settled(r, id)
    ensures SameStatus(r, GetOrCreate(r, x, offset).0, id) && x in GetOrCreate(r, x, offset).0.index
    ensures GetOrCreate(r, x, offset).0.session == r.session
  {
  }

  lemma StartLeavesSettled(r: Receiver, frame: Frame, id: string)
    requires r.session.next < |r.session.offer.files| && r.session.next < |r.session.plans| && Settled(r, id)
    ensures SameStatus(r, OnStart(r, frame), id)
  {
    var f, plan := Current(r), r.session.plans[r.session.next];
    var (known, ok) := GetOrCreate(r, f.id, plan.offset);
    GetOrCreateLeavesSettled(r, f.id, plan.offset, id);
    if frame == FileStart(r.session.offer.transferId, f.id) && ok && plan.finalPath.None? {
      RequestLeavesSettled(known, f.id, Active, id);
      RequestLeavesSettled(Request(known, f.id, Active), f.id, Failed, id);
    }
  }

  lemma ChunkLeavesSettled(r: Receiver, frame: Frame, id: string)
    requires r.session.next < |r.session.offer.files| && Settled(r, id)
    requires Current(r).id in r.index && Current(r).id in r.disk.partials
    ensures SameStatus(r, OnChunk(r, frame), id)
  {
  }

  lemma ConcludeLeavesSettled(r: Receiver, path: string, sendOk: bool, id: string)
    requires r.session.next < |r.session.offer.files| && Current(r).id in r.index && Settled(r, id)
    ensures SameStatus(r, Conclude(r, path, sendOk), id)
  {
  }

  lemma EndLeavesSettled(r: Receiver, frame: Frame, sendOk: bool, id: string, sha: Digest)
    requires RInv(r, sha) && r.session.phase.AwaitEnd? && Settled(r, id)
    ensures SameStatus(r, OnEnd(r, frame, sendOk, sha), id)
  {
    var f, s := Current(r), r.session;
    if frame == FileEnd(s.offer.transferId, f.id) {
      if s.plans[s.next].finalPath.Some? {
        ConcludeLeavesSettled(r, s.plans[s.next].finalPath.value, sendOk, id);
      } else if sha(r.disk.partials[f.id].bytes) == f.sha256 {
        var partial := r.disk.partials[f.id];
        var path := FreeName(r.disk.received.Keys, f.name);
        var held := Held(r.epoch, f, path, partial.bytes, partial.counted, true);
        ConcludeLeavesSettled(r.(disk := Committed(r.disk, f), log := r.log + [held]), path, sendOk, id);
      } else {
        RequestLeavesSettled(r, f.id, if sendOk then Failed else Interrupted, id);
      }
    } else {
      RequestLeavesSettled(r, f.id, Failed, id);
    }
  }

  lemma ReceiveLeavesSettled(r: Receiver, input: Input, id: string, sha: Digest)
    requires RInv(r, sha) && Settled(r, id)
    ensures SameStatus(r, Receive(r, input, sha), id)
  {
    match r.session.phase
    case Closed =>
    case Finished =>
    case AwaitQuery =>
    case AwaitFin =>
    case AwaitStart => if input.Got? { StartLeavesSettled(r, input.frame, id); }
    case InChunks =>
      if input.Got? { ChunkLeavesSettled(r, input.frame, id); }
      else { RequestLeavesSettled(r, Current(r).id, if input.Lost? then Interrupted else Failed, id); }
    case AwaitEnd =>
      if input.Got? { EndLeavesSettled(r, input.frame, input.sendOk, id, sha); }
      else { RequestLeavesSettled(r, Current(r).id, if input.Lost? then Interrupted else Failed, id); }
  }

  lemma SettledStays(r: Receiver, a: Action, id: string, sha: Digest)
    requires RInv(r, sha) && Enabled(r, a) && SameProcess(a) && Settled(r, id)
    ensures SameStatus(r, Next(r, a, sha), id)
  {
    if a.Take? { ReceiveLeavesSettled(r, a.input, id, sha); }
  }

  /** Terminal statuses are absorbing over all sessions of one process. */
  lemma {:induction false} TerminalOverSessions(r: Receiver, actions: seq<Action>, id: string, sha: Digest)
    requires RInv(r, sha) && Legal(r, actions, sha) && Settled(r, id)
    requires forall i :: 0 <= i < |actions| ==> SameProcess(actions[i])
    ensures SameStatus(r, Run(r, actions, sha), id)
    decreases |actions|
  {
    if actions != [] {
      SettledStays(r, actions[0], id, sha);
      NextKeepsInv(r, actions[0], sha);
      TerminalOverSessions(Next(r, actions[0], sha), actions[1..], id, sha);
    }
  }

  // ---- the receive directory

  /** Either the directory is untouched and nothing is logged as committed, or exactly one free
      name appears and holds exactly the content logged as committed. */
  ghost predicate AtMostOneName(r: Receiver, r': Receiver) {
    || (r'.disk.received == r.disk.received && |r.log| <= |r'.log| && forall k :: |r.log| <= k < |r'.log| ==>
        !r'.log[k].committed)
    || (&& |r'.log| == |r.log| + 1 && r.log <= r'.log
        && var e := r'.log[|r.log|];
        && e.committed && e.path !in r.disk.received && r'.disk.received == r.disk.received[e.path := e.content])
  }

  /** Without torn writes the attempts' counts are exactly the bytes on disk. */
  ghost predicate Conserved(r: Receiver) {
    && (forall id :: id in r.disk.partials ==> r.disk.partials[id].counted == |r.disk.partials[id].bytes|)
    && (forall k :: 0 <= k < |r.log| && r.log[k].committed ==> r.log[k].counted == r.log[k].file.size)
  }

  lemma ConcludeTouchesNeither(r: Receiver, path: string, sendOk: bool)
    requires r.session.next < |r.session.offer.files| && Current(r).id in r.index
    ensures Conclude(r, path, sendOk).disk == r.disk && Conclude(r, path, sendOk).log == r.log
  {
  }

  lemma EndAddsAtMostOneName(r: Receiver, frame: Frame, sendOk: bool, sha: Digest)
    requires AtEnd(r)
    ensures AtMostOneName(r, OnEnd(r, frame, sendOk, sha))
    ensures Conserved(r) ==> Conserved(OnEnd(r, frame, sendOk, sha))
  {
    var f, s := Current(r), r.session;
    if frame == FileEnd(s.offer.transferId, f.id) {
      if s.plans[s.next].finalPath.Some? {
        ConcludeTouchesNeither(r, s.plans[s.next].finalPath.value, sendOk);
      } else if sha(r.disk.partials[f.id].bytes) == f.sha256 {
        var partial := r.disk.partials[f.id];
        var path := FreeName(r.disk.received.Keys, f.name);
        var held := Held(r.epoch, f, path, partial.bytes, partial.counted, true);
        ConcludeTouchesNeither(r.(disk := Committed(r.disk, f), log := r.log + [held]), path, sendOk);
      }
    }
  }

  lemma QueryCommitsNothing(r: Receiver, frame: Frame, sendOk: bool, sha: Digest)
    ensures AtMostOneName(r, OnQuery(r, frame, sendOk, sha))
  {
  }

  lemma StartCommitsNothing(r: Receiver, frame: Frame)
    requires r.session.next < |r.session.offer.files| && r.session.next < |r.session.plans|
    ensures AtMostOneName(r, OnStart(r, frame))
  {
  }

  lemma ChunkCommitsNothing(r: Receiver, frame: Frame)
    requires r.session.next < |r.session.offer.files|
    requires Current(r).id in r.index && Current(r).id in r.disk.partials
    ensures AtMostOneName(r, OnChunk(r, frame))
  {
  }

  lemma AbortCommitsNothing(r: Receiver, target: Status)
    requires r.session.next < |r.session.offer.files| && Current(r).id in r.index
    ensures AtMostOneName(r, Abort(r, target))
  {
  }

  /** Commit never overwrites: whatever the peer sends, a receive step adds at most one name. */
  lemma ReceiveAddsAtMostOneName(r: Receiver, input: Input, sha: Digest)
    requires RInv(r, sha)
    ensures AtMostOneName(r, Receive(r, input, sha))
  {
    if InFile(r) && !input.Got? {
      AbortCommitsNothing(r, if input.Lost? then Interrupted else Failed);
      return;
    }
    match r.session.phase
    case Closed =>
    case Finished =>
    case AwaitFin =>
    case AwaitQuery => if input.Got? { QueryCommitsNothing(r, input.frame, input.sendOk, sha); }
    case AwaitStart => if input.Got? { StartCommitsNothing(r, input.frame); }
    case InChunks => ChunkCommitsNothing(r, input.frame);
    case AwaitEnd => if input.Got? { EndAddsAtMostOneName(r, input.frame, input.sendOk, sha); }
  }

  // ---- byte conservation

  lemma WriteConserves(r: Receiver, data: Bytes, sha: Digest)
    requires RInv(r, sha) && Conserved(r) && r.session.phase.InChunks?
    ensures Conserved(Write(r, data))
  {
    AppendAtEnd(r.disk.partials[Current(r).id].bytes, data);
  }

  lemma QueryConserves(r: Receiver, frame: Frame, sendOk: bool, sha: Digest)
    requires Conserved(r)
    ensures Conserved(OnQuery(r, frame, sendOk, sha))
  {
  }

  lemma StartConserves(r: Receiver, frame: Frame)
    requires Conserved(r) && r.session.next < |r.session.offer.files| && r.session.next < |r.session.plans|
    ensures Conserved(OnStart(r, frame))
  {
  }

  lemma ReceiveConserves(r: Receiver, input: Input, sha: Digest)
    requires RInv(r, sha) && Conserved(r)
    ensures Conserved(Receive(r, input, sha))
  {
    match r.session.phase
    case Closed =>
    case Finished =>
    case AwaitFin =>
    case AwaitQuery => if input.Got? { QueryConserves(r, input.frame, input.sendOk, sha); }
    case AwaitStart => if input.Got? { StartConserves(r, input.frame); }
    case InChunks => if input.Got? && input.frame.Chunk? { WriteConserves(r, input.frame.data, sha); }
    case AwaitEnd => if input.Got? { EndAddsAtMostOneName(r, input.frame, input.sendOk, sha); }
  }

  lemma NextConserves(r: Receiver, a: Action, sha: Digest)
    requires RInv(r, sha) && Enabled(r, a) && !a.Tear? && Conserved(r)
    ensures Conserved(Next(r, a, sha))
  {
    if a.Take? { ReceiveConserves(r, a.input, sha); }
  }

  /** Conservation: over all sessions, restarts included, the bytes counted for a committed file
      sum to exactly its size when every close flushes, and never to less in any case. */
  lemma {:induction false} ByteConservation(r: Receiver, actions: seq<Action>, sha: Digest)
    requires RInv(r, sha) && Legal(r, actions, sha)
    ensures (forall i :: 0 <= i < |actions| ==> !actions[i].Tear?) && Conserved(r) ==> Conserved(Run(r, actions, sha))
    ensures forall k :: 0 <= k < |Run(r, actions, sha).log| && Run(r, actions, sha).log[k].committed
              ==> Run(r, actions, sha).log[k].counted >= Run(r, actions, sha).log[k].file.size
    decreases |actions|
  {
    var last := Run(r, actions, sha);
    forall k | 0 <= k < |last.log| && last.log[k].committed ensures last.log[k].counted >= last.log[k].file.size {
      assert EntryOk(last.log[k], last.index, last.epoch, sha);
    }
    if actions != [] {
      if Conserved(r) && !actions[0].Tear? { NextConserves(r, actions[0], sha); }
      NextKeepsInv(r, actions[0], sha);
      ByteConservation(Next(r, actions[0], sha), actions[1..], sha);
    }
  }
}
