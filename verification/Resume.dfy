/** Durable resume state of one transfer ID (core/resume.py, PartialTransferStore). */
module Resume {
  import opened Common
  import opened Protocol
  import opened Naming

  type Digest = Bytes -> string

  /** One entry of metadata.json. A final path is a name in the receive directory. */
  datatype Record = Record(name: string, size: nat, sha256: string, finalPath: Option<string>)

  /** A hidden partial. `under` and `counted` are history: the offer entry its bytes were received
      under, and the bytes all attempts have counted for it. No operation reads them. */
  datatype Partial = Partial(bytes: Bytes, under: FileMeta, counted: nat)

  datatype Disk = Disk(metadata: map<string, Record>, partials: map<string, Partial>, received: map<string, Bytes>)

  datatype Plan = Plan(offset: nat, finalPath: Option<string>)

  predicate Describes(r: Record, f: FileMeta) {
    r.name == f.name && r.size == f.size && r.sha256 == f.sha256
  }

  predicate Matches(d: Disk, f: FileMeta) { f.id in d.metadata && Describes(d.metadata[f.id], f) }

  /** The recorded final file is still there with the offered size and digest. */
  predicate FinalVerifies(d: Disk, f: FileMeta, sha: Digest)
    requires Matches(d, f)
  {
    && d.metadata[f.id].finalPath.Some?
    && var path := d.metadata[f.id].finalPath.value;
    && path in d.received && |d.received[path]| == f.size && sha(d.received[path]) == f.sha256
  }

  function PlanFor(d: Disk, f: FileMeta, sha: Digest): Plan {
    if !Matches(d, f) then Plan(0, None)
    else if d.metadata[f.id].finalPath.Some? then
      if FinalVerifies(d, f, sha) then Plan(f.size, d.metadata[f.id].finalPath) else Plan(0, None)
    else if f.id in d.partials && |d.partials[f.id].bytes| <= f.size then Plan(|d.partials[f.id].bytes|, None)
    else Plan(0, None)
  }

  /** prepare unlinks the partial of this file: its metadata differ, or it is too long. */
  predicate Unlinks(d: Disk, f: FileMeta) {
    if !Matches(d, f) then true
    else d.metadata[f.id].finalPath.None? && f.id in d.partials && |d.partials[f.id].bytes| > f.size
  }

  function Unlinked(d: Disk, files: seq<FileMeta>): set<string> {
    set i | 0 <= i < |files| && Unlinks(d, files[i]) :: files[i].id
  }

  function RecordFor(d: Disk, f: FileMeta, sha: Digest): Record {
    Record(f.name, f.size, f.sha256, PlanFor(d, f, sha).finalPath)
  }

  function NewMetadata(d: Disk, files: seq<FileMeta>, sha: Digest): (m: map<string, Record>)
    ensures m.Keys == Ids(files)
  {
    if files == [] then map[]
    else
      var k := |files| - 1;
      assert Ids(files) == Ids(files[..k]) + {files[k].id};
      NewMetadata(d, files[..k], sha)[files[k].id := RecordFor(d, files[k], sha)]
  }

  function PlanMap(d: Disk, files: seq<FileMeta>, sha: Digest): (m: map<string, Plan>)
    ensures m.Keys == Ids(files)
  {
    if files == [] then map[]
    else
      var k := |files| - 1;
      assert Ids(files) == Ids(files[..k]) + {files[k].id};
      PlanMap(d, files[..k], sha)[files[k].id := PlanFor(d, files[k], sha)]
  }

  /** Both maps hold, under each offered ID, the value computed for that file alone. */
  lemma {:induction false} PreparedAt(d: Disk, files: seq<FileMeta>, sha: Digest, i: nat)
    requires UniqueIds(files) && i < |files|
    ensures NewMetadata(d, files, sha)[files[i].id] == RecordFor(d, files[i], sha)
    ensures PlanMap(d, files, sha)[files[i].id] == PlanFor(d, files[i], sha)
  {
    var k := |files| - 1;
    if i < k {
      assert files[..k][i] == files[i] && files[i].id != files[k].id;
      assert UniqueIds(files[..k]) by {
        assert forall j :: 0 <= j < k ==> files[..k][j] == files[j];
      }
      PreparedAt(d, files[..k], sha, i);
    }
  }

  /** The disk after the unlinks of the first k files, before the metadata are replaced. */
  function DuringPrepare(d: Disk, files: seq<FileMeta>, k: nat): Disk
    requires k <= |files|
  {
    d.(partials := d.partials - Unlinked(d, files[..k]))
  }

  function Prepared(d: Disk, files: seq<FileMeta>, sha: Digest): Disk {
    d.(partials := d.partials - Unlinked(d, files), metadata := NewMetadata(d, files, sha))
  }

  function Plans(d: Disk, files: seq<FileMeta>, sha: Digest): (plans: seq<Plan>)
    ensures |plans| == |files| && forall i :: 0 <= i < |files| ==> plans[i] == PlanFor(d, files[i], sha)
  {
    seq(|files|, i requires 0 <= i < |files| => PlanFor(d, files[i], sha))
  }

  // ---- crash safety

  /** Where a file has both a metadata record and a partial, the partial's bytes were received
      under that very name, size and digest, and the record has no final path. */
  ghost predicate Consistent(d: Disk) {
    forall id :: id in d.metadata && id in d.partials ==>
      Describes(d.metadata[id], d.partials[id].under) && d.metadata[id].finalPath.None?
  }

  /** Every crash point of prepare, under any old state and any new offer, is consistent. */
  lemma PrepareIsCrashSafe(d: Disk, files: seq<FileMeta>, sha: Digest)
    requires Consistent(d) && UniqueIds(files)
    ensures forall k :: 0 <= k <= |files| ==> Consistent(DuringPrepare(d, files, k))
    ensures Consistent(Prepared(d, files, sha))
  {
    var after := Prepared(d, files, sha);
    forall id | id in after.metadata && id in after.partials
      ensures Describes(after.metadata[id], after.partials[id].under) && after.metadata[id].finalPath.None?
    {
      var i :| 0 <= i < |files| && files[i].id == id;
      PreparedAt(d, files, sha, i);
      assert !Unlinks(d, files[i]) && Matches(d, files[i]);
      assert after.metadata[id] == RecordFor(d, files[i], sha);
    }
  }

  /** The order matters: replacing the metadata before the unlinks can be caught by a crash with a
      record standing over bytes received under another digest. */
  lemma MetadataFirstIsUnsafe(sha: Digest) returns (d: Disk, files: seq<FileMeta>)
    ensures Consistent(d) && UniqueIds(files)
    ensures !Consistent(d.(metadata := NewMetadata(d, files, sha)))
  {
    var was, now := FileMeta("file-0", "a.bin", 2, "old"), FileMeta("file-0", "a.bin", 2, "new");
    d := Disk(map["file-0" := Record("a.bin", 2, "old", None)], map["file-0" := Partial([1], was, 1)], map[]);
    files := [now];
    var early := d.(metadata := NewMetadata(d, files, sha));
    PreparedAt(d, files, sha, 0);
    assert "file-0" in early.metadata && "file-0" in early.partials;
  }

  /** Negotiated offsets stay within the offered sizes and equal the surviving partials. */
  lemma PlansAreSafe(d: Disk, files: seq<FileMeta>, sha: Digest, k: nat)
    requires Consistent(d) && UniqueIds(files) && k < |files|
    ensures var f, plan, after := files[k], PlanFor(d, files[k], sha), Prepared(d, files, sha);
            && plan.offset <= f.size
            && (plan.finalPath.Some? ==> plan.offset == f.size && FinalVerifies(d, f, sha) && f.id !in after.partials)
            && (plan.finalPath.None? ==>
                plan.offset == if f.id in after.partials then |after.partials[f.id].bytes| else 0)
  {
    var f := files[k];
    if f.id in d.partials && f.id in Unlinked(d, files) {
      var i :| 0 <= i < |files| && Unlinks(d, files[i]) && files[i].id == f.id;
      assert i == k;
    }
  }

  /** What an interrupted attempt leaves to continue from: the very same file is on record as unfinished, and
      its partial is not too long. */
  predicate Resumable(d: Disk, f: FileMeta) {
    && Matches(d, f) && d.metadata[f.id].finalPath.None?
    && f.id in d.partials && |d.partials[f.id].bytes| <= f.size
  }

  /** One file after prepare: a resumable partial is kept as it is and continued at its length, a finished
      file that verifies is not sent again, and anything else starts from nothing. */
  predicate FileDecided(d: Disk, partials: map<string, Partial>, f: FileMeta, plan: Plan, sha: Digest) {
    if Resumable(d, f) then
      plan == Plan(|d.partials[f.id].bytes|, None) && f.id in partials && partials[f.id] == d.partials[f.id]
    else if Matches(d, f) && FinalVerifies(d, f, sha) then
      plan == Plan(f.size, d.metadata[f.id].finalPath) && f.id !in partials
    else plan == Plan(0, None) && f.id !in partials
  }

  /** One offered file: decided, and newly on record. */
  ghost predicate OnRecord(d: Disk, after: Disk, f: FileMeta, plans: map<string, Plan>, sha: Digest) {
    && f.id in plans && FileDecided(d, after.partials, f, plans[f.id], sha)
    && Matches(after, f) && after.metadata[f.id].finalPath == plans[f.id].finalPath
  }

  /** Everything prepare leaves behind: each offered file decided and newly on record, no other record, and
      no other partial and no received file touched. */
  ghost predicate AllDecided(d: Disk, after: Disk, files: seq<FileMeta>, plans: map<string, Plan>, sha: Digest) {
    && plans.Keys == after.metadata.Keys == Ids(files) && after.received == d.received
    && (forall i :: 0 <= i < |files| ==> OnRecord(d, after, files[i], plans, sha))
    && (forall id :: id !in Ids(files) ==> (id in after.partials <==> id in d.partials))
    && forall id :: id in after.partials ==> id in d.partials && after.partials[id] == d.partials[id]
  }

  lemma OneFileDecided(d: Disk, files: seq<FileMeta>, i: nat, sha: Digest)
    requires Consistent(d) && UniqueIds(files) && i < |files|
    ensures FileDecided(d, Prepared(d, files, sha).partials, files[i], PlanFor(d, files[i], sha), sha)
  {
    var f := files[i];
    if f.id in d.partials && f.id in Unlinked(d, files) {
      var j :| 0 <= j < |files| && Unlinks(d, files[j]) && files[j].id == f.id;
      assert j == i;
    }
  }

  /** prepare resumes whatever can be resumed, and nothing else. */
  lemma PrepareDecides(d: Disk, files: seq<FileMeta>, sha: Digest)
    requires Consistent(d) && UniqueIds(files)
    ensures AllDecided(d, Prepared(d, files, sha), files, PlanMap(d, files, sha), sha)
  {
    var after, plans := Prepared(d, files, sha), PlanMap(d, files, sha);
    forall i | 0 <= i < |files| ensures OnRecord(d, after, files[i], plans, sha) {
      OneFileOnRecord(d, files, i, sha);
    }
  }

  ghost predicate EveryDecided(d: Disk, partials: map<string, Partial>, files: seq<FileMeta>, plans: map<string, Plan>,
      sha: Digest)
  {
    forall i :: 0 <= i < |files| ==>
      files[i].id in plans && FileDecided(d, partials, files[i], plans[files[i].id], sha)
  }

  lemma EveryFileDecided(d: Disk, files: seq<FileMeta>, sha: Digest)
    requires Consistent(d) && UniqueIds(files)
    ensures EveryDecided(d, DuringPrepare(d, files, |files|).partials, files, PlanMap(d, files, sha), sha)
  {
    assert files[..|files|] == files;
    forall i | 0 <= i < |files|
      ensures files[i].id in PlanMap(d, files, sha)
      ensures FileDecided(d, Prepared(d, files, sha).partials, files[i], PlanMap(d, files, sha)[files[i].id], sha)
    {
      OneFileOnRecord(d, files, i, sha);
    }
  }

  lemma OneFileOnRecord(d: Disk, files: seq<FileMeta>, i: nat, sha: Digest)
    requires Consistent(d) && UniqueIds(files) && i < |files|
    ensures OnRecord(d, Prepared(d, files, sha), files[i], PlanMap(d, files, sha), sha)
  {
    PreparedAt(d, files, sha, i);
    OneFileDecided(d, files, i, sha);
  }

  lemma UnlinksKeepConsistent(d: Disk, d': Disk)
    requires Consistent(d) && d'.metadata == d.metadata
    requires forall id :: id in d'.partials ==> id in d.partials && d'.partials[id] == d.partials[id]
    ensures Consistent(d')
  {
  }

  // ---- completion

  /** Commit and mark_completed as one step: the partial's content appears under the free name,
      the partial is gone and the record gains its final path. */
  ghost function Committed(d: Disk, f: FileMeta): Disk
    requires f.id in d.partials && f.id in d.metadata
  {
    var path := FreeName(d.received.Keys, f.name);
    Disk(d.metadata[f.id := d.metadata[f.id].(finalPath := Some(path))],
         d.partials - {f.id},
         d.received[path := d.partials[f.id].bytes])
  }

  lemma CommitKeepsConsistent(d: Disk, f: FileMeta)
    requires Consistent(d) && f.id in d.partials && f.id in d.metadata
    ensures Consistent(Committed(d, f))
    ensures d.received.Keys < Committed(d, f).received.Keys
    ensures forall name :: name in d.received ==> Committed(d, f).received[name] == d.received[name]
    ensures Matches(d, f) && |d.partials[f.id].bytes| == f.size
            ==> forall sha: Digest :: sha(d.partials[f.id].bytes) == f.sha256 ==> FinalVerifies(Committed(d, f), f, sha)
  {
    var after := Committed(d, f);
    assert after.metadata[f.id].finalPath.value !in d.received;
    assert d.received.Keys < after.received.Keys by {
      assert after.received.Keys == d.received.Keys + {after.metadata[f.id].finalPath.value};
    }
  }

  function Removed(d: Disk): Disk { d.(metadata := map[], partials := map[]) }

  // ---- the store object

  datatype StoreError = MissingResumeMetadata

  ghost predicate AllConsistent(trail: seq<Disk>, from: nat) {
    forall t :: from <= t < |trail| ==> Consistent(trail[t])
  }

  class PartialTransferStore {
    var metadata: map<string, Record>
    var partials: map<string, Partial>
    var received: map<string, Bytes>
    ghost var trail: seq<Disk>  // every durable state, in order

    function OnDisk(): Disk
      reads this
    {
      Disk(metadata, partials, received)
    }

    constructor (received: map<string, Bytes>)
      ensures OnDisk() == Disk(map[], map[], received) && trail == []
    {
      metadata, partials, this.received, trail := map[], map[], received, [];
    }

    method Unlink(id: string)
      modifies this`partials, this`trail
      ensures partials == old(partials) - {id} && trail == old(trail) + [OnDisk()]
    {
      partials := partials - {id};
      trail := trail + [OnDisk()];
    }

    method AtomicWrite(value: map<string, Record>)
      modifies this`metadata, this`trail
      ensures metadata == value && trail == old(trail) + [OnDisk()]
    {
      metadata := value;
      trail := trail + [OnDisk()];
    }

    /** The per-file part of prepare: the decision, the unlink, and the plan. */
    method PrepareFile(stored: map<string, Record>, f: FileMeta, sha: Digest, ghost start: Disk)
      returns (plan: Plan)
      requires stored == metadata == start.metadata && received == start.received
      requires f.id in partials <==> f.id in start.partials
      requires f.id in partials ==> partials[f.id] == start.partials[f.id]
      modifies this`partials, this`trail
      ensures plan == PlanFor(start, f, sha)
      ensures Consistent(start) ==> FileDecided(start, partials, f, plan, sha)
      ensures partials == if Unlinks(start, f) then old(partials) - {f.id} else old(partials)
      ensures trail == old(trail) || trail == old(trail) + [OnDisk()]
      ensures trail == old(trail) ==> partials == old(partials)
    {
      plan := Plan(0, None);
      if f.id in stored && Describes(stored[f.id], f) {
        var rawFinal := stored[f.id].finalPath;
        if rawFinal.Some? {
          var candidate := rawFinal.value;
          if candidate in received && |received[candidate]| == f.size && sha(received[candidate]) == f.sha256 {
            plan := Plan(f.size, Some(candidate));
          }
        } else if f.id in partials {
          var offset := |partials[f.id].bytes|;
          if offset > f.size {
            Unlink(f.id);
          } else {
            plan := Plan(offset, None);
          }
        }
      } else {
        Unlink(f.id);
      }
    }

    /** After k files: the unlinks of those files are done, the metadata are still the old ones. */
    ghost predicate Halfway(start: Disk, files: seq<FileMeta>, k: nat)
      requires k <= |files|
      reads this
    {
      && metadata == start.metadata && received == start.received
      && partials == start.partials - Unlinked(start, files[..k])
    }

    /** One file of the loop of prepare. */
    method PrepareNext(files: seq<FileMeta>, k: nat, sha: Digest, ghost start: Disk, ghost from: nat)
      returns (plan: Plan)
      requires UniqueIds(files) && k < |files| && Halfway(start, files, k) && Consistent(start)
      requires from <= |trail| && AllConsistent(trail, from)
      modifies this`partials, this`trail
      ensures Halfway(start, files, k + 1) && plan == PlanFor(start, files[k], sha)
      ensures FileDecided(start, partials, files[k], plan, sha)
      ensures old(trail) <= trail && AllConsistent(trail, from)
    {
      ghost var durable := trail;
      PartialsShrink(start, files, k, partials);
      plan := PrepareFile(metadata, files[k], sha, start);
      UnlinksKeepConsistent(start, OnDisk());
      TrailGrows(durable, trail, from, OnDisk());
    }

    /** The loop of prepare: unlinks as it goes, metadata still the old ones. */
    method PrepareFiles(files: seq<FileMeta>, sha: Digest)
      returns (result: map<string, Plan>, updated: map<string, Record>)
      requires UniqueIds(files) && Consistent(OnDisk())
      modifies this`partials, this`trail
      ensures OnDisk() == DuringPrepare(old(OnDisk()), files, |files|)
      ensures result == PlanMap(old(OnDisk()), files, sha) && updated == NewMetadata(old(OnDisk()), files, sha)
      ensures EveryDecided(old(OnDisk()), partials, files, result, sha)
      ensures old(trail) <= trail && AllConsistent(trail, |old(trail)|)
    {
      ghost var start, before := OnDisk(), trail;
      result, updated := map[], map[];
      var k := 0;
      while k < |files|
        invariant 0 <= k <= |files| && Halfway(start, files, k)
        invariant updated == NewMetadata(start, files[..k], sha) && result == PlanMap(start, files[..k], sha)
        invariant before <= trail && AllConsistent(trail, |before|)
      {
        var f := files[k];
        MapsGrow(start, files, k, sha);
        var plan := PrepareNext(files, k, sha, start, |before|);
        updated := updated[f.id := Record(f.name, f.size, f.sha256, plan.finalPath)];
        result := result[f.id := plan];
        k := k + 1;
      }
      assert files[..k] == files;
      EveryFileDecided(start, files, sha);
    }

    /** prepare computes the plans from the state it found, leaves the prepared disk, and every
        durable state it passes through is one of the crash points proved safe above. */
    method Prepare(files: seq<FileMeta>, sha: Digest) returns (result: map<string, Plan>)
      requires UniqueIds(files) && Consistent(OnDisk())
      modifies this`metadata, this`partials, this`trail
      ensures OnDisk() == Prepared(old(OnDisk()), files, sha)
      ensures result == PlanMap(old(OnDisk()), files, sha)
      ensures AllDecided(old(OnDisk()), OnDisk(), files, result, sha)
      ensures old(trail) <= trail && AllConsistent(trail, |old(trail)|)
    {
      PrepareIsCrashSafe(OnDisk(), files, sha);
      PrepareDecides(OnDisk(), files, sha);
      assert files[..|files|] == files;
      var updated;
      result, updated := PrepareFiles(files, sha);
      AtomicWrite(updated);
    }

    method MarkCompleted(id: string, path: string) returns (r: Result<(), StoreError>)
      modifies this`metadata, this`trail
      ensures r.Ok? <==> id in old(metadata)
      ensures r.Ok? ==> metadata == old(metadata)[id := old(metadata)[id].(finalPath := Some(path))]
      ensures r.Err? ==> metadata == old(metadata)
      ensures trail == if r.Ok? then old(trail) + [OnDisk()] else old(trail)
    {
      if id !in metadata { return Err(MissingResumeMetadata); }
      AtomicWrite(metadata[id := metadata[id].(finalPath := Some(path))]);
      return Ok(());
    }

    /** rmtree takes the entries in no particular order; the metadata go after `early` partials, or last. */
    method CompleteSession(early: nat)
      modifies this`metadata, this`partials, this`trail
      ensures OnDisk() == Removed(old(OnDisk()))
      ensures old(trail) <= trail
      ensures Consistent(old(OnDisk())) ==> AllConsistent(trail, |old(trail)|)
    {
      ghost var start, before := OnDisk(), trail;
      var pending, taken, gone := partials.Keys, 0, false;
      while pending != {} || !gone
        invariant Leftover(start, OnDisk()) && partials.Keys == pending && (gone ==> metadata == map[])
        invariant before <= trail && (Consistent(start) ==> AllConsistent(trail, |before|))
        decreases |pending|, !gone
      {
        ghost var durable := trail;
        if !gone && (taken == early || pending == {}) {
          AtomicWrite(map[]);
          gone := true;
        } else {
          var id :| id in pending;
          Unlink(id);
          pending, taken := pending - {id}, taken + 1;
        }
        LeftoverIsConsistent(start, OnDisk());
        if Consistent(start) { TrailGrows(durable, trail, |before|, OnDisk()); }
      }
    }
  }

  /** Part of a store: some partials gone, the metadata there or gone. */
  ghost predicate Leftover(start: Disk, d: Disk) {
    && (d.metadata == start.metadata || d.metadata == map[]) && d.received == start.received
    && forall id :: id in d.partials ==> id in start.partials && d.partials[id] == start.partials[id]
  }

  lemma LeftoverIsConsistent(start: Disk, d: Disk)
    requires Leftover(start, d)
    ensures Consistent(start) ==> Consistent(d)
  {
  }

  lemma TrailGrows(trail: seq<Disk>, trail': seq<Disk>, from: nat, d: Disk)
    requires from <= |trail| && AllConsistent(trail, from) && Consistent(d)
    requires trail' == trail || trail' == trail + [d]
    ensures trail <= trail' && AllConsistent(trail', from)
  {
  }

  lemma MapsGrow(d: Disk, files: seq<FileMeta>, k: nat, sha: Digest)
    requires k < |files|
    ensures NewMetadata(d, files[..k + 1], sha)
            == NewMetadata(d, files[..k], sha)[files[k].id := RecordFor(d, files[k], sha)]
    ensures PlanMap(d, files[..k + 1], sha) == PlanMap(d, files[..k], sha)[files[k].id := PlanFor(d, files[k], sha)]
  {
    assert files[..k + 1][..k] == files[..k];
  }

  lemma PartialsShrink(d: Disk, files: seq<FileMeta>, k: nat, partials: map<string, Partial>)
    requires UniqueIds(files) && k < |files| && partials == d.partials - Unlinked(d, files[..k])
    ensures d.partials - Unlinked(d, files[..k + 1])
            == if Unlinks(d, files[k]) then partials - {files[k].id} else partials
    ensures files[k].id in partials <==> files[k].id in d.partials
    ensures files[k].id in partials ==> partials[files[k].id] == d.partials[files[k].id]
  {
    UnlinkedGrows(d, files, k);
  }

  lemma UnlinkedGrows(d: Disk, files: seq<FileMeta>, k: nat)
    requires UniqueIds(files) && k < |files|
    ensures files[k].id !in Unlinked(d, files[..k])
    ensures Unlinked(d, files[..k + 1])
            == if Unlinks(d, files[k]) then Unlinked(d, files[..k]) + {files[k].id} else Unlinked(d, files[..k])
  {
    var shorter, longer := files[..k], files[..k + 1];
    assert forall i :: 0 <= i < k ==> shorter[i] == longer[i];
    forall x | x in Unlinked(d, longer)
      ensures x in Unlinked(d, shorter) || (Unlinks(d, files[k]) && x == files[k].id)
    {
      var i :| 0 <= i < |longer| && Unlinks(d, longer[i]) && longer[i].id == x;
      if i < k { assert Unlinks(d, shorter[i]); }
    }
    if Unlinks(d, files[k]) { assert longer[k] == files[k]; }
  }
}
