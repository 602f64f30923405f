/** What the history of one transfer may claim over whole runs, across restarts (core/transfer.py,
    _persist_runtime_transfers and the incoming-request callbacks; core/history.py). */
module Claims {
  import opened Common
  import opened Lifecycle
  import opened Protocol
  import opened History

  datatype Decision = Accept | Reject | Expire | CancelRequest

  function DecisionStatus(d: Decision): Status {
    match d
    case Accept => Accepted
    case Reject => Rejected
    case Expire => Failed
    case CancelRequest => Cancelled
  }

  /** What the running process knows of this transfer: nothing, an offer waiting for its decision, the
      files it receives or sends, or an offer turned down. The inbox lets one offer through per ID and
      process, refuses one with other files, and lets an accepted one through again without an event. */
  datatype Asked = NoRequest | Waiting(files: seq<FileMeta>) | Taken(files: seq<FileMeta>) | TurnedDown

  /** `offered` holds every file of every offer made under this ID so far, `done` those that were ever
      COMPLETE at run time, in this process or an earlier one. Both are history. */
  datatype World = World(receiving: bool, row: Option<Row>, files: map<string, FileRow>, items: seq<Item>,
                         progress: Option<Progress>, asked: Asked, offered: set<FileMeta>, done: set<FileMeta>)

  datatype Event =
    | Offered(files: seq<FileMeta>, about: About, at: real)
    | Decided(decision: Decision, reason: Option<string>, now: real)
    | Registered(item: Item)
    | Moved(k: nat, target: Status)
    | Counted(k: nat, bytes: nat)
    | Persisted(hostname: Option<string>, now: real)
    | Restarted
    | Deleted

  function Listed(files: seq<FileMeta>): set<FileMeta> { set i | 0 <= i < |files| :: files[i] }

  function Current(w: World): seq<FileMeta> { if w.asked.Waiting? || w.asked.Taken? then w.asked.files else [] }

  function DirectionOf(w: World): Direction { if w.receiving then Recv else Send }

  /** The file a record stands for: ID, name, size and digest. */
  function FileOf(item: Item): FileMeta {
    FileMeta(KeyOf(item).0, item.filename, item.size, if item.sha256.Some? then item.sha256.value else "")
  }

  predicate Stands(w: World, item: Item) {
    item.direction == DirectionOf(w) && item.sha256.Some? && Truthy(item.fileId) && FileOf(item) in Current(w)
  }

  /** A sender has registered its whole batch; a receiver starts with nothing. */
  ghost predicate Start(w: World) {
    && w.done == {} && w.progress.None? && w.files == map[] && w.offered == Listed(Current(w)) && UniqueIds(Current(w))
    && (w.receiving ==> w.row.None? && w.items == [] && w.asked.NoRequest?)
    && (!w.receiving ==> w.asked.Taken? && |Keys(w.items)| >= |w.asked.files|)
    && (w.row.Some? ==> w.row.value.status.PendingApproval? && w.row.value.fileCount <= |w.asked.files|)
    && forall k :: 0 <= k < |w.items| ==> Stands(w, w.items[k]) && w.items[k].status.PendingApproval?
  }

  ghost predicate Enabled(w: World, e: Event) {
    match e
    case Offered(files, _, _) => w.receiving && w.asked.NoRequest? && UniqueIds(files)
    case Decided(_, _, _) => w.receiving && w.asked.Waiting?
    case Registered(item) =>
      w.receiving && w.asked.Taken? && Stands(w, item) && (item.status.Active? || item.status.Resuming?)
    case Moved(k, target) => k < |w.items| && !Judge(w.items[k].status, target).Refused?
    case Counted(k, _) => k < |w.items|
    case Persisted(_, _) => true
    case Restarted => true
    case Deleted => true
  }

  function OfferRow(files: seq<FileMeta>, about: About, at: real): Row {
    Row(about, at, PendingApproval, |files|, TotalSize(files), 0, None, None, false, 0)
  }

  function OfferFile(f: FileMeta): FileRow { FileRow(f.name, f.size, Some(f.sha256), PendingApproval, 0, None) }

  function OfferFiles(files: seq<FileMeta>): (rows: seq<(string, FileRow)>)
    ensures |rows| == |files| && forall i :: 0 <= i < |rows| ==> rows[i] == (files[i].id, OfferFile(files[i]))
  {
    seq(|files|, i requires 0 <= i < |files| => (files[i].id, OfferFile(files[i])))
  }

  function Decide(w: World, d: Decision, reason: Option<string>, now: real): World
    requires w.asked.Waiting?
  {
    var error := if d.Expire? && !Truthy(reason) then Some("Transfer request expired") else reason;
    var changes := NO_CHANGES.(status := Some(DecisionStatus(d)), error := Some(error),
                               completedAt := Some(if d.Accept? then None else Some(now)));
    var changed := w.(row := if w.row.None? then None else Some(UpdateRow(w.row.value, changes)),
                      asked := if d.Accept? then Taken(w.asked.files) else TurnedDown);
    if d.Accept? then changed
    else changed.(files := map f | f in w.files :: w.files[f].(status := DecisionStatus(d)))
  }

  function Persist(w: World, hostname: Option<string>, now: real): World {
    var infos := Infos(w.items);
    if !Flushes(w.row, w.items, w.progress, now) then w
    else
      w.(row := Some(Upsert(w.row, Record(w.row, infos, hostname))), files := UpsertFiles(w.files, FileRows(infos)),
         progress := Some(Progress(now, RecordBytes(w.row, infos), RecordStatus(w.row, infos))))
  }

  ghost function Step(w: World, e: Event): World
    requires Enabled(w, e)
  {
    match e
    case Offered(files, about, at) =>
      w.(row := Some(Upsert(w.row, OfferRow(files, about, at))), files := UpsertFiles(w.files, OfferFiles(files)),
         asked := Waiting(files), offered := w.offered + Listed(files))
    case Decided(d, reason, now) => Decide(w, d, reason, now)
    case Registered(item) => w.(items := w.items + [item])
    case Moved(k, target) =>
      w.(items := w.items[k := w.items[k].(status := target)],
         done := if target.Complete? then w.done + {FileOf(w.items[k])} else w.done)
    case Counted(k, bytes) => w.(items := w.items[k := w.items[k].(bytes := bytes)])
    case Persisted(hostname, now) => Persist(w, hostname, now)
    case Restarted =>
      w.(row := if w.row.None? then None else Some(Migrated(w.row.value)), items := [], progress := None,
         asked := NoRequest)
    case Deleted => w.(row := None, files := map[])
  }

  // ---- the claims

  predicate ReadsComplete(w: World) { w.row.Some? && w.row.value.status.Complete? }

  /** A row reads complete only if every file of every offer so far has been COMPLETE. */
  predicate Honest(w: World) { ReadsComplete(w) ==> w.offered <= w.done }

  predicate Has(done: set<FileMeta>, id: string, sha256: Option<string>) {
    exists f :: f in done && f.id == id && sha256 == Some(f.sha256)
  }

  /** A file row reads complete only if a file of that ID and digest has been COMPLETE. */
  predicate FileHonest(files: map<string, FileRow>, id: string, done: set<FileMeta>) {
    id in files && files[id].status.Complete? ==> Has(done, id, files[id].sha256)
  }

  predicate AllFilesHonest(files: map<string, FileRow>, done: set<FileMeta>) {
    forall id :: id in files ==> FileHonest(files, id, done)
  }

  predicate FilesHonest(w: World) { AllFilesHonest(w.files, w.done) }

  /** An offered file whose row reads complete by another digest. */
  predicate Renews(files: map<string, FileRow>, f: FileMeta, done: set<FileMeta>) {
    f.id in files && files[f.id].status.Complete? && !Has(done, f.id, Some(f.sha256))
  }

  /** The next persist would turn the row complete. */
  predicate Completes(w: World) {
    && !ReadsComplete(w) && w.items != [] && Aggregate(Infos(w.items)).Complete?
    && (w.row.Some? ==> w.row.value.fileCount <= |Infos(w.items)|)
  }

  /** Files offered in an earlier process, never finished, and missing from the current offer. */
  function Abandoned(w: World): set<FileMeta> { w.offered - w.done - Listed(Current(w)) }

  /** The two ways a row comes to claim too much: an offer under the ID of a finished transfer that
      lists a file not finished, and a finished offer while an earlier one was abandoned. */
  predicate Overclaims(w: World, e: Event) {
    match e
    case Offered(files, _, _) => ReadsComplete(w) && !(Listed(files) <= w.done)
    case Persisted(_, _) => Completes(w) && Abandoned(w) != {}
    case _ => false
  }

  /** The way a file row does: the offer gives a finished file ID a digest never finished under it. */
  predicate FileOverclaims(w: World, e: Event) {
    e.Offered? && exists i :: 0 <= i < |e.files| && Renews(w.files, e.files[i], w.done)
  }

  // ---- the invariant

  predicate ItemOk(w: World, item: Item) {
    w.asked.Taken? && Stands(w, item) && (item.status.Complete? ==> FileOf(item) in w.done)
  }

  predicate ItemsOk(w: World) { forall k :: 0 <= k < |w.items| ==> ItemOk(w, w.items[k]) }

  predicate OffersOk(w: World) { Listed(Current(w)) <= w.offered && w.done <= w.offered }

  /** The row counts the whole offer, or the records do; it never counts more than was offered. */
  predicate CountsOk(w: World) {
    && (w.row.Some? ==> w.row.value.fileCount <= |w.offered|)
    && ((w.row.Some? && w.row.value.fileCount >= |Current(w)|) || |Keys(w.items)| >= |Current(w)|)
  }

  ghost predicate RowsCurrent(files: map<string, FileRow>, current: seq<FileMeta>) {
    forall i :: 0 <= i < |current| && current[i].id in files ==> files[current[i].id].sha256 == Some(current[i].sha256)
  }

  ghost predicate Sound(w: World) { RecordsOk(w) && CountsOk(w) && RowsCurrent(w.files, Current(w)) }

  /** The part of the invariant that no event breaks, deletions and overclaiming ones included. */
  ghost predicate RecordsOk(w: World) { UniqueIds(Current(w)) && ItemsOk(w) && OffersOk(w) }

  // ---- records and files

  lemma {:induction false} SameKeys(items: seq<Item>, items': seq<Item>)
    requires |items| == |items'| && forall i :: 0 <= i < |items| ==> KeyOf(items[i]) == KeyOf(items'[i])
    ensures Keys(items) == Keys(items')
  {
    if items != [] { SameKeys(items[..|items| - 1], items'[..|items| - 1]); }
  }

  lemma {:induction false} ListedSize(files: seq<FileMeta>)
    requires UniqueIds(files)
    ensures |Listed(files)| == |files|
    decreases |files|
  {
    if files != [] {
      var n := |files| - 1;
      ListedSize(files[..n]);
      assert Listed(files) == Listed(files[..n]) + {files[n]};
      assert files[n] !in Listed(files[..n]);
    }
  }

  function KeysOfFiles(files: seq<FileMeta>, d: Direction): set<Key> { set i | 0 <= i < |files| :: (files[i].id, d) }

  lemma {:induction false} KeysOfFilesSize(files: seq<FileMeta>, d: Direction)
    requires UniqueIds(files)
    ensures |KeysOfFiles(files, d)| == |files|
    decreases |files|
  {
    if files != [] {
      var n := |files| - 1;
      KeysOfFilesSize(files[..n], d);
      assert KeysOfFiles(files, d) == KeysOfFiles(files[..n], d) + {(files[n].id, d)};
      assert (files[n].id, d) !in KeysOfFiles(files[..n], d);
    }
  }

  lemma KeysAreOffered(w: World)
    requires ItemsOk(w) && UniqueIds(Current(w))
    ensures SetOf(Keys(w.items)) <= KeysOfFiles(Current(w), DirectionOf(w))
    ensures |SetOf(Keys(w.items))| == |Keys(w.items)| <= |Current(w)| == |KeysOfFiles(Current(w), DirectionOf(w))|
  {
    var d := DirectionOf(w);
    KeysAreTheFiles(w.items);
    forall key | key in SetOf(Keys(w.items)) ensures key in KeysOfFiles(Current(w), d) {
      var item := Group(w.items, key)[0];
      GroupIsAFilter(w.items, key, item);
      assert Stands(w, item);
      var i :| 0 <= i < |Current(w)| && Current(w)[i] == FileOf(item);
    }
    SetOfSize(Keys(w.items));
    KeysOfFilesSize(Current(w), d);
    SubsetSize(SetOf(Keys(w.items)), KeysOfFiles(Current(w), d));
  }

  /** When all records are COMPLETE and none is missing, every file of the current offer is done. */
  lemma CurrentIsDone(w: World)
    requires Sound(w) && Completes(w)
    ensures Listed(Current(w)) <= w.done
  {
    KeysAreOffered(w);
    SubsetOfSameSize(SetOf(Keys(w.items)), KeysOfFiles(Current(w), DirectionOf(w)));
    forall f | f in Listed(Current(w)) ensures f in w.done {
      var i :| 0 <= i < |Current(w)| && Current(w)[i] == f;
      assert (f.id, DirectionOf(w)) in SetOf(Keys(w.items));
      KeyIsDone(w, i);
    }
  }

  lemma StandsForIt(w: World, item: Item, i: nat)
    requires UniqueIds(Current(w)) && i < |Current(w)| && Stands(w, item) && KeyOf(item).0 == Current(w)[i].id
    ensures FileOf(item) == Current(w)[i]
  {
    var j :| 0 <= j < |Current(w)| && Current(w)[j] == FileOf(item);
  }

  lemma CompleteRecord(items: seq<Item>, key: Key) returns (k: nat)
    requires Aggregate(Infos(items)).Complete? && key in Keys(items)
    ensures k < |items| && KeyOf(items[k]) == key && items[k].status.Complete?
  {
    AggregateCounts(items);
    assert key in SetOf(Keys(items));
    k :| 0 <= k < |items| && KeyOf(items[k]) == key && items[k].status.Complete?;
  }

  lemma KeyIsDone(w: World, i: nat)
    requires UniqueIds(Current(w)) && ItemsOk(w) && Aggregate(Infos(w.items)).Complete? && i < |Current(w)|
    requires (Current(w)[i].id, DirectionOf(w)) in Keys(w.items)
    ensures Current(w)[i] in w.done
  {
    var k := CompleteRecord(w.items, (Current(w)[i].id, DirectionOf(w)));
    assert ItemOk(w, w.items[k]);
    StandsForIt(w, w.items[k], i);
  }

  // ---- file rows

  /** With distinct IDs every new row lands, merged, under its own ID, and no other row changes. */
  lemma {:induction false} UpsertedRow(files: map<string, FileRow>, new_: seq<(string, FileRow)>, id: string)
    requires forall i, j :: 0 <= i < j < |new_| ==> new_[i].0 != new_[j].0
    ensures var after := UpsertFiles(files, new_);
            && (id in after <==> id in files || exists i :: 0 <= i < |new_| && new_[i].0 == id)
            && (forall i :: 0 <= i < |new_| && new_[i].0 == id ==>
                  after[id] == if id in files then MergeFile(files[id], new_[i].1) else new_[i].1)
            && ((forall i :: 0 <= i < |new_| ==> new_[i].0 != id) && id in files ==> after[id] == files[id])
    decreases |new_|
  {
    if new_ != [] { UpsertedRow(files, new_[..|new_| - 1], id); }
  }

  /** Every record stands for a file of the current offer, so its row carries that file's digest. */
  lemma InfoStands(w: World, i: nat)
    requires ItemsOk(w) && i < |Infos(w.items)|
    ensures Stands(w, Infos(w.items)[i]) && KeyOf(Infos(w.items)[i]) == Keys(w.items)[i]
    ensures Infos(w.items)[i].status.Complete? ==> FileOf(Infos(w.items)[i]) in w.done
  {
    var key := Keys(w.items)[i];
    var g := Group(w.items, key);
    var best := BestOf(g);
    assert Infos(w.items)[i] == Resolve(g);
    GroupIsAFilter(w.items, key, best);
    GroupIsAFilter(w.items, key, g[0]);
  }

  lemma RowIdsDiffer(w: World)
    requires ItemsOk(w)
    ensures var rows := FileRows(Infos(w.items)); forall i, j :: 0 <= i < j < |rows| ==> rows[i].0 != rows[j].0
  {
    KeysAreTheFiles(w.items);
    var rows := FileRows(Infos(w.items));
    forall i, j | 0 <= i < j < |rows| ensures rows[i].0 != rows[j].0 {
      InfoStands(w, i);
      InfoStands(w, j);
      assert rows[i].0 == Keys(w.items)[i].0 && rows[j].0 == Keys(w.items)[j].0;
    }
  }

  /** One upserted row: its digest is the new one, and it reads complete only by a finished file. */
  lemma MergedRowHonest(files: map<string, FileRow>, id: string, new_: FileRow, done: set<FileMeta>)
    requires id in files && files[id].status.Complete? ==> Has(done, id, new_.sha256)
    requires new_.status.Complete? ==> Has(done, id, new_.sha256)
    requires new_.sha256.Some?
    ensures var row := if id in files then MergeFile(files[id], new_) else new_;
            row.sha256 == new_.sha256 && (row.status.Complete? ==> Has(done, id, row.sha256))
  {
  }

  lemma PersistedFiles(w: World)
    requires Sound(w) && FilesHonest(w)
    ensures var files := UpsertFiles(w.files, FileRows(Infos(w.items)));
            RowsCurrent(files, Current(w)) && AllFilesHonest(files, w.done)
  {
    var rows := FileRows(Infos(w.items));
    var files := UpsertFiles(w.files, rows);
    RowIdsDiffer(w);
    forall id | id in files
      ensures FileHonest(files, id, w.done)
      ensures forall i :: 0 <= i < |Current(w)| && Current(w)[i].id == id ==>
                files[id].sha256 == Some(Current(w)[i].sha256)
    {
      UpsertedRow(w.files, rows, id);
      assert id in w.files ==> FileHonest(w.files, id, w.done);
      if k :| 0 <= k < |rows| && rows[k].0 == id { PersistedRow(w, k); }
    }
  }

  lemma PersistedRow(w: World, k: nat)
    requires Sound(w) && FilesHonest(w) && k < |Infos(w.items)|
    ensures var id, new_ := FileRows(Infos(w.items))[k].0, FileRows(Infos(w.items))[k].1;
            var row := if id in w.files then MergeFile(w.files[id], new_) else new_;
            && (row.status.Complete? ==> Has(w.done, id, row.sha256))
            && forall i :: 0 <= i < |Current(w)| && Current(w)[i].id == id ==> row.sha256 == Some(Current(w)[i].sha256)
  {
    var info := Infos(w.items)[k];
    InfoStands(w, k);
    assert RowId(info, k) in w.files ==> FileHonest(w.files, RowId(info, k), w.done);
    assert FileRows(Infos(w.items))[k] == (RowId(info, k), FileRowOf(info));
    MergedRowHonest(w.files, RowId(info, k), FileRowOf(info), w.done);
    forall i | 0 <= i < |Current(w)| && Current(w)[i].id == RowId(info, k)
      ensures FileRowOf(info).sha256 == Some(Current(w)[i].sha256)
    {
      StandsForIt(w, info, i);
    }
  }

  lemma OfferedRow(files: map<string, FileRow>, offer: seq<FileMeta>, i: nat, done: set<FileMeta>)
    requires UniqueIds(offer) && i < |offer|
    ensures var id, after := offer[i].id, UpsertFiles(files, OfferFiles(offer));
            && id in after && after[id].sha256 == Some(offer[i].sha256)
            && (FileHonest(after, id, done) <==> !Renews(files, offer[i], done))
  {
    UpsertedRow(files, OfferFiles(offer), offer[i].id);
    assert OfferFiles(offer)[i] == (offer[i].id, OfferFile(offer[i]));
  }

  /** An offer keeps the file rows honest exactly when it renews none of the complete ones. */
  lemma OfferedFiles(files: map<string, FileRow>, offer: seq<FileMeta>, done: set<FileMeta>)
    requires UniqueIds(offer) && AllFilesHonest(files, done)
    ensures RowsCurrent(UpsertFiles(files, OfferFiles(offer)), offer)
    ensures AllFilesHonest(UpsertFiles(files, OfferFiles(offer)), done)
            <==> !exists i :: 0 <= i < |offer| && Renews(files, offer[i], done)
  {
    var after := UpsertFiles(files, OfferFiles(offer));
    forall i | 0 <= i < |offer|
      ensures offer[i].id in after && after[offer[i].id].sha256 == Some(offer[i].sha256)
      ensures FileHonest(after, offer[i].id, done) <==> !Renews(files, offer[i], done)
    {
      OfferedRow(files, offer, i, done);
    }
    forall id | id in after && forall i :: 0 <= i < |offer| ==> offer[i].id != id ensures FileHonest(after, id, done) {
      UpsertedRow(files, OfferFiles(offer), id);
      assert FileHonest(files, id, done);
    }
  }

  // ---- events

  lemma KeysGrow(items: seq<Item>, item: Item)
    ensures |Keys(items)| <= |Keys(items + [item])|
  {
    assert (items + [item])[..|items|] == items;
  }

  lemma OfferKeepsSound(w: World, e: Event)
    requires Sound(w) && FilesHonest(w) && e.Offered? && Enabled(w, e)
    ensures Sound(Step(w, e))
    ensures Honest(Step(w, e)) <==> !Overclaims(w, e) && (ReadsComplete(w) ==> w.offered <= w.done)
    ensures FilesHonest(Step(w, e)) <==> !FileOverclaims(w, e)
  {
    var w' := Step(w, e);
    OfferedFiles(w.files, e.files, w.done);
    ListedSize(e.files);
    SubsetSize(Listed(e.files), w'.offered);
    SubsetSize(w.offered, w'.offered);
  }

  /** A decision in the history: an acceptance opens the offer for its files, and shows on a row that is not
      complete; anything else ends the row and every file row, with the time, the reason (an expiry that
      has none gets one) and the status that belongs to it. */
  lemma DecisionIsRecorded(w: World, d: Decision, reason: Option<string>, now: real)
    requires w.asked.Waiting?
    ensures var z := Decide(w, d, reason, now);
            var ended := if d.Reject? then Rejected else if d.Expire? then Failed else Cancelled;
            && z == w.(row := z.row, files := z.files, asked := z.asked) && (z.row.None? <==> w.row.None?)
            && (d.Accept? ==>
                  && z.asked == Taken(w.asked.files) && z.files == w.files
                  && (w.row.Some? ==>
                        z.row.value == if ReadsComplete(w) then w.row.value
                                       else w.row.value.(status := Accepted, error := reason, completedAt := None)))
            && (!d.Accept? ==>
                  && z.asked.TurnedDown? && z.files.Keys == w.files.Keys
                  && (forall id :: id in w.files ==> z.files[id] == w.files[id].(status := ended))
                  && (w.row.Some? ==>
                        && z.row.value == w.row.value.(status := ended, error := z.row.value.error,
                                                       completedAt := Some(now))
                        && z.row.value.error == if d.Expire? && !Truthy(reason) then Some("Transfer request expired")
                                                else reason))
  {
  }

  lemma DecideKeepsSound(w: World, e: Event)
    requires Sound(w) && FilesHonest(w) && e.Decided? && Enabled(w, e)
    ensures Sound(Step(w, e)) && FilesHonest(Step(w, e))
    ensures ReadsComplete(Step(w, e)) <==> ReadsComplete(w) && e.decision.Accept?
  {
    var w' := Step(w, e);
    forall id | id in w'.files ensures FileHonest(w'.files, id, w'.done) {
      assert FileHonest(w.files, id, w.done);
    }
  }

  lemma RegisterKeepsSound(w: World, e: Event)
    requires Sound(w) && FilesHonest(w) && e.Registered? && Enabled(w, e)
    ensures Sound(Step(w, e)) && FilesHonest(Step(w, e))
  {
    KeysGrow(w.items, e.item);
  }

  lemma HasMore(done: set<FileMeta>, more: set<FileMeta>, id: string, sha256: Option<string>)
    requires Has(done, id, sha256) && done <= more
    ensures Has(more, id, sha256)
  {
    var f :| f in done && f.id == id && sha256 == Some(f.sha256);
    assert f in more;
  }

  /** More files done keeps the file rows honest. */
  lemma HonestWithMore(files: map<string, FileRow>, done: set<FileMeta>, more: set<FileMeta>)
    requires AllFilesHonest(files, done) && done <= more
    ensures AllFilesHonest(files, more)
  {
    forall id | id in files ensures FileHonest(files, id, more) {
      assert FileHonest(files, id, done);
      if files[id].status.Complete? { HasMore(done, more, id, files[id].sha256); }
    }
  }

  /** A record changed in status or count stands for the same file. */
  lemma ItemChanged(w: World, e: Event)
    requires ItemsOk(w) && (e.Moved? || e.Counted?) && Enabled(w, e)
    ensures ItemsOk(Step(w, e)) && Keys(Step(w, e).items) == Keys(w.items)
  {
    var w' := Step(w, e);
    SameKeys(w.items, w'.items);
    forall k | 0 <= k < |w'.items| ensures ItemOk(w', w'.items[k]) {
      assert ItemOk(w, w.items[k]) && FileOf(w'.items[k]) == FileOf(w.items[k]);
    }
  }

  lemma MoveKeepsSound(w: World, e: Event)
    requires Sound(w) && FilesHonest(w) && (e.Moved? || e.Counted?) && Enabled(w, e)
    ensures Sound(Step(w, e)) && FilesHonest(Step(w, e)) && w.done <= Step(w, e).done
  {
    ItemChanged(w, e);
    assert ItemOk(w, w.items[e.k]) && FileOf(w.items[e.k]) in Listed(Current(w));
    HonestWithMore(w.files, w.done, Step(w, e).done);
  }

  lemma RestartKeepsSound(w: World)
    requires Sound(w) && FilesHonest(w)
    ensures Sound(Step(w, Restarted)) && FilesHonest(Step(w, Restarted))
  {
  }

  /** The row a persist writes: complete exactly when it was or now completes, and its counts. */
  lemma RecordedRow(row: Option<Row>, infos: seq<Item>, hostname: Option<string>)
    requires infos != []
    ensures var new_ := Upsert(row, Record(row, infos, hostname));
            && new_.fileCount == Max(|infos|, if row.Some? then row.value.fileCount else 0)
            && (new_.status.Complete? <==>
                  || (row.Some? && row.value.status.Complete?)
                  || (Aggregate(infos).Complete? && (row.Some? ==> row.value.fileCount <= |infos|)))
  {
  }

  /** A persist turns a row complete exactly when every record is COMPLETE and none is missing; it
      then is written at once, whatever the throttling. */
  lemma CompletionIsRecorded(w: World, hostname: Option<string>, now: real)
    ensures ReadsComplete(Persist(w, hostname, now)) <==> ReadsComplete(w) || Completes(w)
    ensures var w' := Persist(w, hostname, now);
            w' == w || (w.items != [] && w'.row.Some?
                        && w'.row.value.fileCount
                           == Max(|Infos(w.items)|, if w.row.Some? then w.row.value.fileCount else 0))
  {
    if w.items != [] { RecordedRow(w.row, Infos(w.items), hostname); }
  }

  /** A persist touches the row, the file rows and its own clock, and nothing else. */
  lemma PersistLeaves(w: World, hostname: Option<string>, now: real)
    ensures var w' := Persist(w, hostname, now);
            && w' == w.(row := w'.row, files := w'.files, progress := w'.progress)
            && (w'.files == w.files || w'.files == UpsertFiles(w.files, FileRows(Infos(w.items))))
  {
  }

  lemma RowsAside(w: World, w': World)
    requires RecordsOk(w) && w' == w.(row := w'.row, files := w'.files, progress := w'.progress)
    ensures RecordsOk(w')
  {
    forall k | 0 <= k < |w'.items| ensures ItemOk(w', w'.items[k]) {
      assert ItemOk(w, w.items[k]);
    }
  }

  lemma RecordsCarryOver(w: World, w': World)
    requires Sound(w) && w' == w.(row := w'.row, files := w'.files, progress := w'.progress)
    requires CountsOk(w') && RowsCurrent(w'.files, Current(w'))
    ensures Sound(w')
  {
    RowsAside(w, w');
  }

  lemma PersistedSound(w: World, hostname: Option<string>, now: real)
    requires Sound(w) && FilesHonest(w)
    ensures Sound(Persist(w, hostname, now)) && FilesHonest(Persist(w, hostname, now))
  {
    PersistedFiles(w);
    PersistedCounts(w, hostname, now);
    PersistLeaves(w, hostname, now);
    RecordsCarryOver(w, Persist(w, hostname, now));
  }

  lemma PersistKeepsSound(w: World, e: Event)
    requires Sound(w) && FilesHonest(w) && Honest(w) && e.Persisted?
    ensures Sound(Step(w, e)) && FilesHonest(Step(w, e))
    ensures Honest(Step(w, e)) <==> !Overclaims(w, e)
  {
    var w' := Persist(w, e.hostname, e.now);
    assert Step(w, e) == w';
    PersistedSound(w, e.hostname, e.now);
    PersistedClaim(w, e.hostname, e.now);
  }

  lemma PersistedCounts(w: World, hostname: Option<string>, now: real)
    requires Sound(w)
    ensures CountsOk(Persist(w, hostname, now))
  {
    CompletionIsRecorded(w, hostname, now);
    if w.items != [] {
      assert ItemOk(w, w.items[0]);
      KeysAreOffered(w);
      ListedSize(Current(w));
      SubsetSize(Listed(Current(w)), w.offered);
    }
  }

  lemma PersistedClaim(w: World, hostname: Option<string>, now: real)
    requires Sound(w) && Honest(w)
    ensures Honest(Persist(w, hostname, now)) <==> !(Completes(w) && Abandoned(w) != {})
  {
    CompletionIsRecorded(w, hostname, now);
    PersistKeepsHistory(w, hostname, now);
    if Completes(w) { AbandonedIsTheRest(w); }
  }

  lemma PersistKeepsHistory(w: World, hostname: Option<string>, now: real)
    ensures Persist(w, hostname, now).offered == w.offered && Persist(w, hostname, now).done == w.done
  {
  }

  lemma AbandonedIsTheRest(w: World)
    requires Sound(w) && Completes(w)
    ensures w.offered <= w.done <==> Abandoned(w) == {}
  {
    CurrentIsDone(w);
    forall f | f in w.offered && f !in w.done ensures f in Abandoned(w) {
    }
  }

  /** The claims are exactly conditioned: an event makes a row, or a file row, claim too much just when
      it overclaims; every other event keeps both claims. */
  lemma ClaimIsExact(w: World, e: Event)
    requires Sound(w) && Honest(w) && FilesHonest(w) && Enabled(w, e) && !e.Deleted?
    ensures Sound(Step(w, e))
    ensures Honest(Step(w, e)) <==> !Overclaims(w, e)
    ensures FilesHonest(Step(w, e)) <==> !FileOverclaims(w, e)
  {
    match e
    case Offered(_, _, _) => OfferKeepsSound(w, e);
    case Decided(_, _, _) => DecideKeepsSound(w, e);
    case Registered(_) => RegisterKeepsSound(w, e);
    case Moved(_, _) => MoveKeepsSound(w, e);
    case Counted(_, _) => MoveKeepsSound(w, e);
    case Persisted(_, _) => PersistKeepsSound(w, e);
    case Restarted => RestartKeepsSound(w);
    case Deleted =>
  }

  // ---- runs

  ghost predicate Legal(w: World, events: seq<Event>)
    decreases |events|
  {
    events == [] || (Enabled(w, events[0]) && Legal(Step(w, events[0]), events[1..]))
  }

  ghost function Run(w: World, events: seq<Event>): World
    requires Legal(w, events)
    decreases |events|
  {
    if events == [] then w else Run(Step(w, events[0]), events[1..])
  }

  lemma StartIsSound(w: World)
    requires Start(w)
    ensures Sound(w) && FilesHonest(w) && !ReadsComplete(w)
  {
    ListedSize(Current(w));
  }

  ghost predicate AlwaysHonest(w: World, events: seq<Event>)
    requires Legal(w, events)
    decreases |events|
  {
    Honest(w) && FilesHonest(w) && (events == [] || AlwaysHonest(Step(w, events[0]), events[1..]))
  }

  ghost predicate NeverOverclaims(w: World, events: seq<Event>)
    requires Legal(w, events)
    decreases |events|
  {
    events == [] ||
    (!Overclaims(w, events[0]) && !FileOverclaims(w, events[0]) && NeverOverclaims(Step(w, events[0]), events[1..]))
  }

  lemma {:induction false} HonestWhileNotOverclaiming(w: World, events: seq<Event>)
    requires Sound(w) && Honest(w) && FilesHonest(w) && Legal(w, events)
    requires forall i :: 0 <= i < |events| ==> !events[i].Deleted?
    ensures AlwaysHonest(w, events) <==> NeverOverclaims(w, events)
    decreases |events|
  {
    if events != [] {
      var e, rest := events[0], events[1..];
      var next := Step(w, e);
      ClaimIsExact(w, e);
      assert NeverOverclaims(w, events) <==> !Overclaims(w, e) && !FileOverclaims(w, e) && NeverOverclaims(next, rest);
      assert AlwaysHonest(w, events) <==> AlwaysHonest(next, rest);
      assert forall i :: 0 <= i < |rest| ==> rest[i] == events[i + 1];
      if Honest(next) && FilesHonest(next) { HonestWhileNotOverclaiming(next, rest); }
    }
  }

  /** Over every run from an empty history in which no row is deleted, restarts and any offers included:
      all claims are honest all the way exactly when no event of the run overclaims. */
  lemma HonestIffNothingOverclaims(w: World, events: seq<Event>)
    requires Start(w) && Legal(w, events) && forall i :: 0 <= i < |events| ==> !events[i].Deleted?
    ensures AlwaysHonest(w, events) <==> NeverOverclaims(w, events)
  {
    StartIsSound(w);
    HonestWhileNotOverclaiming(w, events);
  }

  /** Every offer under the ID lists the same files, digests included; nobody deletes the row. */
  ghost predicate Faithful(events: seq<Event>, batch: set<FileMeta>) {
    forall i :: 0 <= i < |events| ==> !events[i].Deleted? && (events[i].Offered? ==> Listed(events[i].files) == batch)
  }

  ghost predicate InBatch(w: World, batch: set<FileMeta>) {
    && (w.offered == {} || w.offered == batch) && (w.offered == {} ==> w.row.None? || batch == {})
    && (w.asked.Waiting? || w.asked.Taken? ==> Listed(w.asked.files) == batch)
  }

  /** An offer of nothing but the batch gives no finished file ID another digest. */
  lemma BatchRenewsNothing(files: map<string, FileRow>, offer: seq<FileMeta>, done: set<FileMeta>)
    requires AllFilesHonest(files, done) && UniqueIds(offer) && done <= Listed(offer)
    ensures forall i :: 0 <= i < |offer| ==> !Renews(files, offer[i], done)
  {
    forall i | 0 <= i < |offer| ensures !Renews(files, offer[i], done) {
      var id := offer[i].id;
      if id in files && files[id].status.Complete? {
        assert FileHonest(files, id, done);
        var f :| f in done && f.id == id && files[id].sha256 == Some(f.sha256);
        var j :| 0 <= j < |offer| && offer[j] == f;
        assert i == j;
      }
    }
  }

  lemma BatchNeverOverclaims(w: World, e: Event, batch: set<FileMeta>)
    requires Sound(w) && Honest(w) && FilesHonest(w) && Enabled(w, e) && !e.Deleted? && InBatch(w, batch)
    requires e.Offered? ==> Listed(e.files) == batch
    ensures !Overclaims(w, e) && !FileOverclaims(w, e) && InBatch(Step(w, e), batch)
  {
    if e.Offered? {
      BatchRenewsNothing(w.files, e.files, w.done);
    } else if e.Persisted? && w.items != [] {
      assert ItemOk(w, w.items[0]);
      PersistLeaves(w, e.hostname, e.now);
    }
  }

  lemma {:induction false} BatchRun(w: World, events: seq<Event>, batch: set<FileMeta>)
    requires Sound(w) && Honest(w) && FilesHonest(w) && InBatch(w, batch)
    requires Legal(w, events) && Faithful(events, batch)
    ensures var end := Run(w, events);
            Sound(end) && Honest(end) && FilesHonest(end) && InBatch(end, batch)
    decreases |events|
  {
    if events != [] {
      BatchNeverOverclaims(w, events[0], batch);
      ClaimIsExact(w, events[0]);
      assert forall i :: 0 <= i < |events[1..]| ==> events[1..][i] == events[i + 1];
      BatchRun(Step(w, events[0]), events[1..], batch);
    }
  }

  /** History never claims too much: over every run from an empty history, across restarts, in which
      all offers under the ID list one batch, a row reads complete only when exactly the files of the
      batch have been COMPLETE, although the receiver creates its records one at a time; a file row
      reads complete only when a file of its digest has been; and the row counts no more files. */
  lemma HistoryNeverOverclaims(w: World, events: seq<Event>, batch: set<FileMeta>)
    requires Start(w) && Legal(w, events) && Faithful(events, batch) && (!w.receiving ==> w.offered == batch)
    ensures var end := Run(w, events);
            && (ReadsComplete(end) ==> end.done == batch && end.row.value.fileCount <= |batch|)
            && FilesHonest(end)
  {
    StartIsSound(w);
    BatchRun(w, events, batch);
  }

  // ---- one process

  ghost predicate OneProcess(events: seq<Event>) {
    forall i :: 0 <= i < |events| ==> !events[i].Restarted? && !events[i].Deleted?
  }

  /** Before the one offer nothing is recorded; from then on the offer is all that was ever offered,
      and nothing is recorded until it is accepted. */
  ghost predicate ProcessInv(w: World) {
    && Sound(w) && Honest(w) && FilesHonest(w)
    && (w.asked.NoRequest? ==> w.receiving && w.row.None? && w.files == map[] && w.offered == {})
    && (w.asked.Waiting? || w.asked.Taken? ==> w.offered == Listed(w.asked.files))
    && (!w.asked.Taken? ==> w.items == [] && !ReadsComplete(w))
  }

  lemma ProcessOffer(w: World, e: Event)
    requires ProcessInv(w) && Enabled(w, e) && e.Offered?
    ensures ProcessInv(Step(w, e))
  {
    OfferKeepsSound(w, e);
  }

  lemma ProcessDecide(w: World, e: Event)
    requires ProcessInv(w) && Enabled(w, e) && e.Decided?
    ensures ProcessInv(Step(w, e))
  {
    DecideKeepsSound(w, e);
  }

  lemma ProcessRecord(w: World, e: Event)
    requires ProcessInv(w) && Enabled(w, e) && (e.Registered? || e.Moved? || e.Counted?)
    ensures ProcessInv(Step(w, e)) && (ReadsComplete(w) ==> ReadsComplete(Step(w, e)))
  {
    if e.Registered? { RegisterKeepsSound(w, e); } else { MoveKeepsSound(w, e); }
  }

  lemma ProcessPersist(w: World, e: Event)
    requires ProcessInv(w) && e.Persisted?
    ensures ProcessInv(Step(w, e)) && (ReadsComplete(w) ==> ReadsComplete(Step(w, e)))
  {
    var w' := Persist(w, e.hostname, e.now);
    assert Step(w, e) == w';
    CompletionIsRecorded(w, e.hostname, e.now);
    PersistLeaves(w, e.hostname, e.now);
    if w.items == [] {
      assert w' == w;
    } else {
      assert ItemOk(w, w.items[0]) && Abandoned(w) == {};
      PersistKeepsSound(w, e);
    }
  }

  lemma ProcessStep(w: World, e: Event)
    requires ProcessInv(w) && Enabled(w, e) && !e.Restarted? && !e.Deleted?
    ensures ProcessInv(Step(w, e)) && (ReadsComplete(w) ==> ReadsComplete(Step(w, e)))
  {
    match e
    case Offered(_, _, _) => ProcessOffer(w, e);
    case Decided(_, _, _) => ProcessDecide(w, e);
    case Persisted(_, _) => ProcessPersist(w, e);
    case _ => ProcessRecord(w, e);
  }

  lemma {:induction false} ProcessRun(w: World, events: seq<Event>)
    requires ProcessInv(w) && Legal(w, events) && OneProcess(events)
    ensures ProcessInv(Run(w, events)) && (ReadsComplete(w) ==> ReadsComplete(Run(w, events)))
    decreases |events|
  {
    if events != [] {
      assert forall i :: 0 <= i < |events[1..]| ==> events[1..][i] == events[i + 1];
      ProcessStep(w, events[0]);
      ProcessRun(Step(w, events[0]), events[1..]);
    }
  }

  /** In one process, from an empty history, with no assumption about the peers: no row and no file row
      ever claims too much, and once the row reads complete it stays so. */
  lemma OneProcessIsHonest(w: World, before: seq<Event>, after: seq<Event>)
    requires Start(w) && Legal(w, before) && OneProcess(before)
    requires Legal(Run(w, before), after) && OneProcess(after)
    ensures Honest(Run(w, before)) && FilesHonest(Run(w, before))
    ensures ReadsComplete(Run(w, before)) ==> ReadsComplete(Run(Run(w, before), after))
  {
    StartIsSound(w);
    assert ProcessInv(w);
    ProcessRun(w, before);
    ProcessRun(Run(w, before), after);
  }

  // ---- taking a complete row back

  ghost predicate StaysComplete(w: World, events: seq<Event>)
    requires Legal(w, events)
    decreases |events|
  {
    ReadsComplete(w) && (events == [] || StaysComplete(Step(w, events[0]), events[1..]))
  }

  predicate TakesBack(e: Event) { e.Deleted? || (e.Decided? && !e.decision.Accept?) }

  /** A complete row stays complete over a run exactly when no offer is turned down in it (that update
      carries no guard) and nobody deletes the row; its byte count never falls meanwhile. */
  lemma {:induction false} CompleteIsKept(w: World, events: seq<Event>)
    requires ReadsComplete(w) && Legal(w, events)
    ensures StaysComplete(w, events) <==> forall i :: 0 <= i < |events| ==> !TakesBack(events[i])
    ensures StaysComplete(w, events) ==>
              Run(w, events).row.Some? && Run(w, events).row.value.bytes >= w.row.value.bytes
    decreases |events|
  {
    if events != [] {
      assert forall i :: 0 <= i < |events[1..]| ==> events[1..][i] == events[i + 1];
      if TakesBack(events[0]) {
        assert !ReadsComplete(Step(w, events[0]));
      } else {
        CompleteIsKept(Step(w, events[0]), events[1..]);
        assert (forall i :: 0 <= i < |events| ==> !TakesBack(events[i]))
               <==> (forall i :: 0 <= i < |events[1..]| ==> !TakesBack(events[1..][i]));
      }
    }
  }

  // ---- after the row was deleted

  ghost predicate HonestThroughout(w: World, events: seq<Event>)
    requires Legal(w, events)
    decreases |events|
  {
    Honest(w) && (events == [] || HonestThroughout(Step(w, events[0]), events[1..]))
  }

  /** Files of the current offer that no record stands for yet. */
  function Unrecorded(w: World): set<FileMeta> {
    set i | 0 <= i < |Current(w)| && (Current(w)[i].id, DirectionOf(w)) !in Keys(w.items) :: Current(w)[i]
  }

  /** The persist sees all its records COMPLETE while a file of the current offer has no record and was
      not finished before, or an earlier offer was abandoned. */
  predicate TooEarly(w: World, e: Event) {
    && e.Persisted? && w.items != [] && Aggregate(Infos(w.items)).Complete?
    && (!(Unrecorded(w) <= w.done) || Abandoned(w) != {})
  }

  ghost predicate NeverTooEarly(w: World, events: seq<Event>)
    requires Legal(w, events)
    decreases |events|
  {
    events == [] || (!TooEarly(w, events[0]) && NeverTooEarly(Step(w, events[0]), events[1..]))
  }

  /** The row, if there is one, was written from the records alone. */
  predicate CountsRecords(w: World) {
    w.row.Some? ==> w.row.value.fileCount <= |Keys(w.items)| || (w.items == [] && w.asked.NoRequest?)
  }

  /** Records appear only under an accepted offer. */
  lemma RecordsMeanTaken(w: World)
    requires ItemsOk(w)
    ensures |w.items| > 0 ==> w.asked.Taken?
  {
    if |w.items| > 0 { assert ItemOk(w, w.items[0]); }
  }

  lemma AskedKeepsRecords(w: World, e: Event)
    requires RecordsOk(w) && Enabled(w, e) && (e.Offered? || e.Decided? || e.Restarted?)
    ensures RecordsOk(Step(w, e))
  {
    var w' := Step(w, e);
    RecordsMeanTaken(w);
    assert |w'.items| == 0;
    assert Current(w') == (if e.Offered? then e.files else if e.Decided? && e.decision.Accept? then Current(w) else []);
  }

  lemma RegisterKeepsRecords(w: World, e: Event)
    requires RecordsOk(w) && Enabled(w, e) && e.Registered?
    ensures RecordsOk(Step(w, e))
  {
    var w' := Step(w, e);
    forall k | 0 <= k < |w'.items| ensures ItemOk(w', w'.items[k]) {
      if k < |w.items| { assert ItemOk(w, w.items[k]); }
    }
  }

  lemma RecordsStayOk(w: World, e: Event)
    requires RecordsOk(w) && Enabled(w, e)
    ensures RecordsOk(Step(w, e))
  {
    match e
    case Moved(k, _) =>
      ItemChanged(w, e);
      assert ItemOk(w, w.items[k]) && FileOf(w.items[k]) in Listed(Current(w));
    case Counted(_, _) => ItemChanged(w, e);
    case Persisted(hostname, now) =>
      PersistLeaves(w, hostname, now);
      RowsAside(w, Persist(w, hostname, now));
    case Deleted => RowsAside(w, Step(w, e));
    case Registered(_) => RegisterKeepsRecords(w, e);
    case _ => AskedKeepsRecords(w, e);
  }

  lemma {:induction false} RecordsOkOverRuns(w: World, events: seq<Event>)
    requires RecordsOk(w) && Legal(w, events)
    ensures RecordsOk(Run(w, events))
    decreases |events|
  {
    if events != [] {
      RecordsStayOk(w, events[0]);
      RecordsOkOverRuns(Step(w, events[0]), events[1..]);
    }
  }

  /** With all records COMPLETE, what is not done is unrecorded or was abandoned. */
  lemma DoneIffAccountedFor(w: World)
    requires RecordsOk(w) && Aggregate(Infos(w.items)).Complete?
    ensures w.offered <= w.done <==> Unrecorded(w) <= w.done && Abandoned(w) == {}
  {
    if Unrecorded(w) <= w.done && Abandoned(w) == {} {
      forall f | f in w.offered ensures f in w.done {
        if f !in w.done {
          assert f !in Abandoned(w);
          var i :| 0 <= i < |Current(w)| && Current(w)[i] == f;
          if (f.id, DirectionOf(w)) in Keys(w.items) { KeyIsDone(w, i); }
        }
      }
    }
  }

  lemma ForgottenPersist(w: World, hostname: Option<string>, now: real)
    requires Honest(w) && CountsRecords(w) && RecordsOk(w)
    ensures Honest(Persist(w, hostname, now)) <==> !TooEarly(w, Persisted(hostname, now))
    ensures CountsRecords(Persist(w, hostname, now))
  {
    CompletionIsRecorded(w, hostname, now);
    PersistKeepsHistory(w, hostname, now);
    if Aggregate(Infos(w.items)).Complete? { DoneIffAccountedFor(w); }
  }

  lemma ForgottenRecord(w: World, e: Event)
    requires Honest(w) && CountsRecords(w) && Enabled(w, e) && (e.Registered? || e.Moved? || e.Counted?)
    ensures Honest(Step(w, e)) && CountsRecords(Step(w, e))
  {
    if e.Registered? { KeysGrow(w.items, e.item); } else { SameKeys(w.items, Step(w, e).items); }
  }

  lemma ForgottenDecide(w: World, e: Event)
    requires Honest(w) && CountsRecords(w) && Enabled(w, e) && (e.Decided? || e.Restarted?)
    ensures Honest(Step(w, e)) && CountsRecords(Step(w, e))
  {
  }

  lemma ForgottenStep(w: World, e: Event)
    requires Honest(w) && CountsRecords(w) && RecordsOk(w) && Enabled(w, e) && !e.Offered? && !e.Deleted?
    ensures Honest(Step(w, e)) <==> !TooEarly(w, e)
    ensures CountsRecords(Step(w, e)) && RecordsOk(Step(w, e))
  {
    RecordsStayOk(w, e);
    match e
    case Persisted(hostname, now) => ForgottenPersist(w, hostname, now);
    case Decided(_, _, _) => ForgottenDecide(w, e);
    case Restarted => ForgottenDecide(w, e);
    case _ => ForgottenRecord(w, e);
  }

  lemma {:induction false} ForgottenRun(w: World, events: seq<Event>)
    requires Honest(w) && CountsRecords(w) && RecordsOk(w) && Legal(w, events)
    requires forall i :: 0 <= i < |events| ==> !events[i].Offered? && !events[i].Deleted?
    ensures HonestThroughout(w, events) <==> NeverTooEarly(w, events)
    decreases |events|
  {
    if events != [] {
      assert forall i :: 0 <= i < |events[1..]| ==> events[1..][i] == events[i + 1];
      ForgottenStep(w, events[0]);
      if Honest(Step(w, events[0])) { ForgottenRun(Step(w, events[0]), events[1..]); }
    }
  }

  /** Deleting the row forgets what was offered. After any run and a deletion, until the next offer,
      history stays honest exactly when no persist sees all its records COMPLETE while a file of the
      current offer has no record and was not finished before, or an earlier offer was abandoned. */
  lemma DeletionForgetsTheOffer(w: World, before: seq<Event>, after: seq<Event>)
    requires Start(w) && Legal(w, before) && Legal(Step(Run(w, before), Deleted), after)
    requires forall i :: 0 <= i < |after| ==> !after[i].Offered? && !after[i].Deleted?
    ensures var deleted := Step(Run(w, before), Deleted);
            HonestThroughout(deleted, after) <==> NeverTooEarly(deleted, after)
  {
    StartIsSound(w);
    RecordsOkOverRuns(w, before);
    RecordsStayOk(Run(w, before), Deleted);
    ForgottenRun(Step(Run(w, before), Deleted), after);
  }

  // ---- runs in which the claims fail

  const PEER := About(Recv, None, "", None, None)

  function NewItem(f: FileMeta): Item {
    Item(Some(f.id), f.name, Recv, "", None, None, f.size, Some(f.sha256), 0, 1.0, Active, None, 0, None, None)
  }

  ghost function Offer(w: World, files: seq<FileMeta>): World
    requires w.receiving && w.asked.NoRequest? && UniqueIds(files)
  {
    Step(w, Offered(files, PEER, 0.0))
  }

  /** The offer of `files` is accepted and its first file registered. */
  ghost function Begun(w: World, files: seq<FileMeta>): (w': World)
    requires w.receiving && w.asked.NoRequest? && w.items == [] && UniqueIds(files) && files != [] && files[0].id != ""
    ensures w'.items == [NewItem(files[0])] && w'.asked == Taken(files) && w'.receiving && w'.done == w.done
    ensures w'.offered == w.offered + Listed(files) && w'.progress == w.progress
    ensures w.row.None? ==> w'.row.Some? && w'.row.value.status.Accepted? && w'.row.value.fileCount == |files|
    ensures w.row.Some? && !ReadsComplete(w) ==>
              && w'.row.Some? && w'.row.value.status.Accepted?
              && w'.row.value.fileCount == Max(|files|, w.row.value.fileCount)
    ensures ReadsComplete(w) ==> ReadsComplete(w')
  {
    Step(Step(Offer(w, files), Decided(Accept, None, 0.0)), Registered(NewItem(files[0])))
  }

  const NEVER := World(true, None, map[], [], None, NoRequest, {}, {})

  lemma ListedOne(f: FileMeta)
    ensures Listed([f]) == {f}
  {
    assert [f][0] in Listed([f]);
  }

  lemma OneRecord(item: Item)
    ensures Keys([item]) == [KeyOf(item)] && Infos([item]) == [item]
    ensures Aggregate(Infos([item])).Complete? <==> item.status.Complete?
  {
    assert [item][..0] == [];
    assert Keys([item]) == [] + [KeyOf(item)];
    assert Group([item], KeyOf(item)) == [item];
    AggregateIsComplete(Infos([item]));
  }

  lemma FirstFileMoved(w: World, f: FileMeta)
    requires w.items == [NewItem(f)] && f.id != ""
    ensures Enabled(w, Moved(0, Complete))
    ensures var w' := Step(w, Moved(0, Complete));
            && w'.items == [NewItem(f).(status := Complete)] && w'.done == w.done + {f} && w'.row == w.row
            && w'.offered == w.offered && w'.asked == w.asked && w'.receiving == w.receiving
            && Aggregate(Infos(w'.items)).Complete? && |Infos(w'.items)| == 1
  {
    OneRecord(NewItem(f).(status := Complete));
  }

  /** The first file is received and persisted: with one file offered the row is complete. */
  ghost function Finished(w: World, files: seq<FileMeta>): (w': World)
    requires w.receiving && w.asked.NoRequest? && w.items == [] && UniqueIds(files) && files != [] && files[0].id != ""
  {
    Persist(Step(Begun(w, files), Moved(0, Complete)), None, 0.0)
  }

  lemma OneFileFinishes(w: World, f: FileMeta)
    requires w.receiving && w.asked.NoRequest? && w.items == [] && f.id != ""
    requires w.row.Some? ==> w.row.value.fileCount <= 1
    ensures var w' := Finished(w, [f]);
            ReadsComplete(w') && w'.done == w.done + {f} && w'.offered == w.offered + {f} && w'.receiving
  {
    ListedOne(f);
    var begun := Begun(w, [f]);
    FirstFileMoved(begun, f);
    var moved := Step(begun, Moved(0, Complete));
    assert moved.row == begun.row && begun.row.Some?;
    assert !ReadsComplete(moved) ==> Completes(moved);
    CompletionIsRecorded(moved, None, 0.0);
    PersistKeepsHistory(moved, None, 0.0);
    assert moved.receiving && Persist(moved, None, 0.0).receiving;
  }

  /** A restart keeps a complete row, and a new offer finds it still complete. */
  lemma OfferAfterRestart(w: World, files: seq<FileMeta>)
    requires ReadsComplete(w) && w.receiving && UniqueIds(files)
    ensures var w' := Offer(Step(w, Restarted), files);
            && ReadsComplete(w') && w'.receiving && w'.asked == Waiting(files)
            && w'.offered == w.offered + Listed(files) && w'.done == w.done
  {
  }

  lemma RejectionOverwrites(w: World)
    requires ReadsComplete(w) && w.receiving && w.asked.Waiting?
    ensures var w' := Step(w, Decided(Reject, None, 0.0));
            w'.row.Some? && w'.row.value.status.Rejected? && w'.offered == w.offered && w'.done == w.done
  {
  }

  /** A finished file; after a restart the same ID offers another one, or the same file ID with another
      digest: the row reads complete although nothing of the offer was received. */
  lemma ReofferOverclaims(f: FileMeta, g: FileMeta)
    requires f.id != "" && f != g
    ensures var w := Finished(NEVER, [f]);
            ReadsComplete(w) && Honest(w) && !Honest(Offer(Step(w, Restarted), [g]))
  {
    OneFileFinishes(NEVER, f);
    OfferAfterRestart(Finished(NEVER, [f]), [g]);
    ListedOne(g);
    assert g !in Finished(NEVER, [f]).done;
  }

  lemma OneRowWritten(files: map<string, FileRow>, item: Item)
    requires Truthy(item.fileId) && item.status.Complete?
    ensures var id, after := KeyOf(item).0, UpsertFiles(files, FileRows([item]));
            id in after && after[id].status.Complete?
  {
    var rows := FileRows([item]);
    assert rows[0] == (KeyOf(item).0, FileRowOf(item));
    UpsertedRow(files, rows, KeyOf(item).0);
  }

  lemma PersistWrites(w: World, hostname: Option<string>, now: real)
    requires Completes(w)
    ensures Persist(w, hostname, now).files == UpsertFiles(w.files, FileRows(Infos(w.items)))
  {
    CompletionIsRecorded(w, hostname, now);
  }

  lemma CompletedFileRow(w: World, f: FileMeta)
    requires Completes(w) && w.items == [NewItem(f).(status := Complete)] && f.id != ""
    ensures var files := Persist(w, None, 0.0).files; f.id in files && files[f.id].status.Complete?
  {
    PersistWrites(w, None, 0.0);
    OneRecord(w.items[0]);
    OneRowWritten(w.files, w.items[0]);
  }

  lemma FinishedFileRow(w: World, f: FileMeta)
    requires w.receiving && w.asked.NoRequest? && w.items == [] && w.row.None? && f.id != ""
    ensures var files := Finished(w, [f]).files; f.id in files && files[f.id].status.Complete?
  {
    var begun := Begun(w, [f]);
    FirstFileMoved(begun, f);
    CompletedFileRow(Step(begun, Moved(0, Complete)), f);
  }

  lemma ReofferedRows(w: World, files: seq<FileMeta>)
    requires w.receiving && UniqueIds(files)
    ensures var w' := Offer(Step(w, Restarted), files);
            w'.files == UpsertFiles(w.files, OfferFiles(files)) && w'.done == w.done
  {
  }

  lemma RenewedRow(files: map<string, FileRow>, f: FileMeta, g: FileMeta)
    requires g.id in files && files[g.id].status.Complete? && f.sha256 != g.sha256
    ensures !AllFilesHonest(UpsertFiles(files, OfferFiles([g])), {f})
  {
    var after, i := UpsertFiles(files, OfferFiles([g])), 0;
    assert [g][i] == g;
    assert Renews(files, g, {f});
    OfferedRow(files, [g], i, {f});
    assert !FileHonest(after, g.id, {f});
  }

  /** The same file ID offered again with another digest: its file row still reads complete. */
  lemma ReofferedFileOverclaims(f: FileMeta, g: FileMeta)
    requires f.id != "" && f.id == g.id && f.sha256 != g.sha256
    ensures var w := Finished(NEVER, [f]); w.receiving && !FilesHonest(Offer(Step(w, Restarted), [g]))
  {
    FinishedFileRow(NEVER, f);
    OneFileFinishes(NEVER, f);
    RenewedRow(Finished(NEVER, [f]).files, f, g);
    ReofferedRows(Finished(NEVER, [f]), [g]);
  }

  /** A file offered and never received; after a restart the same ID offers and finishes another one:
      the row reads complete although the first was abandoned. */
  lemma AbandonedOfferOverclaims(f: FileMeta, g: FileMeta)
    requires f.id != "" && g.id != "" && f != g
    ensures !Honest(Finished(Step(Begun(NEVER, [f]), Restarted), [g]))
  {
    ListedOne(f);
    var w := Step(Begun(NEVER, [f]), Restarted);
    assert w.offered == {f} && w.done == {} && w.row.Some? && w.row.value.fileCount == 1;
    OneFileFinishes(w, g);
    assert f in Finished(w, [g]).offered && f !in Finished(w, [g]).done;
  }

  /** A finished file; after a restart the very same offer is turned down: the row no longer reads
      complete, although everything was received. */
  lemma TurnedDownOverwrites(f: FileMeta)
    requires f.id != ""
    ensures var w := Finished(NEVER, [f]);
            var w' := Step(Offer(Step(w, Restarted), [f]), Decided(Reject, None, 0.0));
            ReadsComplete(w) && !ReadsComplete(w') && w'.row.Some? && w'.row.value.status.Rejected?
            && w'.offered <= w'.done
  {
    OneFileFinishes(NEVER, f);
    OfferAfterRestart(Finished(NEVER, [f]), [f]);
    RejectionOverwrites(Offer(Step(Finished(NEVER, [f]), Restarted), [f]));
    ListedOne(f);
  }

  /** Two files offered, one registered, the row deleted, a first persist still honest: once that file is
      received the next persist reads complete. */
  lemma DeletedRowOverclaims(f: FileMeta, g: FileMeta)
    requires f.id != "" && f.id != g.id
    ensures var w := Persist(Step(Begun(NEVER, [f, g]), Deleted), None, 0.0);
            && w.items == [NewItem(f)] && Enabled(w, Moved(0, Complete)) && Honest(w)
            && var w' := Persist(Step(w, Moved(0, Complete)), None, 1.0);
               ReadsComplete(w') && w'.row.value.fileCount == 1 && !Honest(w')
  {
    var deleted := Step(Begun(NEVER, [f, g]), Deleted);
    OneRecord(NewItem(f));
    CompletionIsRecorded(deleted, None, 0.0);
    PersistKeepsHistory(deleted, None, 0.0);
    var w := Persist(deleted, None, 0.0);
    FirstFileMoved(w, f);
    var moved := Step(w, Moved(0, Complete));
    CompletionIsRecorded(moved, None, 1.0);
    PersistKeepsHistory(moved, None, 1.0);
    assert [f, g][1] in Listed([f, g]) && g !in moved.done;
  }
}
