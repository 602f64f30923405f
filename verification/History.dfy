/** What the history rows say about a transfer (core/history.py; core/transfer.py,
    _persist_runtime_transfers, _aggregate_status, _resolve_authoritative_file_info and the
    incoming-request callbacks). Rows are values; the SQL statements are their merge and guard
    expressions. */
module History {
  import opened Common
  import opened Lifecycle
  import Decimal

  datatype Direction = Send | Recv

  /** The descriptive columns of a transfer. */
  datatype About = About(direction: Direction, peerDeviceId: Option<string>, peerIp: string,
                         peerHostname: Option<string>, message: Option<string>)

  datatype Row = Row(about: About, startedAt: real, status: Status, fileCount: nat, totalSize: nat, bytes: nat,
                     completedAt: Option<real>, error: Option<string>, resumed: bool, resumeOffset: nat)

  datatype FileRow = FileRow(filename: string, size: nat, sha256: Option<string>, status: Status, bytes: nat,
                             finalPath: Option<string>)

  // ---- the store's expressions

  /** The statuses an upsert does not let replace 'complete'; 'accepted' is not among them. */
  predicate Unfinished(s: Status) {
    s.Interrupted? || s.Resuming? || s.Active? || s.Pending? || s.PendingApproval?
  }

  /** _INTERRUPTIBLE, which guards update_transfer and drives the startup rewrite. */
  predicate Interruptible(s: Status) { Unfinished(s) || s.Accepted? }

  function Coalesce<T>(a: Option<T>, b: Option<T>): Option<T> { if a.Some? then a else b }

  function MergeAbout(old_: About, new_: About): About {
    About(new_.direction, new_.peerDeviceId, new_.peerIp, Coalesce(new_.peerHostname, old_.peerHostname),
          Coalesce(new_.message, old_.message))
  }

  /** ON CONFLICT ... DO UPDATE on transfers. */
  function Merge(old_: Row, new_: Row): Row {
    var kept := old_.status.Complete? && Unfinished(new_.status);
    Row(MergeAbout(old_.about, new_.about), old_.startedAt,
        if kept then old_.status else new_.status,
        Max(new_.fileCount, old_.fileCount), Max(new_.totalSize, old_.totalSize),
        if old_.status.Complete? then Max(old_.bytes, new_.bytes) else new_.bytes,
        Coalesce(old_.completedAt, new_.completedAt),
        if kept then old_.error else new_.error,
        old_.resumed || new_.resumed, Max(old_.resumeOffset, new_.resumeOffset))
  }

  function Upsert(row: Option<Row>, new_: Row): Row {
    if row.None? then new_ else Merge(row.value, new_)
  }

  /** ON CONFLICT ... DO UPDATE on transfer_files. */
  function MergeFile(old_: FileRow, new_: FileRow): FileRow {
    FileRow(old_.filename, old_.size, Coalesce(new_.sha256, old_.sha256),
            if old_.status.Complete? && Unfinished(new_.status) then old_.status else new_.status,
            if old_.status.Complete? then Max(old_.bytes, new_.bytes) else new_.bytes,
            Coalesce(new_.finalPath, old_.finalPath))
  }

  function UpsertFile(files: map<string, FileRow>, id: string, new_: FileRow): map<string, FileRow> {
    files[id := if id in files then MergeFile(files[id], new_) else new_]
  }

  function UpsertFiles(files: map<string, FileRow>, new_: seq<(string, FileRow)>): map<string, FileRow>
    decreases |new_|
  {
    if new_ == [] then files
    else UpsertFile(UpsertFiles(files, new_[..|new_| - 1]), new_[|new_| - 1].0, new_[|new_| - 1].1)
  }

  /** The keyword arguments update_transfer keeps; None where the caller gave none. */
  datatype Changes = Changes(
    peerHostname: Option<Option<string>>, status: Option<Status>, bytes: Option<nat>,
    completedAt: Option<Option<real>>, error: Option<Option<string>>, fileCount: Option<nat>, totalSize: Option<nat>,
    resumed: Option<bool>, resumeOffset: Option<nat>)

  const NO_CHANGES := Changes(None, None, None, None, None, None, None, None, None)

  function Given<T>(change: Option<T>, old_: T): T { if change.Some? then change.value else old_ }

  /** The guard: a complete row takes no update whose status is an unfinished one. */
  predicate Guarded(row: Row, c: Changes) {
    row.status.Complete? && c.status.Some? && Interruptible(c.status.value)
  }

  function UpdateRow(row: Row, c: Changes): Row {
    if Guarded(row, c) then row
    else
      Row(row.about.(peerHostname := Given(c.peerHostname, row.about.peerHostname)), row.startedAt,
          Given(c.status, row.status), Given(c.fileCount, row.fileCount), Given(c.totalSize, row.totalSize),
          Given(c.bytes, row.bytes), Given(c.completedAt, row.completedAt), Given(c.error, row.error),
          Given(c.resumed, row.resumed), Given(c.resumeOffset, row.resumeOffset))
  }

  function Migrated(row: Row): Row {
    if Interruptible(row.status) then row.(status := Interrupted) else row
  }

  function Lookup<T>(m: map<string, T>, id: string): Option<T> { if id in m then Some(m[id]) else None }

  function Children(m: map<string, map<string, FileRow>>, id: string): map<string, FileRow> {
    if id in m then m[id] else map[]
  }

  /** SQLite as two tables; the foreign key lets file rows exist only under a transfer row. */
  class HistoryStore {
    var available: bool
    var transfers: map<string, Row>
    var files: map<string, map<string, FileRow>>

    ghost predicate Valid()
      reads this
    {
      files.Keys <= transfers.Keys
    }

    /** Opening the store leaves no row that claims to be under way, adds and drops none, and changes
        nothing else about any row; an unavailable store is not touched. */
    constructor (stored: map<string, Row>, children: map<string, map<string, FileRow>>, available: bool)
      requires children.Keys <= stored.Keys
      ensures Valid() && this.available == available && files == children
      ensures !available ==> transfers == stored
      ensures available ==> transfers.Keys == stored.Keys
      ensures available ==> forall id :: id in stored ==>
                && transfers[id].(status := stored[id].status) == stored[id]
                && (Interruptible(transfers[id].status) ==> transfers[id].status.Interrupted?)
                && (!Interruptible(stored[id].status) ==> transfers[id].status == stored[id].status)
                && (Interruptible(stored[id].status) ==> transfers[id].status.Interrupted?)
    {
      this.available, files := available, children;
      transfers := if available then map id | id in stored :: Migrated(stored[id]) else stored;
    }

    method CreateTransfer(id: string, record: Row, fileRows: seq<(string, FileRow)>) returns (ok: bool)
      requires Valid()
      modifies this`transfers, this`files
      ensures Valid() && ok == available
      ensures ok ==> transfers == old(transfers)[id := Upsert(Lookup(old(transfers), id), record)]
      ensures ok ==> Children(files, id) == UpsertFiles(Children(old(files), id), fileRows)
      ensures ok ==> forall other :: other != id ==> Children(files, other) == Children(old(files), other)
      ensures !ok ==> transfers == old(transfers) && files == old(files)
    {
      if !available { return false; }
      transfers := transfers[id := Upsert(Lookup(transfers, id), record)];
      var children := Children(files, id);
      ghost var before := children;
      var k := 0;
      while k < |fileRows|
        invariant 0 <= k <= |fileRows| && children == UpsertFiles(before, fileRows[..k])
      {
        assert fileRows[..k + 1][..k] == fileRows[..k];
        children := UpsertFile(children, fileRows[k].0, fileRows[k].1);
        k := k + 1;
      }
      assert fileRows[..k] == fileRows;
      files := files[id := children];
      return true;
    }

    method UpdateTransfer(id: string, c: Changes, fileStatus: Option<Status>) returns (ok: bool)
      requires Valid()
      modifies this`transfers, this`files
      ensures Valid()
      ensures ok <==>
                && available
                && (fileStatus.Some? || (c != NO_CHANGES && id in old(transfers) && !Guarded(old(transfers)[id], c)))
      ensures transfers == if available && id in old(transfers)
                           then old(transfers)[id := UpdateRow(old(transfers)[id], c)] else old(transfers)
      ensures available && fileStatus.Some? ==>
        Children(files, id)
        == map f | f in Children(old(files), id) :: Children(old(files), id)[f].(status := fileStatus.value)
      ensures forall other :: other != id || fileStatus.None? || !available ==>
                Children(files, other) == Children(old(files), other)
    {
      if !available || (c == NO_CHANGES && fileStatus.None?) {
        assert id in transfers ==> UpdateRow(transfers[id], NO_CHANGES) == transfers[id];
        return false;
      }
      ok := false;
      if c != NO_CHANGES && id in transfers && !Guarded(transfers[id], c) {
        transfers := transfers[id := UpdateRow(transfers[id], c)];
        ok := true;
      }
      if fileStatus.Some? {
        if id in files {
          files := files[id := map f | f in files[id] :: files[id][f].(status := fileStatus.value)];
        }
        ok := true;
      }
    }

    /** DELETE, with the cascade to the file rows. */
    method Delete(id: string) returns (ok: bool)
      requires Valid()
      modifies this`transfers, this`files
      ensures Valid() && ok == (available && id in old(transfers))
      ensures transfers == if available then old(transfers) - {id} else old(transfers)
      ensures files == if available then old(files) - {id} else old(files)
    {
      if !available { return false; }
      ok := id in transfers;
      transfers, files := transfers - {id}, files - {id};
    }
  }

  // ---- the fold over the runtime records

  /** A runtime record, as far as persisting reads it. */
  datatype Item = Item(
    fileId: Option<string>, filename: string, direction: Direction, peerIp: string, peerDeviceId: Option<string>,
    message: Option<string>, size: nat, sha256: Option<string>, bytes: nat, startedAt: real, status: Status,
    error: Option<string>, resumeOffset: nat, completedAt: Option<real>, finalPath: Option<string>)

  /** Python's truth of an optional string. */
  predicate Truthy(s: Option<string>) { s.Some? && s.value != "" }

  type Key = (string, Direction)

  /** The logical file: the file ID, or the name of a record without one, with the direction. */
  function KeyOf(item: Item): Key { (if Truthy(item.fileId) then item.fileId.value else item.filename, item.direction) }

  function Rank(s: Status): nat {
    match s
    case Complete => 100
    case Cancelled => 90
    case Failed => 80
    case Rejected => 70
    case Active => 60
    case Resuming => 50
    case Interrupted => 40
    case Accepted => 30
    case PendingApproval => 20
    case Pending => 10
  }

  predicate Beats(a: Item, b: Item) {
    || Rank(a.status) > Rank(b.status)
    || (a.status == b.status && (a.bytes > b.bytes || (a.bytes == b.bytes && a.startedAt > b.startedAt)))
  }

  /** max() with its key: the first of the greatest. */
  function BestOf(items: seq<Item>): (best: Item)
    requires items != []
    ensures best in items && forall k :: 0 <= k < |items| ==> !Beats(items[k], best)
  {
    if |items| == 1 then items[0]
    else
      var n := |items| - 1;
      var best := BestOf(items[..n]);
      if Beats(items[n], best) then items[n] else best
  }

  function MaxBytes(items: seq<Item>): (m: nat)
    ensures forall k :: 0 <= k < |items| ==> items[k].bytes <= m
  {
    if items == [] then 0 else Max(MaxBytes(items[..|items| - 1]), items[|items| - 1].bytes)
  }

  function Later(a: real, b: Option<real>): real { if b.Some? && b.value > a then b.value else a }

  function LatestEnd(items: seq<Item>): (t: real) {
    if items == [] then 0.0 else Later(LatestEnd(items[..|items| - 1]), items[|items| - 1].completedAt)
  }

  function FirstStart(items: seq<Item>): real
    requires items != []
  {
    var last := items[|items| - 1].startedAt;
    if |items| == 1 then last
    else
      var t := FirstStart(items[..|items| - 1]);
      if last < t then last else t
  }

  function MaxOffset(items: seq<Item>): nat {
    if items == [] then 0 else Max(MaxOffset(items[..|items| - 1]), items[|items| - 1].resumeOffset)
  }

  function FirstPath(items: seq<Item>): Option<string> {
    if items == [] then None else if Truthy(items[0].finalPath) then items[0].finalPath else FirstPath(items[1..])
  }

  function Resolve(items: seq<Item>): (item: Item)
    requires items != []
  {
    if |items| == 1 then items[0]
    else
      var best := BestOf(items);
      best.(bytes := if best.status.Complete? then best.size else MaxBytes(items), startedAt := FirstStart(items),
            error := if best.status.Complete? then None else best.error, resumeOffset := MaxOffset(items),
            completedAt := if IsTerminal(best.status) && LatestEnd(items) > 0.0 then Some(LatestEnd(items)) else None,
            finalPath := if FirstPath(items).Some? then FirstPath(items) else best.finalPath)
  }

  /** Duplicates of one file resolve to COMPLETE as soon as one of them is. */
  lemma ResolvedIsComplete(items: seq<Item>)
    requires items != []
    ensures Resolve(items).status.Complete? <==> exists k :: 0 <= k < |items| && items[k].status.Complete?
  {
    var best := BestOf(items);
    if k :| 0 <= k < |items| && items[k].status.Complete? { assert !Beats(items[k], best); }
  }

  const PRIORITIES := [Failed, Cancelled, Rejected, Interrupted, Resuming, Active, Accepted, PendingApproval, Pending]

  predicate Present(infos: seq<Item>, s: Status) { exists k :: 0 <= k < |infos| && infos[k].status == s }

  function FirstPresent(infos: seq<Item>, ranked: seq<Status>): (s: Status)
    ensures s == Complete || (s in ranked && Present(infos, s))
    ensures s == Complete && Complete !in ranked ==> forall r :: r in ranked ==> !Present(infos, r)
  {
    if ranked == [] then Complete
    else if Present(infos, ranked[0]) then ranked[0]
    else FirstPresent(infos, ranked[1..])
  }

  function Aggregate(infos: seq<Item>): Status { FirstPresent(infos, PRIORITIES) }

  lemma AggregateIsComplete(infos: seq<Item>)
    ensures Aggregate(infos).Complete? <==> forall k :: 0 <= k < |infos| ==> infos[k].status.Complete?
  {
    forall s: Status | !s.Complete? ensures s in PRIORITIES { UnfinishedIsRanked(s); }
    if Aggregate(infos).Complete? {
      forall k | 0 <= k < |infos| ensures infos[k].status.Complete? {
        assert Present(infos, infos[k].status);
      }
    }
  }

  /** How much attention a status asks for: a failure most, a finished file none. */
  function Urgency(s: Status): nat {
    match s
    case Failed => 9
    case Cancelled => 8
    case Rejected => 7
    case Interrupted => 6
    case Resuming => 5
    case Active => 4
    case Accepted => 3
    case PendingApproval => 2
    case Pending => 1
    case Complete => 0
  }

  /** Some record has this status (or none is unfinished), and no record asks for more attention. */
  ghost predicate MostUrgent(infos: seq<Item>, s: Status) {
    && (s.Complete? || Present(infos, s))
    && forall k :: 0 <= k < |infos| ==> Urgency(infos[k].status) <= Urgency(s)
  }

  lemma {:induction false} FirstIsMostUrgent(infos: seq<Item>, ranked: seq<Status>)
    requires forall i, j :: 0 <= i < j < |ranked| ==> Urgency(ranked[i]) > Urgency(ranked[j])
    ensures forall r :: r in ranked && Present(infos, r) ==> Urgency(r) <= Urgency(FirstPresent(infos, ranked))
    decreases |ranked|
  {
    if ranked != [] {
      var rest := ranked[1..];
      assert forall i :: 0 <= i < |rest| ==> rest[i] == ranked[i + 1];
      FirstIsMostUrgent(infos, rest);
    }
  }

  /** The aggregate is the most urgent status among the records. */
  lemma AggregateIsMostUrgent(infos: seq<Item>)
    ensures MostUrgent(infos, Aggregate(infos))
  {
    FirstIsMostUrgent(infos, PRIORITIES);
    AggregateIsComplete(infos);
    forall k | 0 <= k < |infos| ensures Urgency(infos[k].status) <= Urgency(Aggregate(infos)) {
      assert Present(infos, infos[k].status);
      if !infos[k].status.Complete? { UnfinishedIsRanked(infos[k].status); }
    }
  }

  lemma UnfinishedIsRanked(s: Status)
    requires !s.Complete?
    ensures s in PRIORITIES
  {
    assert s == PRIORITIES[0] || s == PRIORITIES[1] || s == PRIORITIES[2] || s == PRIORITIES[3] || s == PRIORITIES[4]
           || s == PRIORITIES[5] || s == PRIORITIES[6] || s == PRIORITIES[7] || s == PRIORITIES[8];
  }

  method AnyWith(infos: seq<Item>, s: Status) returns (found: bool)
    ensures found == Present(infos, s)
  {
    for k := 0 to |infos|
      invariant forall j :: 0 <= j < k ==> infos[j].status != s
    {
      if infos[k].status == s { return true; }
    }
    return false;
  }

  method ScanRanked(infos: seq<Item>, ranked: seq<Status>) returns (s: Status)
    ensures s == FirstPresent(infos, ranked)
  {
    for p := 0 to |ranked|
      invariant FirstPresent(infos, ranked) == FirstPresent(infos, ranked[p..])
    {
      var found := AnyWith(infos, ranked[p]);
      if found { return ranked[p]; }
      assert ranked[p..][1..] == ranked[p + 1..];
    }
    return Complete;
  }

  method AggregateStatus(infos: seq<Item>) returns (s: Status)
    ensures s == Aggregate(infos) && MostUrgent(infos, s)
    ensures s.Complete? <==> forall k :: 0 <= k < |infos| ==> infos[k].status.Complete?
  {
    AggregateIsComplete(infos);
    AggregateIsMostUrgent(infos);
    s := ScanRanked(infos, PRIORITIES);
  }

  // ---- one logical file per key

  function Keys(items: seq<Item>): seq<Key> {
    if items == [] then []
    else
      var n := |items| - 1;
      var ks := Keys(items[..n]);
      if KeyOf(items[n]) in ks then ks else ks + [KeyOf(items[n])]
  }

  function Group(items: seq<Item>, key: Key): seq<Item> {
    if items == [] then []
    else
      var n := |items| - 1;
      Group(items[..n], key) + (if KeyOf(items[n]) == key then [items[n]] else [])
  }

  lemma {:induction false} KeysAreTheFiles(items: seq<Item>)
    ensures forall i, j :: 0 <= i < j < |Keys(items)| ==> Keys(items)[i] != Keys(items)[j]
    ensures forall key :: key in Keys(items) <==> Group(items, key) != []
  {
    if items != [] { KeysAreTheFiles(items[..|items| - 1]); }
  }

  lemma {:induction false} GroupIsAFilter(items: seq<Item>, key: Key, item: Item)
    ensures item in Group(items, key) <==> item in items && KeyOf(item) == key
  {
    if items != [] {
      GroupIsAFilter(items[..|items| - 1], key, item);
      assert items == items[..|items| - 1] + [items[|items| - 1]];
    }
  }

  function Infos(items: seq<Item>): (infos: seq<Item>)
    ensures |infos| == |Keys(items)| && (items != [] ==> infos != [])
    ensures forall i :: 0 <= i < |infos| ==>
      Group(items, Keys(items)[i]) != [] && infos[i] == Resolve(Group(items, Keys(items)[i]))
  {
    KeysAreTheFiles(items);
    seq(|Keys(items)|, i requires 0 <= i < |Keys(items)| && Group(items, Keys(items)[i]) != [] =>
          Resolve(Group(items, Keys(items)[i])))
  }

  /** The keys under which some record is COMPLETE. */
  function CompleteKeys(items: seq<Item>): (s: set<Key>)
    ensures forall k :: k in s <==> exists i :: 0 <= i < |items| && KeyOf(items[i]) == k && items[i].status.Complete?
  {
    set i | 0 <= i < |items| && items[i].status.Complete? :: KeyOf(items[i])
  }

  function SetOf(ks: seq<Key>): set<Key> { set k | k in ks }

  lemma {:induction false} SetOfSize(ks: seq<Key>)
    requires forall i, j :: 0 <= i < j < |ks| ==> ks[i] != ks[j]
    ensures |SetOf(ks)| == |ks|
    decreases |ks|
  {
    if ks != [] {
      var n := |ks| - 1;
      SetOfSize(ks[..n]);
      assert SetOf(ks) == SetOf(ks[..n]) + {ks[n]};
      assert ks[n] !in ks[..n];
    }
  }

  /** A COMPLETE aggregate counts every distinct file. */
  lemma AggregateCounts(items: seq<Item>)
    requires Aggregate(Infos(items)).Complete?
    ensures SetOf(Keys(items)) <= CompleteKeys(items) && |CompleteKeys(items)| >= |Keys(items)|
  {
    AggregateIsComplete(Infos(items));
    forall k | k in SetOf(Keys(items)) ensures k in CompleteKeys(items) {
      var i :| 0 <= i < |Keys(items)| && Keys(items)[i] == k;
      var g := Group(items, k);
      assert Infos(items)[i] == Resolve(g);
      ResolvedIsComplete(g);
      var j :| 0 <= j < |g| && g[j].status.Complete?;
      GroupIsAFilter(items, k, g[j]);
    }
    KeysAreTheFiles(items);
    SetOfSize(Keys(items));
    SubsetSize(SetOf(Keys(items)), CompleteKeys(items));
  }

  // ---- _persist_runtime_transfers, for one transfer

  function SumBytes(infos: seq<Item>): nat {
    if infos == [] then 0 else SumBytes(infos[..|infos| - 1]) + infos[|infos| - 1].bytes
  }

  function SumSizes(infos: seq<Item>): nat {
    if infos == [] then 0 else SumSizes(infos[..|infos| - 1]) + infos[|infos| - 1].size
  }

  function SumOffsets(infos: seq<Item>): nat {
    if infos == [] then 0 else SumOffsets(infos[..|infos| - 1]) + infos[|infos| - 1].resumeOffset
  }

  function FirstError(infos: seq<Item>): Option<string> {
    if infos == [] then None else if Truthy(infos[0].error) then infos[0].error else FirstError(infos[1..])
  }

  datatype Progress = Progress(at: real, bytes: nat, status: Status)

  const FLUSH_BYTES: nat := 4 * 1024 * 1024

  function RecordStatus(row: Option<Row>, infos: seq<Item>): Status {
    if row.Some? && row.value.status.Complete? then Complete
    else if Aggregate(infos).Complete? && row.Some? && row.value.fileCount > |infos| then Active
    else Aggregate(infos)
  }

  function RecordBytes(row: Option<Row>, infos: seq<Item>): nat {
    if RecordStatus(row, infos).Complete? && row.Some? then Max(SumBytes(infos), row.value.bytes) else SumBytes(infos)
  }

  predicate ShouldFlush(progress: Option<Progress>, status: Status, bytes: nat, now: real) {
    || progress.None? || progress.value.status != status || IsTerminal(status)
    || bytes - progress.value.bytes >= FLUSH_BYTES || now - progress.value.at >= 2.0
  }

  /** The record written for non-empty `infos`; `hostname` is what the peer resolver says. */
  function Record(row: Option<Row>, infos: seq<Item>, hostname: Option<string>): Row
    requires infos != []
  {
    var status, ended := RecordStatus(row, infos), LatestEnd(infos);
    Row(About(infos[0].direction, infos[0].peerDeviceId, infos[0].peerIp, hostname, infos[0].message),
        FirstStart(infos),
        status, Max(|infos|, if row.Some? then row.value.fileCount else 0),
        Max(SumSizes(infos), if row.Some? then row.value.totalSize else 0), RecordBytes(row, infos),
        if ended > 0.0 then Some(ended) else if row.Some? then row.value.completedAt else None,
        if status.Complete? then None else FirstError(infos), MaxOffset(infos) > 0, SumOffsets(infos))
  }

  function RowId(item: Item, index: nat): string {
    if Truthy(item.fileId) then item.fileId.value else "file-" + Decimal.Print(index)
  }

  function FileRowOf(item: Item): FileRow {
    FileRow(item.filename, item.size, item.sha256, item.status, item.bytes, item.finalPath)
  }

  function FileRows(infos: seq<Item>): (rows: seq<(string, FileRow)>)
    ensures |rows| == |infos|
    ensures forall i :: 0 <= i < |infos| ==> rows[i] == (RowId(infos[i], i), FileRowOf(infos[i]))
  {
    seq(|infos|, i requires 0 <= i < |infos| => (RowId(infos[i], i), FileRowOf(infos[i])))
  }

  predicate Flushes(row: Option<Row>, items: seq<Item>, progress: Option<Progress>, now: real) {
    items != [] && ShouldFlush(progress, RecordStatus(row, Infos(items)), RecordBytes(row, Infos(items)), now)
  }
}
