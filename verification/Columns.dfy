/** What the columns of a history row mean: over any sequence of upserts, and as a summary of the runtime
    records (core/history.py, create_transfer; core/transfer.py, _resolve_authoritative_file_info and
    _persist_runtime_transfers). */
module Columns {
  import opened Common
  import opened Lifecycle
  import opened History

  // ---- any sequence of upserts under one ID

  function Stored(rows: seq<Row>): Row
    requires rows != []
  {
    var n := |rows| - 1;
    if n == 0 then rows[0] else Merge(Stored(rows[..n]), rows[n])
  }

  /** Upserting one after the other into an empty history stores just that. */
  lemma UpsertsStore(rows: seq<Row>, next: Row)
    ensures Upsert(if rows == [] then None else Some(Stored(rows)), next) == Stored(rows + [next])
  {
    assert (rows + [next])[..|rows|] == rows;
  }

  ghost predicate IsMax(values: seq<nat>, m: nat) {
    (forall k :: 0 <= k < |values| ==> values[k] <= m) && exists k :: 0 <= k < |values| && values[k] == m
  }

  function Counts(rows: seq<Row>): (v: seq<nat>)
    ensures |v| == |rows| && forall k :: 0 <= k < |rows| ==> v[k] == rows[k].fileCount
  {
    seq(|rows|, i requires 0 <= i < |rows| => rows[i].fileCount)
  }

  function Totals(rows: seq<Row>): (v: seq<nat>)
    ensures |v| == |rows| && forall k :: 0 <= k < |rows| ==> v[k] == rows[k].totalSize
  {
    seq(|rows|, i requires 0 <= i < |rows| => rows[i].totalSize)
  }

  function Offsets(rows: seq<Row>): (v: seq<nat>)
    ensures |v| == |rows| && forall k :: 0 <= k < |rows| ==> v[k] == rows[k].resumeOffset
  {
    seq(|rows|, i requires 0 <= i < |rows| => rows[i].resumeOffset)
  }

  lemma MaxGrows(values: seq<nat>, m: nat, more: nat)
    requires IsMax(values, m)
    ensures IsMax(values + [more], Max(m, more))
  {
    var k :| 0 <= k < |values| && values[k] == m;
    var all := values + [more];
    assert all[k] == m && all[|values|] == more;
  }

  lemma {:induction false} CountIsMax(rows: seq<Row>)
    requires rows != []
    ensures IsMax(Counts(rows), Stored(rows).fileCount)
    decreases |rows|
  {
    var n := |rows| - 1;
    if n == 0 {
      assert Counts(rows)[0] == rows[0].fileCount;
    } else {
      CountIsMax(rows[..n]);
      assert Counts(rows) == Counts(rows[..n]) + [rows[n].fileCount];
      MaxGrows(Counts(rows[..n]), Stored(rows[..n]).fileCount, rows[n].fileCount);
    }
  }

  lemma {:induction false} TotalIsMax(rows: seq<Row>)
    requires rows != []
    ensures IsMax(Totals(rows), Stored(rows).totalSize)
    decreases |rows|
  {
    var n := |rows| - 1;
    if n == 0 {
      assert Totals(rows)[0] == rows[0].totalSize;
    } else {
      TotalIsMax(rows[..n]);
      assert Totals(rows) == Totals(rows[..n]) + [rows[n].totalSize];
      MaxGrows(Totals(rows[..n]), Stored(rows[..n]).totalSize, rows[n].totalSize);
    }
  }

  lemma {:induction false} OffsetIsMax(rows: seq<Row>)
    requires rows != []
    ensures IsMax(Offsets(rows), Stored(rows).resumeOffset)
    ensures Stored(rows).resumed <==> exists k :: 0 <= k < |rows| && rows[k].resumed
    decreases |rows|
  {
    var n := |rows| - 1;
    if n == 0 {
      assert Offsets(rows)[0] == rows[0].resumeOffset;
    } else {
      OffsetIsMax(rows[..n]);
      assert rows == rows[..n] + [rows[n]];
      assert Offsets(rows) == Offsets(rows[..n]) + [rows[n].resumeOffset];
      MaxGrows(Offsets(rows[..n]), Stored(rows[..n]).resumeOffset, rows[n].resumeOffset);
    }
  }

  /** The counts, the total and the offset are the greatest ever written, and a resumed transfer stays
      marked so. */
  lemma CountsAreMaxima(rows: seq<Row>)
    requires rows != []
    ensures var row := Stored(rows);
            && IsMax(Counts(rows), row.fileCount) && IsMax(Totals(rows), row.totalSize)
            && IsMax(Offsets(rows), row.resumeOffset)
            && (row.resumed <==> exists k :: 0 <= k < |rows| && rows[k].resumed)
  {
    CountIsMax(rows);
    TotalIsMax(rows);
    OffsetIsMax(rows);
  }

  /** `value` is the first one present. */
  ghost predicate IsFirst(values: seq<Option<real>>, value: Option<real>) {
    if value.None? then forall k :: 0 <= k < |values| ==> values[k].None?
    else exists k :: 0 <= k < |values| && values[k] == value && forall j :: 0 <= j < k ==> values[j].None?
  }

  /** `value` is the last one present. */
  ghost predicate IsLast(values: seq<Option<string>>, value: Option<string>) {
    if value.None? then forall k :: 0 <= k < |values| ==> values[k].None?
    else exists k :: 0 <= k < |values| && values[k] == value && forall j :: k < j < |values| ==> values[j].None?
  }

  function Ends(rows: seq<Row>): (v: seq<Option<real>>)
    ensures |v| == |rows| && forall k :: 0 <= k < |rows| ==> v[k] == rows[k].completedAt
  {
    seq(|rows|, i requires 0 <= i < |rows| => rows[i].completedAt)
  }

  function Hosts(rows: seq<Row>): (v: seq<Option<string>>)
    ensures |v| == |rows| && forall k :: 0 <= k < |rows| ==> v[k] == rows[k].about.peerHostname
  {
    seq(|rows|, i requires 0 <= i < |rows| => rows[i].about.peerHostname)
  }

  function Messages(rows: seq<Row>): (v: seq<Option<string>>)
    ensures |v| == |rows| && forall k :: 0 <= k < |rows| ==> v[k] == rows[k].about.message
  {
    seq(|rows|, i requires 0 <= i < |rows| => rows[i].about.message)
  }

  lemma FirstGrows(values: seq<Option<real>>, value: Option<real>, more: Option<real>)
    requires IsFirst(values, value)
    ensures IsFirst(values + [more], Coalesce(value, more))
  {
    var all := values + [more];
    if value.Some? {
      var k :| 0 <= k < |values| && values[k] == value && forall j :: 0 <= j < k ==> values[j].None?;
      assert all[k] == value;
    } else if more.Some? {
      assert all[|values|] == more;
    }
  }

  lemma LastGrows(values: seq<Option<string>>, value: Option<string>, more: Option<string>)
    requires IsLast(values, value)
    ensures IsLast(values + [more], Coalesce(more, value))
  {
    var all := values + [more];
    if more.Some? {
      assert all[|values|] == more;
    } else if value.Some? {
      var k :| 0 <= k < |values| && values[k] == value && forall j :: k < j < |values| ==> values[j].None?;
      assert all[k] == value;
    }
  }

  lemma {:induction false} TimesAreFirst(rows: seq<Row>)
    requires rows != []
    ensures Stored(rows).startedAt == rows[0].startedAt && IsFirst(Ends(rows), Stored(rows).completedAt)
    decreases |rows|
  {
    var n := |rows| - 1;
    if n == 0 {
      assert Ends(rows)[0] == rows[0].completedAt;
    } else {
      TimesAreFirst(rows[..n]);
      assert Ends(rows) == Ends(rows[..n]) + [rows[n].completedAt];
      FirstGrows(Ends(rows[..n]), Stored(rows[..n]).completedAt, rows[n].completedAt);
    }
  }

  lemma {:induction false} TextsAreLast(rows: seq<Row>)
    requires rows != []
    ensures var about, last := Stored(rows).about, rows[|rows| - 1].about;
            && IsLast(Hosts(rows), about.peerHostname) && IsLast(Messages(rows), about.message)
            && about.direction == last.direction && about.peerIp == last.peerIp
            && about.peerDeviceId == last.peerDeviceId
    decreases |rows|
  {
    var n := |rows| - 1;
    if n == 0 {
      assert Hosts(rows)[0] == rows[0].about.peerHostname && Messages(rows)[0] == rows[0].about.message;
    } else {
      var before, was := rows[..n], Stored(rows[..n]).about;
      TextsAreLast(before);
      assert Hosts(rows) == Hosts(before) + [rows[n].about.peerHostname];
      assert Messages(rows) == Messages(before) + [rows[n].about.message];
      LastGrows(Hosts(before), was.peerHostname, rows[n].about.peerHostname);
      LastGrows(Messages(before), was.message, rows[n].about.message);
    }
  }

  /** The start and the completion time are the first ones written; the name of the peer and the message
      are the last ones known; direction and address are the last ones. */
  lemma TimesAndTexts(rows: seq<Row>)
    requires rows != []
    ensures var row, last := Stored(rows), rows[|rows| - 1];
            && row.startedAt == rows[0].startedAt && IsFirst(Ends(rows), row.completedAt)
            && IsLast(Hosts(rows), row.about.peerHostname) && IsLast(Messages(rows), row.about.message)
            && row.about.direction == last.about.direction && row.about.peerIp == last.about.peerIp
            && row.about.peerDeviceId == last.about.peerDeviceId
  {
    TimesAreFirst(rows);
    TextsAreLast(rows);
  }

  /** What follows a complete record without ending it. */
  ghost predicate OnlyUnfinishedAfter(rows: seq<Row>, m: nat) {
    forall k :: m < k < |rows| ==> Unfinished(rows[k].status)
  }

  /** As long as nothing was complete, status, error and byte count are the last ones written. */
  lemma {:induction false} BeforeCompletion(rows: seq<Row>)
    requires rows != [] && forall k :: 0 <= k < |rows| ==> !rows[k].status.Complete?
    ensures var row, last := Stored(rows), rows[|rows| - 1];
            row.status == last.status && row.error == last.error && row.bytes == last.bytes
    decreases |rows|
  {
    var n := |rows| - 1;
    if n > 0 { BeforeCompletion(rows[..n]); }
  }

  /** A complete record holds against any unfinished ones that follow: status and error are its own, and
      the byte count is the greatest since. */
  lemma {:induction false} AfterCompletion(rows: seq<Row>, m: nat)
    requires m < |rows| && rows[m].status.Complete? && OnlyUnfinishedAfter(rows, m)
    ensures var row := Stored(rows);
            && row.status.Complete? && row.error == rows[m].error
            && forall k :: m <= k < |rows| ==> rows[k].bytes <= row.bytes
    decreases |rows|
  {
    var n := |rows| - 1;
    if n > m { AfterCompletion(rows[..n], m); }
  }

  /** Any other status ends it: the last record's status, error and all. */
  lemma AnythingElseReplaces(rows: seq<Row>)
    requires |rows| > 1 && !Unfinished(rows[|rows| - 1].status)
    ensures var row, last := Stored(rows), rows[|rows| - 1]; row.status == last.status && row.error == last.error
  {
  }

  // ---- any sequence of upserts of one file row, and updates

  function StoredFile(rows: seq<FileRow>): FileRow
    requires rows != []
  {
    var n := |rows| - 1;
    if n == 0 then rows[0] else MergeFile(StoredFile(rows[..n]), rows[n])
  }

  function Digests(rows: seq<FileRow>): (v: seq<Option<string>>)
    ensures |v| == |rows| && forall k :: 0 <= k < |rows| ==> v[k] == rows[k].sha256
  {
    seq(|rows|, i requires 0 <= i < |rows| => rows[i].sha256)
  }

  function Paths(rows: seq<FileRow>): (v: seq<Option<string>>)
    ensures |v| == |rows| && forall k :: 0 <= k < |rows| ==> v[k] == rows[k].finalPath
  {
    seq(|rows|, i requires 0 <= i < |rows| => rows[i].finalPath)
  }

  lemma {:induction false} DigestIsLast(rows: seq<FileRow>)
    requires rows != []
    ensures IsLast(Digests(rows), StoredFile(rows).sha256)
    decreases |rows|
  {
    var n := |rows| - 1;
    if n == 0 {
      assert Digests(rows)[0] == rows[0].sha256;
    } else {
      DigestIsLast(rows[..n]);
      assert Digests(rows) == Digests(rows[..n]) + [rows[n].sha256];
      LastGrows(Digests(rows[..n]), StoredFile(rows[..n]).sha256, rows[n].sha256);
    }
  }

  lemma {:induction false} PathIsLast(rows: seq<FileRow>)
    requires rows != []
    ensures IsLast(Paths(rows), StoredFile(rows).finalPath)
    ensures StoredFile(rows).filename == rows[0].filename && StoredFile(rows).size == rows[0].size
    decreases |rows|
  {
    var n := |rows| - 1;
    if n == 0 {
      assert Paths(rows)[0] == rows[0].finalPath;
    } else {
      PathIsLast(rows[..n]);
      assert Paths(rows) == Paths(rows[..n]) + [rows[n].finalPath];
      LastGrows(Paths(rows[..n]), StoredFile(rows[..n]).finalPath, rows[n].finalPath);
    }
  }

  /** A file row keeps the name and size it was created with; digest and path are the last ones known. */
  lemma FileTexts(rows: seq<FileRow>)
    requires rows != []
    ensures var row := StoredFile(rows);
            && row.filename == rows[0].filename && row.size == rows[0].size
            && IsLast(Digests(rows), row.sha256) && IsLast(Paths(rows), row.finalPath)
  {
    DigestIsLast(rows);
    PathIsLast(rows);
  }

  /** A complete file row holds against unfinished ones that follow, with the greatest byte count since;
      until one is complete the last status and byte count stand. */
  lemma {:induction false} FileProgress(rows: seq<FileRow>, m: nat)
    requires m < |rows| && forall k :: m < k < |rows| ==> Unfinished(rows[k].status)
    requires rows[m].status.Complete? || (m == 0 && !rows[0].status.Complete?)
    ensures var row, last := StoredFile(rows), rows[|rows| - 1];
            if rows[m].status.Complete?
            then row.status.Complete? && forall k :: m <= k < |rows| ==> rows[k].bytes <= row.bytes
            else row.status == last.status && row.bytes == last.bytes
    decreases |rows|
  {
    var n := |rows| - 1;
    if n > m { FileProgress(rows[..n], m); }
  }

  /** An update that is not held back sets exactly the columns it was given. */
  lemma UpdateSetsWhatIsGiven(row: Row, c: Changes)
    requires !(row.status.Complete? && c.status.Some? && (Unfinished(c.status.value) || c.status.value.Accepted?))
    ensures var z := UpdateRow(row, c);
            && z.about == row.about.(peerHostname := z.about.peerHostname) && z.startedAt == row.startedAt
            && (if c.peerHostname.Some? then Some(z.about.peerHostname) == c.peerHostname
                else z.about.peerHostname == row.about.peerHostname)
            && (if c.status.Some? then Some(z.status) == c.status else z.status == row.status)
            && (if c.fileCount.Some? then Some(z.fileCount) == c.fileCount else z.fileCount == row.fileCount)
            && (if c.totalSize.Some? then Some(z.totalSize) == c.totalSize else z.totalSize == row.totalSize)
            && (if c.bytes.Some? then Some(z.bytes) == c.bytes else z.bytes == row.bytes)
            && (if c.completedAt.Some? then Some(z.completedAt) == c.completedAt else z.completedAt == row.completedAt)
            && (if c.error.Some? then Some(z.error) == c.error else z.error == row.error)
            && (if c.resumed.Some? then Some(z.resumed) == c.resumed else z.resumed == row.resumed)
            && (if c.resumeOffset.Some? then Some(z.resumeOffset) == c.resumeOffset
                else z.resumeOffset == row.resumeOffset)
  {
  }

  /** One that would make a complete row unfinished is dropped whole. */
  lemma CompleteHoldsAgainstUpdates(row: Row, c: Changes)
    requires row.status.Complete? && c.status.Some? && (Unfinished(c.status.value) || c.status.value.Accepted?)
    ensures UpdateRow(row, c) == row
  {
  }

  // ---- duplicates of one file

  const STANDING := [Complete, Cancelled, Failed, Rejected, Active, Resuming, Interrupted, Accepted, PendingApproval,
                     Pending]

  /** Among duplicates the status that stands is the earliest in this list. */
  lemma RanksFollowStanding()
    ensures forall i, j :: 0 <= i < j < |STANDING| ==> Rank(STANDING[i]) > Rank(STANDING[j])
    ensures forall s: Status :: s in STANDING
  {
    forall s: Status ensures s in STANDING {
      assert s == STANDING[0] || s == STANDING[1] || s == STANDING[2] || s == STANDING[3] || s == STANDING[4]
             || s == STANDING[5] || s == STANDING[6] || s == STANDING[7] || s == STANDING[8] || s == STANDING[9];
    }
  }

  function Bytes(items: seq<Item>): (v: seq<nat>)
    ensures |v| == |items| && forall k :: 0 <= k < |items| ==> v[k] == items[k].bytes
  {
    seq(|items|, i requires 0 <= i < |items| => items[i].bytes)
  }

  function ItemOffsets(items: seq<Item>): (v: seq<nat>)
    ensures |v| == |items| && forall k :: 0 <= k < |items| ==> v[k] == items[k].resumeOffset
  {
    seq(|items|, i requires 0 <= i < |items| => items[i].resumeOffset)
  }

  lemma {:induction false} GreatestOfItems(items: seq<Item>)
    requires items != []
    ensures IsMax(Bytes(items), MaxBytes(items)) && IsMax(ItemOffsets(items), MaxOffset(items))
    decreases |items|
  {
    var n := |items| - 1;
    if n == 0 {
      assert Bytes(items)[0] == items[0].bytes && ItemOffsets(items)[0] == items[0].resumeOffset;
    } else {
      GreatestOfItems(items[..n]);
      assert Bytes(items) == Bytes(items[..n]) + [items[n].bytes];
      assert ItemOffsets(items) == ItemOffsets(items[..n]) + [items[n].resumeOffset];
      MaxGrows(Bytes(items[..n]), MaxBytes(items[..n]), items[n].bytes);
      MaxGrows(ItemOffsets(items[..n]), MaxOffset(items[..n]), items[n].resumeOffset);
    }
  }

  /** The first start, and the last positive completion time or 0. */
  lemma {:induction false} TimesOfItems(items: seq<Item>)
    requires items != []
    ensures exists k :: 0 <= k < |items| && items[k].startedAt == FirstStart(items)
    ensures forall k :: 0 <= k < |items| ==> FirstStart(items) <= items[k].startedAt
    ensures LatestEnd(items) >= 0.0
    ensures forall k :: 0 <= k < |items| && items[k].completedAt.Some? ==>
              items[k].completedAt.value <= LatestEnd(items)
    ensures LatestEnd(items) > 0.0 ==> exists k :: 0 <= k < |items| && items[k].completedAt == Some(LatestEnd(items))
    decreases |items|
  {
    var n := |items| - 1;
    if n == 0 {
      assert items[0].startedAt == FirstStart(items);
    } else {
      TimesOfItems(items[..n]);
      assert forall k :: 0 <= k < n ==> items[..n][k] == items[k];
    }
  }

  lemma {:induction false} FirstPathIsFirst(items: seq<Item>)
    ensures if FirstPath(items).None? then forall k :: 0 <= k < |items| ==> !Truthy(items[k].finalPath)
            else exists k :: 0 <= k < |items| && items[k].finalPath == FirstPath(items) && Truthy(items[k].finalPath)
                             && forall j :: 0 <= j < k ==> !Truthy(items[j].finalPath)
    decreases |items|
  {
    if items != [] && !Truthy(items[0].finalPath) {
      FirstPathIsFirst(items[1..]);
      if FirstPath(items).Some? {
        var k :| 0 <= k < |items[1..]| && items[1..][k].finalPath == FirstPath(items) && Truthy(items[1..][k].finalPath)
                 && forall j :: 0 <= j < k ==> !Truthy(items[1..][j].finalPath);
        assert items[k + 1] == items[1..][k];
        assert forall j :: 1 <= j < k + 1 ==> items[j] == items[1..][j - 1];
      }
    }
  }

  /** Duplicates of a file become one record: the status that stands highest; all bytes if it is COMPLETE
      and else the most any duplicate has; the first start, the greatest offset; an end only when it has
      ended, and then the last; no error on a COMPLETE one. */
  lemma ResolvedColumns(items: seq<Item>)
    requires |items| > 1
    ensures var r := Resolve(items);
            && (exists k :: 0 <= k < |items| && items[k].status == r.status)
            && (forall k :: 0 <= k < |items| ==> Rank(items[k].status) <= Rank(r.status))
            && (if r.status.Complete? then r.bytes == r.size && r.error.None? else IsMax(Bytes(items), r.bytes))
            && (exists k :: 0 <= k < |items| && items[k].startedAt == r.startedAt)
            && (forall k :: 0 <= k < |items| ==> r.startedAt <= items[k].startedAt)
            && IsMax(ItemOffsets(items), r.resumeOffset)
            && (r.completedAt.Some? ==>
                  && IsTerminal(r.status) && exists k :: 0 <= k < |items| && items[k].completedAt == r.completedAt)
            && (IsTerminal(r.status) ==> forall k :: 0 <= k < |items| && items[k].completedAt.Some? ==>
                  items[k].completedAt.value <= 0.0
                  || (r.completedAt.Some? && items[k].completedAt.value <= r.completedAt.value))
  {
    var best := BestOf(items);
    var b :| 0 <= b < |items| && items[b] == best;
    assert forall k :: 0 <= k < |items| ==> !Beats(items[k], best);
    GreatestOfItems(items);
    TimesOfItems(items);
  }

  // ---- the record written for a transfer

  lemma {:induction false} SumsAdd(a: seq<Item>, b: seq<Item>)
    ensures SumBytes(a + b) == SumBytes(a) + SumBytes(b) && SumSizes(a + b) == SumSizes(a) + SumSizes(b)
    ensures SumOffsets(a + b) == SumOffsets(a) + SumOffsets(b)
    decreases |b|
  {
    if b == [] {
      assert a + b == a;
    } else {
      var n := |b| - 1;
      assert (a + b)[..|a| + n] == a + b[..n];
      SumsAdd(a, b[..n]);
    }
  }

  lemma SumsOfOne(item: Item)
    ensures SumBytes([item]) == item.bytes && SumSizes([item]) == item.size && SumOffsets([item]) == item.resumeOffset
  {
    assert [item][..0] == [];
  }

  lemma {:induction false} FirstErrorIsFirst(infos: seq<Item>)
    ensures if FirstError(infos).None? then forall k :: 0 <= k < |infos| ==> !Truthy(infos[k].error)
            else exists k :: 0 <= k < |infos| && infos[k].error == FirstError(infos) && Truthy(infos[k].error)
                             && forall j :: 0 <= j < k ==> !Truthy(infos[j].error)
    decreases |infos|
  {
    if infos != [] && !Truthy(infos[0].error) {
      FirstErrorIsFirst(infos[1..]);
      if FirstError(infos).Some? {
        var k :| 0 <= k < |infos[1..]| && infos[1..][k].error == FirstError(infos) && Truthy(infos[1..][k].error)
                 && forall j :: 0 <= j < k ==> !Truthy(infos[1..][j].error);
        assert infos[k + 1] == infos[1..][k];
        assert forall j :: 1 <= j < k + 1 ==> infos[j] == infos[1..][j - 1];
      }
    }
  }

  /** The record of a transfer: never fewer files, bytes or a smaller total than a complete row had; the
      first start; the last end, or the one on record; no error once COMPLETE, else the first one; resumed
      when some file was. With SumsAdd and SumsOfOne: bytes, sizes and offsets are the files' sums. */
  lemma RecordColumns(row: Option<Row>, infos: seq<Item>, hostname: Option<string>)
    requires infos != []
    ensures var r := Record(row, infos, hostname);
            && r.fileCount >= |infos| && r.totalSize >= SumSizes(infos) && r.bytes >= SumBytes(infos)
            && (row.None? ==> r.fileCount == |infos| && r.totalSize == SumSizes(infos) && r.bytes == SumBytes(infos))
            && (row.Some? ==> IsMax([|infos|, row.value.fileCount], r.fileCount)
                              && IsMax([SumSizes(infos), row.value.totalSize], r.totalSize))
            && (row.Some? && r.status.Complete? ==> IsMax([SumBytes(infos), row.value.bytes], r.bytes))
            && (!r.status.Complete? ==> r.bytes == SumBytes(infos))
            && r.resumeOffset == SumOffsets(infos)
            && (r.resumed <==> exists k :: 0 <= k < |infos| && infos[k].resumeOffset > 0)
            && (exists k :: 0 <= k < |infos| && infos[k].startedAt == r.startedAt)
            && (forall k :: 0 <= k < |infos| ==> r.startedAt <= infos[k].startedAt)
            && EndedAs(row, infos, r.completedAt)
            && (r.status.Complete? ==> r.error.None?)
            && (!r.status.Complete? ==>
                  if r.error.None? then forall k :: 0 <= k < |infos| ==> !Truthy(infos[k].error)
                  else exists k :: 0 <= k < |infos| && infos[k].error == r.error && Truthy(infos[k].error)
                                   && forall j :: 0 <= j < k ==> !Truthy(infos[j].error))
            && r.about == About(infos[0].direction, infos[0].peerDeviceId, infos[0].peerIp, hostname, infos[0].message)
  {
    TimesOfItems(infos);
    GreatestOfItems(infos);
    FirstErrorIsFirst(infos);
    var r := Record(row, infos, hostname);
    if row.Some? {
      assert [|infos|, row.value.fileCount][0] == |infos| && [|infos|, row.value.fileCount][1] == row.value.fileCount;
      TwoMax(|infos|, row.value.fileCount);
      TwoMax(SumSizes(infos), row.value.totalSize);
      TwoMax(SumBytes(infos), row.value.bytes);
    }
    assert MaxOffset(infos) > 0 ==> exists k :: 0 <= k < |infos| && ItemOffsets(infos)[k] > 0;
  }

  function RowBytes(rows: seq<(string, FileRow)>): nat {
    if rows == [] then 0 else RowBytes(rows[..|rows| - 1]) + rows[|rows| - 1].1.bytes
  }

  function RowSizes(rows: seq<(string, FileRow)>): nat {
    if rows == [] then 0 else RowSizes(rows[..|rows| - 1]) + rows[|rows| - 1].1.size
  }

  lemma {:induction false} RowSums(infos: seq<Item>)
    ensures RowBytes(FileRows(infos)) == SumBytes(infos) && RowSizes(FileRows(infos)) == SumSizes(infos)
    decreases |infos|
  {
    if infos != [] {
      var n := |infos| - 1;
      RowSums(infos[..n]);
      assert FileRows(infos)[..n] == FileRows(infos[..n]);
    }
  }

  /** The file rows written with the record of a new transfer agree with it: as many, bytes and sizes summing
      to its own, COMPLETE together; each with its file's name, digest and path. */
  lemma TablesAgree(infos: seq<Item>, hostname: Option<string>)
    requires infos != []
    ensures var r, rows := Record(None, infos, hostname), FileRows(infos);
            && r.fileCount == |rows| && r.bytes == RowBytes(rows) && r.totalSize == RowSizes(rows)
            && (r.status.Complete? <==> forall i :: 0 <= i < |rows| ==> rows[i].1.status.Complete?)
            && forall i :: 0 <= i < |rows| ==>
                 && rows[i].1.filename == infos[i].filename && rows[i].1.sha256 == infos[i].sha256
                 && rows[i].1.finalPath == infos[i].finalPath
                 && (Truthy(infos[i].fileId) ==> rows[i].0 == infos[i].fileId.value)
  {
    RowSums(infos);
    AggregateIsComplete(infos);
    assert forall i :: 0 <= i < |infos| ==> FileRows(infos)[i].1.status == infos[i].status;
  }

  lemma TwoMax(a: nat, b: nat)
    ensures IsMax([a, b], Max(a, b))
  {
    assert [a, b][0] == a && [a, b][1] == b;
  }

  /** The latest positive end among the files, or else what the row says. */
  ghost predicate EndedAs(row: Option<Row>, infos: seq<Item>, ended: Option<real>) {
    if exists k :: 0 <= k < |infos| && infos[k].completedAt.Some? && infos[k].completedAt.value > 0.0 then
      && ended.Some? && (exists k :: 0 <= k < |infos| && infos[k].completedAt == ended)
      && forall k :: 0 <= k < |infos| && infos[k].completedAt.Some? ==> infos[k].completedAt.value <= ended.value
    else ended == if row.Some? then row.value.completedAt else None
  }

  /** A round of persisting is skipped exactly when little would be lost: the same unfinished status was
      written less than two seconds ago, with less than four mebibytes received since. */
  lemma ThrottlingLosesLittle(progress: Option<Progress>, status: Status, bytes: nat, now: real)
    ensures !ShouldFlush(progress, status, bytes, now) <==>
              && progress.Some? && progress.value.status == status && !IsTerminal(status)
              && now < progress.value.at + 2.0 && bytes < progress.value.bytes + 4_194_304
  {
  }
}
