/** Persisting the runtime records of one transfer (core/transfer.py, _persist_runtime_transfers). */
module Persistence {
  import opened Common
  import opened Lifecycle
  import opened History

  ghost predicate Grouped(order: seq<Key>, groups: map<Key, seq<Item>>, items: seq<Item>) {
    && order == Keys(items)
    && (forall k :: k in groups <==> k in order)
    && forall k :: k in groups ==> groups[k] == Group(items, k)
  }

  /** setdefault(key, []).append(item). */
  lemma GroupOne(order: seq<Key>, groups: map<Key, seq<Item>>, items: seq<Item>, item: Item)
    requires Grouped(order, groups, items)
    ensures var key := KeyOf(item);
            if key in groups then Grouped(order, groups[key := groups[key] + [item]], items + [item])
            else Grouped(order + [key], groups[key := [item]], items + [item])
  {
    var all, key := items + [item], KeyOf(item);
    assert all[..|items|] == items;
    KeysAreTheFiles(items);
    forall k ensures Group(all, k) == if k == key then Group(items, k) + [item] else Group(items, k) {
      assert Group(items, k) + [] == Group(items, k);
    }
  }

  /** Grouping by logical file, in order of first appearance. */
  method GroupItems(items: seq<Item>) returns (order: seq<Key>, groups: map<Key, seq<Item>>)
    ensures Grouped(order, groups, items)
  {
    order, groups := [], map[];
    for n := 0 to |items|
      invariant Grouped(order, groups, items[..n])
    {
      var key := KeyOf(items[n]);
      assert items[..n + 1] == items[..n] + [items[n]];
      GroupOne(order, groups, items[..n], items[n]);
      if key in groups {
        groups := groups[key := groups[key] + [items[n]]];
      } else {
        order, groups := order + [key], groups[key := [items[n]]];
      }
    }
    assert items[..|items|] == items;
  }

  /** The n-th record written is the resolution of the n-th group. */
  lemma InfoAt(items: seq<Item>, order: seq<Key>, groups: map<Key, seq<Item>>, n: nat)
    requires Grouped(order, groups, items) && n < |order|
    ensures order[n] in groups && groups[order[n]] != []
    ensures n < |Infos(items)| && Infos(items)[n] == Resolve(groups[order[n]])
  {
    var infos, key := Infos(items), Keys(items)[n];
    assert order[n] == key && key in order;
    assert Group(items, key) != [] && infos[n] == Resolve(Group(items, key));
  }

  lemma OneMore<T>(s: seq<T>, n: nat)
    requires n < |s|
    ensures s[..n + 1] == s[..n] + [s[n]]
  {
  }

  method ResolveAll(items: seq<Item>) returns (infos: seq<Item>)
    ensures infos == Infos(items)
  {
    var order, groups := GroupItems(items);
    ghost var all := Infos(items);
    infos := [];
    for n := 0 to |order|
      invariant |all| == |order| && infos == all[..n]
    {
      InfoAt(items, order, groups, n);
      OneMore(all, n);
      infos := infos + [Resolve(groups[order[n]])];
    }
  }

  /** The status and byte count to record: a complete row stays so, and a COMPLETE aggregate is held
      back while records are missing. */
  method Measure(existing: Option<Row>, infos: seq<Item>) returns (status: Status, bytes: nat)
    ensures status == RecordStatus(existing, infos) && bytes == RecordBytes(existing, infos)
  {
    status := AggregateStatus(infos);
    if existing.Some? && existing.value.status.Complete? {
      status := Complete;
    } else if status.Complete? && existing.Some? && existing.value.fileCount > |infos| {
      status := Active;
    }
    bytes := SumBytes(infos);
    if status.Complete? && existing.Some? { bytes := Max(bytes, existing.value.bytes); }
  }

  class TransferLog {
    const history: HistoryStore
    var persisted: map<string, Progress>

    constructor (history: HistoryStore)
      ensures this.history == history && persisted == map[]
    {
      this.history, persisted := history, map[];
    }

    /** One round of the loop over the grouped transfers. */
    method PersistTransfer(id: string, items: seq<Item>, hostname: Option<string>, now: real)
      requires history.Valid() && items != []
      modifies this, history`transfers, history`files
      ensures history.Valid()
      ensures var row, infos := if history.available then Lookup(old(history.transfers), id) else None, Infos(items);
              if Flushes(row, items, Lookup(old(persisted), id), now) then
                && persisted == old(persisted)[id := Progress(now, RecordBytes(row, infos), RecordStatus(row, infos))]
                && (history.available ==>
                      && history.transfers == old(history.transfers)[id := Upsert(row, Record(row, infos, hostname))]
                      && Children(history.files, id) == UpsertFiles(Children(old(history.files), id), FileRows(infos)))
                && (!history.available ==>
                    history.transfers == old(history.transfers) && history.files == old(history.files))
              else
                persisted == old(persisted) && history.transfers == old(history.transfers)
                && history.files == old(history.files)
    {
      var infos := ResolveAll(items);
      var existing := if history.available then Lookup(history.transfers, id) else None;
      var status, bytes := Measure(existing, infos);
      if !ShouldFlush(Lookup(persisted, id), status, bytes, now) { return; }
      var written := history.CreateTransfer(id, Record(existing, infos, hostname), FileRows(infos));
      persisted := persisted[id := Progress(now, bytes, status)];
    }
  }
}
