/** The cron queue worker that feeds the export queue: at most once a day it
    moves every item of the for-export storage that reads as non-empty into
    one queue item (items stored as the empty array stay), and processing
    that item writes it to the export storage under a timestamped name. */
module ExportWorker {
  import opened Wrappers
  import opened Storage

  /** Twenty-four hours, in seconds. */
  const Cooldown: int := 24 * 60 * 60

  /** The suffix of every export file name. */
  const ExportSuffix: string := "_paid_invoices"

  /** Whether `initialize()` at time `now` gets past its gate, given the
      stored `invoice_export.last_run` (0 when never set). */
  predicate ExportDue(lastRun: Option<int>, now: int) {
    now - lastRun.GetOr(0) > Cooldown
  }

  /** PHP truthiness of a `read()` result: FALSE and the empty array are falsy. */
  predicate Truthy(data: Option<Row>) {
    data.Some? && data.value != map[]
  }

  /** The rows `initialize()` collects from the listed items, in listing order. */
  function Collected(names: seq<string>, items: map<string, Row>): (r: seq<Row>)
    ensures |r| <= |names|
    ensures forall i :: 0 <= i < |r| ==> r[i] != map[]
  {
    if names == [] then []
    else
      var data := if names[0] in items then Some(items[names[0]]) else None;
      (if Truthy(data) then [data.value] else []) + Collected(names[1..], items)
  }

  /** The names of the items the export drain takes. */
  function ExportedNames(items: map<string, Row>): (k: set<string>)
    ensures forall n :: n in k <==> n in items && items[n] != map[]
  {
    set n | n in items && items[n] != map[]
  }

  /** The items of `names`, in that order. */
  function ItemsOf(names: seq<string>, items: map<string, Row>): (r: seq<Row>)
    requires forall n :: n in names ==> n in items
    ensures |r| == |names|
    ensures forall i :: 0 <= i < |names| ==> r[i] == items[names[i]]
  {
    if names == [] then [] else [items[names[0]]] + ItemsOf(names[1..], items)
  }

  /** Collected is the items of the truthy names, in listing order. */
  lemma {:induction false} CollectedInOrder(names: seq<string>, items: map<string, Row>)
    requires forall n :: n in names ==> n in items
    ensures Collected(names, items) == ItemsOf(Filter(names, ExportedNames(items)), items)
  {
    if names != [] {
      CollectedInOrder(names[1..], items);
      var keep := ExportedNames(items);
      if names[0] in keep {
        assert Filter(names, keep) == [names[0]] + Filter(names[1..], keep);
        assert ItemsOf([names[0]] + Filter(names[1..], keep), items)
            == [items[names[0]]] + ItemsOf(Filter(names[1..], keep), items);
      } else {
        assert Filter(names, keep) == Filter(names[1..], keep);
      }
    }
  }

  /** The for-export storage once the drain has run: the items it read as
      empty, in their listing order. */
  function Unexported(s: Store<Row>): (r: Store<Row>)
    requires s.Valid()
    ensures r.Valid()
    ensures forall n :: n in r.items <==> n in s.items && s.items[n] == map[]
    ensures forall n :: n in r.items ==> r.items[n] == s.items[n]
    ensures r.names == Filter(s.names, r.items.Keys)
  {
    var items := map n | n in s.items && s.items[n] == map[] :: s.items[n];
    FilterDistinct(s.names, items.Keys);
    Store(Filter(s.names, items.Keys), items)
  }

  /** The items left once the names in `done` have been visited: every item
      not visited yet, and every visited item that read as empty. */
  function KeptItems(items: map<string, Row>, done: seq<string>): (r: map<string, Row>)
    ensures forall n :: n in r ==> n in items && r[n] == items[n]
  {
    map n | n in items && (n !in done || items[n] == map[]) :: items[n]
  }

  /** The for-export storage part-way through the drain, once the first `i`
      listed names have been visited. */
  function DrainedTo(s: Store<Row>, i: nat): (r: Store<Row>)
    requires s.Valid() && i <= |s.names|
    ensures r.Valid()
  {
    var items := KeptItems(s.items, s.names[..i]);
    FilterDistinct(s.names, items.Keys);
    Store(Filter(s.names, items.Keys), items)
  }

  /** Visiting one more name collects its row when it is truthy. */
  lemma {:induction false} CollectedAppend(names: seq<string>, name: string, items: map<string, Row>)
    ensures Collected(names + [name], items)
         == Collected(names, items) + (if name in items && items[name] != map[] then [items[name]] else [])
  {
    if names == [] {
      assert names + [name] == [name];
    } else {
      assert (names + [name])[1..] == names[1..] + [name];
      CollectedAppend(names[1..], name, items);
      var head := Collected([names[0]], items);
      var last := if name in items && items[name] != map[] then [items[name]] else [];
      assert Collected(names + [name], items) == head + Collected(names[1..] + [name], items);
      assert Collected(names, items) == head + Collected(names[1..], items);
      ConcatAssoc(head, Collected(names[1..], items), last);
    }
  }

  class InvoiceExportWorker {
    /** The temporary database storage the exporter fills. */
    const forExport: ItemStorage<Row>
    /** The export file storage. */
    const exportStorage: ItemStorage<seq<Row>>
    /** The state entry `invoice_export.last_run`; None while never set. */
    var lastRun: Option<int>
    /** The `invoice_export` queue's items, oldest first. */
    var queue: seq<seq<Row>>

    ghost predicate Valid()
      reads this, forExport, exportStorage
    {
      forExport.store.Valid() && exportStorage.store.Valid()
    }

    /** The constructor runs `initialize()` once, at request time `now`. */
    constructor (forExport: ItemStorage<Row>, exportStorage: ItemStorage<seq<Row>>, lastRun: Option<int>,
                 queue: seq<seq<Row>>, now: int)
      requires forExport.store.Valid() && exportStorage.store.Valid()
      modifies forExport
      ensures Valid()
      ensures this.forExport == forExport && this.exportStorage == exportStorage
      ensures !ExportDue(lastRun, now) ==> this.lastRun == lastRun && this.queue == queue && forExport.store == old(forExport.store)
      ensures ExportDue(lastRun, now) ==>
                && this.lastRun == Some(now)
                && this.queue == queue + [Collected(old(forExport.store.names), old(forExport.store.items))]
                && forExport.store == Unexported(old(forExport.store))
    {
      this.forExport := forExport;
      this.exportStorage := exportStorage;
      this.lastRun := lastRun;
      this.queue := queue;
      new;
      Initialize(now);
    }

    /** `initialize()` at request time `now`. Within a day of the last run
        nothing happens. Otherwise the run time is recorded first; then every
        listed item whose read is truthy is deleted and its row collected, in
        listing order, and the collected rows go to the queue as one item,
        even when there are none. Either way, a second call at the same time
        does nothing. */
    method Initialize(now: int)
      requires Valid()
      modifies this`lastRun, this`queue, forExport
      ensures Valid()
      ensures !ExportDue(old(lastRun), now) ==>
                lastRun == old(lastRun) && queue == old(queue) && forExport.store == old(forExport.store)
      ensures ExportDue(old(lastRun), now) ==>
                && lastRun == Some(now)
                && queue == old(queue) + [Collected(old(forExport.store.names), old(forExport.store.items))]
                && forExport.store == Unexported(old(forExport.store))
      ensures !ExportDue(lastRun, now)
    {
      if !ExportDue(lastRun, now) {
        return;
      }
      lastRun := Some(now);
      var exportData := DrainForExport();
      queue := queue + [exportData];
    }

    /** The loop of `initialize()`: every listed item whose read is truthy is
        deleted and its row collected, in listing order. */
    method DrainForExport() returns (exportData: seq<Row>)
      requires forExport.store.Valid()
      modifies forExport
      ensures exportData == Collected(old(forExport.store.names), old(forExport.store.items))
      ensures forExport.store == Unexported(old(forExport.store))
    {
      exportData := [];
      var names := forExport.ListAll();
      ghost var s0 := forExport.store;
      DrainedToStart(s0);
      var i := 0;
      while i < |names|
        invariant 0 <= i <= |names|
        invariant forExport.store == DrainedTo(s0, i)
        invariant exportData == Collected(names[..i], s0.items)
      {
        var item := names[i];
        DrainStep(names, i, s0);
        var data := forExport.Read(item);
        if Truthy(data) {
          forExport.Delete(item);
          exportData := exportData + [data.value];
        }
        i := i + 1;
      }
      assert names[..i] == names;
      DrainedToEnd(s0);
    }

    /** `processItem()`: the queued rows are written to the export storage
        under `formattedNow` (the request's `date('Y-m-d-H-i-s')`) followed
        by the export suffix. */
    method ProcessItem(data: seq<Row>, formattedNow: string)
      requires Valid()
      modifies exportStorage
      ensures Valid()
      ensures exportStorage.store == old(exportStorage.store).Write(formattedNow + ExportSuffix, data)
      ensures exportStorage.store.Read(formattedNow + ExportSuffix) == Some(data)
      ensures forall n :: n != formattedNow + ExportSuffix ==> exportStorage.store.Read(n) == old(exportStorage.store).Read(n)
    {
      exportStorage.Write(formattedNow + ExportSuffix, data);
    }
  }

  /** One step of the drain loop, as DrainedTo and Collected see it. */
  lemma DrainStep(names: seq<string>, i: nat, s: Store<Row>)
    requires s.Valid() && names == s.names && i < |names|
    ensures names[..i + 1] == names[..i] + [names[i]]
    ensures Collected(names[..i + 1], s.items)
         == Collected(names[..i], s.items) + (if Truthy(s.Read(names[i])) then [s.Read(names[i]).value] else [])
    ensures DrainedTo(s, i).Read(names[i]) == s.Read(names[i])
    ensures DrainedTo(s, i + 1) ==
              if Truthy(s.Read(names[i])) then DrainedTo(s, i).Delete(names[i]) else DrainedTo(s, i)
  {
    assert names[..i + 1] == names[..i] + [names[i]];
    CollectedAppend(names[..i], names[i], s.items);
    DrainedToStep(s, i);
  }

  lemma DrainedToStart(s: Store<Row>)
    requires s.Valid()
    ensures DrainedTo(s, 0) == s
  {
    var r := DrainedTo(s, 0);
    assert r.items == s.items;
    FilterAll(s.names, s.items.Keys);
  }

  /** Visiting the `i`-th listed name: it reads as it did before the drain,
      and it is deleted exactly when that read is truthy. */
  lemma DrainedToStep(s: Store<Row>, i: nat)
    requires s.Valid() && i < |s.names|
    ensures DrainedTo(s, i).Read(s.names[i]) == s.Read(s.names[i])
    ensures DrainedTo(s, i + 1) ==
              if Truthy(s.Read(s.names[i])) then DrainedTo(s, i).Delete(s.names[i]) else DrainedTo(s, i)
  {
    var name := s.names[i];
    DistinctPrefix(s.names, i);
    assert s.names[..i + 1] == s.names[..i] + [name];
    DrainedToItems(s, i);
    if Truthy(s.Read(name)) {
      DrainedToDelete(s, i);
    }
  }

  /** The items DrainedTo keeps, one name at a time. */
  lemma DrainedToItems(s: Store<Row>, i: nat)
    requires s.Valid() && i < |s.names| && s.names[i] !in s.names[..i]
    ensures var name := s.names[i];
      && DrainedTo(s, i).Read(name) == s.Read(name)
      && DrainedTo(s, i + 1).items
         == if Truthy(s.Read(name)) then DrainedTo(s, i).items - {name} else DrainedTo(s, i).items
  {
    var name := s.names[i];
    assert s.names[..i + 1] == s.names[..i] + [name];
    KeptItemsStep(s.items, s.names[..i], name);
  }

  lemma KeptItemsStep(items: map<string, Row>, done: seq<string>, name: string)
    requires name !in done
    ensures name in KeptItems(items, done) <==> name in items
    ensures KeptItems(items, done + [name])
         == if name in items && items[name] != map[] then KeptItems(items, done) - {name} else KeptItems(items, done)
  {
    var before, after := KeptItems(items, done), KeptItems(items, done + [name]);
    if name in items && items[name] != map[] {
      assert after == before - {name};
    } else {
      assert after == before;
    }
  }

  /** Deleting the visited name from DrainedTo(s, i) gives DrainedTo(s, i + 1). */
  lemma DrainedToDelete(s: Store<Row>, i: nat)
    requires s.Valid() && i < |s.names|
    requires DrainedTo(s, i + 1).items == DrainedTo(s, i).items - {s.names[i]}
    ensures DrainedTo(s, i + 1) == DrainedTo(s, i).Delete(s.names[i])
  {
    var name := s.names[i];
    var before := DrainedTo(s, i);
    var k := before.items.Keys;
    assert DrainedTo(s, i + 1).items.Keys == k - {name};
    FilterShrink(s.names, k, name);
  }

  lemma FilterShrink(names: seq<string>, k: set<string>, name: string)
    ensures Filter(Filter(names, k), k - {name}) == Filter(names, k - {name})
  {
    FilterFilter(names, k, k - {name});
    assert k * (k - {name}) == k - {name};
  }

  lemma {:induction false} DistinctPrefix(names: seq<string>, i: nat)
    requires Distinct(names) && i < |names|
    ensures names[i] !in names[..i]
  {
    if i > 0 {
      assert names[1..][..i - 1] == names[1..i];
      DistinctPrefix(names[1..], i - 1);
      assert names[..i] == [names[0]] + names[1..i];
    }
  }

  /** Once every listed name is visited, the storage is Unexported. */
  lemma DrainedToEnd(s: Store<Row>)
    requires s.Valid()
    ensures DrainedTo(s, |s.names|) == Unexported(s)
  {
    assert s.names[..|s.names|] == s.names;
    assert DrainedTo(s, |s.names|).items == Unexported(s).items;
  }
}
