/** The cron queue worker that feeds the import queue: it takes the importer's
    lock, loads the changelist's rows and enqueues every record the drain
    returns. */
module ImportWorker {
  import opened Wrappers
  import opened Storage
  import opened Changelist
  import opened ImportMapping
  import opened ImportEngine
  import opened ImportDrain
  import opened Lock
  import opened Importer

  class InvoiceImportWorker {
    /** The sync storage: the comparer's source and the importer's `$source`. */
    const storage: ItemStorage<Rows>
    /** The archive storage: the comparer's target. */
    const archive: ItemStorage<Rows>
    const lock: LockBackend
    const importer: InvoiceImporter
    /** The `invoice_import` queue's items, oldest first. */
    var queue: seq<Payload>

    /** The importer is wired to the worker's own storages and lock. */
    ghost predicate Valid()
      reads this, importer, storage, archive
    {
      && importer.source == storage && importer.target == archive && importer.lock == lock
      && importer.Valid()
    }

    /** What `initialize()` leaves behind, from the lock flag, queue, buffers
        and storages it started from: the lock is held in every case; when
        the lock was taken, the source lists nothing or nothing is to be
        created, nothing else changed; otherwise the buffers were loaded with
        the changelist's rows and the drain ran until it returned FALSE,
        every record it returned going to the queue. */
    ghost predicate InitializeOutcome(held: bool, queue0: seq<Payload>, b: Buffers, source: Store<Rows>, target: Store<Rows>)
      reads this, importer, storage, archive, lock
      requires source.Valid() && target.Valid()
    {
      && lock.held
      && if held || source.names == [] || !HasChanges(source, target) then
           queue == queue0 && importer.invoiceData == b && storage.store == source && archive.store == target
         else
           var d := DrainAll(LoadBuffers(b, CreateList(source, target), source.items), source, target);
           && queue == queue0 + d.records
           && importer.invoiceData == d.buffers && storage.store == d.source && archive.store == d.target
    }

    /** The constructor wires a fresh comparer and importer to the two
        storages and runs `initialize()` once. */
    constructor (storage: ItemStorage<Rows>, archive: ItemStorage<Rows>, lock: LockBackend,
                 violations: Payload -> nat, queue: seq<Payload>)
      requires storage != archive && storage.store.Valid() && archive.store.Valid()
      modifies storage, archive, lock
      ensures Valid() && fresh(importer)
      ensures this.storage == storage && this.archive == archive && this.lock == lock
      ensures InitializeOutcome(old(lock.held), queue, map[], old(storage.store), old(archive.store))
    {
      this.storage := storage;
      this.archive := archive;
      this.lock := lock;
      this.importer := new InvoiceImporter(lock, storage, archive, violations);
      this.queue := queue;
      new;
      Initialize();
    }

    /** `initialize()`. An exception from the importer's `initialize()` (the
        lock is already held) is swallowed. The worker never calls
        `finish()`, so the lock stays held afterwards and, until it is
        released, every later run enqueues nothing. */
    method Initialize()
      requires Valid()
      modifies this`queue, importer`invoiceData, storage, archive, lock
      ensures Valid()
      ensures InitializeOutcome(old(lock.held), old(queue), old(importer.invoiceData), old(storage.store), old(archive.store))
      ensures !old(lock.held) && HasChanges(old(storage.store), old(archive.store)) ==>
                var c := CreateList(old(storage.store), old(archive.store));
                && queue == old(queue) + ImportableRecords(c, old(storage.store.items))
                && Archived(c, old(storage.store), old(archive.store), storage.store, archive.store)
    {
      ghost var b0, s0, t0 := importer.invoiceData, storage.store, archive.store;
      var steps := importer.Initialize();
      if steps.Thrown? {
        return;
      }
      var sourceList := storage.ListAll();
      if sourceList == [] || !HasChanges(storage.store, archive.store) {
        return;
      }
      var _ := importer.GetTotalInvoiceToProcess();
      ghost var c := CreateList(s0, t0);
      assert importer.invoiceData == LoadBuffers(b0, c, s0.items);
      ghost var d := DrainAll(importer.invoiceData, s0, t0);
      while true
        invariant Valid() && lock.held
        invariant var rest := DrainAll(importer.invoiceData, storage.store, archive.store);
          && queue + rest.records == old(queue) + d.records
          && rest.buffers == d.buffers && rest.source == d.source && rest.target == d.target
        decreases BufferedRows(importer.invoiceData)
      {
        ghost var b, source, target := importer.invoiceData, storage.store, archive.store;
        var item := importer.GetNextInvoiceImportOperation();
        if item.None? {
          DrainAllStops(b, source, target);
          break;
        }
        DrainAllContinues(b, source, target);
        ConcatAssoc(queue, [item.value], DrainAll(importer.invoiceData, storage.store, archive.store).records);
        queue := queue + [item.value];
      }
      assert queue == old(queue) + d.records;
      DrainFromLoaded(b0, s0, t0);
    }

    /** `processItem()`: one queued record is imported. */
    method ProcessItem(data: Payload)
      modifies importer`processedInvoice, importer`saved
      ensures importer.processedInvoice == old(importer.processedInvoice) + 1
      ensures importer.saved == if importer.violations(data) == 0 then old(importer.saved) + [data] else old(importer.saved)
    {
      importer.ImportInvoice(data);
    }
  }
}
