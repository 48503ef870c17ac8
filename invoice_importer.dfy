/** The invoice importer object: the lock discipline, the row buffers it fills
    from the changelist, the drain step, and the per-record import. */
module Importer {
  import opened Wrappers
  import opened Storage
  import opened Changelist
  import opened ImportMapping
  import opened ImportEngine
  import opened Lock

  /** The name the importer's lock is taken under. */
  const LockName: string := "invoice_importer"

  /** The message of the exception `initialize()` throws when the lock is taken. */
  const AlreadyImportingMessage: string := LockName + " is already importing"

  /** What one batch call of `processInvoices()` reports: it is done, or the
      fraction processed / total, kept as its two integers. */
  datatype Progress = Finished | Fraction(processed: nat, total: nat)

  class InvoiceImporter {
    /** The persistent lock, shared with every other importer. */
    const lock: LockBackend
    /** `$this->source`, which is also the comparer's source storage. */
    const source: ItemStorage<Rows>
    /** The comparer's target storage: the archive. */
    const target: ItemStorage<Rows>
    /** The number of violations entity validation reports for a record. */
    const violations: Payload -> nat

    var processedInvoice: nat
    var invoiceData: Buffers
    var totalInvoiceToProcess: nat
    var errors: seq<string>
    /** The records the entity storage has saved, in order. */
    var saved: seq<Payload>

    ghost predicate Valid()
      reads this, source, target
    {
      source != target && source.store.Valid() && target.store.Valid()
    }

    constructor (lock: LockBackend, source: ItemStorage<Rows>, target: ItemStorage<Rows>, violations: Payload -> nat)
      requires source != target && source.store.Valid() && target.store.Valid()
      ensures Valid()
      ensures this.lock == lock && this.source == source && this.target == target && this.violations == violations
      ensures processedInvoice == 0 && invoiceData == map[] && totalInvoiceToProcess == 0
      ensures errors == [] && saved == []
    {
      this.lock := lock;
      this.source := source;
      this.target := target;
      this.violations := violations;
      processedInvoice := 0;
      invoiceData := map[];
      totalInvoiceToProcess := 0;
      errors := [];
      saved := [];
    }

    /** `logError()`: the message is appended to the error list. */
    method LogError(message: string)
      modifies this`errors
      ensures errors == old(errors) + [message]
    {
      errors := errors + [message];
    }

    method GetErrors() returns (r: seq<string>)
      ensures r == errors
    {
      r := errors;
    }

    /** `initialize()`: takes the lock and names the two batch steps, or throws,
        leaving the lock as it was, when another import holds it. */
    method Initialize() returns (r: Result<seq<string>>)
      modifies lock
      ensures old(lock.held) ==> r == Thrown(AlreadyImportingMessage) && lock.held
      ensures !old(lock.held) ==> r == Ok(["processInvoices", "finish"]) && lock.held
    {
      var acquired := lock.Acquire();
      if !acquired {
        return Thrown(AlreadyImportingMessage);
      }
      r := Ok(["processInvoices", "finish"]);
    }

    /** `getNextInvoiceImportOperation()`: one drain call over a fresh
        changelist, as NextOperation states it. */
    method GetNextInvoiceImportOperation() returns (r: Option<Payload>)
      requires Valid()
      modifies this`invoiceData, source, target
      ensures Valid()
      ensures var s := NextOperation(CreateList(old(source.store), old(target.store)),
                                     old(invoiceData), old(source.store), old(target.store));
        && r == s.result && invoiceData == s.buffers
        && source.store == s.source && target.store == s.target
      ensures r.Some? ==> BufferedRows(invoiceData) < BufferedRows(old(invoiceData))
    {
      var pending := CreateList(source.store, target.store);
      NextOperationShrinks(pending, invoiceData, source.store, target.store);
      ghost var goal := NextOperation(pending, invoiceData, source.store, target.store);
      var rest := pending;
      while rest != []
        invariant source.store.Valid() && target.store.Valid()
        invariant NextOperation(rest, invoiceData, source.store, target.store) == goal
      {
        var name := rest[0];
        ghost var b := invoiceData;
        var row: Option<Row> := None;
        if name in invoiceData && invoiceData[name] != [] {
          row := Some(invoiceData[name][0]);
          invoiceData := invoiceData[name := invoiceData[name][1..]];
        }
        assert (row, invoiceData) == Shift(b, name);
        var payload := MapInvoice(row);
        if payload != map[] {
          NextOperationReturns(rest, b, source.store, target.store);
          return Some(payload);
        }
        var data := source.Read(name);
        if data.Some? && data.value != [] {
          NextOperationArchives(rest, b, source.store, target.store);
          target.Write(name, data.value);
          source.Delete(name);
        } else {
          NextOperationSkips(rest, b, source.store, target.store);
        }
        rest := rest[1..];
      }
      r := None;
    }

    /** `importInvoice()`: the record is saved only when validation finds no
        violation; the processed count goes up by one either way. */
    method ImportInvoice(invoice: Payload)
      modifies this`saved, this`processedInvoice
      ensures processedInvoice == old(processedInvoice) + 1
      ensures saved == if violations(invoice) == 0 then old(saved) + [invoice] else old(saved)
    {
      if violations(invoice) == 0 {
        saved := saved + [invoice];
      }
      processedInvoice := processedInvoice + 1;
    }

    /** `getTotalInvoiceToProcess()`: every changelist item's rows are read
        into its buffer, and the count is one more than the number of rows. */
    method GetTotalInvoiceToProcess() returns (count: nat)
      requires Valid()
      modifies this`invoiceData
      ensures var c := CreateList(source.store, target.store);
        && count == 1 + SumRows(c, source.store.items)
        && invoiceData == LoadBuffers(old(invoiceData), c, source.store.items)
    {
      var c := CreateList(source.store, target.store);
      ghost var items := source.store.items;
      count := 1;
      var i := 0;
      while i < |c|
        invariant 0 <= i <= |c|
        invariant count == 1 + SumRows(c[..i], items)
        invariant invoiceData == LoadBuffers(old(invoiceData), c[..i], items)
      {
        var name := c[i];
        var data := source.Read(name);
        LoadStep(old(invoiceData), c, i, items);
        invoiceData := invoiceData[name := data.value];
        count := count + |data.value|;
        i := i + 1;
      }
      assert c[..i] == c;
    }

    /** `processInvoices()`: the first call loads the buffers; each call then
        takes one drain step from them, imports the record it returns, or
        reports that the drain is done when it returns FALSE. */
    method ProcessInvoices() returns (progress: Progress)
      requires Valid()
      modifies this, source, target
      ensures Valid()
      ensures old(totalInvoiceToProcess) != 0 ==> totalInvoiceToProcess == old(totalInvoiceToProcess)
      ensures old(totalInvoiceToProcess) == 0 ==>
                totalInvoiceToProcess == 1 + SumRows(CreateList(old(source.store), old(target.store)), old(source.store.items))
      ensures progress.Finished? ==> processedInvoice == old(processedInvoice) && saved == old(saved)
      ensures progress.Fraction? ==> processedInvoice == old(processedInvoice) + 1
      ensures progress.Fraction? ==> progress == Fraction(processedInvoice, totalInvoiceToProcess)
      ensures totalInvoiceToProcess >= 1
      ensures errors == old(errors)
      ensures var c := CreateList(old(source.store), old(target.store));
        var loaded := if old(totalInvoiceToProcess) == 0 then LoadBuffers(old(invoiceData), c, old(source.store.items))
                      else old(invoiceData);
        var s := NextOperation(c, loaded, old(source.store), old(target.store));
        && (progress.Finished? <==> s.result.None?)
        && invoiceData == s.buffers && source.store == s.source && target.store == s.target
        && (s.result.Some? ==>
              saved == if violations(s.result.value) == 0 then old(saved) + [s.result.value] else old(saved))
    {
      if totalInvoiceToProcess == 0 {
        totalInvoiceToProcess := GetTotalInvoiceToProcess();
      }
      var invoice := GetNextInvoiceImportOperation();
      if invoice.None? {
        return Finished;
      }
      ImportInvoice(invoice.value);
      progress := Fraction(processedInvoice, totalInvoiceToProcess);
    }

    /** `finish()`: releases the lock. */
    method Finish()
      modifies lock
      ensures !lock.held
    {
      lock.Release();
    }

    /** `alreadyImporting()`: whether some import holds the lock. */
    method AlreadyImporting() returns (r: bool)
      ensures r == lock.held
    {
      var available := lock.LockMayBeAvailable();
      r := !available;
    }
  }
}
