# Invoice import and export, modelled in Dafny

This project models the invoice import and export core of a Drupal module.

**Import.** A cron queue worker takes the importer's persistent lock. It reads every CSV item that the sync storage holds but the archive storage does not (the storage comparer's `create` list) into per-item row buffers. It then calls the importer's drain step until that returns FALSE, and every record the drain returns goes onto the `invoice_import` queue.

**One drain step.** Each call walks a fresh changelist. For each item it pops the front buffered row and maps it to the thirteen invoice fields. A row with a usable `INVREF` is returned at once. Otherwise the item, if the source still reads it as non-empty, is copied to the archive and deleted from the source. Processing a queued record validates it and saves it when it has no violations.

**Export.** The exporter writes a five-column row per paid invoice into a temporary storage. At most once a day, a second worker moves every item of that storage that reads as non-empty into one queue item; items stored as the empty array stay. Processing that item writes it to the export storage under a timestamped name.

Module by module:

- `Wrappers`: Option and Result, and PHP's `empty()` on a string-or-NULL value.
- `Storage`: the item storages, as a listing-ordered value `Store` and a shared object `ItemStorage`.
- `Lock`: the lock backend.
- `Changelist`: the `create` category of the comparer.
- `ImportMapping`: the CSV column table.
- `ImportEngine`: the drain step on values.
- `ImportDrain`: what repeated drain calls return and where the items end up.
- `Importer`: the importer object.
- `ImportWorker`: the import queue worker.
- `Exporter`: the exporter.
- `ExportWorker`: the export queue worker.

The importer, the comparer and the worker share one sync storage object and one archive object. So a write by one is seen by the others, as in the worker's constructor. These effects are described through the classes' `modifies` clauses.

The comparer's `create` list is taken to be the names the source lists that the target does not hold, in the source's listing order. The sync, archive and export storages are all `InvoiceFileStorage`, a subclass of Drupal's `FileStorage`, whose listing order is not part of this model. `Storage.Store.Write` chooses one order: a new name is listed last, so items list in the order of their latest first write. Every drain and export lemma is stated for any valid `Store`, so each holds whatever the listing order. The create-list assumption is about Drupal's `StorageComparer`, which is not part of this model either; `Changelist.CreateList` states it.

## Model

| member | source | states |
|---|---|---|
| Wrappers.Column | InvoiceImporter.php:307 | a column the row lacks reads as NULL, otherwise its cell |
| Wrappers.IsEmptyValue | InvoiceImporter.php:286 | PHP's `empty()` and falsiness on a string-or-NULL value: NULL, "" and "0" |
| Storage.Store.Read | InvoiceImporter.php:178 | the item when stored, FALSE (None) exactly when it is not |
| Storage.Store.Write | InvoiceImporter.php:181 | the item now holds the data, a new name is listed last, an existing one keeps its place, and every item is still listed once |
| Storage.Store.Delete | InvoiceImporter.php:182 | the item is gone and unlisted, the others keep their order |
| Storage.ReadYourWrites | InvoiceImporter.php:178-182 | a write is read back under its name and under no other; a delete makes the name read FALSE and leaves the others alone |
| Storage.WriteTwice | InvoiceExporter.php:47 | writing the same data under the same name twice equals writing it once |
| Storage.ItemStorage.ListAll | InvoiceImportWorker.php:136 | the listing names each stored item once and nothing else |
| Storage.ItemStorage.Read | InvoiceImporter.php:178 | the storage object reads as its current store |
| Storage.ItemStorage.Write | InvoiceImporter.php:181 | the shared storage object's store becomes the written store |
| Storage.ItemStorage.Delete | InvoiceImporter.php:182 | the shared storage object's store becomes the store without the item |
| Lock.LockBackend.Acquire | InvoiceImporter.php:148 | acquiring succeeds exactly when the lock was free, and the lock is held afterwards |
| Lock.LockBackend.Release | InvoiceImporter.php:258 | the lock is free afterwards |
| Lock.LockBackend.LockMayBeAvailable | InvoiceImporter.php:271 | the probe reports free exactly when the lock is not held, and takes nothing |
| Changelist.CreateList | InvoiceImporter.php:167-168 | the create list holds exactly the names in the source and not in the target |
| Changelist.CreateListDistinct | InvoiceImporter.php:170 | the create list names no item twice |
| Changelist.HasChanges | InvoiceImportWorker.php:138 | the comparer reports changes exactly when the create list is non-empty |
| Changelist.CreateListAfterArchive | InvoiceImporter.php:178-184 | archiving a pending item removes exactly that name from the next create list and keeps the others' order |
| ImportMapping.MapInvoice | InvoiceImporter.php:283-288 | the result is the empty array exactly when there is no row or its INVREF is PHP-empty |
| ImportMapping.SourceColumn | InvoiceImporter.php:290-304 | the column each field is read from, the table of `mapInvoice()` |
| ImportMapping.SourceColumnsDistinct | InvoiceImporter.php:290-304 | no two fields are read from the same column |
| ImportMapping.FieldNamesDistinct | InvoiceImporter.php:290-304 | the thirteen fields are thirteen distinct Drupal field names |
| ImportMapping.MappedFields | InvoiceImporter.php:290-310 | a row with a reference maps to exactly the thirteen fields, each holding its column's cell or NULL, and `name` is the INVREF cell |
| ImportEngine.Shift | InvoiceImporter.php:171 | `array_shift()` yields no row exactly when the buffer is empty or missing; otherwise its front row, the buffer losing that row and every other buffer unchanged |
| ImportEngine.NextOperation | InvoiceImporter.php:166-187 | one drain call over the pending items: pop, return a mapped record at once, otherwise archive an item the source reads as non-empty and go on; FALSE when the list runs out (its properties are the ImportDrain lemmas below) |
| ImportEngine.DrainAll | InvoiceImportWorker.php:144-146 | the drain called on a fresh create list each time until it returns FALSE, with the records it returned in order (its properties are DrainAllRecords and DrainAllStorage) |
| ImportEngine.ShiftCount | InvoiceImporter.php:171 | popping removes exactly one buffered row; popping an empty or missing buffer changes nothing |
| ImportEngine.NextOperationShrinks | InvoiceImporter.php:166-187 | a drain call never adds buffered rows, and one that returns a record has popped at least one row, so the worker's loop ends |
| ImportEngine.LoadBuffers | InvoiceImporter.php:213-214 | after loading, every listed item's buffer holds that item's rows and every other buffer is as before |
| ImportEngine.LoadBuffersAppend | InvoiceImporter.php:214 | loading one more item overwrites that item's buffer only |
| ImportEngine.SumRowsAppend | InvoiceImporter.php:215 | one more item adds its row count to the total |
| ImportEngine.LoadStep | InvoiceImporter.php:213-216 | one loop turn of the total count adds the item's rows and overwrites its buffer |
| ImportDrain.ImportablePrefix | InvoiceImporter.php:171-176 | the rows an item yields before its first row without a reference: a prefix, all importable, followed by a non-importable row or nothing |
| ImportDrain.Records | InvoiceImporter.php:172-175 | one record per row, each the row's mapping |
| ImportDrain.RecordsAppend | InvoiceImporter.php:172-175 | the records of two row runs are the records of each, in order |
| ImportDrain.ExpectedAgree | InvoiceImporter.php:170-171 | the records still to come depend only on the pending items' buffers |
| ImportDrain.NextOperationStorage | InvoiceImporter.php:178-184 | one drain call moves only pending items, moves each whole to the target, and loses nothing either storage held |
| ImportDrain.NextOperationBuffers | InvoiceImporter.php:171 | one drain call touches only the buffers of pending items |
| ImportDrain.NextOperationChangelist | InvoiceImporter.php:166-187 | after one drain call the next create list is the old one without the moved items, in the same order |
| ImportDrain.NextOperationAdvances | InvoiceImporter.php:166-187 | a call that returns a record returns the next record still to come; a call that returns FALSE leaves nothing to come and has archived every non-empty pending item |
| ImportDrain.ExpectedAfterPop | InvoiceImporter.php:171-175 | popping an importable row takes exactly its record off the front of what is to come |
| ImportDrain.ExpectedAfterSkip | InvoiceImporter.php:171-174 | popping a row that maps to nothing finishes its item and takes nothing off what is to come |
| ImportDrain.CreateListPending | InvoiceImporter.php:168 | a fresh create list meets the drain lemmas' requirements |
| ImportDrain.ConservesTrans | InvoiceImporter.php:178-184 | two successive drain calls together move only pending items and lose nothing |
| ImportDrain.DrainAllRecords | InvoiceImportWorker.php:144-146 | calling the drain until FALSE returns, in order, exactly the records still to come from the buffers over the first create list |
| ImportDrain.DrainAllStorage | InvoiceImportWorker.php:144-146 | when the drain returns FALSE, every non-empty item of the first create list has moved whole to the archive, every other item is untouched, and the archive lost nothing |
| ImportDrain.ExpectedFromItems | InvoiceImporter.php:213-214 | buffers holding each item's rows yield the records of each item's importable prefix |
| ImportDrain.DrainFromLoaded | InvoiceImportWorker.php:142-146 | from freshly loaded buffers the worker's run yields each create item's importable prefix's records (create-list order, then row order) and archives those items |
| ImportDrain.DrainLeavesOnlyEmpty | InvoiceImporter.php:180-183 | after the run, only items the source reads as empty are still waiting in the create list |
| Importer.InvoiceImporter.constructor | InvoiceImporter.php:94-99 | the importer holds the given lock, storages and validation, with all counters, buffers and the error log empty |
| Importer.InvoiceImporter.LogError | InvoiceImporter.php:107-109 | the message is appended to the error log |
| Importer.InvoiceImporter.GetErrors | InvoiceImporter.php:117-119 | the error log is returned as it is |
| Importer.InvoiceImporter.Initialize | InvoiceImporter.php:147-157 | when the lock is held it throws `invoice_importer is already importing`; otherwise it takes the lock and names the steps `processInvoices`, `finish` |
| Importer.InvoiceImporter.GetNextInvoiceImportOperation | InvoiceImporter.php:166-187 | the result, the buffers and both storages are those of the drain step over a fresh create list, and a returned record pops a buffered row |
| Importer.InvoiceImporter.ImportInvoice | InvoiceImporter.php:195-201 | the record is saved exactly when validation finds no violation; the processed count goes up by one either way |
| Importer.InvoiceImporter.GetTotalInvoiceToProcess | InvoiceImporter.php:209-219 | every create item's rows are loaded into its buffer, and the count is one more than the number of those rows |
| Importer.InvoiceImporter.ProcessInvoices | InvoiceImporter.php:227-249 | the total is computed, and the buffers loaded, on the first call only; the call then takes one drain step from those buffers over a fresh create list, leaving the buffers and both storages as that step does; it reports done exactly when the step returns FALSE, and otherwise imports the returned record (saved when valid) and reports processed / total |
| Importer.InvoiceImporter.Finish | InvoiceImporter.php:257-262 | the lock is released |
| Importer.InvoiceImporter.AlreadyImporting | InvoiceImporter.php:270-272 | true exactly when the lock is held |
| ImportWorker.InvoiceImportWorker.constructor | InvoiceImportWorker.php:93-110 | the importer is wired to the worker's own storages and lock, and one `initialize()` has run |
| ImportWorker.InvoiceImportWorker.Initialize | InvoiceImportWorker.php:132-151 | the lock ends held; a held lock, an empty source or no changes leave everything as it was; otherwise the queue gains each create item's importable records in order and those items are archived |
| ImportWorker.InvoiceImportWorker.ProcessItem | InvoiceImportWorker.php:156-158 | the queued record is imported: saved when valid, counted either way |
| Exporter.FieldValue | InvoiceExporter.php:75 | a field without a value reads as NULL |
| Exporter.OrNull | InvoiceExporter.php:75 | a PHP-falsy value becomes NULL, any other is kept |
| Exporter.MapInvoice | InvoiceExporter.php:59-79 | the empty array for a PHP-empty label, otherwise exactly the five export columns, each its field's value or NULL |
| Exporter.ExportedValues | InvoiceExporter.php:75 | no exported cell is an empty string or "0" |
| Exporter.StorageKey | InvoiceExporter.php:47 | the write key is the label, and "" for a NULL label |
| Exporter.InvoiceExporter.constructor | InvoiceExporter.php:36-38 | the exporter holds the given storage |
| Exporter.InvoiceExporter.AddInvoice | InvoiceExporter.php:46-48 | the invoice's row is stored under its label and reads back, and no other item changes |
| Exporter.AddInvoiceTwice | InvoiceExporter.php:46-48 | adding the same invoice twice leaves the storage as adding it once |
| ExportWorker.ExportDue | InvoiceExportWorker.php:99-101 | the gate lets a run through only when more than 24 hours have passed since the last run, a never-set last run counting as 0 |
| ExportWorker.Truthy | InvoiceExportWorker.php:108 | a read is truthy when the item exists and is not the empty array |
| ExportWorker.Collected | InvoiceExportWorker.php:105-112 | at most one row per listed item, and none of them empty |
| ExportWorker.ExportedNames | InvoiceExportWorker.php:108 | the items whose read is truthy: stored and not the empty array |
| ExportWorker.ItemsOf | InvoiceExportWorker.php:110 | the items of the given names, one per name, in order |
| ExportWorker.CollectedInOrder | InvoiceExportWorker.php:107-112 | the collected rows are the truthy items, in listing order |
| ExportWorker.CollectedAppend | InvoiceExportWorker.php:108-110 | visiting one more item collects its row exactly when it is truthy |
| ExportWorker.Unexported | InvoiceExportWorker.php:107-112 | after the drain the storage holds exactly the items that read as empty, unchanged and in their order |
| ExportWorker.KeptItemsStep | InvoiceExportWorker.php:108-109 | visiting an unvisited item removes it exactly when it is truthy |
| ExportWorker.DrainedToStep | InvoiceExportWorker.php:108-109 | the next item reads as before the drain, and it is deleted exactly when that read is truthy |
| ExportWorker.DrainedToStart | InvoiceExportWorker.php:107 | before the loop nothing is deleted |
| ExportWorker.DrainedToEnd | InvoiceExportWorker.php:107-112 | after every listed item is visited, the storage holds only the items that read as empty |
| ExportWorker.InvoiceExportWorker.constructor | InvoiceExportWorker.php:69-78 | the worker holds the given storages and one `initialize()` has run |
| ExportWorker.InvoiceExportWorker.Initialize | InvoiceExportWorker.php:98-115 | within a day of the last run nothing changes; otherwise the run time is recorded, the queue gains one item of all truthy rows in listing order, the for-export storage keeps only empty items, and a second call at the same time does nothing |
| ExportWorker.InvoiceExportWorker.DrainForExport | InvoiceExportWorker.php:105-112 | the returned rows are the truthy items' rows in listing order, and the for-export storage keeps exactly its empty items |
| ExportWorker.InvoiceExportWorker.ProcessItem | InvoiceExportWorker.php:120-123 | the queued rows are written under the timestamp followed by `_paid_invoices` and read back, and no other export item changes |

## Left out

- The CSV encoding and decoding of the file storages (`InvoiceFileStorage`) and the three factory classes that choose directories: they are foreign-library I/O. A storage item is modelled as its decoded row list, and a decode failure is not modelled.
- The storage comparer's internals, and its `update`, `delete` and `rename` categories: the import flow reads only `create`. `hasChanges()` is modelled as a non-empty create list. An item that differs only in the other categories has an empty create list, and then the drain returns FALSE at once, so the worker's outcome is the same either way.
- The order in which a file storage lists its items (Drupal's `FileStorage` is not part of this model): `Storage.Store.Write` lists a new name last. That is the model's own choice, and the drain and export lemmas hold for any listing order of a valid `Store`.
- Exporter.StorageKey: a NULL label is taken as the key "" (PHP's usual coercion of NULL to a string), and what a storage does with a NULL name is not modelled.
- `doImportStep()`: it dispatches a method by name, which has no counterpart here. `processInvoices()` and `finish()` are modelled directly.
- Importer.InvoiceImporter.ProcessInvoices: the batch context's fraction is kept as its two integers rather than a float, and the translated progress and finalizing messages are left out.
- Entity creation, validation and saving: `create()` is the mapped field payload, the violation count is a function given to the constructor, and saving appends to a list.
- Field values that are not strings or NULL (numbers, nested arrays in a decoded row): every cell is a string or NULL.
- Calling `array_shift()` on a missing buffer: like PHP 7, it is read as NULL, and the missing buffer behaves as an empty buffer. PHP 8 raises a TypeError there, which `initialize()` would not catch.
- The queue framework, dependency injection, plugin discovery and `create()` factories: the queues are sequence fields of the workers.
- The clock: the request time `now` and the formatted `date('Y-m-d-H-i-s')` string are parameters.
- Drupal's global state: `invoice_export.last_run` is a field of the export worker.
- Lock expiry and lock names: other processes, concurrency and the lock backend's timeout are not modelled. The lock is one flag, held until released.
- Exceptions other than the importer's "already importing" one (I/O errors caught by the worker's `catch`): they are not modelled.
- Import source storage: the comparer's source is the same object as the importer's `$source`, as the worker's constructor wires it. An importer built with two different source storages is not modelled.
- Storage.Store.Write: the file storage's failure to write, for example an unwritable directory, is not modelled.
