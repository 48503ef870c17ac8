/** The invoice exporter: an invoice entity becomes a five-column row of the
    for-export storage, stored under the invoice's label. */
module Exporter {
  import opened Wrappers
  import opened Storage

  /** The parts of an invoice entity the exporter reads: its label and its
      field values by machine name. */
  datatype Invoice = Invoice(entityLabel: Value, fields: map<string, Value>)

  /** `$invoice->get($field_name)->value`: NULL for a field without a value. */
  function FieldValue(invoice: Invoice, field: string): (v: Value)
    ensures field in invoice.fields ==> v == invoice.fields[field]
    ensures field !in invoice.fields ==> v == None
  {
    Column(invoice.fields, field)
  }

  /** Export column to entity field, the table of `mapInvoice()`. */
  const ExportFields: map<string, string> := map[
    "Sale ID" := "field_invoice_sale_number",
    "Invoice Reference" := "name",
    "Invoice number" := "field_invoice_invoice_number",
    "Amount" := "amount",
    "Bank transaction ID" := "field_invoice_transaction_id"
  ]


  /** `$value ?: NULL`: a PHP-falsy value becomes NULL. */
  function OrNull(v: Value): (r: Value)
    ensures IsEmptyValue(v) ==> r == None
    ensures !IsEmptyValue(v) ==> r == v
  {
    if IsEmptyValue(v) then None else v
  }

  /** `mapInvoice($invoice)`: the empty array for an invoice whose label is
      PHP-empty, otherwise the five export columns. */
  function MapInvoice(invoice: Invoice): (r: Row)
    ensures IsEmptyValue(invoice.entityLabel) ==> r == map[]
    ensures !IsEmptyValue(invoice.entityLabel) ==> r.Keys == ExportFields.Keys
    ensures !IsEmptyValue(invoice.entityLabel) ==>
              forall c :: c in ExportFields ==> r[c] == OrNull(FieldValue(invoice, ExportFields[c]))
  {
    if IsEmptyValue(invoice.entityLabel) then map[]
    else map c | c in ExportFields :: OrNull(FieldValue(invoice, ExportFields[c]))
  }

  /** An exported row never holds an empty string or "0": only NULL or a
      PHP-truthy value. */
  lemma ExportedValues(invoice: Invoice, c: string)
    requires c in MapInvoice(invoice)
    ensures MapInvoice(invoice)[c] == None || !IsEmptyValue(MapInvoice(invoice)[c])
  {
  }

  /** The storage key `write()` receives: the label, or "" for a NULL label. */
  function StorageKey(invoice: Invoice): (k: string)
    ensures invoice.entityLabel.None? ==> k == ""
    ensures invoice.entityLabel.Some? ==> k == invoice.entityLabel.value
  {
    invoice.entityLabel.GetOr("")
  }

  class InvoiceExporter {
    /** The for-export storage. */
    const storage: ItemStorage<Row>

    constructor (storage: ItemStorage<Row>)
      ensures this.storage == storage
    {
      this.storage := storage;
    }

    /** `addInvoice()`: the invoice's row is written under its label. */
    method AddInvoice(invoice: Invoice)
      requires storage.store.Valid()
      modifies storage
      ensures storage.store == old(storage.store).Write(StorageKey(invoice), MapInvoice(invoice))
      ensures storage.store.Read(StorageKey(invoice)) == Some(MapInvoice(invoice))
      ensures forall n :: n != StorageKey(invoice) ==> storage.store.Read(n) == old(storage.store).Read(n)
    {
      storage.Write(StorageKey(invoice), MapInvoice(invoice));
    }
  }

  /** Adding the same invoice twice leaves the storage as adding it once. */
  lemma AddInvoiceTwice(s: Store<Row>, invoice: Invoice)
    requires s.Valid()
    ensures s.Write(StorageKey(invoice), MapInvoice(invoice)).Write(StorageKey(invoice), MapInvoice(invoice))
         == s.Write(StorageKey(invoice), MapInvoice(invoice))
  {
    WriteTwice(s, StorageKey(invoice), MapInvoice(invoice));
  }
}
