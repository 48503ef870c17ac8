/** The importer's fixed column table: one decoded CSV row becomes the field
    values of one invoice entity. */
module ImportMapping {
  import opened Wrappers

  /** The invoice entity's fields the importer fills, one constructor per
      Drupal field (FieldName gives its machine name). */
  datatype Field =
    | Name | InvoiceNumber | CustomerNumber | SaleNumber | SaleName | Bidder
    | SaleDate | FirstName | LastName | Email | Debit | Credit | Language

  /** The Drupal machine name of each field. */
  function FieldName(f: Field): string {
    match f
    case Name => "name"
    case InvoiceNumber => "field_invoice_invoice_number"
    case CustomerNumber => "field_invoice_customer_number"
    case SaleNumber => "field_invoice_sale_number"
    case SaleName => "field_invoice_sale_name"
    case Bidder => "field_invoice_bidder"
    case SaleDate => "field_invoice_sale_date"
    case FirstName => "field_invoice_first_name"
    case LastName => "field_invoice_last_name"
    case Email => "field_invoice_email"
    case Debit => "field_invoice_debit"
    case Credit => "field_invoice_credit"
    case Language => "field_invoice_language"
  }

  /** The CSV column each field is read from: the table of `mapInvoice()`. */
  function SourceColumn(f: Field): string {
    match f
    case Name => ReferenceColumn
    case InvoiceNumber => "INVNO"
    case CustomerNumber => "CUSTNO"
    case SaleNumber => "SALENO"
    case SaleName => "SALENAME"
    case Bidder => "BIDDER"
    case SaleDate => "SALEDATE"
    case FirstName => "FIRSTNAME"
    case LastName => "LASTNAME"
    case Email => "EMAIL"
    case Debit => "DEBIT"
    case Credit => "CREDIT"
    case Language => "LANGUAGE"
  }

  /** The column the whole row hangs on: it becomes the entity's `name`. */
  const ReferenceColumn: string := "INVREF"

  /** Every field of the table. */
  const AllFields: set<Field> := {
    Name, InvoiceNumber, CustomerNumber, SaleNumber, SaleName, Bidder,
    SaleDate, FirstName, LastName, Email, Debit, Credit, Language}

  /** Field values handed to the entity storage's `create()`. */
  type Payload = map<Field, Value>

  /** A row the importer turns into a record: its INVREF is not PHP-empty. */
  predicate IsImportable(row: Row) {
    !IsEmptyValue(Column(row, ReferenceColumn))
  }

  /** `mapInvoice($invoice_data)`. `row` is None when `array_shift()` found no
      row left; that, and a row without a usable INVREF, give the empty array
      the importer reads as "this item is done". (What the other rows give is
      stated by MappedFields.) */
  function MapInvoice(row: Option<Row>): (p: Payload)
    ensures p == map[] <==> row.None? || !IsImportable(row.value)
  {
    if row.None? || !IsImportable(row.value) then map[]
    else
      var p := map f | f in AllFields :: Column(row.value, SourceColumn(f));
      assert Name in p;
      p
  }

  /** The thirteen fields stand for thirteen distinct Drupal fields. */
  lemma FieldNamesDistinct(f: Field, g: Field)
    ensures FieldName(f) == FieldName(g) ==> f == g
  {
  }

  /** No two fields are read from the same column. */
  lemma SourceColumnsDistinct(f: Field, g: Field)
    ensures SourceColumn(f) == SourceColumn(g) ==> f == g
  {
  }

  /** The table names thirteen distinct fields. */
  lemma FieldCount()
    ensures |AllFields| == 13
  {
  }

  /** A row with a reference yields exactly the thirteen entity fields, each
      holding its column's value or NULL when the row lacks the column, and the
      entity's `name` is the INVREF cell. */
  lemma MappedFields(row: Row)
    requires IsImportable(row)
    ensures MapInvoice(Some(row)).Keys == AllFields
    ensures |MapInvoice(Some(row))| == 13
    ensures forall f :: f in AllFields ==> MapInvoice(Some(row))[f] == Column(row, SourceColumn(f))
    ensures MapInvoice(Some(row))[Name] == row[ReferenceColumn]
  {
    var p := MapInvoice(Some(row));
    FieldCount();
    assert p.Keys == AllFields;
    assert |p| == |p.Keys|;
  }
}
