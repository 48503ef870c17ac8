/** The importer's drain step on values: the state it reads and writes (the
    row buffers and the two storages) and what one call of
    `getNextInvoiceImportOperation()` does to it. */
module ImportEngine {
  import opened Wrappers
  import opened Storage
  import opened Changelist
  import opened ImportMapping

  /** The decoded content of one CSV item. */
  type Rows = seq<Row>

  /** `$this->invoiceData`: item name to the rows not popped yet. */
  type Buffers = map<string, Rows>

  /** The buffer held for `name`; a name never buffered behaves as an empty buffer. */
  function Buffer(b: Buffers, name: string): Rows {
    if name in b then b[name] else []
  }

  /** `array_shift($this->invoiceData[$name])`: the front row, or None (NULL)
      when there is none, and the buffers without it. */
  function Shift(b: Buffers, name: string): (r: (Option<Row>, Buffers))
    ensures r.0.None? <==> Buffer(b, name) == []
    ensures r.0.Some? ==> r.0.value == Buffer(b, name)[0] && Buffer(r.1, name) == Buffer(b, name)[1..]
    ensures forall n :: n != name ==> Buffer(r.1, n) == Buffer(b, n)
  {
    if Buffer(b, name) == [] then (None, b)
    else (Some(b[name][0]), b[name := b[name][1..]])
  }

  /** One (name, position) pair per buffered row. */
  ghost function Slots(b: Buffers): set<(string, nat)> {
    set n: string, i: nat | n in b && i < |b[n]| :: (n, i)
  }

  /** The number of rows still buffered, over all items. */
  ghost function BufferedRows(b: Buffers): nat {
    |Slots(b)|
  }

  /** Popping a row removes exactly one buffered row; popping from an empty
      buffer removes none. */
  lemma ShiftCount(b: Buffers, name: string)
    ensures Buffer(b, name) != [] ==> BufferedRows(Shift(b, name).1) == BufferedRows(b) - 1
    ensures Buffer(b, name) == [] ==> Shift(b, name).1 == b
  {
    if Buffer(b, name) != [] {
      var b' := Shift(b, name).1;
      var last := (name, |b[name]| - 1);
      assert last in Slots(b);
      assert Slots(b') == Slots(b) - {last} by {
        forall p | p in Slots(b')
          ensures p in Slots(b) - {last}
        {
          assert p.0 in b' && p.1 < |b'[p.0]|;
        }
        forall p | p in Slots(b) - {last}
          ensures p in Slots(b')
        {
          assert p.0 in b && p.1 < |b[p.0]|;
        }
      }
    }
  }

  /** The importer state one drain call reads and writes, and the value it returns. */
  datatype Step = Step(result: Option<Payload>, buffers: Buffers, source: Store<Rows>, target: Store<Rows>)

  /** The loop of `getNextInvoiceImportOperation()` over the items still
      `pending` in the changelist it fetched on entry: pop the item's front
      row; a row that maps to a payload is returned at once; otherwise the
      item, when the source still reads it as non-empty, is copied to the
      target and deleted from the source, and the loop goes on with the next
      item. None (FALSE) when the list runs out. */
  function NextOperation(pending: seq<string>, b: Buffers, source: Store<Rows>, target: Store<Rows>): (s: Step)
    requires source.Valid() && target.Valid()
    ensures s.source.Valid() && s.target.Valid()
    decreases |pending|
  {
    if pending == [] then Step(None, b, source, target)
    else
      var name := pending[0];
      var (row, b') := Shift(b, name);
      var payload := MapInvoice(row);
      if payload != map[] then Step(Some(payload), b', source, target)
      else
        var data := source.Read(name);
        if data.Some? && data.value != [] then
          NextOperation(pending[1..], b', source.Delete(name), target.Write(name, data.value))
        else
          NextOperation(pending[1..], b', source, target)
  }

  /** A call whose first pending item pops a row that maps to a payload
      returns it at once. */
  lemma NextOperationReturns(pending: seq<string>, b: Buffers, source: Store<Rows>, target: Store<Rows>)
    requires source.Valid() && target.Valid()
    requires pending != [] && MapInvoice(Shift(b, pending[0]).0) != map[]
    ensures NextOperation(pending, b, source, target)
         == Step(Some(MapInvoice(Shift(b, pending[0]).0)), Shift(b, pending[0]).1, source, target)
  {
  }

  /** The two ways a call goes on past a pending item whose popped row maps
      to nothing: moving an item the source reads as non-empty, keeping one it
      reads as empty. */
  lemma NextOperationArchives(pending: seq<string>, b: Buffers, source: Store<Rows>, target: Store<Rows>)
    requires source.Valid() && target.Valid()
    requires pending != [] && MapInvoice(Shift(b, pending[0]).0) == map[]
    requires pending[0] in source.items && source.items[pending[0]] != []
    ensures NextOperation(pending, b, source, target)
         == NextOperation(pending[1..], Shift(b, pending[0]).1,
                          source.Delete(pending[0]), target.Write(pending[0], source.items[pending[0]]))
  {
  }

  lemma NextOperationSkips(pending: seq<string>, b: Buffers, source: Store<Rows>, target: Store<Rows>)
    requires source.Valid() && target.Valid()
    requires pending != [] && MapInvoice(Shift(b, pending[0]).0) == map[]
    requires pending[0] !in source.items || source.items[pending[0]] == []
    ensures NextOperation(pending, b, source, target)
         == NextOperation(pending[1..], Shift(b, pending[0]).1, source, target)
  {
  }

  /** A call pops at most one row per pending item, and a call that returns a
      record has popped at least one: the measure that makes the worker's
      enqueue loop stop. */
  lemma {:induction false} NextOperationShrinks(pending: seq<string>, b: Buffers, source: Store<Rows>, target: Store<Rows>)
    requires source.Valid() && target.Valid()
    ensures BufferedRows(NextOperation(pending, b, source, target).buffers) <= BufferedRows(b)
    ensures NextOperation(pending, b, source, target).result.Some? ==>
              BufferedRows(NextOperation(pending, b, source, target).buffers) < BufferedRows(b)
    decreases |pending|
  {
    if pending != [] {
      var name := pending[0];
      var (row, b') := Shift(b, name);
      ShiftCount(b, name);
      if MapInvoice(row) == map[] {
        var data := source.Read(name);
        if data.Some? && data.value != [] {
          NextOperationShrinks(pending[1..], b', source.Delete(name), target.Write(name, data.value));
        } else {
          NextOperationShrinks(pending[1..], b', source, target);
        }
      }
    }
  }

  /** What the importer's drain leaves behind when it is called until it
      returns FALSE, and the records it returned before that, in order. */
  datatype Drained = Drained(records: seq<Payload>, buffers: Buffers, source: Store<Rows>, target: Store<Rows>)

  /** The worker's enqueue loop, on values: call the drain step, each time on
      a fresh changelist, until it returns FALSE. */
  ghost function DrainAll(b: Buffers, source: Store<Rows>, target: Store<Rows>): (d: Drained)
    requires source.Valid() && target.Valid()
    ensures d.source.Valid() && d.target.Valid()
    decreases BufferedRows(b)
  {
    var pending := CreateList(source, target);
    var s := NextOperation(pending, b, source, target);
    if s.result.None? then Drained([], s.buffers, s.source, s.target)
    else
      NextOperationShrinks(pending, b, source, target);
      var d := DrainAll(s.buffers, s.source, s.target);
      Drained([s.result.value] + d.records, d.buffers, d.source, d.target)
  }

  /** The buffers after `getTotalInvoiceToProcess()` has read every listed item
      into them. */
  function LoadBuffers(b: Buffers, names: seq<string>, items: map<string, Rows>): (r: Buffers)
    requires forall n :: n in names ==> n in items
    ensures forall n :: n in r <==> n in b || n in names
    ensures forall n :: n in names ==> r[n] == items[n]
    ensures forall n :: n in b && n !in names ==> r[n] == b[n]
  {
    map n | n in b.Keys + (set m | m in names) :: if n in names then items[n] else b[n]
  }

  /** Loading one more item overwrites that item's buffer only. */
  lemma LoadBuffersAppend(b: Buffers, names: seq<string>, name: string, items: map<string, Rows>)
    requires forall n :: n in names ==> n in items
    requires name in items
    ensures LoadBuffers(b, names + [name], items) == LoadBuffers(b, names, items)[name := items[name]]
  {
    var l, r := LoadBuffers(b, names + [name], items), LoadBuffers(b, names, items)[name := items[name]];
    assert forall n :: n in l <==> n in r;
    assert forall n :: n in l ==> l[n] == r[n];
  }

  /** The number of rows of the listed items. */
  function SumRows(names: seq<string>, items: map<string, Rows>): nat
    requires forall n :: n in names ==> n in items
  {
    if names == [] then 0 else |items[names[0]]| + SumRows(names[1..], items)
  }

  lemma {:induction false} SumRowsAppend(names: seq<string>, name: string, items: map<string, Rows>)
    requires forall n :: n in names ==> n in items
    requires name in items
    ensures SumRows(names + [name], items) == SumRows(names, items) + |items[name]|
  {
    if names != [] {
      assert (names + [name])[1..] == names[1..] + [name];
      SumRowsAppend(names[1..], name, items);
    }
  }

  /** Reading the `i`-th changelist item into the buffers, as
      `getTotalInvoiceToProcess()` does once per item. */
  lemma LoadStep(b: Buffers, c: seq<string>, i: nat, items: map<string, Rows>)
    requires i < |c| && forall n :: n in c ==> n in items
    ensures SumRows(c[..i + 1], items) == SumRows(c[..i], items) + |items[c[i]]|
    ensures LoadBuffers(b, c[..i + 1], items) == LoadBuffers(b, c[..i], items)[c[i] := items[c[i]]]
  {
    assert c[..i + 1] == c[..i] + [c[i]];
    SumRowsAppend(c[..i], c[i], items);
    LoadBuffersAppend(b, c[..i], c[i], items);
  }

  /** The two ways the worker's loop goes on: it stops at the first FALSE, or
      it takes the returned record and drains on from the new state. */
  lemma DrainAllStops(b: Buffers, source: Store<Rows>, target: Store<Rows>)
    requires source.Valid() && target.Valid()
    requires NextOperation(CreateList(source, target), b, source, target).result.None?
    ensures var s := NextOperation(CreateList(source, target), b, source, target);
      DrainAll(b, source, target) == Drained([], s.buffers, s.source, s.target)
  {
  }

  lemma DrainAllContinues(b: Buffers, source: Store<Rows>, target: Store<Rows>)
    requires source.Valid() && target.Valid()
    requires NextOperation(CreateList(source, target), b, source, target).result.Some?
    ensures var s := NextOperation(CreateList(source, target), b, source, target);
      var d := DrainAll(s.buffers, s.source, s.target);
      DrainAll(b, source, target) == Drained([s.result.value] + d.records, d.buffers, d.source, d.target)
  {
  }
}
