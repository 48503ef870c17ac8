/** What repeated drain calls do, proved once for all inputs: which records
    come out, in which order, and where every item ends up. */
module ImportDrain {
  import opened Wrappers
  import opened Storage
  import opened Changelist
  import opened ImportMapping
  import opened ImportEngine

  /** The rows of an item before its first row that has no usable INVREF. */
  function ImportablePrefix(rows: Rows): (p: Rows)
    ensures |p| <= |rows| && p == rows[..|p|]
    ensures forall i :: 0 <= i < |p| ==> IsImportable(p[i])
    ensures |p| < |rows| ==> !IsImportable(rows[|p|])
  {
    if rows == [] || !IsImportable(rows[0]) then []
    else [rows[0]] + ImportablePrefix(rows[1..])
  }

  lemma {:induction false} RecordsAppend(rows: Rows, more: Rows)
    ensures Records(rows + more) == Records(rows) + Records(more)
  {
    if rows != [] {
      assert (rows + more)[1..] == rows[1..] + more;
      RecordsAppend(rows[1..], more);
    }
  }

  /** The payloads `mapInvoice()` makes of the given rows. */
  function Records(rows: Rows): (r: seq<Payload>)
    ensures |r| == |rows|
    ensures forall i :: 0 <= i < |rows| ==> r[i] == MapInvoice(Some(rows[i]))
  {
    if rows == [] then [] else [MapInvoice(Some(rows[0]))] + Records(rows[1..])
  }

  /** The records still to come from the given buffers: for each pending item
      in order, the records of its buffered rows up to its first row without
      a reference. */
  function Expected(pending: seq<string>, b: Buffers): seq<Payload> {
    if pending == [] then []
    else Records(ImportablePrefix(Buffer(b, pending[0]))) + Expected(pending[1..], b)
  }

  /** The same, read from the items themselves rather than from buffers. */
  function ImportableRecords(names: seq<string>, items: map<string, Rows>): seq<Payload>
    requires forall n :: n in names ==> n in items
  {
    if names == [] then []
    else Records(ImportablePrefix(items[names[0]])) + ImportableRecords(names[1..], items)
  }

  /** The names the drain walks: distinct, in the source and not yet in the target. */
  ghost predicate PendingIn(pending: seq<string>, source: Store<Rows>, target: Store<Rows>) {
    Distinct(pending) && forall n :: n in pending ==> n in source.items && n !in target.items
  }

  /** An item the source reads as empty has nothing buffered. (The drain never
      archives such an item, so it stays in every later changelist, and later
      calls could still return its buffered rows after its first row without
      a reference, rows that Expected does not count.) */
  ghost predicate Drainable(pending: seq<string>, b: Buffers, source: Store<Rows>) {
    forall n :: n in pending ==> n in source.items && (source.items[n] == [] ==> Buffer(b, n) == [])
  }

  /** Item `n` of `source` after a drain step: untouched in the source, or moved
      whole to the target. */
  ghost predicate Kept(n: string, source: Store<Rows>, source': Store<Rows>, target': Store<Rows>)
    requires n in source.items
  {
    || (n in source'.items && source'.items[n] == source.items[n])
    || (n !in source'.items && n in target'.items && target'.items[n] == source.items[n] && source.items[n] != [])
  }

  /** From (source, target) to (source', target'): only names in `pending`
      left the source, each moved whole to the target, and nothing the target
      held before was lost or changed. */
  ghost predicate Conserves(pending: seq<string>, source: Store<Rows>, target: Store<Rows>,
                            source': Store<Rows>, target': Store<Rows>)
  {
    && source'.items.Keys <= source.items.Keys
    && (forall n :: n in source.items ==> Kept(n, source, source', target'))
    && (forall n :: n in source.items && n !in source'.items ==> n in pending)
    && (forall n :: n in target.items ==> n in target'.items && target'.items[n] == target.items[n])
    && target'.items.Keys <= target.items.Keys + (source.items.Keys - source'.items.Keys)
  }

  /** Moving the first pending item and then conserving over the rest conserves
      over the whole list. */
  lemma ConservesAfterArchive(pending: seq<string>, source: Store<Rows>, target: Store<Rows>,
                              s1: Store<Rows>, t1: Store<Rows>, source': Store<Rows>, target': Store<Rows>)
    requires pending != [] && pending[0] in source.items && source.items[pending[0]] != []
    requires s1.items == source.items - {pending[0]}
    requires t1.items == target.items[pending[0] := source.items[pending[0]]]
    requires pending[0] !in target.items
    requires Conserves(pending[1..], s1, t1, source', target')
    ensures Conserves(pending, source, target, source', target')
  {
    var name := pending[0];
    forall n | n in source.items
      ensures Kept(n, source, source', target')
    {
      if n == name {
        assert n in t1.items;
      } else {
        assert Kept(n, s1, source', target');
      }
    }
  }

  /** One drain call moves only pending items, moves each one whole, and loses
      nothing from either storage. */
  lemma {:induction false} NextOperationStorage(pending: seq<string>, b: Buffers, source: Store<Rows>, target: Store<Rows>)
    requires source.Valid() && target.Valid()
    requires PendingIn(pending, source, target)
    ensures var s := NextOperation(pending, b, source, target);
      Conserves(pending, source, target, s.source, s.target)
    decreases |pending|, 1
  {
    if pending != [] && MapInvoice(Shift(b, pending[0]).0) == map[] {
      if source.items[pending[0]] != [] {
        StorageByArchive(pending, b, source, target);
      } else {
        assert pending[0] !in pending[1..];
        NextOperationSkips(pending, b, source, target);
        NextOperationStorage(pending[1..], Shift(b, pending[0]).1, source, target);
      }
    }
  }

  /** NextOperationStorage when the first pending item is moved. */
  lemma {:induction false} StorageByArchive(pending: seq<string>, b: Buffers, source: Store<Rows>, target: Store<Rows>)
    requires source.Valid() && target.Valid()
    requires PendingIn(pending, source, target)
    requires pending != [] && MapInvoice(Shift(b, pending[0]).0) == map[] && source.items[pending[0]] != []
    ensures var s := NextOperation(pending, b, source, target);
      Conserves(pending, source, target, s.source, s.target)
    decreases |pending|, 0
  {
    var name, rest := pending[0], pending[1..];
    var b' := Shift(b, name).1;
    NextOperationArchives(pending, b, source, target);
    var source', target' := source.Delete(name), target.Write(name, source.items[name]);
    assert source'.items == source.items - {name};
    assert target'.items == target.items[name := source.items[name]];
    RestAfterArchive(pending, b, source, target, source', target');
    NextOperationStorage(rest, b', source', target');
    var s := NextOperation(rest, b', source', target');
    ConservesAfterArchive(pending, source, target, source', target', s.source, s.target);
  }

  /** One drain call pops only the buffers of pending items. */
  lemma {:induction false} NextOperationBuffers(pending: seq<string>, b: Buffers, source: Store<Rows>, target: Store<Rows>, n: string)
    requires source.Valid() && target.Valid()
    requires n !in pending
    ensures Buffer(NextOperation(pending, b, source, target).buffers, n) == Buffer(b, n)
    decreases |pending|
  {
    if pending != [] {
      var name := pending[0];
      var (row, b') := Shift(b, name);
      if MapInvoice(row) == map[] {
        var data := source.Read(name);
        if data.Some? && data.value != [] {
          NextOperationBuffers(pending[1..], b', source.Delete(name), target.Write(name, data.value), n);
        } else {
          NextOperationBuffers(pending[1..], b', source, target, n);
        }
      }
    }
  }

  /** Moving `name` and then, over the rest, removing the moved names from the
      changelist removes the moved names from the original changelist. */
  lemma ChangelistAfterArchive(source: Store<Rows>, target: Store<Rows>, name: string, keys: set<string>)
    requires source.Valid() && target.Valid()
    requires name in source.items && name !in target.items
    requires keys <= source.items.Keys - {name}
    ensures var source', target' := source.Delete(name), target.Write(name, source.items[name]);
      Filter(CreateList(source', target'), keys) == Filter(CreateList(source, target), keys)
  {
    var source', target' := source.Delete(name), target.Write(name, source.items[name]);
    var c := CreateList(source, target);
    CreateListAfterArchive(source, target, name, source.items[name]);
    assert source'.items.Keys == source.items.Keys - {name};
    FilterFilter(c, source'.items.Keys, keys);
    assert source'.items.Keys * keys == keys;
  }

  /** After one drain call the changelist is the old one without the moved names. */
  lemma {:induction false} NextOperationChangelist(pending: seq<string>, b: Buffers, source: Store<Rows>, target: Store<Rows>)
    requires source.Valid() && target.Valid()
    requires PendingIn(pending, source, target)
    ensures var s := NextOperation(pending, b, source, target);
      CreateList(s.source, s.target) == Filter(CreateList(source, target), s.source.items.Keys)
    decreases |pending|, 1
  {
    if pending == [] || MapInvoice(Shift(b, pending[0]).0) != map[] {
      FilterAll(CreateList(source, target), source.items.Keys);
    } else if source.items[pending[0]] == [] {
      assert PendingIn(pending[1..], source, target) by {
        assert pending == [pending[0]] + pending[1..];
      }
      NextOperationSkips(pending, b, source, target);
      NextOperationChangelist(pending[1..], Shift(b, pending[0]).1, source, target);
    } else {
      ChangelistByArchive(pending, b, source, target);
    }
  }

  /** NextOperationChangelist when the first pending item is moved. */
  lemma {:induction false} ChangelistByArchive(pending: seq<string>, b: Buffers, source: Store<Rows>, target: Store<Rows>)
    requires source.Valid() && target.Valid()
    requires PendingIn(pending, source, target)
    requires pending != [] && MapInvoice(Shift(b, pending[0]).0) == map[] && source.items[pending[0]] != []
    ensures var s := NextOperation(pending, b, source, target);
      CreateList(s.source, s.target) == Filter(CreateList(source, target), s.source.items.Keys)
    decreases |pending|, 0
  {
    var name, rest := pending[0], pending[1..];
    var b' := Shift(b, name).1;
    NextOperationArchives(pending, b, source, target);
    var source', target' := source.Delete(name), target.Write(name, source.items[name]);
    assert source'.items == source.items - {name};
    assert target'.items.Keys == target.items.Keys + {name};
    RestAfterArchive(pending, b, source, target, source', target');
    NextOperationChangelist(rest, b', source', target');
    NextOperationStorage(rest, b', source', target');
    ChangelistAfterArchive(source, target, name, NextOperation(rest, b', source', target').source.items.Keys);
  }

  /** Records still to come depend only on the buffers of the pending items. */
  lemma {:induction false} ExpectedAgree(pending: seq<string>, b1: Buffers, b2: Buffers)
    requires forall n :: n in pending ==> Buffer(b1, n) == Buffer(b2, n)
    ensures Expected(pending, b1) == Expected(pending, b2)
  {
    if pending != [] {
      ExpectedAgree(pending[1..], b1, b2);
    }
  }

  /** What one drain call `s` from buffers `b` over `pending` achieves: it
      returns the first record still to come, or FALSE when no record is to
      come, having then moved every pending item the source reads as
      non-empty; what it leaves to come is the rest, over the pending items
      still in the source. */
  ghost predicate Advances(pending: seq<string>, b: Buffers, source: Store<Rows>, s: Step) {
    && (s.result.None? ==> Expected(pending, b) == [])
    && (s.result.None? ==>
          forall n :: n in pending && n in source.items && source.items[n] != [] ==> n !in s.source.items)
    && (s.result.Some? ==>
          Expected(pending, b) == [s.result.value] + Expected(Filter(pending, s.source.items.Keys), s.buffers))
    && Drainable(Filter(pending, s.source.items.Keys), s.buffers, s.source)
  }

  /** An importable front row contributes the first record of its item. */
  lemma RecordsOfPop(buffer: Rows)
    requires buffer != [] && IsImportable(buffer[0])
    ensures Records(ImportablePrefix(buffer)) == [MapInvoice(Some(buffer[0]))] + Records(ImportablePrefix(buffer[1..]))
  {
    assert ImportablePrefix(buffer) == [buffer[0]] + ImportablePrefix(buffer[1..]);
    RecordsAppend([buffer[0]], ImportablePrefix(buffer[1..]));
  }

  /** Popping an importable front row takes exactly its record off what is to come. */
  lemma ExpectedAfterPop(pending: seq<string>, b: Buffers)
    requires pending != [] && Distinct(pending)
    requires MapInvoice(Shift(b, pending[0]).0) != map[]
    ensures Expected(pending, b) == [MapInvoice(Shift(b, pending[0]).0)] + Expected(pending, Shift(b, pending[0]).1)
  {
    var name, rest := pending[0], pending[1..];
    var (row, b') := Shift(b, name);
    var buffer := Buffer(b, name);
    assert Buffer(b', name) == buffer[1..];
    ExpectedAgree(rest, b, b');
    var head, tail, later := [MapInvoice(row)], Records(ImportablePrefix(buffer[1..])), Expected(rest, b');
    RecordsOfPop(buffer);
    assert Expected(pending, b) == (head + tail) + later;
    assert Expected(pending, b') == tail + later;
    ConcatAssoc(head, tail, later);
  }

  /** The front row of the first pending item is importable: it is returned. */
  lemma AdvancesByPop(pending: seq<string>, b: Buffers, source: Store<Rows>, target: Store<Rows>)
    requires source.Valid() && target.Valid()
    requires PendingIn(pending, source, target) && Drainable(pending, b, source)
    requires pending != [] && MapInvoice(Shift(b, pending[0]).0) != map[]
    ensures Advances(pending, b, source, NextOperation(pending, b, source, target))
  {
    var name := pending[0];
    var (row, b') := Shift(b, name);
    assert NextOperation(pending, b, source, target) == Step(Some(MapInvoice(row)), b', source, target);
    ExpectedAfterPop(pending, b);
    FilterAll(pending, source.items.Keys);
    assert Drainable(pending, b', source);
  }

  /** Popping a row that maps to nothing takes nothing off what is to come. */
  lemma ExpectedAfterSkip(pending: seq<string>, b: Buffers)
    requires pending != [] && Distinct(pending)
    requires MapInvoice(Shift(b, pending[0]).0) == map[]
    ensures Expected(pending, b) == Expected(pending[1..], Shift(b, pending[0]).1)
  {
    var name, rest := pending[0], pending[1..];
    assert pending == [name] + rest;
    assert name !in rest;
    assert ImportablePrefix(Buffer(b, name)) == [];
    ExpectedAgree(rest, b, Shift(b, name).1);
  }

  /** The first pending item is done and the source reads it as non-empty: it
      is moved, and the walk goes on over the rest. */
  lemma AdvancesByArchive(pending: seq<string>, b: Buffers, source: Store<Rows>, source': Store<Rows>, s: Step)
    requires Distinct(pending) && forall n :: n in pending ==> n in source.items
    requires pending != [] && MapInvoice(Shift(b, pending[0]).0) == map[]
    requires source.items[pending[0]] != []
    requires source'.items == source.items - {pending[0]}
    requires s.source.items.Keys <= source'.items.Keys
    requires Advances(pending[1..], Shift(b, pending[0]).1, source', s)
    ensures Advances(pending, b, source, s)
  {
    var name, rest := pending[0], pending[1..];
    assert pending == [name] + rest;
    ExpectedAfterSkip(pending, b);
    var keys := s.source.items.Keys;
    assert Filter(pending, keys) == Filter(rest, keys);
    assert name !in rest;
  }

  /** The first pending item is done but the source reads it as empty: it
      stays where it is, and the walk goes on over the rest. */
  lemma AdvancesPastEmpty(pending: seq<string>, b: Buffers, source: Store<Rows>, target: Store<Rows>, s: Step)
    requires source.Valid() && target.Valid()
    requires PendingIn(pending, source, target) && Drainable(pending, b, source)
    requires pending != [] && source.items[pending[0]] == []
    requires s == NextOperation(pending[1..], b, source, target)
    requires Advances(pending[1..], b, source, s)
    requires pending[0] in s.source.items && s.source.items[pending[0]] == []
    requires Buffer(s.buffers, pending[0]) == []
    ensures Advances(pending, b, source, s)
  {
    var name, rest := pending[0], pending[1..];
    assert pending == [name] + rest;
    assert Shift(b, name) == (None, b);
    ExpectedAfterSkip(pending, b);
    var kept := Filter(rest, s.source.items.Keys);
    assert Filter(pending, s.source.items.Keys) == [name] + kept;
    assert ([name] + kept)[1..] == kept;
    assert Expected([name] + kept, s.buffers) == Expected(kept, s.buffers);
  }

  /** Every drain call advances. */
  lemma {:induction false} NextOperationAdvances(pending: seq<string>, b: Buffers, source: Store<Rows>, target: Store<Rows>)
    requires source.Valid() && target.Valid()
    requires PendingIn(pending, source, target) && Drainable(pending, b, source)
    ensures Advances(pending, b, source, NextOperation(pending, b, source, target))
    decreases |pending|, 1
  {
    if pending != [] {
      if MapInvoice(Shift(b, pending[0]).0) != map[] {
        AdvancesByPop(pending, b, source, target);
      } else if source.items[pending[0]] != [] {
        ArchiveAdvances(pending, b, source, target);
      } else {
        SkipAdvances(pending, b, source, target);
      }
    }
  }

  /** NextOperationAdvances when the first pending item is moved. */
  lemma {:induction false} ArchiveAdvances(pending: seq<string>, b: Buffers, source: Store<Rows>, target: Store<Rows>)
    requires source.Valid() && target.Valid()
    requires PendingIn(pending, source, target) && Drainable(pending, b, source)
    requires pending != [] && MapInvoice(Shift(b, pending[0]).0) == map[] && source.items[pending[0]] != []
    ensures Advances(pending, b, source, NextOperation(pending, b, source, target))
    decreases |pending|, 0
  {
    var name, rest := pending[0], pending[1..];
    var b' := Shift(b, name).1;
    NextOperationArchives(pending, b, source, target);
    var source', target' := source.Delete(name), target.Write(name, source.items[name]);
    assert source'.items == source.items - {name};
    assert target'.items.Keys == target.items.Keys + {name};
    RestAfterArchive(pending, b, source, target, source', target');
    NextOperationAdvances(rest, b', source', target');
    NextOperationStorage(rest, b', source', target');
    AdvancesByArchive(pending, b, source, source', NextOperation(rest, b', source', target'));
  }

  /** After the first pending item is moved, the rest of the list still meets
      the step lemmas' requirements. */
  lemma RestAfterArchive(pending: seq<string>, b: Buffers, source: Store<Rows>, target: Store<Rows>,
                         source': Store<Rows>, target': Store<Rows>)
    requires PendingIn(pending, source, target)
    requires pending != []
    requires source'.items == source.items - {pending[0]}
    requires target'.items.Keys == target.items.Keys + {pending[0]}
    ensures PendingIn(pending[1..], source', target')
    ensures Drainable(pending, b, source) ==> Drainable(pending[1..], Shift(b, pending[0]).1, source')
  {
    var name, rest := pending[0], pending[1..];
    assert name !in rest;
    assert forall n :: n in rest ==> Buffer(Shift(b, name).1, n) == Buffer(b, n);
  }

  /** NextOperationAdvances when the first pending item is left in place. */
  lemma {:induction false} SkipAdvances(pending: seq<string>, b: Buffers, source: Store<Rows>, target: Store<Rows>)
    requires source.Valid() && target.Valid()
    requires PendingIn(pending, source, target) && Drainable(pending, b, source)
    requires pending != [] && MapInvoice(Shift(b, pending[0]).0) == map[] && source.items[pending[0]] == []
    ensures Advances(pending, b, source, NextOperation(pending, b, source, target))
    decreases |pending|, 0
  {
    var name, rest := pending[0], pending[1..];
    assert Shift(b, name).1 == b;
    NextOperationSkips(pending, b, source, target);
    assert PendingIn(rest, source, target) && Drainable(rest, b, source) by {
      assert pending == [name] + rest;
      assert name !in rest;
    }
    NextOperationAdvances(rest, b, source, target);
    NextOperationStorage(rest, b, source, target);
    NextOperationBuffers(rest, b, source, target, name);
    var s := NextOperation(rest, b, source, target);
    assert Kept(name, source, s.source, s.target);
    AdvancesPastEmpty(pending, b, source, target, s);
  }

  /** The drain step's changelist, as the fresh snapshot gives it, meets the
      requirements of the step lemmas. */
  lemma CreateListPending(source: Store<Rows>, target: Store<Rows>)
    requires source.Valid()
    ensures PendingIn(CreateList(source, target), source, target)
  {
    CreateListDistinct(source, target);
  }

  /** Conserving is transitive along a shrinking changelist. */
  lemma ConservesTrans(pending: seq<string>, pending': seq<string>,
                       s0: Store<Rows>, t0: Store<Rows>, s1: Store<Rows>, t1: Store<Rows>, s2: Store<Rows>, t2: Store<Rows>)
    requires forall n :: n in pending' ==> n in pending
    requires Conserves(pending, s0, t0, s1, t1)
    requires Conserves(pending', s1, t1, s2, t2)
    ensures Conserves(pending, s0, t0, s2, t2)
  {
    forall n | n in s0.items
      ensures Kept(n, s0, s2, t2)
    {
      if n in s1.items && s1.items[n] == s0.items[n] {
        assert Kept(n, s1, s2, t2);
      }
    }
  }

  /** Calling the drain until FALSE returns, in order, the records still to
      come from the buffers over the first changelist. */
  lemma {:induction false} DrainAllRecords(b: Buffers, source: Store<Rows>, target: Store<Rows>)
    requires source.Valid() && target.Valid()
    requires Drainable(CreateList(source, target), b, source)
    ensures DrainAll(b, source, target).records == Expected(CreateList(source, target), b)
    decreases BufferedRows(b)
  {
    var pending := CreateList(source, target);
    CreateListPending(source, target);
    NextOperationAdvances(pending, b, source, target);
    var s := NextOperation(pending, b, source, target);
    if s.result.Some? {
      NextOperationShrinks(pending, b, source, target);
      NextOperationChangelist(pending, b, source, target);
      DrainAllRecords(s.buffers, s.source, s.target);
    }
  }

  /** Where the items of the first changelist end up once the drain returns
      FALSE: each item the source reads as non-empty has left the source and
      is held by the target with the same rows; every other source item is
      untouched, and the target keeps everything it held. */
  ghost predicate Archived(pending: seq<string>, source: Store<Rows>, target: Store<Rows>,
                           source': Store<Rows>, target': Store<Rows>)
    requires forall n :: n in pending ==> n in source.items
  {
    && Conserves(pending, source, target, source', target')
    && forall n :: n in pending && source.items[n] != [] ==> n !in source'.items
  }

  lemma {:induction false} DrainAllStorage(b: Buffers, source: Store<Rows>, target: Store<Rows>)
    requires source.Valid() && target.Valid()
    requires Drainable(CreateList(source, target), b, source)
    ensures var d := DrainAll(b, source, target);
      Archived(CreateList(source, target), source, target, d.source, d.target)
    decreases BufferedRows(b)
  {
    var pending := CreateList(source, target);
    CreateListPending(source, target);
    NextOperationAdvances(pending, b, source, target);
    NextOperationStorage(pending, b, source, target);
    var s := NextOperation(pending, b, source, target);
    if s.result.Some? {
      NextOperationShrinks(pending, b, source, target);
      NextOperationChangelist(pending, b, source, target);
      DrainAllStorage(s.buffers, s.source, s.target);
      ArchivedAfterStep(pending, source, target, s, DrainAll(s.buffers, s.source, s.target));
    }
  }

  /** One drain call followed by the rest of the drain archives the whole changelist. */
  lemma ArchivedAfterStep(pending: seq<string>, source: Store<Rows>, target: Store<Rows>, s: Step, d: Drained)
    requires forall n :: n in pending ==> n in source.items
    requires Conserves(pending, source, target, s.source, s.target)
    requires Archived(Filter(pending, s.source.items.Keys), s.source, s.target, d.source, d.target)
    ensures Archived(pending, source, target, d.source, d.target)
  {
    var pending' := Filter(pending, s.source.items.Keys);
    ConservesTrans(pending, pending', source, target, s.source, s.target, d.source, d.target);
    forall n | n in pending && source.items[n] != []
      ensures n !in d.source.items
    {
      if n in s.source.items {
        assert Kept(n, source, s.source, s.target);
        assert n in pending';
      }
    }
  }

  /** Buffers holding each listed item's rows yield exactly the records of
      the items' importable prefixes. */
  lemma {:induction false} ExpectedFromItems(names: seq<string>, b: Buffers, items: map<string, Rows>)
    requires forall n :: n in names ==> n in items && Buffer(b, n) == items[n]
    ensures Expected(names, b) == ImportableRecords(names, items)
  {
    if names != [] {
      ExpectedFromItems(names[1..], b, items);
    }
  }

  /** The worker's run, from buffers just loaded with the changelist's items:
      the records are those of each item's importable prefix, changelist order
      first, row order within an item, and the items end up archived. */
  lemma DrainFromLoaded(b: Buffers, source: Store<Rows>, target: Store<Rows>)
    requires source.Valid() && target.Valid()
    ensures var c := CreateList(source, target);
      var d := DrainAll(LoadBuffers(b, c, source.items), source, target);
      && d.records == ImportableRecords(c, source.items)
      && Archived(c, source, target, d.source, d.target)
  {
    var c := CreateList(source, target);
    var loaded := LoadBuffers(b, c, source.items);
    assert Drainable(c, loaded, source);
    ExpectedFromItems(c, loaded, source.items);
    DrainAllRecords(loaded, source, target);
    DrainAllStorage(loaded, source, target);
  }

  /** Once the drain has returned FALSE, the only items still waiting in the
      changelist are items the source reads as empty. */
  lemma DrainLeavesOnlyEmpty(source: Store<Rows>, target: Store<Rows>, source': Store<Rows>, target': Store<Rows>)
    requires source.Valid() && target.Valid()
    requires Archived(CreateList(source, target), source, target, source', target')
    ensures forall n :: n in CreateList(source', target') ==> source'.items[n] == []
  {
    forall n | n in CreateList(source', target')
      ensures source'.items[n] == []
    {
      assert n in source.items && n !in target.items;
      assert Kept(n, source, source', target');
    }
  }
}
