/** The part of the storage comparer the import flow uses: the `create`
    category of the changelist between the source and the archive (target).

    The comparer itself is not part of this model. Its `create` list is taken
    to be the names the source lists that the target does not hold, in the
    source's listing order; this is an assumption about the comparer, not
    something the invoice code states. */
module Changelist {
  import opened Storage

  /** `getChangelist('create')` on a fresh snapshot of `source` and `target`. */
  function CreateList<V>(source: Store<V>, target: Store<V>): (c: seq<string>)
    ensures forall n :: n in c ==> n in source.items && n !in target.items
    ensures source.Valid() ==> forall n :: n in source.items && n !in target.items ==> n in c
  {
    Filter(source.names, source.items.Keys - target.items.Keys)
  }

  lemma CreateListDistinct<V>(source: Store<V>, target: Store<V>)
    requires source.Valid()
    ensures Distinct(CreateList(source, target))
  {
    FilterDistinct(source.names, source.items.Keys - target.items.Keys);
  }

  /** `hasChanges()`, restricted to the category the import flow reads. */
  predicate HasChanges<V>(source: Store<V>, target: Store<V>) {
    CreateList(source, target) != []
  }

  /** Archiving one pending item (copying it to the target and deleting it from
      the source) removes exactly that name from the next changelist, and keeps
      the order of the others. */
  lemma {:induction false} CreateListAfterArchive<V>(source: Store<V>, target: Store<V>, name: string, data: V)
    requires source.Valid() && target.Valid()
    requires name in source.items && name !in target.items
    ensures CreateList(source.Delete(name), target.Write(name, data))
         == Filter(CreateList(source, target), source.items.Keys - {name})
  {
    var source', target' := source.Delete(name), target.Write(name, data);
    assert source'.names == Filter(source.names, source.items.Keys - {name});
    assert source'.items.Keys == source.items.Keys - {name};
    assert target'.items.Keys == target.items.Keys + {name};
    FilterArchive(source.names, source.items.Keys, target.items.Keys, name);
  }

  /** CreateListAfterArchive on the names alone. */
  lemma FilterArchive(n: seq<string>, k: set<string>, t: set<string>, name: string)
    ensures Filter(Filter(n, k - {name}), (k - {name}) - (t + {name}))
         == Filter(Filter(n, k - t), k - {name})
  {
    var a := (k - {name}) - (t + {name});
    FilterFilter(n, k - {name}, a);
    FilterFilter(n, k - t, k - {name});
    assert (k - {name}) * a == (k - t) * (k - {name});
  }
}
