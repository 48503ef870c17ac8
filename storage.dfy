/** Item storages: named collections of items (one CSV file, or one database
    entry, per name) with listAll/read/write/delete. */
module Storage {
  import opened Wrappers

  /** No name occurs twice. */
  predicate Distinct(s: seq<string>) {
    s == [] || (s[0] !in s[1..] && Distinct(s[1..]))
  }

  /** The elements of `s` that are in `keep`, in their order in `s`. */
  function Filter(s: seq<string>, keep: set<string>): (r: seq<string>)
    ensures forall x :: x in r <==> x in s && x in keep
    ensures |r| <= |s|
  {
    if s == [] then []
    else (if s[0] in keep then [s[0]] else []) + Filter(s[1..], keep)
  }

  lemma {:induction false} FilterDistinct(s: seq<string>, keep: set<string>)
    requires Distinct(s)
    ensures Distinct(Filter(s, keep))
  {
    if s != [] {
      FilterDistinct(s[1..], keep);
      var r := Filter(s[1..], keep);
      if s[0] in keep {
        assert s[0] !in r;
        assert Filter(s, keep) == [s[0]] + r;
        assert ([s[0]] + r)[1..] == r;
      } else {
        assert Filter(s, keep) == r;
      }
    }
  }

  lemma {:induction false} DistinctAppend(s: seq<string>, x: string)
    requires Distinct(s) && x !in s
    ensures Distinct(s + [x])
  {
    if s != [] {
      assert (s + [x])[1..] == s[1..] + [x];
      DistinctAppend(s[1..], x);
    }
  }

  /** Filtering twice is filtering by the intersection. */
  lemma {:induction false} FilterFilter(s: seq<string>, a: set<string>, b: set<string>)
    ensures Filter(Filter(s, a), b) == Filter(s, a * b)
  {
    if s != [] {
      FilterFilter(s[1..], a, b);
      if s[0] in a {
        assert Filter(s, a) == [s[0]] + Filter(s[1..], a);
        assert Filter(s, a)[1..] == Filter(s[1..], a);
      } else {
        assert Filter(s, a) == Filter(s[1..], a);
      }
    }
  }

  /** Filtering only looks at the elements of `s`. */
  lemma {:induction false} FilterAgree(s: seq<string>, a: set<string>, b: set<string>)
    requires forall x :: x in s ==> (x in a <==> x in b)
    ensures Filter(s, a) == Filter(s, b)
  {
    if s != [] {
      FilterAgree(s[1..], a, b);
    }
  }

  /** Filtering by a set that holds every element changes nothing. */
  lemma {:induction false} FilterAll(s: seq<string>, keep: set<string>)
    requires forall x :: x in s ==> x in keep
    ensures Filter(s, keep) == s
  {
    if s != [] {
      FilterAll(s[1..], keep);
    }
  }

  /** The contents of a storage: the names in the order `listAll()` gives them,
      and the item stored under each name. */
  datatype Store<V> = Store(names: seq<string>, items: map<string, V>) {

    /** Every stored item is listed exactly once, and only stored items are listed. */
    ghost predicate Valid() {
      Distinct(names) && forall n :: n in items <==> n in names
    }

    /** `read($name)`: the item, or FALSE (None) when there is none. */
    function Read(name: string): (r: Option<V>)
      ensures r.Some? <==> name in items
      ensures r.Some? ==> r.value == items[name]
    {
      if name in items then Some(items[name]) else None
    }

    /** `write($name, $data)`: a new name is listed last, an existing one keeps its place. */
    function Write(name: string, data: V): (r: Store<V>)
      requires Valid()
      ensures r.Valid()
      ensures r.items == items[name := data]
      ensures r.names == if name in items then names else names + [name]
    {
      if name in items then Store(names, items[name := data])
      else
        DistinctAppend(names, name);
        Store(names + [name], items[name := data])
    }

    /** `delete($name)`: absent names are not an error. */
    function Delete(name: string): (r: Store<V>)
      requires Valid()
      ensures r.Valid()
      ensures r.items == items - {name}
      ensures r.names == Filter(names, items.Keys - {name})
    {
      FilterDistinct(names, items.Keys - {name});
      Store(Filter(names, items.Keys - {name}), items - {name})
    }
  }

  /** Reading back: a write is seen by the next read of the same name and by no other. */
  lemma ReadYourWrites<V>(s: Store<V>, name: string, data: V, other: string)
    requires s.Valid()
    ensures s.Write(name, data).Read(name) == Some(data)
    ensures other != name ==> s.Write(name, data).Read(other) == s.Read(other)
    ensures s.Delete(name).Read(name) == None
    ensures other != name ==> s.Delete(name).Read(other) == s.Read(other)
  {
  }

  /** Writing the same data under the same name twice is writing it once. */
  lemma WriteTwice<V>(s: Store<V>, name: string, data: V)
    requires s.Valid()
    ensures s.Write(name, data).Write(name, data) == s.Write(name, data)
  {
  }

  /** A storage object; several components hold the same one. */
  class ItemStorage<V> {
    var store: Store<V>

    constructor (initial: Store<V>)
      requires initial.Valid()
      ensures store == initial
    {
      store := initial;
    }

    method ListAll() returns (names: seq<string>)
      requires store.Valid()
      ensures Distinct(names)
      ensures forall n :: n in names <==> n in store.items
      ensures names == store.names
    {
      names := store.names;
    }

    method Read(name: string) returns (r: Option<V>)
      ensures r == store.Read(name)
    {
      r := store.Read(name);
    }

    method Write(name: string, data: V)
      requires store.Valid()
      modifies this
      ensures store == old(store).Write(name, data)
    {
      store := store.Write(name, data);
    }

    method Delete(name: string)
      requires store.Valid()
      modifies this
      ensures store == old(store).Delete(name)
    {
      store := store.Delete(name);
    }
  }
}
