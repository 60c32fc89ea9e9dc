/**
 * The local database as far as the reconciliation core uses it: a keyed store
 * of tracked remote volumes, enumerated in a fixed order, with point removal
 * and point update. Storage and SQL are not part of this model.
 */
module Database {
  import opened Volumes

  /** No element occurs twice. */
  ghost predicate Distinct<T>(s: seq<T>)
  {
    forall i, j :: 0 <= i < j < |s| ==> s[i] != s[j]
  }

  /** `o` with every occurrence of `n` dropped, order kept. */
  function Without(o: seq<string>, n: string): (r: seq<string>)
    ensures forall x :: x in r <==> x in o && x != n
    ensures Distinct(o) ==> Distinct(r)
    ensures |r| <= |o|
  {
    if o == [] then []
    else
      var rest := Without(o[1..], n);
      assert Distinct(o) ==> o[0] !in o[1..];
      if o[0] == n then rest else [o[0]] + rest
  }

  /** `o` restricted to the names in `keys`, order kept. */
  function Restrict(o: seq<string>, keys: set<string>): (r: seq<string>)
    ensures forall x :: x in r <==> x in o && x in keys
  {
    if o == [] then []
    else
      var rest := Restrict(o[1..], keys);
      if o[0] in keys then [o[0]] + rest else rest
  }

  lemma {:induction false} WithoutRestrict(o: seq<string>, keys: set<string>, n: string)
    ensures Without(Restrict(o, keys), n) == Restrict(o, keys - {n})
  {
    if o != [] {
      WithoutRestrict(o[1..], keys, n);
      if o[0] in keys {
        assert ([o[0]] + Restrict(o[1..], keys))[1..] == Restrict(o[1..], keys);
      }
    }
  }

  lemma {:induction false} RestrictAll(o: seq<string>, keys: set<string>)
    requires forall i :: 0 <= i < |o| ==> o[i] in keys
    ensures Restrict(o, keys) == o
  {
    if o != [] {
      RestrictAll(o[1..], keys);
    }
  }

  /** The records of `recs` named by `o`, in the order of `o`. */
  function EntriesOf(o: seq<string>, recs: map<string, RemoteVolumeEntry>): (es: seq<RemoteVolumeEntry>)
    requires forall x :: x in o ==> x in recs
    ensures |es| == |o|
    ensures forall i :: 0 <= i < |o| ==> es[i] == recs[o[i]]
  {
    if o == [] then [] else [recs[o[0]]] + EntriesOf(o[1..], recs)
  }

  /** A value snapshot of the tracked remote volumes: the records keyed by
      name and the order in which the database enumerates them. */
  datatype Store = Store(records: map<string, RemoteVolumeEntry>, order: seq<string>)
  {
    /** Every record is filed under its own name and enumerated exactly once. */
    ghost predicate WellFormed()
    {
      && (forall k :: k in records ==> records[k].name == k)
      && Distinct(order)
      && (forall k :: k in order ==> k in records)
      && (forall k :: k in records ==> k in order)
    }

    /** The enumeration the database hands out, one entry per tracked name. */
    function Entries(): (es: seq<RemoteVolumeEntry>)
      requires WellFormed()
      ensures |es| == |order|
      ensures forall i :: 0 <= i < |es| ==> es[i] == records[order[i]] && es[i].name == order[i]
    {
      EntriesOf(order, records)
    }

    /** No name is enumerated twice. */
    lemma EntriesHaveDistinctNames()
      requires WellFormed()
      ensures forall i, j :: 0 <= i < j < |Entries()| ==> Entries()[i].name != Entries()[j].name
    {
    }

    /** Deleting the row named `n`; deleting an absent name changes nothing. */
    function Remove(n: string): (st: Store)
      ensures st.records == records - {n}
      ensures WellFormed() ==> st.WellFormed()
      ensures WellFormed() ==> st.order == Restrict(order, records.Keys - {n})
    {
      WithoutKeepsOrder(n);
      Store(records - {n}, Without(order, n))
    }

    /** On a well-formed store, dropping `n` from the enumeration keeps the
        other names in their order. */
    lemma WithoutKeepsOrder(n: string)
      ensures WellFormed() ==> Without(order, n) == Restrict(order, records.Keys - {n})
    {
      if WellFormed() {
        RestrictAll(order, records.Keys);
        WithoutRestrict(order, records.Keys, n);
      }
    }

    /** Overwriting state, size and hash of the row named `n`, if there is one. */
    function Update(n: string, state: RemoteVolumeState, size: int, hash: string): (st: Store)
      ensures st.order == order && st.records.Keys == records.Keys
      ensures n in records ==> st.records == records[n := RemoteVolumeEntry(n, state, size, hash)]
      ensures n !in records ==> st == this
      ensures WellFormed() ==> st.WellFormed()
    {
      if n in records then Store(records[n := RemoteVolumeEntry(n, state, size, hash)], order) else this
    }
  }

  /** The database handle the core reads and mutates in place. */
  class LocalDatabase {
    var records: map<string, RemoteVolumeEntry>
    var order: seq<string>

    function View(): Store
      reads this
    {
      Store(records, order)
    }

    ghost predicate Valid()
      reads this
    {
      View().WellFormed()
    }

    constructor (st: Store)
      requires st.WellFormed()
      ensures Valid() && View() == st
    {
      records := st.records;
      order := st.order;
    }

    /** The tracked remote volumes in enumeration order. */
    method GetRemoteVolumes() returns (es: seq<RemoteVolumeEntry>)
      requires Valid()
      ensures es == View().Entries()
    {
      es := [];
      for i := 0 to |order|
        invariant es == View().Entries()[..i]
      {
        es := es + [records[order[i]]];
      }
    }

    method RemoveRemoteVolume(name: string)
      requires Valid()
      modifies this
      ensures Valid() && View() == old(View()).Remove(name)
    {
      var st := View().Remove(name);
      records, order := st.records, st.order;
    }

    method UpdateRemoteVolume(name: string, state: RemoteVolumeState, size: int, hash: string)
      requires Valid()
      modifies this
      ensures Valid() && View() == old(View()).Update(name, state, size, hash)
    {
      var st := View().Update(name, state, size, hash);
      records, order := st.records, st.order;
    }
  }
}
