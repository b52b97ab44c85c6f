/** The storage the fragment model delegates to (the `./data` module): a
    metadata store and a data store, two keyspaces addressed by the same
    (ownerId, id) pair. A read of an absent key yields None, never an error;
    a write replaces what was stored under its key. */
module FragmentData {
  import opened Wrappers

  type Key = (string, string)

  /** A fragment's fields, as the metadata store keeps them. */
  datatype FragmentRecord = FragmentRecord(
    id: string,
    ownerId: string,
    created: string,
    updated: string,
    contentType: string,
    size: nat)
  {
    function Key(): Key { (ownerId, id) }
  }

  /** One element of an owner's listing: an id, or a whole stored record. */
  datatype Entry = IdEntry(id: string) | RecordEntry(record: FragmentRecord)

  /** The key an entry of `ownerId`'s listing stands for. */
  function EntryKey(e: Entry, ownerId: string): Key {
    match e
    case IdEntry(id) => (ownerId, id)
    case RecordEntry(rec) => rec.Key()
  }

  /** The keys a listing stands for. */
  function ListedKeys(xs: seq<Entry>, ownerId: string): set<Key> {
    if xs == [] then {} else ListedKeys(xs[..|xs| - 1], ownerId) + {EntryKey(xs[|xs| - 1], ownerId)}
  }

  /** No two entries of the listing stand for the same key. */
  predicate DistinctKeys(xs: seq<Entry>, ownerId: string) {
    forall i, j :: 0 <= i < j < |xs| ==> EntryKey(xs[i], ownerId) != EntryKey(xs[j], ownerId)
  }

  class Store {
    var meta: map<Key, FragmentRecord>
    var data: map<Key, seq<bv8>>

    /** Every record is stored under its own (ownerId, id). */
    ghost predicate Keyed()
      reads this
    {
      forall k :: k in meta ==> meta[k].Key() == k
    }

    /** The keys of the metadata records that belong to `ownerId`. */
    function OwnerKeys(ownerId: string): set<Key>
      reads this
    {
      set k | k in meta && k.0 == ownerId
    }

    /** What the listing shows of the record under `k`. */
    function EntryFor(k: Key, expand: bool): Entry
      reads this
      requires k in meta
    {
      if expand then RecordEntry(meta[k]) else IdEntry(k.1)
    }

    /** `xs` lists each of `ownerId`'s records once, as an id or in full. */
    ghost predicate IsListing(xs: seq<Entry>, ownerId: string, expand: bool)
      reads this
    {
      && ListedKeys(xs, ownerId) == OwnerKeys(ownerId)
      && DistinctKeys(xs, ownerId)
      && forall i :: 0 <= i < |xs| ==>
           EntryKey(xs[i], ownerId) in meta && xs[i] == EntryFor(EntryKey(xs[i], ownerId), expand)
    }

    /** `xs` lists the owner's keys outside `pending`, each once. */
    ghost predicate Progress(xs: seq<Entry>, pending: set<Key>, ownerId: string, expand: bool)
      reads this
    {
      && ListedKeys(xs, ownerId) == OwnerKeys(ownerId) - pending
      && |xs| + |pending| == |OwnerKeys(ownerId)|
      && DistinctKeys(xs, ownerId)
      && forall i :: 0 <= i < |xs| ==>
           EntryKey(xs[i], ownerId) in meta && xs[i] == EntryFor(EntryKey(xs[i], ownerId), expand)
    }

    lemma ProgressStep(xs: seq<Entry>, pending: set<Key>, ownerId: string, expand: bool, k: Key)
      requires Keyed() && pending <= OwnerKeys(ownerId) && k in pending
      requires Progress(xs, pending, ownerId, expand)
      ensures Progress(xs + [EntryFor(k, expand)], pending - {k}, ownerId, expand)
    {
      var e := EntryFor(k, expand);
      var ys := xs + [e];
      assert EntryKey(e, ownerId) == k;
      AppendEntry(xs, e, ownerId);
      assert OwnerKeys(ownerId) - pending + {k} == OwnerKeys(ownerId) - (pending - {k});
      assert |pending - {k}| == |pending| - 1;
      forall i | 0 <= i < |ys|
        ensures EntryKey(ys[i], ownerId) in meta && ys[i] == EntryFor(EntryKey(ys[i], ownerId), expand)
      {
        if i < |xs| { assert ys[i] == xs[i]; }
      }
    }

    constructor ()
      ensures meta == map[] && data == map[]
    {
      meta := map[];
      data := map[];
    }

    /** `writeFragment(fragment)`: store the record under its own key. */
    method WriteFragment(rec: FragmentRecord)
      modifies this`meta
      ensures meta == old(meta)[rec.Key() := rec]
    {
      meta := meta[rec.Key() := rec];
    }

    /** `readFragment(ownerId, id)`. */
    method ReadFragment(ownerId: string, id: string) returns (r: Option<FragmentRecord>)
      ensures r.Some? <==> (ownerId, id) in meta
      ensures r.Some? ==> r.value == meta[(ownerId, id)]
    {
      r := Get(meta, (ownerId, id));
    }

    /** `writeFragmentData(ownerId, id, data)`. */
    method WriteFragmentData(ownerId: string, id: string, bytes: seq<bv8>)
      modifies this`data
      ensures data == old(data)[(ownerId, id) := bytes]
    {
      data := data[(ownerId, id) := bytes];
    }

    /** `readFragmentData(ownerId, id)`. */
    method ReadFragmentData(ownerId: string, id: string) returns (r: Option<seq<bv8>>)
      ensures r.Some? <==> (ownerId, id) in data
      ensures r.Some? ==> r.value == data[(ownerId, id)]
    {
      r := Get(data, (ownerId, id));
    }

    /** `deleteFragment(ownerId, id)`: remove the key from both stores; an
        absent key is no error. */
    method DeleteFragment(ownerId: string, id: string)
      modifies this
      ensures meta == old(meta) - {(ownerId, id)}
      ensures data == old(data) - {(ownerId, id)}
    {
      meta := meta - {(ownerId, id)};
      data := data - {(ownerId, id)};
    }

    /** `listFragments(ownerId, expand)`: the owner's ids, or their records
        when `expand` is set, each once, in no particular order. */
    method ListFragments(ownerId: string, expand: bool) returns (r: Option<seq<Entry>>)
      requires Keyed()
      ensures r.Some? && IsListing(r.value, ownerId, expand)
      ensures |r.value| == |OwnerKeys(ownerId)|
    {
      var owned := OwnerKeys(ownerId);
      var pending := owned;
      var out: seq<Entry> := [];
      while pending != {}
        invariant pending <= owned
        invariant Progress(out, pending, ownerId, expand)
        decreases pending
      {
        var k :| k in pending;
        var e := EntryFor(k, expand);
        ProgressStep(out, pending, ownerId, expand, k);
        out := out + [e];
        pending := pending - {k};
      }
      assert ListedKeys(out, ownerId) == OwnerKeys(ownerId);
      r := Some(out);
    }
  }

  lemma AppendEntry(xs: seq<Entry>, e: Entry, ownerId: string)
    requires DistinctKeys(xs, ownerId) && EntryKey(e, ownerId) !in ListedKeys(xs, ownerId)
    ensures ListedKeys(xs + [e], ownerId) == ListedKeys(xs, ownerId) + {EntryKey(e, ownerId)}
    ensures DistinctKeys(xs + [e], ownerId)
  {
    assert (xs + [e])[..|xs|] == xs;
    ListedKeysMember(xs, ownerId);
  }

  lemma ListedKeysMember(xs: seq<Entry>, ownerId: string)
    ensures forall i :: 0 <= i < |xs| ==> EntryKey(xs[i], ownerId) in ListedKeys(xs, ownerId)
    ensures forall k :: k in ListedKeys(xs, ownerId) ==> exists i :: 0 <= i < |xs| && EntryKey(xs[i], ownerId) == k
  {
    if xs != [] {
      ListedKeysMember(xs[..|xs| - 1], ownerId);
    }
  }
}
