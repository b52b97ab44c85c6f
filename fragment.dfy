/** The Fragment entity: construction-time validation, the getters derived
    from its type, and the persistence operations over the two stores. */
module Fragments {
  import opened Wrappers
  import opened FragmentErrors
  import FragmentType
  import ContentType
  import opened FragmentData

  /** A clock reading (`new Date().toISOString()`): never empty. */
  type Timestamp = s: string | s != "" witness "1970-01-01T00:00:00.000Z"

  /** A generated id (`randomUUID()`): never empty. */
  type FreshId = s: string | s != "" witness "00000000-0000-0000-0000-000000000000"

  /** The `size` argument: left out (it defaults to 0), a JavaScript
      number, or any other kind of value. */
  datatype SizeArg = Omitted | Number(x: real) | NotANumber

  /** The object the constructor destructures; None is `undefined`. */
  datatype Args = Args(
    id: Option<string>,
    ownerId: Option<string>,
    created: Option<string>,
    updated: Option<string>,
    contentType: Option<string>,
    size: SizeArg)

  /** JavaScript's `v || fallback` on an optional string. */
  function OrElse(v: Option<string>, fallback: string): string {
    if v.Some? && v.value != "" then v.value else fallback
  }

  /** The size check: a non-negative integral number, or 0 when omitted. */
  function CheckedSize(size: SizeArg): (r: Option<nat>)
    ensures size.Omitted? ==> r == Some(0)
    ensures size.NotANumber? ==> r.None?
    ensures size.Number? ==> (r.Some? <==> size.x >= 0.0 && size.x == size.x.Floor as real)
    ensures size.Number? && r.Some? ==> r.value as real == size.x
  {
    match size
    case Omitted => Some(0)
    case Number(x) => if x < 0.0 || x.Floor as real != x then None else Some(x.Floor)
    case NotANumber => None
  }

  predicate HasOwner(args: Args) { OrElse(args.ownerId, "") != "" }

  /** The checks of `new Fragment(args)`, in the constructor's order, and the
      fields it sets; `freshId` and `now` stand for `randomUUID()` and the
      clock. */
  function Construct(args: Args, freshId: FreshId, now: Timestamp): Result<FragmentRecord, Error> {
    if !HasOwner(args) then Err(MissingOwner)
    else if OrElse(args.contentType, "") == "" then Err(UnsupportedType(args.contentType))
    else
      var supported := FragmentType.IsSupportedType(args.contentType.value);
      if supported.Err? then Err(supported.error)
      else if !supported.value then Err(UnsupportedType(args.contentType))
      else
        var size := CheckedSize(args.size);
        if size.None? then Err(InvalidSize)
        else
          Ok(FragmentRecord(
            OrElse(args.id, freshId), args.ownerId.value,
            OrElse(args.created, now), OrElse(args.updated, now),
            args.contentType.value, size.value))
  }

  /** A record the constructor accepts and keeps as it is: an owner, a
      supported type and every generated field set. */
  predicate Stable(rec: FragmentRecord) {
    && rec.ownerId != "" && rec.id != "" && rec.created != "" && rec.updated != ""
    && FragmentType.IsSupported(rec.contentType)
  }

  /** The constructor argument a stored record is read back as. */
  function ArgsOf(rec: FragmentRecord): Args {
    Args(Some(rec.id), Some(rec.ownerId), Some(rec.created), Some(rec.updated),
         Some(rec.contentType), Number(rec.size as real))
  }

  /** The store keeps every fragment well formed: each record is under its
      own key, is stable, and its size is the length of the data stored
      beside it. */
  ghost predicate Consistent(store: Store)
    reads store
  {
    && store.Keyed()
    && (forall k :: k in store.meta ==> Stable(store.meta[k]))
    && forall k :: k in store.meta && k in store.data ==> store.meta[k].size == |store.data[k]|
  }

  predicate HasSupportedType(args: Args) {
    OrElse(args.contentType, "") != "" && FragmentType.IsSupported(args.contentType.value)
  }

  /** Construction succeeds exactly when there is an owner, the type is
      supported and the size is valid. The first failing check names the
      error: a missing or unlisted type is UnsupportedType, and an
      unparsable one is the parser's error, escaping `isSupportedType`. */
  lemma ConstructChecks(args: Args, freshId: FreshId, now: Timestamp)
    ensures Construct(args, freshId, now).Ok? <==>
      HasOwner(args) && HasSupportedType(args) && CheckedSize(args.size).Some?
    ensures !HasOwner(args) ==> Construct(args, freshId, now) == Err(MissingOwner)
    ensures HasOwner(args) && OrElse(args.contentType, "") == "" ==>
      Construct(args, freshId, now) == Err(UnsupportedType(args.contentType))
    ensures (HasOwner(args) && OrElse(args.contentType, "") != "" &&
             ContentType.Parse(args.contentType.value).None?) ==>
      Construct(args, freshId, now) == Err(InvalidMediaType(args.contentType.value))
    ensures (HasOwner(args) && OrElse(args.contentType, "") != "" &&
             ContentType.Parse(args.contentType.value).Some? && !FragmentType.IsSupported(args.contentType.value)) ==>
      Construct(args, freshId, now) == Err(UnsupportedType(args.contentType))
    ensures HasOwner(args) && HasSupportedType(args) && CheckedSize(args.size).None? ==>
      Construct(args, freshId, now) == Err(InvalidSize)
  {
  }

  /** On success the given fields are kept verbatim; a missing id is the
      fresh one, missing timestamps are the clock's; the size is the given
      integer, or 0 when omitted. */
  lemma ConstructedFields(args: Args, freshId: FreshId, now: Timestamp)
    requires Construct(args, freshId, now).Ok?
    ensures var rec := Construct(args, freshId, now).value;
      && rec.ownerId == args.ownerId.value
      && rec.contentType == args.contentType.value
      && rec.id == (if args.id.Some? && args.id.value != "" then args.id.value else freshId)
      && rec.created == (if args.created.Some? && args.created.value != "" then args.created.value else now)
      && rec.updated == (if args.updated.Some? && args.updated.value != "" then args.updated.value else now)
      && rec.size as real == (if args.size.Number? then args.size.x else 0.0)
  {
  }

  /** Every constructed fragment is stable. */
  lemma ConstructedIsStable(args: Args, freshId: FreshId, now: Timestamp)
    requires Construct(args, freshId, now).Ok?
    ensures Stable(Construct(args, freshId, now).value)
  {
  }

  /** Reading a stable record back through the constructor gives the same
      record, whatever id and clock the environment offers. */
  lemma ReconstructIsIdentity(rec: FragmentRecord, freshId: FreshId, now: Timestamp)
    requires Stable(rec)
    ensures Construct(ArgsOf(rec), freshId, now) == Ok(rec)
  {
  }

  /** `new Fragment(entry)` on one element of an expanded listing; an id
      where a record was expected is an error. */
  function EntryResult(e: Entry, freshId: FreshId, now: Timestamp): Result<FragmentRecord, Error> {
    match e
    case IdEntry(id) => Err(MalformedEntry(id))
    case RecordEntry(rec) => Construct(ArgsOf(rec), freshId, now)
  }

  /** `byUser`'s handling of a listing: an absent listing is empty, an
      unexpanded one is returned as it is, an expanded one has every entry
      rebuilt into a fragment. */
  function ExpandListing(listing: Option<seq<Entry>>, expand: bool, freshId: FreshId, now: Timestamp)
    : (r: Result<seq<Entry>, Error>)
    ensures listing.None? ==> r == Ok([])
    ensures listing.Some? && !expand ==> r == Ok(listing.value)
    ensures listing.Some? && expand ==>
      (r.Ok? <==> forall i :: 0 <= i < |listing.value| ==> EntryResult(listing.value[i], freshId, now).Ok?)
    ensures listing.Some? && expand && r.Ok? ==>
      |r.value| == |listing.value| &&
      forall i :: 0 <= i < |r.value| ==>
        r.value[i] == RecordEntry(EntryResult(listing.value[i], freshId, now).value) && Stable(r.value[i].record)
  {
    match listing
    case None => Ok([])
    case Some(xs) =>
      if !expand then Ok(xs)
      else
        var r := Rebuild(xs, freshId, now);
        if r.Err? then r
        else
          RebuildIsStable(xs, freshId, now);
          r
  }

  /** The `results.map(...)` of `byUser`: each entry passed through the
      constructor. It succeeds iff every entry does, and then entry i is the
      constructor's result on entry i; `RebuildFailsAtFirst` gives the error. */
  function Rebuild(xs: seq<Entry>, freshId: FreshId, now: Timestamp): (r: Result<seq<Entry>, Error>)
    ensures r.Ok? <==> forall i :: 0 <= i < |xs| ==> EntryResult(xs[i], freshId, now).Ok?
    ensures r.Ok? ==> |r.value| == |xs|
    ensures r.Ok? ==> forall i :: 0 <= i < |r.value| ==>
      r.value[i] == RecordEntry(EntryResult(xs[i], freshId, now).value)
  {
    if xs == [] then Ok([])
    else
      var first := EntryResult(xs[0], freshId, now);
      if first.Err? then Err(first.error)
      else
        var rest := Rebuild(xs[1..], freshId, now);
        if rest.Err? then
          Err(rest.error)
        else Ok([RecordEntry(first.value)] + rest.value)
  }

  /** Every fragment a successful rebuild yields is stable. */
  lemma RebuildIsStable(xs: seq<Entry>, freshId: FreshId, now: Timestamp)
    requires Rebuild(xs, freshId, now).Ok?
    ensures forall i :: 0 <= i < |xs| ==> Stable(Rebuild(xs, freshId, now).value[i].record)
  {
  }

  /** The map throws the error of the first entry the constructor rejects. */
  lemma {:induction false} RebuildFailsAtFirst(xs: seq<Entry>, i: nat, freshId: FreshId, now: Timestamp)
    requires i < |xs| && EntryResult(xs[i], freshId, now).Err?
    requires forall j :: 0 <= j < i ==> EntryResult(xs[j], freshId, now).Ok?
    ensures Rebuild(xs, freshId, now) == Err(EntryResult(xs[i], freshId, now).error)
  {
    if i > 0 {
      var first := EntryResult(xs[0], freshId, now);
      assert first.Ok?;
      RebuildFailsAtFirst(xs[1..], i - 1, freshId, now);
      assert Rebuild(xs, freshId, now) == Rebuild(xs[1..], freshId, now);
    }
  }

  /** Rebuilding a listing of stable records gives the same listing back. */
  lemma {:induction false} RebuildStable(xs: seq<Entry>, freshId: FreshId, now: Timestamp)
    requires forall i :: 0 <= i < |xs| ==> xs[i].RecordEntry? && Stable(xs[i].record)
    ensures Rebuild(xs, freshId, now) == Ok(xs)
  {
    if xs != [] {
      ReconstructIsIdentity(xs[0].record, freshId, now);
      RebuildStable(xs[1..], freshId, now);
      assert xs == [xs[0]] + xs[1..];
    }
  }

  /** An expanded listing rebuilds without error iff every one of the
      owner's stored records passes the constructor. */
  lemma ExpandedListingConstructs(store: Store, xs: seq<Entry>, ownerId: string, freshId: FreshId, now: Timestamp)
    requires store.IsListing(xs, ownerId, true)
    ensures (forall i :: 0 <= i < |xs| ==> EntryResult(xs[i], freshId, now).Ok?) <==>
      forall k :: k in store.OwnerKeys(ownerId) ==> Construct(ArgsOf(store.meta[k]), freshId, now).Ok?
  {
    ListedKeysMember(xs, ownerId);
    forall i | 0 <= i < |xs|
      ensures EntryResult(xs[i], freshId, now) == Construct(ArgsOf(store.meta[EntryKey(xs[i], ownerId)]), freshId, now)
    {
    }
  }

  /** What `byUser` makes of an expanded listing of the store. */
  lemma ExpandedListing(store: Store, xs: seq<Entry>, ownerId: string, freshId: FreshId, now: Timestamp)
    requires store.IsListing(xs, ownerId, true) && |xs| == |store.OwnerKeys(ownerId)|
    ensures var r := ExpandListing(Some(xs), true, freshId, now);
      && (r.Ok? <==> forall k :: k in store.OwnerKeys(ownerId) ==> Construct(ArgsOf(store.meta[k]), freshId, now).Ok?)
      && (r.Ok? ==> |r.value| == |store.OwnerKeys(ownerId)|)
      && ((forall k :: k in store.meta ==> Stable(store.meta[k])) ==> r == Ok(xs))
  {
    ExpandedListingConstructs(store, xs, ownerId, freshId, now);
    if forall k :: k in store.meta ==> Stable(store.meta[k]) {
      RebuildStable(xs, freshId, now);
    }
  }

  class Fragment {
    const id: string
    const ownerId: string
    const created: string
    var updated: string
    const contentType: string
    var size: nat

    function Record(): FragmentRecord
      reads this
    {
      FragmentRecord(id, ownerId, created, updated, contentType, size)
    }

    function Key(): Key { (ownerId, id) }

    ghost predicate Valid()
      reads this
    {
      Stable(Record())
    }

    /** `new Fragment(args)` once its checks have passed. */
    constructor (args: Args, freshId: FreshId, now: Timestamp)
      requires Construct(args, freshId, now).Ok?
      ensures Record() == Construct(args, freshId, now).value
      ensures Valid()
    {
      var rec := Construct(args, freshId, now).value;
      ConstructedIsStable(args, freshId, now);
      id := rec.id;
      ownerId := rec.ownerId;
      created := rec.created;
      updated := rec.updated;
      contentType := rec.contentType;
      size := rec.size;
    }

    /** `new Fragment(args)`: a fresh fragment, or the error it throws. */
    static method Create(args: Args, freshId: FreshId, now: Timestamp) returns (r: Result<Fragment, Error>)
      ensures r.Ok? <==> Construct(args, freshId, now).Ok?
      ensures r.Err? ==> r.error == Construct(args, freshId, now).error
      ensures r.Ok? ==> fresh(r.value) && r.value.Valid()
      ensures r.Ok? ==> r.value.Record() == Construct(args, freshId, now).value
    {
      var c := Construct(args, freshId, now);
      if c.Err? {
        r := Err(c.error);
      } else {
        var f := new Fragment(args, freshId, now);
        r := Ok(f);
      }
    }

    /** The `mimeType` getter. */
    function MimeType(): (r: string)
      requires FragmentType.IsSupported(contentType)
      ensures FragmentType.IsSupported(r) && r in FragmentType.SupportedTypes
    {
      FragmentType.MimeTypeIsSupported(contentType);
      FragmentType.MimeType(contentType)
    }

    /** The `isText` getter. */
    predicate IsText()
      requires FragmentType.IsSupported(contentType)
    {
      FragmentType.IsText(MimeType())
    }

    /** The `formats` getter. */
    function Formats(): (r: seq<string>)
      requires FragmentType.IsSupported(contentType)
      ensures |r| >= 1 && r[0] == MimeType()
    {
      FragmentType.Formats(MimeType())
    }

    /** `save()`: stamp `updated` and write the metadata under the key. */
    method Save(store: Store, now: Timestamp)
      requires Valid()
      modifies this`updated, store`meta
      ensures Valid()
      ensures updated == now && size == old(size)
      ensures store.meta == old(store.meta)[Key() := Record()]
      ensures old(Consistent(store)) && (Key() in store.data ==> |store.data[Key()]| == size) ==>
        Consistent(store)
    {
      updated := now;
      store.WriteFragment(Record());
    }

    /** `getData()`: the stored bytes, None when there are none. */
    method GetData(store: Store) returns (r: Option<seq<bv8>>)
      ensures r.Some? <==> Key() in store.data
      ensures r.Some? ==> r.value == store.data[Key()]
    {
      r := store.ReadFragmentData(ownerId, id);
    }

    /** `setData(data)`: record the new size, write the bytes, then save. */
    method SetData(store: Store, bytes: seq<bv8>, now: Timestamp)
      requires Valid()
      modifies this, store
      ensures Valid()
      ensures size == |bytes| && updated == now
      ensures Record() == old(Record()).(size := |bytes|, updated := now)
      ensures store.data == old(store.data)[Key() := bytes]
      ensures store.meta == old(store.meta)[Key() := Record()]
      ensures old(Consistent(store)) ==> Consistent(store)
    {
      size := |bytes|;
      updated := now;
      store.WriteFragmentData(ownerId, id, bytes);
      Save(store, now);
    }

    /** `Fragment.byId(ownerId, id)`: the stored fragment rebuilt, or
        NotFound when there is no metadata under the key. */
    static method ById(store: Store, ownerId: string, id: string, freshId: FreshId, now: Timestamp)
      returns (r: Result<Fragment, Error>)
      ensures (ownerId, id) !in store.meta ==> r == Err(NotFound(id))
      ensures (ownerId, id) in store.meta ==>
        (r.Ok? <==> Construct(ArgsOf(store.meta[(ownerId, id)]), freshId, now).Ok?)
      ensures r.Ok? ==> fresh(r.value) && r.value.Valid()
      ensures (ownerId, id) in store.meta && r.Err? ==>
        r.error == Construct(ArgsOf(store.meta[(ownerId, id)]), freshId, now).error
      ensures (ownerId, id) in store.meta && r.Ok? ==>
        r.value.Record() == Construct(ArgsOf(store.meta[(ownerId, id)]), freshId, now).value
      ensures (ownerId, id) in store.meta && Stable(store.meta[(ownerId, id)]) ==>
        r.Ok? && r.value.Record() == store.meta[(ownerId, id)]
    {
      var stored := store.ReadFragment(ownerId, id);
      if stored.None? {
        r := Err(NotFound(id));
      } else {
        r := Create(ArgsOf(stored.value), freshId, now);
        if Stable(stored.value) {
          ReconstructIsIdentity(stored.value, freshId, now);
        }
      }
    }

    /** `Fragment.byUser(ownerId, expand)`: the owner's listing, rebuilt
        into fragments when `expand` is set. */
    static method ByUser(store: Store, ownerId: string, expand: bool, freshId: FreshId, now: Timestamp)
      returns (r: Result<seq<Entry>, Error>)
      requires store.Keyed()
      ensures !expand ==> r.Ok? && store.IsListing(r.value, ownerId, false)
      ensures expand ==> (r.Ok? <==>
        forall k :: k in store.OwnerKeys(ownerId) ==> Construct(ArgsOf(store.meta[k]), freshId, now).Ok?)
      ensures r.Ok? ==> |r.value| == |store.OwnerKeys(ownerId)|
      ensures expand ==> exists xs :: store.IsListing(xs, ownerId, true) && r == Rebuild(xs, freshId, now)
      ensures (forall k :: k in store.meta ==> Stable(store.meta[k])) ==>
        r.Ok? && store.IsListing(r.value, ownerId, expand)
    {
      var listing := store.ListFragments(ownerId, expand);
      r := ExpandListing(listing, expand, freshId, now);
      if expand {
        ExpandedListing(store, listing.value, ownerId, freshId, now);
        assert store.IsListing(listing.value, ownerId, true) && r == Rebuild(listing.value, freshId, now);
      }
    }

    /** `Fragment.delete(ownerId, id)`: remove the key from both stores. */
    static method Delete(store: Store, ownerId: string, id: string)
      modifies store
      ensures store.meta == old(store.meta) - {(ownerId, id)}
      ensures store.data == old(store.data) - {(ownerId, id)}
      ensures old(Consistent(store)) ==> Consistent(store)
    {
      store.DeleteFragment(ownerId, id);
    }
  }
}
