/** Client-side runs of the fragment operations against a fresh store: what
    a caller can conclude from the operations' contracts alone. */
module FragmentScenarios {
  import opened Wrappers
  import opened FragmentErrors
  import FragmentType
  import ContentType
  import opened FragmentData
  import opened Fragments

  /** Create a fragment, save it, attach `bytes`, and read it back by id:
      its size is the length of `bytes` (not the size it was created with)
      and its data is `bytes`. */
  method CreateSaveSetRead(
    ownerId: string, contentType: string, size: SizeArg, bytes: seq<bv8>,
    freshId: FreshId, t0: Timestamp, t1: Timestamp, t2: Timestamp)
    returns (found: Result<Fragment, Error>, data: Option<seq<bv8>>)
    requires ownerId != "" && FragmentType.IsSupported(contentType) && CheckedSize(size).Some?
    ensures found.Ok? && found.value.size == |bytes| && found.value.updated == t2
    ensures data == Some(bytes)
  {
    var store := new Store();
    var args := Args(None, Some(ownerId), None, None, Some(contentType), size);
    var created := Fragment.Create(args, freshId, t0);
    var fragment := created.value;
    fragment.Save(store, t1);
    fragment.SetData(store, bytes, t2);
    found := Fragment.ById(store, ownerId, fragment.id, freshId, t2);
    data := found.value.GetData(store);
  }

  /** A fragment with an owner but an unsupported or unparsable type fails
      construction with a type error. */
  method RejectType(ownerId: string, contentType: string, freshId: FreshId, now: Timestamp)
    returns (r: Result<Fragment, Error>)
    requires ownerId != "" && !FragmentType.IsSupported(contentType)
    ensures r.Err? && (r.error.UnsupportedType? || r.error.InvalidMediaType?)
  {
    var args := Args(None, Some(ownerId), None, None, Some(contentType), Omitted);
    r := Fragment.Create(args, freshId, now);
  }

  /** application/xml is not supported. */
  lemma XmlIsUnsupported(x: string)
    requires x == "application/xml"
    ensures FragmentType.IsSupportedType(x) == Ok(false)
  {
    FragmentType.TypeOf(x, "application", "xml");
    FragmentType.UnlistedIsUnsupported(x);
  }

  /** After delete, the fragment is not found and it has no data. */
  method DeleteThenLookup(
    ownerId: string, contentType: string, bytes: seq<bv8>, freshId: FreshId, now: Timestamp)
    returns (found: Result<Fragment, Error>, data: Option<seq<bv8>>)
    requires ownerId != "" && FragmentType.IsSupported(contentType)
    ensures found.Err? && Contains(Message(found.error), "not found")
    ensures data == None
  {
    var store := new Store();
    var args := Args(None, Some(ownerId), None, None, Some(contentType), Omitted);
    var created := Fragment.Create(args, freshId, now);
    var fragment := created.value;
    fragment.SetData(store, bytes, now);
    Fragment.Delete(store, ownerId, fragment.id);
    found := Fragment.ById(store, ownerId, fragment.id, freshId, now);
    NotFoundMessage(fragment.id);
    data := fragment.GetData(store);
  }

  /** An owner with no fragments lists as empty, expanded or not. */
  method EmptyOwnerLists(ownerId: string, expand: bool, freshId: FreshId, now: Timestamp)
    returns (r: Result<seq<Entry>, Error>)
    ensures r == Ok([])
  {
    var store := new Store();
    r := Fragment.ByUser(store, ownerId, expand, freshId, now);
  }
}
