/**
  The document store behind the handlers, as immutable values. A collection
  maps native ids to records; a query is an exact-match filter from field
  names to required string values; every document handed back has its id
  turned into a string.
 */
module Gateway {
  import opened Wrappers
  import opened ObjectIds

  type Filter = map<string, string>

  type Collection<T> = map<ObjectId, T>

  /** Reads one named string field of a document; `None` when it is absent or null. */
  type FieldReader<!T> = (T, string) -> Option<string>

  /** A document satisfies a filter when every filtered field holds the required value. */
  predicate Matches<T>(doc: T, f: Filter, field: FieldReader<T>) {
    forall k :: k in f ==> field(doc, k) == Some(f[k])
  }

  /** `get_documents`: every matching document, keyed by its id as a string. */
  function Find<T>(c: Collection<T>, f: Filter, field: FieldReader<T>): (r: map<string, T>)
    ensures forall id :: id in c ==> (Str(id) in r <==> Matches(c[id], f, field))
    ensures forall id :: id in c && Str(id) in r ==> r[Str(id)] == c[id]
    ensures forall k :: k in r ==> Parse(k).Some? && Parse(k).value in c && Str(Parse(k).value) == k
  {
    StrInjectiveAll();
    ParseStrAll();
    map id | id in c && Matches(c[id], f, field) :: Str(id) := c[id]
  }

  /** The result of inserting a document: its new id and the grown collection. */
  datatype Inserted<T> = Inserted(id: ObjectId, coll: Collection<T>)

  /** The integers BSON can store: 64-bit two's complement. */
  const Int64Min: int := -0x8000_0000_0000_0000
  const Int64Max: int := 0x7fff_ffff_ffff_ffff

  predicate FitsInt64(n: int) {
    Int64Min <= n <= Int64Max
  }

  /** Why an insert fails: a field the encoder cannot store, or no id left. */
  datatype InsertError = EncodeOverflow | IdsExhausted

  /**
    `create_document`: stores `doc` under a fresh id. `encodable` says whether
    the BSON encoder accepts the document; when it does not, the insert raises
    and nothing is stored. It also fails when every one of the 2^96 ids is taken.
   */
  function Insert<T>(c: Collection<T>, doc: T, encodable: bool): (r: Result<Inserted<T>, InsertError>)
    ensures !encodable ==> r == Err(EncodeOverflow)
    ensures r.Ok? ==> r.value.id !in c && r.value.coll == c[r.value.id := doc]
    ensures r.Ok? ==> |r.value.coll| == |c| + 1
    ensures encodable && |c| < IdSpace ==> r.Ok?
  {
    if !encodable then Err(EncodeOverflow)
    else
      match FreshId(c.Keys)
      case None => Err(IdsExhausted)
      case Some(id) => Ok(Inserted(id, c[id := doc]))
  }

  /** The single document of a collection that holds at most one. */
  datatype SingletonDoc = SingletonDoc(id: ObjectId, fields: map<string, string>)

  /**
    `update_one({}, {"$set": update}, upsert=True)`: merges the update into the
    document, or creates one holding just the update (under `freshId`).
   */
  function Upsert(doc: Option<SingletonDoc>, update: map<string, string>, freshId: ObjectId): (r: SingletonDoc)
    ensures r.fields.Keys == update.Keys + (if doc.Some? then doc.value.fields.Keys else {})
    ensures forall k :: k in update ==> r.fields[k] == update[k]
    ensures doc.Some? ==> forall k :: k in doc.value.fields && k !in update ==> r.fields[k] == doc.value.fields[k]
    ensures doc.Some? ==> r.id == doc.value.id
    ensures doc.None? ==> r == SingletonDoc(freshId, update)
  {
    match doc
    case None => SingletonDoc(freshId, update)
    case Some(d) => d.(fields := d.fields + update)
  }
}
