/**
  The request handlers of the listing API over an immutable store. Each
  handler maps a store and its request inputs to a reply: the response or the
  HTTP error it raises, and the store as it is afterwards.
 */
module Handlers {
  import opened Wrappers
  import opened Text
  import opened ObjectIds
  import opened Schemas
  import opened Gateway

  /** The three collections: properties, offers, and the one settings document. */
  datatype Store = Store(
    properties: Collection<Property>,
    offers: Collection<Offer>,
    settings: Option<SingletonDoc>)

  /** An `HTTPException`, or a body rejected before the handler runs. */
  datatype ApiError =
    | HttpError(code: int, detail: string)
    | ValidationFailure(fields: set<string>)
  {
    function Status(): int {
      match this
      case HttpError(code, _) => code
      case ValidationFailure(_) => 422
    }
  }

  const InvalidIdError := HttpError(400, "Invalid id")
  const PropertyNotFound := HttpError(404, "Property not found")
  const OfferPropertyNotFound := HttpError(404, "Property not found for this offer")
  /** An exception the handler does not catch, such as a failed insert. */
  const ServerError := HttpError(500, "Internal Server Error")

  datatype Reply<T> = Reply(result: Result<T, ApiError>, store: Store)

  /** A document as returned to a client: its id as a string, and its fields. */
  datatype Listed<T> = Listed(id: string, doc: T)

  // ------------------------------------------------------------ utilities

  /** `ensure_object_id`: the native id, or a 400. */
  function EnsureObjectId(s: string): (r: Result<ObjectId, ApiError>)
    ensures r.Ok? <==> ValidOid(s)
    ensures r.Err? ==> r.error == InvalidIdError
    ensures r.Ok? ==> Str(r.value) == Lower(s)
  {
    match Parse(s)
    case None => Err(InvalidIdError)
    case Some(id) =>
      StrParse(s);
      Ok(id)
  }

  /** Python truthiness of an optional query parameter: present and non-empty. */
  predicate Truthy(p: Option<string>) {
    p.Some? && p.value != ""
  }

  /** Adds `key := p` to a filter when the parameter is truthy. */
  function AddIfTruthy(f: Filter, key: string, p: Option<string>): Filter {
    if Truthy(p) then f[key := p.value] else f
  }

  function PropertyField(p: Property, name: string): Option<string> {
    if name == "title" then Some(p.title)
    else if name == "description" then Some(p.description)
    else if name == "address" then Some(p.address)
    else if name == "city" then Some(p.city)
    else if name == "state" then Some(p.state)
    else if name == "status" then Some(p.status)
    else None
  }

  function OfferField(o: Offer, name: string): Option<string> {
    if name == "property_id" then Some(o.propertyId)
    else if name == "full_name" then Some(o.fullName)
    else if name == "email" then Some(o.email)
    else if name == "phone" then o.phone
    else if name == "message" then o.message
    else if name == "status" then Some(o.status)
    else None
  }

  /** The BSON encoder accepts a property when its integer fields fit in 64 bits. */
  predicate PropertyEncodable(p: Property) {
    FitsInt64(p.price) && FitsInt64(p.bedrooms) && FitsInt64(p.areaSqft)
  }

  /** The BSON encoder accepts an offer when its amount fits in 64 bits. */
  predicate OfferEncodable(o: Offer) {
    FitsInt64(o.amount)
  }

  // ----------------------------------------------------------- properties

  /** The query of `list_properties`: only truthy parameters become keys. */
  function PropertyFilter(city: Option<string>, status: Option<string>): (f: Filter)
    ensures f.Keys <= {"city", "status"}
    ensures "city" in f <==> Truthy(city)
    ensures "status" in f <==> Truthy(status)
    ensures "city" in f ==> f["city"] == city.value
    ensures "status" in f ==> f["status"] == status.value
  {
    AddIfTruthy(AddIfTruthy(map[], "city", city), "status", status)
  }

  /** `GET /properties?city=&status=`. */
  function ListProperties(s: Store, city: Option<string>, status: Option<string>): (r: Reply<map<string, Property>>)
    ensures r.store == s && r.result.Ok?
    ensures forall id :: id in s.properties ==>
      (Str(id) in r.result.value <==>
         (!Truthy(city) || s.properties[id].city == city.value)
         && (!Truthy(status) || s.properties[id].status == status.value))
    ensures forall id :: id in s.properties && Str(id) in r.result.value ==> r.result.value[Str(id)] == s.properties[id]
    ensures forall k :: k in r.result.value ==> Parse(k).Some? && Parse(k).value in s.properties
  {
    var f := PropertyFilter(city, status);
    assert forall p :: Matches(p, f, PropertyField) <==>
      (!Truthy(city) || p.city == city.value) && (!Truthy(status) || p.status == status.value);
    Reply(Ok(Find(s.properties, f, PropertyField)), s)
  }

  /** `GET /properties/{prop_id}`: the id is checked before the lookup. */
  function GetProperty(s: Store, propId: string): (r: Reply<Listed<Property>>)
    ensures r.store == s
    ensures !ValidOid(propId) ==> r.result == Err(InvalidIdError)
    ensures ValidOid(propId) && Parse(propId).value !in s.properties ==> r.result == Err(PropertyNotFound)
    ensures ValidOid(propId) && Parse(propId).value in s.properties ==>
      r.result == Ok(Listed(Lower(propId), s.properties[Parse(propId).value]))
  {
    match EnsureObjectId(propId)
    case Err(e) => Reply(Err(e), s)
    case Ok(oid) =>
      if oid !in s.properties then Reply(Err(PropertyNotFound), s)
      else Reply(Ok(Listed(Str(oid), s.properties[oid])), s)
  }

  // --------------------------------------------------------------- offers

  /** The acknowledgement `{id, status: "submitted"}`. */
  datatype OfferAck = OfferAck(id: string, status: string)

  /**
    `POST /offers`: body validation (422), then the id check (400), then the
    existence check (404), then the insert, which fails (500) when the amount
    does not fit a 64-bit BSON integer.
   */
  function SubmitOffer(s: Store, body: OfferInput, validEmail: SyntaxCheck): (r: Reply<OfferAck>)
    ensures r.result.Err? ==> r.store == s
    ensures ValidateOffer(body, validEmail).Err? ==>
      r.result == Err(ValidationFailure(ValidateOffer(body, validEmail).error))
    ensures ValidateOffer(body, validEmail).Ok? && !ValidOid(body.propertyId) ==> r.result == Err(InvalidIdError)
    ensures (ValidateOffer(body, validEmail).Ok? && ValidOid(body.propertyId)
             && Parse(body.propertyId).value !in s.properties) ==> r.result == Err(OfferPropertyNotFound)
    ensures (ValidateOffer(body, validEmail).Ok? && ValidOid(body.propertyId)
             && Parse(body.propertyId).value in s.properties && body.amount > Int64Max) ==> r.result == Err(ServerError)
    ensures (ValidateOffer(body, validEmail).Ok? && ValidOid(body.propertyId)
             && Parse(body.propertyId).value in s.properties && body.amount <= Int64Max
             && |s.offers| < IdSpace) ==> r.result.Ok?
    ensures r.result.Ok? ==>
      && ValidateOffer(body, validEmail).Ok?
      && ValidOid(body.propertyId) && Parse(body.propertyId).value in s.properties
      && body.amount <= Int64Max
      && r.result.value.status == "submitted"
      && Parse(r.result.value.id).Some?
      && var id := Parse(r.result.value.id).value;
         && id !in s.offers
         && r.result.value.id == Str(id)
         && r.store == s.(offers := s.offers[id := ValidateOffer(body, validEmail).value])
  {
    match ValidateOffer(body, validEmail)
    case Err(fields) => Reply(Err(ValidationFailure(fields)), s)
    case Ok(offer) =>
      match EnsureObjectId(offer.propertyId)
      case Err(e) => Reply(Err(e), s)
      case Ok(oid) =>
        if oid !in s.properties then Reply(Err(OfferPropertyNotFound), s)
        else
          match Insert(s.offers, offer, OfferEncodable(offer))
          case Err(_) => Reply(Err(ServerError), s)
          case Ok(ins) =>
            ParseStr(ins.id);
            Reply(Ok(OfferAck(Str(ins.id), "submitted")), s.(offers := ins.coll))
  }

  /** The query of `list_offers`: the raw `property_id`, when truthy. */
  function OfferFilter(propertyId: Option<string>): (f: Filter)
    ensures f.Keys <= {"property_id"}
    ensures "property_id" in f <==> Truthy(propertyId)
    ensures "property_id" in f ==> f["property_id"] == propertyId.value
  {
    AddIfTruthy(map[], "property_id", propertyId)
  }

  /** `GET /offers?property_id=`: no id validation, so it never fails. */
  function ListOffers(s: Store, propertyId: Option<string>): (r: Reply<map<string, Offer>>)
    ensures r.store == s && r.result.Ok?
    ensures forall id :: id in s.offers ==>
      (Str(id) in r.result.value <==> !Truthy(propertyId) || s.offers[id].propertyId == propertyId.value)
    ensures forall id :: id in s.offers && Str(id) in r.result.value ==> r.result.value[Str(id)] == s.offers[id]
    ensures forall k :: k in r.result.value ==> Parse(k).Some? && Parse(k).value in s.offers
  {
    var f := OfferFilter(propertyId);
    assert forall o :: Matches(o, f, OfferField) <==>
      !Truthy(propertyId) || o.propertyId == propertyId.value;
    Reply(Ok(Find(s.offers, f, OfferField)), s)
  }

  // ------------------------------------------------------------- settings

  /** A settings response: a JSON object of strings, where `None` is null. */
  type SettingsView = map<string, Option<string>>

  /** A stored document as a response, its `_id` given as a string. */
  function Serialize(d: SingletonDoc): (v: SettingsView)
    ensures v.Keys == d.fields.Keys + {"_id"}
    ensures v["_id"] == Some(Str(d.id))
    ensures forall k :: k in d.fields && k != "_id" ==> v[k] == Some(d.fields[k])
  {
    (map k | k in d.fields :: Some(d.fields[k]))["_id" := Some(Str(d.id))]
  }

  /** `GET /admin/settings`: the stored document, else the defaults, never written. */
  function ReadSettings(s: Store): (r: Reply<SettingsView>)
    ensures r.store == s && r.result.Ok?
    ensures s.settings.None? ==> r.result.value == DumpSettings(DefaultAdminSettings())
    ensures s.settings.Some? ==> r.result.value == Serialize(s.settings.value)
  {
    match s.settings
    case None => Reply(Ok(DumpSettings(DefaultAdminSettings())), s)
    case Some(d) => Reply(Ok(Serialize(d)), s)
  }

  /** The body of `PUT /admin/settings`: every field optional, `None` when not sent. */
  datatype SettingsUpdate = SettingsUpdate(
    primaryColor: Option<string>,
    accentColor: Option<string>,
    heroHeading: Option<string>,
    heroSubheading: Option<string>,
    announcement: Option<string>)

  /** Adds `key := p` when the value is not `None`; an empty string still counts. */
  function AddIfPresent(m: map<string, string>, key: string, p: Option<string>): map<string, string> {
    if p.Some? then m[key := p.value] else m
  }

  /** The fields of a payload that were sent, dropping `None`. */
  function UpdateData(p: SettingsUpdate): (u: map<string, string>)
    ensures u.Keys <= SettingsFields
    ensures ("primary_color" in u <==> p.primaryColor.Some?) && (p.primaryColor.Some? ==> u["primary_color"] == p.primaryColor.value)
    ensures ("accent_color" in u <==> p.accentColor.Some?) && (p.accentColor.Some? ==> u["accent_color"] == p.accentColor.value)
    ensures ("hero_heading" in u <==> p.heroHeading.Some?) && (p.heroHeading.Some? ==> u["hero_heading"] == p.heroHeading.value)
    ensures ("hero_subheading" in u <==> p.heroSubheading.Some?) && (p.heroSubheading.Some? ==> u["hero_subheading"] == p.heroSubheading.value)
    ensures ("announcement" in u <==> p.announcement.Some?) && (p.announcement.Some? ==> u["announcement"] == p.announcement.value)
  {
    var u := AddIfPresent(map[], "primary_color", p.primaryColor);
    var u := AddIfPresent(u, "accent_color", p.accentColor);
    var u := AddIfPresent(u, "hero_heading", p.heroHeading);
    var u := AddIfPresent(u, "hero_subheading", p.heroSubheading);
    AddIfPresent(u, "announcement", p.announcement)
  }

  /** The id a newly upserted settings document receives. */
  function NewSettingsId(): ObjectId {
    FreshId({}).value
  }

  /**
    `PUT /admin/settings`: an empty update only reads; otherwise the sent
    fields are merged into the document (created if absent) and it is read again.
   */
  function UpdateSettings(s: Store, p: SettingsUpdate): (r: Reply<SettingsView>)
    ensures r == ReadSettings(r.store)
    ensures r.store.properties == s.properties && r.store.offers == s.offers
    ensures UpdateData(p) == map[] ==> r.store == s
    ensures UpdateData(p) != map[] ==> r.store.settings.Some?
    ensures UpdateData(p) != map[] && s.settings.None? ==> r.store.settings.value.fields == UpdateData(p)
    ensures s.settings.Some? ==> r.store.settings.Some? && r.store.settings.value.id == s.settings.value.id
    ensures s.settings.Some? ==> r.store.settings.value.fields.Keys == s.settings.value.fields.Keys + UpdateData(p).Keys
    ensures s.settings.Some? ==> forall k :: k in r.store.settings.value.fields ==>
      r.store.settings.value.fields[k] ==
        (if k in UpdateData(p) then UpdateData(p)[k] else s.settings.value.fields[k])
  {
    var u := UpdateData(p);
    if u == map[] then ReadSettings(s)
    else ReadSettings(s.(settings := Some(Upsert(s.settings, u, NewSettingsId()))))
  }
}
