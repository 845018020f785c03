/**
  The three resource records of the listing API, each stored in the collection
  named by its lower-cased class name. Construction from a request body applies
  the field defaults and the `>= 0` constraints; a body that breaks a
  constraint is rejected with the set of offending field names.
 */
module Schemas {
  import opened Wrappers
  import opened Text

  // ---------------------------------------------------------------- kinds

  datatype Kind = PropertyKind | OfferKind | AdminSettingsKind

  function ClassName(k: Kind): string {
    match k
    case PropertyKind => "Property"
    case OfferKind => "Offer"
    case AdminSettingsKind => "AdminSettings"
  }

  /** The collection a model is stored in: its class name, lower-cased. */
  function CollectionName(k: Kind): string {
    Lower(ClassName(k))
  }

  lemma CollectionNames()
    ensures CollectionName(PropertyKind) == "property"
    ensures CollectionName(OfferKind) == "offer"
    ensures CollectionName(AdminSettingsKind) == "adminsettings"
    ensures forall a: Kind, b: Kind :: CollectionName(a) == CollectionName(b) ==> a == b
  {
    assert CollectionName(PropertyKind) == "property";
    assert CollectionName(OfferKind) == "offer";
    assert CollectionName(AdminSettingsKind) == "adminsettings";
  }

  // ------------------------------------------------------------- Property

  const DefaultPropertyStatus := "available"

  /**
    A listing. `status` is free text: "available | under_offer | sold" is
    a documented convention that nothing enforces.
   */
  datatype Property = Property(
    title: string,
    description: string,
    address: string,
    city: string,
    state: string,
    price: int,
    bedrooms: int,
    bathrooms: real,
    areaSqft: int,
    status: string,
    images: seq<string>,
    tags: seq<string>)

  /** A request body for a Property; `None` marks a field left out. */
  datatype PropertyInput = PropertyInput(
    title: string,
    description: string,
    address: string,
    city: string,
    state: string,
    price: int,
    bedrooms: int,
    bathrooms: real,
    areaSqft: int,
    status: Option<string>,
    images: Option<seq<string>>,
    tags: Option<seq<string>>)

  /**
    A string-syntax check that a library performs (pydantic's `HttpUrl` and
    `EmailStr`). The model takes it as a parameter and assumes nothing about it.
   */
  type SyntaxCheck = string -> bool

  predicate AllUrls(images: seq<string>, validUrl: SyntaxCheck) {
    forall j :: 0 <= j < |images| ==> validUrl(images[j])
  }

  /** The `ge=0` constraints of the record, and a well-formed URL for every image. */
  predicate ValidProperty(p: Property, validUrl: SyntaxCheck) {
    p.price >= 0 && p.bedrooms >= 0 && p.bathrooms >= 0.0 && p.areaSqft >= 0
    && AllUrls(p.images, validUrl)
  }

  function PropertyViolations(i: PropertyInput, validUrl: SyntaxCheck): set<string> {
    (if i.price < 0 then {"price"} else {})
    + (if i.bedrooms < 0 then {"bedrooms"} else {})
    + (if i.bathrooms < 0.0 then {"bathrooms"} else {})
    + (if i.areaSqft < 0 then {"area_sqft"} else {})
    + (if i.images.Some? && !AllUrls(i.images.value, validUrl) then {"images"} else {})
  }

  /**
    Builds a Property from a body, or names every field that breaks `ge=0`
    and, as "images", a gallery holding a string that is not a URL.
   */
  function ValidateProperty(i: PropertyInput, validUrl: SyntaxCheck): (r: Result<Property, set<string>>)
    ensures r.Ok? <==> i.price >= 0 && i.bedrooms >= 0 && i.bathrooms >= 0.0 && i.areaSqft >= 0
                       && (i.images.Some? ==> AllUrls(i.images.value, validUrl))
    ensures r.Ok? ==> ValidProperty(r.value, validUrl)
    ensures r.Ok? ==>
      && r.value.title == i.title && r.value.description == i.description
      && r.value.address == i.address && r.value.city == i.city && r.value.state == i.state
      && r.value.price == i.price && r.value.bedrooms == i.bedrooms
      && r.value.bathrooms == i.bathrooms && r.value.areaSqft == i.areaSqft
      && (i.status.Some? ==> r.value.status == i.status.value)
      && (i.images.Some? ==> r.value.images == i.images.value)
      && (i.tags.Some? ==> r.value.tags == i.tags.value)
    ensures r.Err? ==> r.error != {}
    ensures r.Err? ==> forall f :: f in r.error <==>
      || (f == "price" && i.price < 0)
      || (f == "bedrooms" && i.bedrooms < 0)
      || (f == "bathrooms" && i.bathrooms < 0.0)
      || (f == "area_sqft" && i.areaSqft < 0)
      || (f == "images" && i.images.Some? && !AllUrls(i.images.value, validUrl))
  {
    var bad := PropertyViolations(i, validUrl);
    if bad != {} then Err(bad)
    else
      Ok(Property(i.title, i.description, i.address, i.city, i.state,
                  i.price, i.bedrooms, i.bathrooms, i.areaSqft,
                  i.status.GetOr(DefaultPropertyStatus),
                  i.images.GetOr([]), i.tags.GetOr([])))
  }

  /** The body that spells out every field of `p`. */
  function PropertyBody(p: Property): PropertyInput {
    PropertyInput(p.title, p.description, p.address, p.city, p.state,
                  p.price, p.bedrooms, p.bathrooms, p.areaSqft,
                  Some(p.status), Some(p.images), Some(p.tags))
  }

  /** Every valid Property is exactly what its own body validates to. */
  lemma PropertyRoundTrip(p: Property, validUrl: SyntaxCheck)
    ensures ValidProperty(p, validUrl) ==> ValidateProperty(PropertyBody(p), validUrl) == Ok(p)
    ensures !ValidProperty(p, validUrl) ==> ValidateProperty(PropertyBody(p), validUrl).Err?
  {
  }

  /** Fields left out of a valid body take their declared defaults; sent fields are kept. */
  lemma PropertyDefaults(i: PropertyInput, validUrl: SyntaxCheck)
    requires ValidateProperty(i, validUrl).Ok?
    ensures i.status.None? ==> ValidateProperty(i, validUrl).value.status == "available"
    ensures i.images.None? ==> ValidateProperty(i, validUrl).value.images == []
    ensures i.tags.None? ==> ValidateProperty(i, validUrl).value.tags == []
    ensures var p := ValidateProperty(i, validUrl).value;
      p.title == i.title && p.description == i.description && p.address == i.address
      && p.city == i.city && p.state == i.state && p.price == i.price
      && p.bedrooms == i.bedrooms && p.bathrooms == i.bathrooms && p.areaSqft == i.areaSqft
    ensures var p := ValidateProperty(i, validUrl).value;
      && (i.status.Some? ==> p.status == i.status.value)
      && (i.images.Some? ==> p.images == i.images.value)
      && (i.tags.Some? ==> p.tags == i.tags.value)
  {
  }

  /** The status is accepted verbatim, whatever string it is. */
  lemma PropertyStatusIsFreeText(i: PropertyInput, validUrl: SyntaxCheck, status: string)
    ensures ValidateProperty(i.(status := Some(status)), validUrl).Ok? == ValidateProperty(i, validUrl).Ok?
    ensures ValidateProperty(i, validUrl).Ok? ==>
      ValidateProperty(i.(status := Some(status)), validUrl).value.status == status
  {
  }

  // ---------------------------------------------------------------- Offer

  const DefaultOfferStatus := "pending"

  /**
    An offer on a property. `propertyId` is the raw string the client sent;
    `status` is free text ("pending | accepted | rejected" by convention).
   */
  datatype Offer = Offer(
    propertyId: string,
    fullName: string,
    email: string,
    phone: Option<string>,
    amount: int,
    message: Option<string>,
    status: string)

  /** A request body for an Offer; `None` marks a field left out. */
  datatype OfferInput = OfferInput(
    propertyId: string,
    fullName: string,
    email: string,
    phone: Option<string>,
    amount: int,
    message: Option<string>,
    status: Option<string>)

  /** The `ge=0` constraint on `amount` and a well-formed `email`. */
  predicate ValidOffer(o: Offer, validEmail: SyntaxCheck) {
    o.amount >= 0 && validEmail(o.email)
  }

  function OfferViolations(i: OfferInput, validEmail: SyntaxCheck): set<string> {
    (if validEmail(i.email) then {} else {"email"})
    + (if i.amount < 0 then {"amount"} else {})
  }

  /** Builds an Offer from a body, or names the malformed `email` and the negative `amount`. */
  function ValidateOffer(i: OfferInput, validEmail: SyntaxCheck): (r: Result<Offer, set<string>>)
    ensures r.Ok? <==> i.amount >= 0 && validEmail(i.email)
    ensures r.Ok? ==> ValidOffer(r.value, validEmail)
    ensures r.Ok? ==>
      && r.value.propertyId == i.propertyId && r.value.fullName == i.fullName
      && r.value.email == i.email && r.value.phone == i.phone
      && r.value.amount == i.amount && r.value.message == i.message
      && (i.status.Some? ==> r.value.status == i.status.value)
    ensures r.Err? ==> r.error != {}
    ensures r.Err? ==> forall f :: f in r.error <==>
      || (f == "email" && !validEmail(i.email))
      || (f == "amount" && i.amount < 0)
  {
    var bad := OfferViolations(i, validEmail);
    if bad != {} then Err(bad)
    else Ok(Offer(i.propertyId, i.fullName, i.email, i.phone, i.amount, i.message,
                  i.status.GetOr(DefaultOfferStatus)))
  }

  function OfferBody(o: Offer): OfferInput {
    OfferInput(o.propertyId, o.fullName, o.email, o.phone, o.amount, o.message, Some(o.status))
  }

  /** Every valid Offer is exactly what its own body validates to. */
  lemma OfferRoundTrip(o: Offer, validEmail: SyntaxCheck)
    ensures ValidOffer(o, validEmail) ==> ValidateOffer(OfferBody(o), validEmail) == Ok(o)
    ensures !ValidOffer(o, validEmail) ==> ValidateOffer(OfferBody(o), validEmail).Err?
  {
  }

  /** `status` defaults to "pending", `phone` and `message` stay absent unless sent, and sent fields are kept. */
  lemma OfferDefaults(i: OfferInput, validEmail: SyntaxCheck)
    requires ValidateOffer(i, validEmail).Ok?
    ensures i.status.None? ==> ValidateOffer(i, validEmail).value.status == "pending"
    ensures i.phone.None? ==> ValidateOffer(i, validEmail).value.phone.None?
    ensures i.message.None? ==> ValidateOffer(i, validEmail).value.message.None?
    ensures var o := ValidateOffer(i, validEmail).value;
      && o.propertyId == i.propertyId && o.fullName == i.fullName && o.email == i.email
      && o.amount == i.amount && o.phone == i.phone && o.message == i.message
      && (i.status.Some? ==> o.status == i.status.value)
  {
  }

  /** The status is accepted verbatim, whatever string it is. */
  lemma OfferStatusIsFreeText(i: OfferInput, validEmail: SyntaxCheck, status: string)
    ensures ValidateOffer(i.(status := Some(status)), validEmail).Ok? == ValidateOffer(i, validEmail).Ok?
    ensures ValidateOffer(i, validEmail).Ok? ==>
      ValidateOffer(i.(status := Some(status)), validEmail).value.status == status
  {
  }

  // -------------------------------------------------------- AdminSettings

  /** Site-wide presentation settings; `announcement` may be null. */
  datatype AdminSettings = AdminSettings(
    primaryColor: string,
    accentColor: string,
    heroHeading: string,
    heroSubheading: string,
    announcement: Option<string>)

  /** The field names of AdminSettings as they appear in stored documents. */
  const SettingsFields: set<string> :=
    {"primary_color", "accent_color", "hero_heading", "hero_subheading", "announcement"}

  const DefaultAnnouncement := "New listings dropping weekly — submit an offer in minutes!"

  /** `AdminSettings()` with no arguments. */
  function DefaultAdminSettings(): AdminSettings {
    AdminSettings("#f97316", "#111827", "Find your next place",
                  "Modern homes, transparent offers, secure management.",
                  Some(DefaultAnnouncement))
  }

  /** `model_dump()`: the record as a JSON object; a null announcement stays null. */
  function DumpSettings(a: AdminSettings): (d: map<string, Option<string>>)
    ensures d.Keys == SettingsFields
    ensures d["primary_color"] == Some(a.primaryColor) && d["accent_color"] == Some(a.accentColor)
    ensures d["hero_heading"] == Some(a.heroHeading) && d["hero_subheading"] == Some(a.heroSubheading)
    ensures d["announcement"] == a.announcement
  {
    map["primary_color" := Some(a.primaryColor), "accent_color" := Some(a.accentColor),
        "hero_heading" := Some(a.heroHeading), "hero_subheading" := Some(a.heroSubheading),
        "announcement" := a.announcement]
  }

  /** The defaults every field of `AdminSettings()` takes, as a client sees them. */
  lemma AdminSettingsDefaults()
    ensures DumpSettings(DefaultAdminSettings()) == map[
      "primary_color" := Some("#f97316"),
      "accent_color" := Some("#111827"),
      "hero_heading" := Some("Find your next place"),
      "hero_subheading" := Some("Modern homes, transparent offers, secure management."),
      "announcement" := Some("New listings dropping weekly — submit an offer in minutes!")]
  {
  }
}
