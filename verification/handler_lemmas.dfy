/**
  Properties that relate several handler calls: ordering of error checks,
  create-then-read round trips, the offer reference invariant, and the
  frame and merge behaviour of the settings endpoints.
 */
module HandlerLemmas {
  import opened Wrappers
  import opened Text
  import opened ObjectIds
  import opened Schemas
  import opened Gateway
  import opened Handlers

  // ----------------------------------------------------- error precedence

  /**
    A malformed id is answered with 400 whatever the store holds: the id check
    runs before any lookup, so a 404 can never be reported for it.
   */
  lemma MalformedIdBeatsNotFound(s1: Store, s2: Store, id: string)
    requires !ValidOid(id)
    ensures GetProperty(s1, id).result == GetProperty(s2, id).result
    ensures GetProperty(s1, id).result.error.Status() == 400
  {
  }

  /** The same precedence for an offer whose body is otherwise acceptable. */
  lemma OfferMalformedIdBeatsNotFound(s1: Store, s2: Store, body: OfferInput, validEmail: SyntaxCheck)
    requires ValidateOffer(body, validEmail).Ok? && !ValidOid(body.propertyId)
    ensures SubmitOffer(s1, body, validEmail).result == SubmitOffer(s2, body, validEmail).result
    ensures SubmitOffer(s1, body, validEmail).result.error.Status() == 400
    ensures SubmitOffer(s1, body, validEmail).store == s1
  {
  }

  /**
    Body validation runs first: a malformed email or a negative amount is a 422
    naming those fields, whatever the id and the store.
   */
  lemma OfferValidationBeatsIdCheck(s1: Store, s2: Store, body: OfferInput, validEmail: SyntaxCheck)
    requires body.amount < 0 || !validEmail(body.email)
    ensures SubmitOffer(s1, body, validEmail).result == SubmitOffer(s2, body, validEmail).result
    ensures SubmitOffer(s1, body, validEmail).result.error.Status() == 422
    ensures SubmitOffer(s1, body, validEmail).result.error.fields ==
      (if validEmail(body.email) then {} else {"email"}) + (if body.amount < 0 then {"amount"} else {})
    ensures SubmitOffer(s1, body, validEmail).store == s1
  {
  }

  /**
    An amount too wide for a 64-bit BSON integer passes validation, but the
    insert raises: the request ends in a 500 and no offer is stored.
   */
  lemma OversizedAmountIsNotStored(s: Store, body: OfferInput, validEmail: SyntaxCheck)
    requires ValidateOffer(body, validEmail).Ok? && ValidOid(body.propertyId)
    requires Parse(body.propertyId).value in s.properties
    requires body.amount > Int64Max
    ensures SubmitOffer(s, body, validEmail).result.error.Status() == 500
    ensures SubmitOffer(s, body, validEmail).store == s
  {
  }

  // ------------------------------------------------------- round trips

  /** A validated property stored with `create_document` reads back unchanged by id. */
  lemma CreateThenGet(s: Store, body: PropertyInput, validUrl: SyntaxCheck)
    requires ValidateProperty(body, validUrl).Ok?
    requires PropertyEncodable(ValidateProperty(body, validUrl).value)
    requires |s.properties| < IdSpace
    ensures var p := ValidateProperty(body, validUrl).value;
      var ins := Insert(s.properties, p, PropertyEncodable(p)).value;
      GetProperty(s.(properties := ins.coll), Str(ins.id)).result == Ok(Listed(Str(ins.id), p))
  {
    var p := ValidateProperty(body, validUrl).value;
    var ins := Insert(s.properties, p, PropertyEncodable(p)).value;
    ParseStr(ins.id);
  }

  /** An accepted offer is listed under the property id string it was sent with. */
  lemma SubmitThenListOffers(s: Store, body: OfferInput, validEmail: SyntaxCheck)
    requires SubmitOffer(s, body, validEmail).result.Ok?
    ensures var r := SubmitOffer(s, body, validEmail);
      var listed := ListOffers(r.store, Some(body.propertyId)).result.value;
      r.result.value.id in listed && listed[r.result.value.id] == ValidateOffer(body, validEmail).value
  {
  }

  /** An offer submission inserts exactly one offer when it succeeds, none otherwise. */
  lemma SubmitOfferCount(s: Store, body: OfferInput, validEmail: SyntaxCheck)
    ensures var r := SubmitOffer(s, body, validEmail);
      |r.store.offers| == |s.offers| + (if r.result.Ok? then 1 else 0)
    ensures SubmitOffer(s, body, validEmail).store.properties == s.properties
    ensures SubmitOffer(s, body, validEmail).store.settings == s.settings
  {
  }

  /**
    The listing endpoints return every document when no truthy parameter is
    given: the empty filter matches all.
   */
  lemma ListWithoutFiltersReturnsAll(s: Store, city: Option<string>, status: Option<string>, propertyId: Option<string>)
    requires !Truthy(city) && !Truthy(status) && !Truthy(propertyId)
    ensures forall id :: id in s.properties ==> Str(id) in ListProperties(s, city, status).result.value
    ensures forall id :: id in s.offers ==> Str(id) in ListOffers(s, propertyId).result.value
    ensures |ListProperties(s, city, status).result.value| == |s.properties|
  {
    var listed := ListProperties(s, city, status).result.value;
    var ids := set k | k in listed :: Parse(k).value;
    ParseStrAll();
    assert ids == s.properties.Keys;
    KeysSizeUnderParse(listed);
  }

  /** Parsing is injective on keys that print back to themselves, so it keeps the count. */
  lemma KeysSizeUnderParse<T>(m: map<string, T>)
    requires forall k :: k in m ==> Parse(k).Some? && Str(Parse(k).value) == k
    ensures |set k | k in m :: Parse(k).value| == |m|
  {
    if m != map[] {
      var k :| k in m;
      var rest := m - {k};
      KeysSizeUnderParse(rest);
      var restIds := set j | j in rest :: Parse(j).value;
      assert (set j | j in m :: Parse(j).value) == restIds + {Parse(k).value};
      assert Parse(k).value !in restIds;
    }
  }

  // ------------------------------------------------- offer references

  /** Every stored offer names, by a valid id string, a property that exists. */
  ghost predicate OffersReferenceProperties(s: Store) {
    forall id :: id in s.offers ==>
      ValidOid(s.offers[id].propertyId) && Parse(s.offers[id].propertyId).value in s.properties
  }

  /** No handler breaks the reference invariant (nothing deletes a property). */
  lemma HandlersKeepOfferReferences(s: Store, body: OfferInput, validEmail: SyntaxCheck, p: SettingsUpdate)
    requires OffersReferenceProperties(s)
    ensures OffersReferenceProperties(SubmitOffer(s, body, validEmail).store)
    ensures OffersReferenceProperties(UpdateSettings(s, p).store)
  {
  }

  /**
    `list_offers` does not validate the id: where `get_property` answers a
    malformed id with 400, listing offers by it returns an empty list.
   */
  lemma ListOffersSkipsIdValidation(s: Store, propertyId: string)
    requires OffersReferenceProperties(s)
    requires propertyId != "" && !ValidOid(propertyId)
    ensures ListOffers(s, Some(propertyId)).result == Ok(map[])
    ensures GetProperty(s, propertyId).result == Err(InvalidIdError)
  {
  }

  /**
    The offer keeps the property id exactly as sent. When it was sent in upper
    case, the property reads back under the lower-case id, and filtering offers
    by that id does not find the offer.
   */
  lemma OfferKeepsRawPropertyId(s: Store, body: OfferInput, validEmail: SyntaxCheck)
    requires SubmitOffer(s, body, validEmail).result.Ok?
    requires Lower(body.propertyId) != body.propertyId
    ensures var r := SubmitOffer(s, body, validEmail);
      && GetProperty(r.store, body.propertyId).result.value.id == Lower(body.propertyId)
      && r.result.value.id !in ListOffers(r.store, Some(Lower(body.propertyId))).result.value
  {
  }

  // ----------------------------------------------------------- settings

  /** With no document, reading returns exactly the defaults and writes nothing. */
  lemma ReadSettingsDefaultsNotPersisted(s: Store)
    requires s.settings.None?
    ensures ReadSettings(s).store.settings.None?
    ensures ReadSettings(s).result.value == map[
      "primary_color" := Some("#f97316"),
      "accent_color" := Some("#111827"),
      "hero_heading" := Some("Find your next place"),
      "hero_subheading" := Some("Modern homes, transparent offers, secure management."),
      "announcement" := Some("New listings dropping weekly — submit an offer in minutes!")]
  {
  }

  /** A payload with every field `None` is exactly a read: nothing is written. */
  lemma EmptyUpdateIsRead(s: Store, p: SettingsUpdate)
    ensures UpdateData(p) == map[] <==>
      p.primaryColor.None? && p.accentColor.None? && p.heroHeading.None?
      && p.heroSubheading.None? && p.announcement.None?
    ensures UpdateData(p) == map[] ==> UpdateSettings(s, p) == ReadSettings(s)
  {
  }

  /**
    On a store with no settings document the upsert creates one holding only
    the sent fields: no defaults are merged in, so the re-read lacks the rest.
   */
  lemma FirstUpdateStoresOnlySentFields(s: Store, a: string)
    requires s.settings.None?
    ensures var r := UpdateSettings(s, SettingsUpdate(None, None, None, None, Some(a)));
      && r.store.settings.value.fields == map["announcement" := a]
      && r.result.value.Keys == {"announcement", "_id"}
      && r.result.value["announcement"] == Some(a)
      && "primary_color" !in r.result.value
  {
  }

  /** Setting only the announcement changes that field and no other. */
  lemma AnnouncementOnlyUpdate(s: Store, a: string)
    requires s.settings.Some?
    ensures UpdateSettings(s, SettingsUpdate(None, None, None, None, Some(a))).store
      == s.(settings := Some(s.settings.value.(fields := s.settings.value.fields["announcement" := a])))
  {
    var p := SettingsUpdate(None, None, None, None, Some(a));
    var d := s.settings.value;
    assert UpdateData(p) == map["announcement" := a];
    assert d.fields + map["announcement" := a] == d.fields["announcement" := a];
  }

  /** Sending the same settings payload twice has the effect of sending it once. */
  lemma UpdateSettingsIdempotent(s: Store, p: SettingsUpdate)
    ensures var once := UpdateSettings(s, p);
      UpdateSettings(once.store, p) == once
  {
    var once := UpdateSettings(s, p);
    var u := UpdateData(p);
    if u != map[] {
      var d := once.store.settings.value;
      assert d.fields + u == d.fields;
    }
  }
}
