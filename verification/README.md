# Property-listing API: a Dafny model of its records and handlers

The API stores property listings, offers made on them, and one site-wide
settings document in three MongoDB collections. It serves them through
FastAPI handlers. This project models:

- the three records, with their `>= 0` constraints and field defaults;
- the handlers `list_properties`, `get_property`, `submit_offer`, `list_offers`,
  `read_settings` and `update_settings`. Each one is a pure function from an
  immutable store and the request inputs to a reply. The reply holds the
  response or the HTTP error, plus the store afterwards.

Modules:

- `Wrappers`: `Option` and `Result`.
- `Text`: ASCII lower-casing.
- `ObjectIds`: native ids and their 24-character hex string form. Parsing,
  printing, and choosing a fresh id for an insert.
- `Schemas`: `Property`, `Offer` and `AdminSettings`, their request bodies,
  validation and defaults, and the collection names.
- `Gateway`: the document store as maps. Exact-match filtering, insert under a
  fresh id, and upsert of the single settings document.
- `Handlers`: the request handlers over `Store`. The store is the properties
  map, the offers map and an optional settings document.
- `HandlerLemmas`: properties that relate several handler calls.

An ObjectId is a 96-bit number. A string is a valid id when it has exactly 24
hexadecimal characters, of either case. The printed form of an id is always
lower case, so a client that sends an upper-case id gets the lower-case form
back.

A new document gets the lowest id its collection does not use yet. Only the
freshness of that id matters to the handlers. When all 2^96 ids are in use,
the insert fails and the handler answers with a server error (500).

`PUT /admin/settings` replies with the stored document as it reads after the
write. After the first upsert into an empty collection, that document holds
only the fields that were sent, with no defaults merged in
(`FirstUpdateStoresOnlySentFields`).

The syntax checks of pydantic's `HttpUrl` and `EmailStr` come from a library.
The model takes them as parameters (`validUrl`, `validEmail`) and assumes
nothing about them. A body that fails one is rejected with 422, naming the
field, before any handler logic runs.

MongoDB stores integers in at most 64 bits. An offer whose amount is
2^63 or more passes validation, but its insert raises. The request then ends
in a 500 and nothing is stored.

## Model

| member | source | states |
|---|---|---|
| ObjectIds.StrParse | main.py:44-48 | parsing a valid id string and printing the id gives back the input lower-cased |
| ObjectIds.ParseStr | main.py:151 | the string form an id is returned under parses back to that same id |
| ObjectIds.StrInjective | main.py:141 | two ids share a string form exactly when they are the same id, so stringified ids never collide |
| ObjectIds.Parse | main.py:46 | `ObjectId(id_str)` yields an id exactly when the string has 24 hexadecimal characters of either case |
| ObjectIds.Str | main.py:151 | `str(oid)` is always a valid 24-character id string, already in lower case |
| ObjectIds.FreshId | main.py:162 | the id chosen for an insert is not used in the collection, and one is always found while fewer than 2^96 ids are used |
| Schemas.CollectionNames | schemas.py:4-7 | the collections are "property", "offer" and "adminsettings" (lower-cased class names), all distinct |
| Schemas.ValidateProperty | schemas.py:13-25 | a property body is accepted exactly when price, bedrooms, bathrooms and area_sqft are all >= 0 and every image passes the URL check; a rejection names exactly the negative fields, plus "images" for a bad URL; an accepted body's sent fields (including a sent status, images or tags) are kept in the record |
| Schemas.PropertyRoundTrip | schemas.py:19-24 | a property satisfying the four `>= 0` constraints with well-formed image URLs is exactly what its full body validates to; any other property is rejected |
| Schemas.PropertyDefaults | schemas.py:23-25 | a body without status gets "available", one without images or tags gets empty lists; every sent field, required or optional, is copied unchanged |
| Schemas.PropertyStatusIsFreeText | schemas.py:23 | any status string is accepted and stored verbatim; it never affects acceptance |
| Schemas.ValidateOffer | schemas.py:28-35 | an offer body is accepted exactly when amount >= 0 and the email passes the email check; a rejection names exactly "email" and/or "amount"; an accepted body's property_id, full_name, email, phone, amount, message and sent status are kept |
| Schemas.OfferRoundTrip | schemas.py:31-33 | an offer with amount >= 0 and a well-formed email is exactly what its full body validates to; any other offer is rejected |
| Schemas.OfferDefaults | schemas.py:29-35 | an offer without status gets "pending", phone and message stay null unless sent, and every sent field (property_id, full_name, email, phone, amount, message, status) is kept |
| Schemas.OfferStatusIsFreeText | schemas.py:35 | any offer status string is accepted and stored verbatim |
| Schemas.AdminSettingsDefaults | schemas.py:39-43 | the dumped default settings are exactly the five documented strings |
| Schemas.DumpSettings | main.py:183 | `model_dump()` of settings has exactly the five settings field names, each holding its field, a null announcement staying null |
| Gateway.Find | main.py:139-141 | a document is listed exactly when it matches the filter; it is listed under its id's string form, and every listed key parses to a stored id |
| Gateway.Insert | main.py:162 | an insert the encoder accepts adds one document under an id new to the collection and changes nothing else; one it rejects stores nothing |
| Gateway.Upsert | main.py:201 | an upsert sets the sent fields, keeps every other stored field and the document id, and creates a document holding only the sent fields when none exists |
| Handlers.EnsureObjectId | main.py:44-48 | a string yields an id exactly when it is a valid id, otherwise the 400 "Invalid id" error |
| Handlers.PropertyFilter | main.py:134-138 | the filter has a city (status) key exactly when that parameter is present and non-empty, holding its value |
| Handlers.ListProperties | main.py:132-142 | a stored property is listed exactly when it matches the truthy city and status parameters; the store is unchanged and listing never fails |
| Handlers.GetProperty | main.py:145-152 | a malformed id gives 400; a valid id with no document gives 404; otherwise the document is returned with its id as a lower-case string; the store is unchanged |
| Handlers.SubmitOffer | main.py:156-163 | a malformed email or negative amount gives 422, then a malformed property_id gives 400, then an unknown property gives 404, then an amount of 2^63 or more gives 500, all leaving the store unchanged; otherwise exactly one offer is added under a fresh id, acknowledged as "submitted" |
| Handlers.OfferFilter | main.py:168-170 | the offer filter has a property_id key exactly when the parameter is present and non-empty |
| Handlers.ListOffers | main.py:166-174 | an offer is listed exactly when its raw property_id equals the truthy parameter (all offers otherwise); listing never fails and changes nothing |
| Handlers.Serialize | main.py:184 | a stored settings document is returned with every stored field and an `_id` key holding the id's string form |
| Handlers.ReadSettings | main.py:178-185 | with no document the defaults are returned; otherwise the stored document with its id as a string; nothing is written |
| Handlers.UpdateData | main.py:188-198 | the update holds a field exactly when the payload sets it (empty strings included), with the payload's value |
| Handlers.UpdateSettings | main.py:196-202 | the reply is a read of the resulting store; properties and offers are untouched; an empty update writes nothing; otherwise sent fields override and all other stored fields survive |
| HandlerLemmas.MalformedIdBeatsNotFound | main.py:145-150 | for a malformed id the reply is 400 and identical on every store, so it is never a 404 |
| HandlerLemmas.OfferMalformedIdBeatsNotFound | main.py:159-161 | an acceptable offer body with a malformed property_id gets 400 on every store, and nothing is inserted |
| HandlerLemmas.OfferValidationBeatsIdCheck | main.py:157-159 | a malformed email or negative amount gets the same 422 on every store, naming exactly those fields, before the id is looked at; nothing is inserted |
| HandlerLemmas.OversizedAmountIsNotStored | main.py:159-162 | a valid offer on an existing property whose amount is 2^63 or more ends in a 500 and leaves the store unchanged |
| HandlerLemmas.CreateThenGet | main.py:147-152 | a validated property whose integers fit in 64 bits, inserted into the store, reads back by its returned id with every field equal |
| HandlerLemmas.SubmitThenListOffers | main.py:156-174 | an accepted offer is listed, with its fields, when offers are filtered by the property_id it was sent with |
| HandlerLemmas.SubmitOfferCount | main.py:159-163 | a submission grows the offer collection by one on success and by none on any error; properties and settings never change |
| HandlerLemmas.ListWithoutFiltersReturnsAll | main.py:134-139 | with no truthy parameter every property and every offer is listed, one entry per stored property |
| HandlerLemmas.HandlersKeepOfferReferences | main.py:159-162 | if every stored offer names an existing property by a valid id, that stays true after submitting an offer or updating settings |
| HandlerLemmas.ListOffersSkipsIdValidation | main.py:167-171 | on a store where every offer references an existing property by a valid id, a malformed property_id gives 400 from the property lookup but an empty offer list, never an error |
| HandlerLemmas.OfferKeepsRawPropertyId | main.py:159-170 | an offer sent with an upper-case property id is not found when offers are filtered by the lower-case id the property is served under |
| HandlerLemmas.ReadSettingsDefaultsNotPersisted | main.py:179-183 | on a store with no settings document the read returns exactly the default values and still leaves no document |
| HandlerLemmas.EmptyUpdateIsRead | main.py:198-200 | the update is empty exactly when every payload field is None, and then updating is the same as reading |
| HandlerLemmas.FirstUpdateStoresOnlySentFields | main.py:201-202 | on a store with no document, sending only an announcement stores just that field, and the re-read holds only it and the id |
| HandlerLemmas.AnnouncementOnlyUpdate | main.py:198-201 | on a store that already has a settings document, sending only an announcement changes that one stored field and nothing else in the store |
| HandlerLemmas.UpdateSettingsIdempotent | main.py:201 | sending the same settings payload twice gives the same reply and store as sending it once |

## Left out

- `POST /seed` is demo-data convenience: it counts each collection, then inserts fixed records into the empty ones.
- `GET /test` reports environment variables and database connectivity, which the model has neither of.
- `GET /schema` and `GET /` return a library-generated JSON schema and a fixed message.
- CORS middleware, routing, the server start-up and reading the port are transport and process plumbing.
- `database.py` is not part of this model. The gateway models the `create_document` and `get_documents` that the handlers call, plus `find_one` and `update_one`, as map operations.
- Schemas.ValidateProperty: image URLs are stored as sent. The normalisation `HttpUrl` applies, such as adding a trailing slash, is library behaviour and is not modelled.
- Schemas.ValidateOffer: the email is stored as sent. Any normalisation `EmailStr` applies is library behaviour and is not modelled.
- Type coercion of request bodies is left out: bodies arrive already typed.
- `bathrooms` is a `real`, compared only with 0, so floating-point behaviour is not modelled.
- ObjectIds: the model accepts exactly the strings of 24 hex digits. The bson library, which is not part of this model, also lets whitespace through `bytes.fromhex`, and that quirk is not modelled.
- Real ObjectIds are built from a timestamp, a random value and a counter. The model picks the lowest unused id instead.
- Listing results are keyed by id string. The store's return order is not modelled.
- async execution, concurrency between requests, and the window between the existence check and the insert in `submit_offer` are left out. Every handler here runs on its own as one step.
- Store outages and connection errors are left out, because the store is a value here.
