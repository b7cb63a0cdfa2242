/** The web client's direct Airtable integration (src/api/airtableService.ts):
    its record mapping, which reads only the exact camelCase keys, its
    lookup by slug, and the precheck order of its signing. */
module ClientAirtable {

  import opened JsValues
  import opened Text
  import opened ApiTypes
  import opened AirtableFields
  import FunctionsAirtable

  /** The offer shape the client builds. */
  datatype ClientOffer = ClientOffer(
    slug: Value,
    customerName: Value,
    offerAmount: real,
    pdfUrl: Value,
    isSigned: bool,
    signedAt: Option<Value>)

  /** `fields.<name>`, with an absent key read as a falsy value. */
  function Field(fields: map<string, Value>, name: string): Value {
    if name in fields then fields[name] else Null
  }

  /** `transformAirtableRecord` of the client. */
  function TransformAirtableRecord(record: AirtableRecord, parseFloat: string -> Option<real>): (o: ClientOffer)
    ensures Truthy(o.slug) && Truthy(o.customerName)
    ensures !Truthy(Field(record.fields, "slug")) ==>
      o.slug == Str("record-" + FunctionsAirtable.RecordIdText(record.id))
    ensures !Truthy(Field(record.fields, "pdfUrl")) ==> o.pdfUrl == Str("")
    ensures o.isSigned <==> Truthy(Field(record.fields, "isSigned"))
    ensures o.signedAt.Some? <==> "signedAt" in record.fields
    ensures o.offerAmount == OfferAmount(Field(record.fields, "offerAmount"), parseFloat)
    // `fields.x || default`: a truthy value is kept
    ensures Truthy(Field(record.fields, "slug")) ==> o.slug == Field(record.fields, "slug")
    ensures Truthy(Field(record.fields, "customerName")) ==> o.customerName == Field(record.fields, "customerName")
    ensures !Truthy(Field(record.fields, "customerName")) ==> o.customerName == Str("Unnamed Customer")
    ensures Truthy(Field(record.fields, "pdfUrl")) ==> o.pdfUrl == Field(record.fields, "pdfUrl")
    ensures o.signedAt.Some? ==> o.signedAt.value == record.fields["signedAt"]
  {
    var fields := record.fields;
    ClientOffer(
      slug := Or(Field(fields, "slug"), Str("record-" + FunctionsAirtable.RecordIdText(record.id))),
      customerName := Or(Field(fields, "customerName"), Str("Unnamed Customer")),
      offerAmount := OfferAmount(Field(fields, "offerAmount"), parseFloat),
      pdfUrl := Or(Field(fields, "pdfUrl"), Str("")),
      isSigned := Truthy(Field(fields, "isSigned")),
      signedAt := if "signedAt" in fields then Some(fields["signedAt"]) else None)
  }

  /** The keys the client reads. */
  const ClientFields: seq<string> := ["slug", "customerName", "offerAmount", "pdfUrl", "isSigned", "signedAt"]

  /** Only the exact camelCase keys matter: records that agree on them and
      on the id map to the same offer. */
  lemma ReadsOnlyCamelCaseKeys(r1: AirtableRecord, r2: AirtableRecord, parseFloat: string -> Option<real>)
    requires r1.id == r2.id
    requires FunctionsAirtable.AgreeOn(r1.fields, r2.fields, ClientFields)
    ensures TransformAirtableRecord(r1, parseFloat) == TransformAirtableRecord(r2, parseFloat)
  {
    forall k | 0 <= k < |ClientFields|
      ensures Field(r1.fields, ClientFields[k]) == Field(r2.fields, ClientFields[k])
    {
    }
    assert ClientFields[0] == "slug" && ClientFields[1] == "customerName" && ClientFields[2] == "offerAmount";
    assert ClientFields[3] == "pdfUrl" && ClientFields[4] == "isSigned" && ClientFields[5] == "signedAt";
  }

  /** The string "false" is a signed flag for the client (it is truthy) but
      not for the back end, which reads the same key through its name list. */
  lemma VariantsDisagreeOnFalseString(record: AirtableRecord, parseFloat: string -> Option<real>,
                                      env: FunctionsAirtable.Env)
    requires record.fields == map["isSigned" := Str("false")]
    ensures TransformAirtableRecord(record, parseFloat).isSigned
    ensures FunctionsAirtable.TransformAirtableRecord(record, env).Normal?
    ensures !FunctionsAirtable.TransformAirtableRecord(record, env).value.isSigned
  {
    var f := record.fields;
    assert FunctionsAirtable.IsSignedFields[2] == "isSigned";
    FirstDefinedPicksFirstPresent(f, FunctionsAirtable.IsSignedFields, 2);
    FirstDefinedAbsent(f, FunctionsAirtable.PdfUrlFields);
    ToLowerNoUpper("false");
  }

  /** A record that carries the client's camelCase slug, customerName and
      offerAmount keys, and none of the names the back end tries before
      them, gets the same slug, customer name and amount from both mappings,
      defaults included. */
  lemma VariantsAgreeOnCamelCaseRecord(record: AirtableRecord, parseFloat: string -> Option<real>,
                                      env: FunctionsAirtable.Env)
    requires "slug" in record.fields && "Slug" !in record.fields
    requires "customerName" in record.fields && "Name" !in record.fields && "name" !in record.fields
    requires "offerAmount" in record.fields && "Offer Amount" !in record.fields
    requires env.parseFloat == parseFloat
    requires FunctionsAirtable.TransformAirtableRecord(record, env).Normal?
    ensures var client := TransformAirtableRecord(record, parseFloat);
      var backEnd := FunctionsAirtable.TransformAirtableRecord(record, env).value;
      client.slug == backEnd.slug && client.customerName == backEnd.customerName
      && client.offerAmount == backEnd.offerAmount
  {
    var f := record.fields;
    assert FunctionsAirtable.SlugFields[1] == "slug";
    assert FunctionsAirtable.CustomerNameFields[2] == "customerName";
    assert FunctionsAirtable.OfferAmountFields[1] == "offerAmount";
    FirstDefinedPicksFirstPresent(f, FunctionsAirtable.SlugFields, 1);
    FirstDefinedPicksFirstPresent(f, FunctionsAirtable.CustomerNameFields, 2);
    FirstDefinedPicksFirstPresent(f, FunctionsAirtable.OfferAmountFields, 1);
  }

  const BaseIdRequired := "VITE_AIRTABLE_BASE_ID environment variable is required"
  const ApiKeyRequired := "VITE_AIRTABLE_API_KEY environment variable is required"
  const OfferNotFound := "Offer not found"

  /** The error of `validateConfig`, if any. */
  function ConfigError(config: Config): (e: Option<string>)
    ensures e.None? <==> ConfigValid(config)
    ensures !PresentText(config.baseId) ==> e == Some(BaseIdRequired)
    ensures PresentText(config.baseId) && !PresentText(config.apiKey) ==> e == Some(ApiKeyRequired)
  {
    if !PresentText(config.baseId) then Some(BaseIdRequired)
    else if !PresentText(config.apiKey) then Some(ApiKeyRequired)
    else None
  }

  /** `getOffer` of the client, given the answer to the `{slug}` query.
      Thrown errors become status 500 with their message. */
  function GetOffer(config: Config, byFormula: ListResponse, parseFloat: string -> Option<real>): (r: ApiResponse<ClientOffer>)
    ensures !ConfigValid(config) ==> r == ErrorResponse(ConfigError(config).value, 500)
    ensures r.data.Some? <==> ConfigValid(config) && FunctionsAirtable.Hit(byFormula)
    ensures r.data.Some? ==> r == DataResponse(TransformAirtableRecord(byFormula.records[0], parseFloat), 200)
    ensures ConfigValid(config) && (byFormula == ListFailed(404) || byFormula == ListOk([])) ==>
      r == ErrorResponse(OfferNotFound, 404)
    ensures ConfigValid(config) && byFormula.ListFailed? && byFormula.status != 404 ==>
      r == ErrorResponse("Airtable API error: " + IntToString(byFormula.status), 500)
    ensures ConfigValid(config) && byFormula.ListThrew? ==> r == ErrorResponse(byFormula.message, 500)
  {
    if !ConfigValid(config) then ErrorResponse(ConfigError(config).value, 500)
    else
      match byFormula
      case ListThrew(message) => ErrorResponse(message, 500)
      case ListFailed(status) =>
        if status == 404 then ErrorResponse(OfferNotFound, 404)
        else ErrorResponse("Airtable API error: " + IntToString(status), 500)
      case ListOk(records) =>
        if |records| == 0 then ErrorResponse(OfferNotFound, 404)
        else DataResponse(TransformAirtableRecord(records[0], parseFloat), 200)
  }

  const AlreadySigned := "Offer has already been signed"

  /** The PATCH body of the client: the flag and an ISO time stamp (given). */
  function SignPatch(now: string): map<string, Value> {
    map["isSigned" := Bool(true), "signedAt" := Str(now)]
  }

  /** What signing did: its response, whether the record was looked up, and
      the PATCH body it sent, if any. */
  datatype SignFlow = SignFlow(response: ApiResponse<ClientOffer>, lookedUp: bool, patch: Option<map<string, Value>>)

  /** The prechecks pass and the record is looked up. */
  predicate ReachesLookup(config: Config, getResponse: ApiResponse<ClientOffer>) {
    ConfigValid(config) && !Failed(getResponse) && !getResponse.data.value.isSigned
  }

  /** `signOffer` of the client. `getResponse` is what `getOffer` returned,
      `find` the answer to the lookup query, `update` the answer to the PATCH. */
  function SignOffer(config: Config, getResponse: ApiResponse<ClientOffer>, find: ListResponse,
                     update: RecordResponse, now: string, parseFloat: string -> Option<real>): (f: SignFlow)
    ensures !ConfigValid(config) ==> f == SignFlow(ErrorResponse(ConfigError(config).value, 500), false, None)
    ensures ConfigValid(config) && Failed(getResponse) ==> f == SignFlow(getResponse, false, None)
    ensures ConfigValid(config) && !Failed(getResponse) && getResponse.data.value.isSigned ==>
      f == SignFlow(ErrorResponse(AlreadySigned, 409), false, None)
    ensures f.lookedUp <==> ReachesLookup(config, getResponse)
    ensures f.patch.Some? <==> ReachesLookup(config, getResponse) && FunctionsAirtable.Hit(find)
    ensures f.patch.Some? ==> f.patch.value == SignPatch(now)
    ensures ReachesLookup(config, getResponse) && find == ListOk([]) ==> f.response == ErrorResponse(OfferNotFound, 404)
    ensures ReachesLookup(config, getResponse) && find.ListFailed? ==>
      f.response == ErrorResponse("Failed to find record: " + IntToString(find.status), 500)
    ensures ReachesLookup(config, getResponse) && find.ListThrew? ==>
      f.response == ErrorResponse(find.message, 500)
    ensures ReachesLookup(config, getResponse) ==>
      (f.response.data.Some? <==> f.patch.Some? && update.RecordOk?)
    ensures f.patch.Some? && update.RecordOk? ==>
      f.response == DataResponse(TransformAirtableRecord(update.record, parseFloat), 200)
    ensures f.patch.Some? && update.RecordFailed? ==>
      f.response == ErrorResponse("Failed to update record: " + IntToString(update.status), 500)
    ensures f.patch.Some? && update.RecordThrew? ==> f.response == ErrorResponse(update.message, 500)
  {
    if !ConfigValid(config) then SignFlow(ErrorResponse(ConfigError(config).value, 500), false, None)
    else if Failed(getResponse) then SignFlow(getResponse, false, None)
    else if getResponse.data.value.isSigned then SignFlow(ErrorResponse(AlreadySigned, 409), false, None)
    else
      match find
      case ListThrew(message) => SignFlow(ErrorResponse(message, 500), true, None)
      case ListFailed(status) =>
        SignFlow(ErrorResponse("Failed to find record: " + IntToString(status), 500), true, None)
      case ListOk(records) =>
        if |records| == 0 then SignFlow(ErrorResponse(OfferNotFound, 404), true, None)
        else
          var response :=
            match update
            case RecordThrew(message) => ErrorResponse(message, 500)
            case RecordFailed(status, _) => ErrorResponse("Failed to update record: " + IntToString(status), 500)
            case RecordOk(record) => DataResponse(TransformAirtableRecord(record, parseFloat), 200);
          SignFlow(response, true, Some(SignPatch(now)))
  }

  /** A record returned with the client's patch applied reads back as signed,
      at the time sent, on the client and on the back end alike. */
  lemma PatchedRecordReadsSigned(record: AirtableRecord, now: string, parseFloat: string -> Option<real>,
                                 env: FunctionsAirtable.Env)
    requires record.fields == SignPatch(now)
    ensures TransformAirtableRecord(record, parseFloat).isSigned
    ensures TransformAirtableRecord(record, parseFloat).signedAt == Some(Str(now))
    ensures FunctionsAirtable.TransformAirtableRecord(record, env).Normal?
    ensures FunctionsAirtable.TransformAirtableRecord(record, env).value.isSigned
    ensures FunctionsAirtable.TransformAirtableRecord(record, env).value.signedAt == Some(Str(now))
  {
    var f := record.fields;
    assert f.Keys == {"isSigned", "signedAt"};
    assert FunctionsAirtable.IsSignedFields[2] == "isSigned";
    assert FunctionsAirtable.SignedAtFields[1] == "signedAt";
    FirstDefinedPicksFirstPresent(f, FunctionsAirtable.IsSignedFields, 2);
    FirstDefinedPicksFirstPresent(f, FunctionsAirtable.SignedAtFields, 1);
    FirstDefinedAbsent(f, FunctionsAirtable.PdfUrlFields);
  }
}
