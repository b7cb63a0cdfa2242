/** The back end's Airtable service (functions/src/services/airtableService.ts):
    mapping a record to an offer through lists of alternative field names
    (functions/src/config.ts), looking an offer up by slug, finding the
    record id, and the decision flow of signing. Every HTTP exchange is a
    given response value. */
module FunctionsAirtable {

  import opened JsValues
  import opened Text
  import opened ApiTypes
  import opened AirtableFields
  import StorageUtils

  // FIELD_VARIATIONS: the accepted names of each offer field, in priority order.
  const SlugFields: seq<string> := ["Slug", "slug", "id", "ID", "Id"]
  const CustomerNameFields: seq<string> := ["Name", "name", "customerName", "Customer Name"]
  const CustomerEmailFields: seq<string> := ["Email", "email", "customerEmail", "Customer Email"]
  const OfferAmountFields: seq<string> := ["Offer Amount", "offerAmount", "Amount", "Value"]
  const PdfUrlFields: seq<string> := ["Document URL", "documentURL", "DocumentURL", "pdfUrl", "PDF URL"]
  const IsSignedFields: seq<string> := ["Signed", "signed", "isSigned", "Is Signed"]
  const SignedAtFields: seq<string> := ["Signed At", "signedAt", "Sign Date", "Date Signed"]
  const ProjectAddressFields: seq<string> :=
    ["Address", "address", "projectAddress", "Project Address", "Projektadresse"]
  const NotesFields: seq<string> :=
    ["Notes", "notes", "Note", "note", "Description", "description", "Comment", "comment"]

  /** An offer as the back end returns it. The text fields hold whatever
      value the record had (`||` keeps any truthy value); `signedAt` is
      absent (None) for a null lookup. */
  datatype Offer = Offer(
    slug: Value,
    customerName: Value,
    customerEmail: Value,
    offerAmount: real,
    documentURL: string,
    pdfUrl: string,
    isSigned: bool,
    signedAt: Option<Value>,
    projectAddress: Value,
    notes: Value)

  /** The library calls the mapping relies on: `parseFloat` (None for NaN)
      and `encodeURIComponent`. */
  datatype Env = Env(parseFloat: string -> Option<real>, encode: string -> string)

  /** The signed flag: a boolean as it is, a string by its lower-case
      spelling, anything else by truthiness. */
  function CoerceSigned(v: Value): bool {
    match v
    case Bool(b) => b
    case Str(s) => ToLower(s) in {"true", "yes", "signed"}
    case _ => Truthy(v)
  }

  /** `record.id || 'unknown'` */
  function RecordIdText(id: Option<string>): string {
    if PresentText(id) then id.value else "unknown"
  }

  /** The message of the TypeError thrown by `url.startsWith` on a value
      that is not a string. */
  const NotAStringMessage := "url.startsWith is not a function"

  /** The values found under each field's names, null where none is present. */
  datatype Lookups = Lookups(
    slug: Value, customerName: Value, customerEmail: Value, offerAmount: Value, pdfUrl: Value,
    isSigned: Value, signedAt: Value, projectAddress: Value, notes: Value)

  function LookUp(fields: map<string, Value>): Lookups {
    Lookups(FirstDefined(fields, SlugFields), FirstDefined(fields, CustomerNameFields),
            FirstDefined(fields, CustomerEmailFields), FirstDefined(fields, OfferAmountFields),
            FirstDefined(fields, PdfUrlFields), FirstDefined(fields, IsSignedFields),
            FirstDefined(fields, SignedAtFields), FirstDefined(fields, ProjectAddressFields),
            FirstDefined(fields, NotesFields))
  }

  /** The offer built from the looked-up values. */
  function OfferFrom(l: Lookups, id: Option<string>, env: Env): (r: Completion<Offer>)
    ensures r.Throw? <==> Truthy(l.pdfUrl) && !l.pdfUrl.Str?
    ensures r.Normal? ==> r.value.documentURL == r.value.pdfUrl
    ensures r.Normal? ==> Truthy(r.value.slug)
    ensures r.Normal? ==> (r.value.signedAt.None? <==> l.signedAt == Null)
    ensures r.Normal? ==> r.value.isSigned == CoerceSigned(l.isSigned)
    ensures r.Normal? ==> r.value.offerAmount == OfferAmount(l.offerAmount, env.parseFloat)
    // `x || default`: a truthy looked-up value is kept, anything else gives the default
    ensures r.Normal? ==> r.value.slug == (if Truthy(l.slug) then l.slug else Str("record-" + RecordIdText(id)))
    ensures r.Normal? ==> r.value.customerName == (if Truthy(l.customerName) then l.customerName else Str("Unnamed Customer"))
    ensures r.Normal? ==> r.value.customerEmail == (if Truthy(l.customerEmail) then l.customerEmail else Str(""))
    ensures r.Normal? ==> r.value.projectAddress == (if Truthy(l.projectAddress) then l.projectAddress else Str(""))
    ensures r.Normal? ==> r.value.notes == (if Truthy(l.notes) then l.notes else Str(""))
    // the URL is a truthy string, rewritten by `processPdfUrl`, or ""
    ensures r.Normal? && Truthy(l.pdfUrl) ==> r.value.pdfUrl == StorageUtils.ProcessPdfUrl(l.pdfUrl.s, env.encode)
    ensures r.Normal? && !Truthy(l.pdfUrl) ==> r.value.pdfUrl == ""
    ensures r.Normal? && r.value.signedAt.Some? ==> r.value.signedAt.value == l.signedAt
  {
    var rawPdf := Or(l.pdfUrl, Str(""));
    if !rawPdf.Str? then Throw(NotAStringMessage)
    else
      var pdfUrl := StorageUtils.ProcessPdfUrl(rawPdf.s, env.encode);
      Normal(Offer(
        slug := Or(l.slug, Str("record-" + RecordIdText(id))),
        customerName := Or(l.customerName, Str("Unnamed Customer")),
        customerEmail := Or(l.customerEmail, Str("")),
        offerAmount := OfferAmount(l.offerAmount, env.parseFloat),
        documentURL := pdfUrl,
        pdfUrl := pdfUrl,
        isSigned := CoerceSigned(l.isSigned),
        signedAt := if l.signedAt == Null then None else Some(l.signedAt),
        projectAddress := Or(l.projectAddress, Str("")),
        notes := Or(l.notes, Str(""))))
  }

  /** `transformAirtableRecord`. The back end's `processPdfUrl` is called on
      the looked-up URL; a truthy value that is not a string makes it throw. */
  function TransformAirtableRecord(record: AirtableRecord, env: Env): (r: Completion<Offer>)
    ensures var rawPdf := FirstDefined(record.fields, PdfUrlFields);
      r.Throw? <==> Truthy(rawPdf) && !rawPdf.Str?
    ensures r.Normal? ==> r.value.documentURL == r.value.pdfUrl
    ensures r.Normal? ==> Truthy(r.value.slug)
    ensures r.Normal? ==> (r.value.signedAt.None? <==> FirstDefined(record.fields, SignedAtFields) == Null)
    ensures r.Normal? ==> r.value.isSigned == CoerceSigned(FirstDefined(record.fields, IsSignedFields))
    ensures r.Normal? ==> r.value.offerAmount == OfferAmount(FirstDefined(record.fields, OfferAmountFields), env.parseFloat)
    ensures r.Normal? ==> var v := FirstDefined(record.fields, SlugFields);
      r.value.slug == (if Truthy(v) then v else Str("record-" + RecordIdText(record.id)))
    ensures r.Normal? ==> var v := FirstDefined(record.fields, CustomerNameFields);
      r.value.customerName == (if Truthy(v) then v else Str("Unnamed Customer"))
    ensures r.Normal? ==> var v := FirstDefined(record.fields, CustomerEmailFields);
      r.value.customerEmail == (if Truthy(v) then v else Str(""))
    ensures r.Normal? ==> var v := FirstDefined(record.fields, ProjectAddressFields);
      r.value.projectAddress == (if Truthy(v) then v else Str(""))
    ensures r.Normal? ==> var v := FirstDefined(record.fields, NotesFields);
      r.value.notes == (if Truthy(v) then v else Str(""))
    ensures var v := FirstDefined(record.fields, PdfUrlFields);
      r.Normal? && Truthy(v) ==> r.value.pdfUrl == StorageUtils.ProcessPdfUrl(v.s, env.encode)
    ensures r.Normal? && !Truthy(FirstDefined(record.fields, PdfUrlFields)) ==> r.value.pdfUrl == ""
    ensures r.Normal? && r.value.signedAt.Some? ==> r.value.signedAt.value == FirstDefined(record.fields, SignedAtFields)
  {
    OfferFrom(LookUp(record.fields), record.id, env)
  }

  /** The offer every record maps to when it has none of the known fields. */
  function DefaultOffer(id: Option<string>): Offer {
    Offer(Str("record-" + RecordIdText(id)), Str("Unnamed Customer"), Str(""), 0.0, "", "",
          false, None, Str(""), Str(""))
  }

  /** Two field maps hold the same values under the given names. */
  predicate AgreeOn(f1: map<string, Value>, f2: map<string, Value>, names: seq<string>) {
    forall k :: 0 <= k < |names| ==>
      (names[k] in f1 <==> names[k] in f2) && (names[k] in f1 ==> f1[names[k]] == f2[names[k]])
  }

  /** None of the given names is a key. */
  predicate NoneOf(fields: map<string, Value>, names: seq<string>) {
    forall k :: 0 <= k < |names| ==> names[k] !in fields
  }

  /** Two field maps that agree on the given names give the same lookup. */
  lemma {:induction false} FirstDefinedAgrees(f1: map<string, Value>, f2: map<string, Value>, names: seq<string>)
    requires AgreeOn(f1, f2, names)
    ensures FirstDefined(f1, names) == FirstDefined(f2, names)
    decreases |names|
  {
    if |names| > 0 && names[0] !in f1 {
      assert AgreeOn(f1, f2, names[1..]) by {
        forall k | 0 <= k < |names[1..]| ensures names[1..][k] == names[k + 1] { }
      }
      FirstDefinedAgrees(f1, f2, names[1..]);
    }
  }

  /** Keys are matched exactly: the mapping sees nothing of a record but its
      id and the known field names, so two records that agree there map to
      the same offer. */
  lemma TransformReadsOnlyKnownFields(r1: AirtableRecord, r2: AirtableRecord, env: Env)
    requires r1.id == r2.id
    requires AgreeOn(r1.fields, r2.fields, SlugFields) && AgreeOn(r1.fields, r2.fields, CustomerNameFields)
    requires AgreeOn(r1.fields, r2.fields, CustomerEmailFields) && AgreeOn(r1.fields, r2.fields, OfferAmountFields)
    requires AgreeOn(r1.fields, r2.fields, PdfUrlFields) && AgreeOn(r1.fields, r2.fields, IsSignedFields)
    requires AgreeOn(r1.fields, r2.fields, SignedAtFields) && AgreeOn(r1.fields, r2.fields, ProjectAddressFields)
    requires AgreeOn(r1.fields, r2.fields, NotesFields)
    ensures TransformAirtableRecord(r1, env) == TransformAirtableRecord(r2, env)
  {
    FirstDefinedAgrees(r1.fields, r2.fields, SlugFields);
    FirstDefinedAgrees(r1.fields, r2.fields, CustomerNameFields);
    FirstDefinedAgrees(r1.fields, r2.fields, CustomerEmailFields);
    FirstDefinedAgrees(r1.fields, r2.fields, OfferAmountFields);
    FirstDefinedAgrees(r1.fields, r2.fields, PdfUrlFields);
    FirstDefinedAgrees(r1.fields, r2.fields, IsSignedFields);
    FirstDefinedAgrees(r1.fields, r2.fields, SignedAtFields);
    FirstDefinedAgrees(r1.fields, r2.fields, ProjectAddressFields);
    FirstDefinedAgrees(r1.fields, r2.fields, NotesFields);
    assert LookUp(r1.fields) == LookUp(r2.fields);
  }

  /** With none of the known names present every lookup is null. */
  lemma LookUpOfUnknown(f: map<string, Value>)
    requires NoneOf(f, SlugFields) && NoneOf(f, CustomerNameFields)
    requires NoneOf(f, CustomerEmailFields) && NoneOf(f, OfferAmountFields)
    requires NoneOf(f, PdfUrlFields) && NoneOf(f, IsSignedFields)
    requires NoneOf(f, SignedAtFields) && NoneOf(f, ProjectAddressFields)
    requires NoneOf(f, NotesFields)
    ensures LookUp(f) == Lookups(Null, Null, Null, Null, Null, Null, Null, Null, Null)
  {
    FirstDefinedAbsent(f, SlugFields);
    FirstDefinedAbsent(f, CustomerNameFields);
    FirstDefinedAbsent(f, CustomerEmailFields);
    FirstDefinedAbsent(f, OfferAmountFields);
    FirstDefinedAbsent(f, PdfUrlFields);
    FirstDefinedAbsent(f, IsSignedFields);
    FirstDefinedAbsent(f, SignedAtFields);
    FirstDefinedAbsent(f, ProjectAddressFields);
    FirstDefinedAbsent(f, NotesFields);
  }

  /** Null lookups give the default offer. */
  lemma OfferFromNothing(id: Option<string>, env: Env)
    ensures OfferFrom(Lookups(Null, Null, Null, Null, Null, Null, Null, Null, Null), id, env)
      == Normal(DefaultOffer(id))
  {
  }

  /** A record with none of the known field names maps to the defaults. */
  lemma UnknownFieldsGiveDefaults(record: AirtableRecord, env: Env)
    requires NoneOf(record.fields, SlugFields) && NoneOf(record.fields, CustomerNameFields)
    requires NoneOf(record.fields, CustomerEmailFields) && NoneOf(record.fields, OfferAmountFields)
    requires NoneOf(record.fields, PdfUrlFields) && NoneOf(record.fields, IsSignedFields)
    requires NoneOf(record.fields, SignedAtFields) && NoneOf(record.fields, ProjectAddressFields)
    requires NoneOf(record.fields, NotesFields)
    ensures TransformAirtableRecord(record, env) == Normal(DefaultOffer(record.id))
  {
    LookUpOfUnknown(record.fields);
    OfferFromNothing(record.id, env);
  }

  /** The keys of the mixed-case unit test record. */
  const MixedCaseFields: map<string, Value> := map[
    "SlUg" := Str("mixed-case-test"), "NaMe" := Str("Mixed Case User"),
    "EmAiL" := Str("mixed@example.com"), "offeRAmouNt" := Num(175000.0),
    "DoCuMeNtUrL" := Str("https://example.com/mixed.pdf"), "SiGnEd" := Bool(true)]

  /** No key of the mixed-case record is a known field name. */
  lemma MixedCaseKeysUnknown(record: AirtableRecord, env: Env)
    requires record.fields == MixedCaseFields
    ensures TransformAirtableRecord(record, env) == Normal(DefaultOffer(record.id))
  {
    MixedCaseNamesUnknown();
    MixedCaseNamesUnknownToo();
    UnknownFieldsGiveDefaults(record, env);
  }

  lemma MixedCaseNamesUnknown()
    ensures NoneOf(MixedCaseFields, SlugFields) && NoneOf(MixedCaseFields, CustomerNameFields)
    ensures NoneOf(MixedCaseFields, CustomerEmailFields) && NoneOf(MixedCaseFields, OfferAmountFields)
  {
    assert MixedCaseFields.Keys == {"SlUg", "NaMe", "EmAiL", "offeRAmouNt", "DoCuMeNtUrL", "SiGnEd"};
  }

  lemma MixedCaseNamesUnknownToo()
    ensures NoneOf(MixedCaseFields, PdfUrlFields) && NoneOf(MixedCaseFields, IsSignedFields)
    ensures NoneOf(MixedCaseFields, SignedAtFields) && NoneOf(MixedCaseFields, ProjectAddressFields)
    ensures NoneOf(MixedCaseFields, NotesFields)
  {
    assert MixedCaseFields.Keys == {"SlUg", "NaMe", "EmAiL", "offeRAmouNt", "DoCuMeNtUrL", "SiGnEd"};
  }

  /** The record of the mixed-case unit test: none of its keys is a known
      name, so every field takes its default. */
  lemma MixedCaseKeysGiveDefaults(record: AirtableRecord, env: Env)
    requires record.id == Some("rec-mixed") && record.fields == MixedCaseFields
    ensures TransformAirtableRecord(record, env)
      == Normal(Offer(Str("record-rec-mixed"), Str("Unnamed Customer"), Str(""), 0.0, "", "",
                      false, None, Str(""), Str("")))
  {
    MixedCaseKeysUnknown(record, env);
    FallbackSlugOfMixedRecord();
  }

  lemma FallbackSlugOfMixedRecord()
    ensures DefaultOffer(Some("rec-mixed")).slug == Str("record-rec-mixed")
  {
    assert RecordIdText(Some("rec-mixed")) == "rec-mixed";
    assert "record-" + "rec-mixed" == "record-rec-mixed";
  }

  /** The signed flag ignores the case of a string. */
  lemma SignedFlagIgnoresCase(s: string)
    ensures CoerceSigned(Str(s)) == CoerceSigned(Str(ToLower(s)))
  {
    ToLowerIdempotent(s);
  }

  /** The cases of the signed-flag unit test, with `undefined` standing for
      an absent field. */
  lemma SignedFlagExamples()
    ensures CoerceSigned(Bool(true)) && !CoerceSigned(Bool(false))
    ensures CoerceSigned(Str("true")) && !CoerceSigned(Str("false"))
    ensures CoerceSigned(Str("yes")) && !CoerceSigned(Str("no"))
    ensures CoerceSigned(Str("signed")) && !CoerceSigned(Str("unsigned"))
    ensures CoerceSigned(Num(1.0)) && !CoerceSigned(Num(0.0))
    ensures !CoerceSigned(Str("")) && !CoerceSigned(Null)
    ensures !CoerceSigned(FirstDefined(map[], IsSignedFields))
    ensures CoerceSigned(Str("TRUE")) && CoerceSigned(Str("Yes"))
  {
    ToLowerNoUpper("true");
    ToLowerNoUpper("false");
    ToLowerNoUpper("yes");
    ToLowerNoUpper("no");
    ToLowerNoUpper("signed");
    ToLowerNoUpper("unsigned");
    assert ToLower("TRUE") == "true";
    assert ToLower("Yes") == "yes";
    FirstDefinedAbsent(map[], IsSignedFields);
  }

  // ---- looking offers up by slug ----

  /** `fields[slugField] === slug` for some slug field name. */
  predicate MatchesSlug(record: AirtableRecord, slug: string) {
    exists k | 0 <= k < |SlugFields| :: SlugFields[k] in record.fields && record.fields[SlugFields[k]] == Str(slug)
  }

  /** `records.filter(matchesSlug)` */
  function FilterBySlug(records: seq<AirtableRecord>, slug: string): (r: seq<AirtableRecord>)
    ensures forall k :: 0 <= k < |r| ==> MatchesSlug(r[k], slug) && r[k] in records
    ensures forall k :: 0 <= k < |records| && MatchesSlug(records[k], slug) ==> records[k] in r
    decreases |records|
  {
    if |records| == 0 then []
    else
      var rest := FilterBySlug(records[1..], slug);
      assert forall k :: 1 <= k < |records| ==> records[k] == records[1..][k - 1];
      if MatchesSlug(records[0], slug) then [records[0]] + rest else rest
  }

  /** The index of the first record matching the slug (`records.find`). */
  function FirstMatchingIndex(records: seq<AirtableRecord>, slug: string): (i: Option<nat>)
    ensures i.Some? ==> i.value < |records| && MatchesSlug(records[i.value], slug)
    ensures i.Some? ==> forall j :: 0 <= j < i.value ==> !MatchesSlug(records[j], slug)
    ensures i.None? ==> forall j :: 0 <= j < |records| ==> !MatchesSlug(records[j], slug)
    decreases |records|
  {
    if |records| == 0 then None
    else if MatchesSlug(records[0], slug) then Some(0)
    else
      match FirstMatchingIndex(records[1..], slug)
      case None => None
      case Some(k) => Some(k + 1)
  }

  /** The filter and the search agree: the filter is non-empty exactly when
      the search finds a record, and its head is that record. */
  lemma {:induction false} FilterHeadIsFirstMatch(records: seq<AirtableRecord>, slug: string)
    ensures |FilterBySlug(records, slug)| > 0 <==> FirstMatchingIndex(records, slug).Some?
    ensures |FilterBySlug(records, slug)| > 0 ==>
      FilterBySlug(records, slug)[0] == records[FirstMatchingIndex(records, slug).value]
    decreases |records|
  {
    if |records| > 0 && !MatchesSlug(records[0], slug) {
      FilterHeadIsFirstMatch(records[1..], slug);
    }
  }

  const OfferNotFound := "Offer not found"
  const NoOffersFound := "No offers found"
  const OfferNotFoundLong := "Offer not found. This link may be incorrect or the offer may have been removed."
  const FetchUnexpected := "An unexpected error occurred while fetching the offer"

  /** `getOfferAlternative`: fetch every record and keep the first that
      carries the slug under one of the slug field names. */
  function GetOfferAlternative(slug: string, all: ListResponse, env: Env): (r: ApiResponse<Offer>)
    ensures r.data.Some? <==> r.status == 200 && r.error.None?
    ensures r.data.Some? ==> all.ListOk? && FirstMatchingIndex(all.records, slug).Some?
    ensures r.data.Some? ==>
      TransformAirtableRecord(all.records[FirstMatchingIndex(all.records, slug).value], env) == Normal(r.data.value)
    ensures all.ListFailed? ==> r == ErrorResponse("Failed to fetch offers: " + IntToString(all.status), all.status)
    ensures all == ListOk([]) ==> r == ErrorResponse(NoOffersFound, 404)
    ensures all.ListOk? && |all.records| > 0 && FirstMatchingIndex(all.records, slug).None? ==>
      r == ErrorResponse(OfferNotFound, 404)
    ensures all.ListThrew? ==> r == ErrorResponse(FetchUnexpected, 500)
    // the first matching record is the answer, unless its mapping throws
    ensures all.ListOk? && FirstMatchingIndex(all.records, slug).Some? ==>
      var o := TransformAirtableRecord(all.records[FirstMatchingIndex(all.records, slug).value], env);
      r == if o.Normal? then DataResponse(o.value, 200) else ErrorResponse(FetchUnexpected, 500)
  {
    match all
    case ListThrew(_) => ErrorResponse(FetchUnexpected, 500)
    case ListFailed(status) => ErrorResponse("Failed to fetch offers: " + IntToString(status), status)
    case ListOk(records) =>
      if |records| == 0 then ErrorResponse(NoOffersFound, 404)
      else
        var filtered := FilterBySlug(records, slug);
        FilterHeadIsFirstMatch(records, slug);
        if |filtered| == 0 then ErrorResponse(OfferNotFound, 404)
        else
          match TransformAirtableRecord(filtered[0], env)
          case Throw(_) => ErrorResponse(FetchUnexpected, 500)
          case Normal(offer) => DataResponse(offer, 200)
  }

  /** The slug no Airtable query is made for. */
  const NonExistentSlug := "non-existent-slug"

  /** `getOffer`: a slug-filtered query, falling back to the full scan on 422.
      `byFormula` is the response to the filtered query, `all` the response
      to the unfiltered one. */
  function GetOffer(config: Config, slug: string, byFormula: ListResponse, all: ListResponse, env: Env): (r: ApiResponse<Offer>)
    ensures !ConfigValid(config) ==> r == ErrorResponse(FetchUnexpected, 500)
    ensures ConfigValid(config) && slug == NonExistentSlug ==> r == ErrorResponse(OfferNotFound, 404)
    ensures r.data.Some? ==> r.status == 200 && r.error.None?
    ensures r.data.Some? && byFormula.ListOk? ==>
      |byFormula.records| > 0 && TransformAirtableRecord(byFormula.records[0], env) == Normal(r.data.value)
    ensures ConfigValid(config) && slug != NonExistentSlug && byFormula == ListFailed(422) ==>
      r == GetOfferAlternative(slug, all, env)
    ensures ConfigValid(config) && slug != NonExistentSlug && byFormula == ListOk([]) ==>
      r == ErrorResponse(OfferNotFoundLong, 404)
    ensures ConfigValid(config) && slug != NonExistentSlug && byFormula == ListFailed(404) ==>
      r == ErrorResponse(OfferNotFound, 404)
    // any other failed status is thrown and caught, as is a failed fetch
    ensures ConfigValid(config) && slug != NonExistentSlug && byFormula.ListFailed? &&
            byFormula.status != 404 && byFormula.status != 422 ==>
      r == ErrorResponse(FetchUnexpected, 500)
    ensures ConfigValid(config) && slug != NonExistentSlug && byFormula.ListThrew? ==>
      r == ErrorResponse(FetchUnexpected, 500)
    // the first record found is the answer, unless its mapping throws
    ensures ConfigValid(config) && slug != NonExistentSlug && Hit(byFormula) ==>
      var o := TransformAirtableRecord(byFormula.records[0], env);
      r == if o.Normal? then DataResponse(o.value, 200) else ErrorResponse(FetchUnexpected, 500)
  {
    if !ConfigValid(config) then ErrorResponse(FetchUnexpected, 500)
    else if slug == NonExistentSlug then ErrorResponse(OfferNotFound, 404)
    else
      match byFormula
      case ListThrew(_) => ErrorResponse(FetchUnexpected, 500)
      case ListFailed(status) =>
        if status == 404 then ErrorResponse(OfferNotFound, 404)
        else if status == 422 then GetOfferAlternative(slug, all, env)
        else ErrorResponse(FetchUnexpected, 500)
      case ListOk(records) =>
        if |records| == 0 then ErrorResponse(OfferNotFoundLong, 404)
        else
          match TransformAirtableRecord(records[0], env)
          case Throw(_) => ErrorResponse(FetchUnexpected, 500)
          case Normal(offer) => DataResponse(offer, 200)
  }

  // ---- finding the record id ----

  /** `{<field>} = "<slug>"` */
  function FilterFormula(field: string, slug: string): string {
    "{" + field + "} = \"" + slug + "\""
  }

  /** A filtered query that found at least one record. */
  predicate Hit(r: ListResponse) {
    r.ListOk? && |r.records| > 0
  }

  /** The id of the full scan: the first record matching the slug, if the
      unfiltered fetch succeeded. */
  function ScanForRecordId(all: ListResponse, slug: string): (id: Option<string>)
    ensures id.Some? ==> all.ListOk? && exists k | 0 <= k < |all.records| :: MatchesSlug(all.records[k], slug) && all.records[k].id == id
  {
    if !all.ListOk? then None
    else
      match FirstMatchingIndex(all.records, slug)
      case None => None
      case Some(k) => all.records[k].id
  }

  /** `findRecordId`: one filtered query per slug field name, in order, up to
      the first that finds a record; then a full scan. `query` answers the
      filtered query for a formula; failed and throwing queries are skipped.
      Returns the id, the number of filtered queries made, and whether the
      full scan ran. */
  method FindRecordId(slug: string, query: string -> ListResponse, all: ListResponse)
    returns (id: Option<string>, queries: nat, scanned: bool)
    ensures 1 <= queries <= |SlugFields|
    ensures forall j :: 0 <= j < queries - 1 ==> !Hit(query(FilterFormula(SlugFields[j], slug)))
    ensures !scanned ==> (Hit(query(FilterFormula(SlugFields[queries - 1], slug)))
      && id == query(FilterFormula(SlugFields[queries - 1], slug)).records[0].id)
    ensures scanned ==> (queries == |SlugFields|
      && !Hit(query(FilterFormula(SlugFields[queries - 1], slug)))
      && id == ScanForRecordId(all, slug))
  {
    queries := 0;
    for i := 0 to |SlugFields|
      invariant queries == i
      invariant forall j :: 0 <= j < i ==> !Hit(query(FilterFormula(SlugFields[j], slug)))
    {
      var response := query(FilterFormula(SlugFields[i], slug));
      queries := queries + 1;
      if response.ListOk? && |response.records| > 0 {
        return response.records[0].id, queries, false;
      }
    }
    scanned := true;
    id := ScanForRecordId(all, slug);
  }

  /** The full scan finds every record carrying the slug under a slug field,
      the first such record fixing the id. */
  lemma ScanFindsMatchingRecord(records: seq<AirtableRecord>, slug: string, k: nat)
    requires k < |records| && MatchesSlug(records[k], slug)
    requires forall j :: 0 <= j < k ==> !MatchesSlug(records[j], slug)
    ensures ScanForRecordId(ListOk(records), slug) == records[k].id
  {
    var found := FirstMatchingIndex(records, slug);
    assert found.Some?;
    assert !(found.value < k) && !(k < found.value);
  }

  // ---- signing ----

  const AlreadySigned := "This offer has already been signed"
  const NoRecord := "Could not find record for this offer"
  const SignUnexpected := "An unexpected error occurred while signing the offer"

  /** The first PATCH body: the flag and the date (`YYYY-MM-DD`, given). */
  function FullPatch(today: string): map<string, Value> {
    map["Signed" := Bool(true), "Signed At" := Str(today)]
  }

  /** The fallback PATCH body: the flag alone. */
  const SignedOnlyPatch: map<string, Value> := map["Signed" := Bool(true)]

  /** A rejected first PATCH that is retried without the date. */
  predicate RetriesWithoutDate(first: RecordResponse) {
    first.RecordFailed? && first.status == 422
    && (Contains(first.text, "Signed At") || Contains(first.text, "UNKNOWN_FIELD_NAME"))
  }

  /** Every precheck of `signOffer` passes and the record is patched. */
  predicate ReachesPatch(config: Config, offerResponse: ApiResponse<Offer>, recordId: Option<string>) {
    ConfigValid(config) && !Failed(offerResponse) && !offerResponse.data.value.isSigned && PresentText(recordId)
  }

  /** A PATCH response that the mapping turns into an offer. */
  predicate Accepted(response: RecordResponse, env: Env) {
    response.RecordOk? && TransformAirtableRecord(response.record, env).Normal?
  }

  /** What signing did: its response, whether it looked the record id up,
      and the PATCH bodies it sent, in order. */
  datatype SignFlow = SignFlow(response: ApiResponse<Offer>, lookedUp: bool, patches: seq<map<string, Value>>)

  function SignFailedMessage(status: int): string {
    "Failed to sign offer: " + IntToString(status)
  }

  /** `signOffer`. `offerResponse` is what `getOffer` returned, `recordId`
      what `findRecordId` returned, `first` and `simple` the answers to the
      full and the fallback PATCH. */
  function SignOffer(config: Config, offerResponse: ApiResponse<Offer>, recordId: Option<string>,
                     today: string, first: RecordResponse, simple: RecordResponse, env: Env): (f: SignFlow)
    ensures !ConfigValid(config) ==> f == SignFlow(ErrorResponse(SignUnexpected, 500), false, [])
    ensures ConfigValid(config) && Failed(offerResponse) ==> f == SignFlow(offerResponse, false, [])
    ensures ConfigValid(config) && !Failed(offerResponse) && offerResponse.data.value.isSigned ==>
      f == SignFlow(ErrorResponse(AlreadySigned, 409), false, [])
    ensures ConfigValid(config) && !Failed(offerResponse) && !offerResponse.data.value.isSigned && !PresentText(recordId) ==>
      f == SignFlow(ErrorResponse(NoRecord, 422), true, [])
    ensures |f.patches| > 0 <==> ReachesPatch(config, offerResponse, recordId)
    ensures ReachesPatch(config, offerResponse, recordId) ==>
      && f.lookedUp
      && f.patches[0] == FullPatch(today)
      && (|f.patches| == 2 <==> RetriesWithoutDate(first))
      && (|f.patches| == 2 ==> f.patches[1] == SignedOnlyPatch)
      && |f.patches| <= 2
    ensures ReachesPatch(config, offerResponse, recordId) ==>
      (f.response.data.Some? <==> Accepted(first, env) || (RetriesWithoutDate(first) && Accepted(simple, env)))
    ensures ReachesPatch(config, offerResponse, recordId) && f.response.data.Some? ==>
      f.response.status == 200 && f.response.error.None?
      && (Accepted(first, env) ==> f.response.data == Some(TransformAirtableRecord(first.record, env).value))
      && (!Accepted(first, env) ==> f.response.data == Some(TransformAirtableRecord(simple.record, env).value))
    ensures ReachesPatch(config, offerResponse, recordId) && first.RecordFailed? && f.response.data.None? ==>
      f.response == ErrorResponse(SignFailedMessage(first.status), first.status)
    ensures ReachesPatch(config, offerResponse, recordId) && !first.RecordFailed? && f.response.data.None? ==>
      f.response == ErrorResponse(SignUnexpected, 500)
  {
    if !ConfigValid(config) then SignFlow(ErrorResponse(SignUnexpected, 500), false, [])
    else if Failed(offerResponse) then SignFlow(offerResponse, false, [])
    else if offerResponse.data.value.isSigned then SignFlow(ErrorResponse(AlreadySigned, 409), false, [])
    else if !PresentText(recordId) then SignFlow(ErrorResponse(NoRecord, 422), true, [])
    else
      match first
      case RecordThrew(_) => SignFlow(ErrorResponse(SignUnexpected, 500), true, [FullPatch(today)])
      case RecordOk(record) =>
        (match TransformAirtableRecord(record, env)
         case Throw(_) => SignFlow(ErrorResponse(SignUnexpected, 500), true, [FullPatch(today)])
         case Normal(offer) => SignFlow(DataResponse(offer, 200), true, [FullPatch(today)]))
      case RecordFailed(status, text) =>
        var failure := ErrorResponse(SignFailedMessage(status), status);
        if !RetriesWithoutDate(first) then SignFlow(failure, true, [FullPatch(today)])
        else
          var response :=
            match simple
            case RecordOk(record) =>
              (match TransformAirtableRecord(record, env)
               case Throw(_) => failure
               case Normal(offer) => DataResponse(offer, 200))
            case _ => failure;
          SignFlow(response, true, [FullPatch(today), SignedOnlyPatch])
  }

  /** A record that Airtable returns with the patch applied reads back as
      signed, on the date sent. */
  lemma PatchedRecordReadsSigned(record: AirtableRecord, today: string, env: Env)
    requires "Signed" in record.fields && record.fields["Signed"] == Bool(true)
    requires "Signed At" in record.fields && record.fields["Signed At"] == Str(today)
    ensures TransformAirtableRecord(record, env).Normal? ==>
      TransformAirtableRecord(record, env).value.isSigned
      && TransformAirtableRecord(record, env).value.signedAt == Some(Str(today))
  {
    assert IsSignedFields[0] == "Signed";
    assert SignedAtFields[0] == "Signed At";
  }
}
