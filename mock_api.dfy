/** The development HTTP endpoints (functions/src/index.ts): an in-memory
    store of three offers, `getOffer`, `signOffer` (the only writer, which
    can only move an offer from unsigned to signed), and the `api` router
    that forwards `offer/<slug>` paths to them. The request's first path
    parameter is an optional string; the clock is a parameter. */
module MockApi {

  import opened JsValues
  import opened Text

  datatype StoredOffer = StoredOffer(
    slug: string,
    customerName: string,
    offerAmount: real,
    pdfUrl: string,
    isSigned: bool,
    signedAt: Option<string>)

  /** The JSON body of a response. */
  datatype Body =
    | OfferBody(offer: StoredOffer)
    | ErrorBody(error: string)
    | EndpointNotFound(path: string)

  datatype HttpResponse = HttpResponse(status: int, body: Body)

  const DummyPdf := "https://www.w3.org/WAI/ER/tests/xhtml/testfiles/resources/pdf/dummy.pdf"

  /** The store's contents when the module loads. */
  const InitialOffers: map<string, StoredOffer> := map[
    "test-offer-123" := StoredOffer("test-offer-123", "John Doe", 150000.0, DummyPdf, false, None),
    "signed-offer-456" := StoredOffer("signed-offer-456", "Jane Smith", 275000.0, DummyPdf, true,
                                      Some("2024-06-14T10:30:00Z")),
    "offer-789" := StoredOffer("offer-789", "Alice Johnson", 320000.0, DummyPdf, false, None)]

  /** What every state of the store satisfies: each offer is stored under its
      own slug, and it has a signing time exactly when it is signed. */
  predicate Consistent(offers: map<string, StoredOffer>) {
    forall k | k in offers :: offers[k].slug == k && (offers[k].isSigned <==> offers[k].signedAt.Some?)
  }

  lemma InitialOffersConsistent()
    ensures Consistent(InitialOffers)
  {
    assert InitialOffers.Keys == {"test-offer-123", "signed-offer-456", "offer-789"};
  }

  const MissingSlug := "Missing slug parameter"
  const OfferNotFound := "Offer not found"
  const AlreadySigned := "Offer has already been signed"
  const MethodNotAllowed := "Method not allowed"

  function Error(status: int, message: string): HttpResponse {
    HttpResponse(status, ErrorBody(message))
  }

  const GetPrefix := "api/offer/"

  /** `request.params[0]?.replace('api/offer/', '')` */
  function GetSlug(param: Option<string>): (slug: Option<string>)
    ensures slug.None? <==> param.None?
    ensures param.Some? && StartsWith(param.value, GetPrefix) ==> slug == Some(param.value[|GetPrefix|..])
  {
    match param
    case None => None
    case Some(p) =>
      RemovesLeadingPrefix(p, GetPrefix);
      Some(ReplaceFirst(p, GetPrefix, ""))
  }

  /** Removing a pattern the text starts with leaves the rest of the text. */
  lemma RemovesLeadingPrefix(s: string, pat: string)
    ensures StartsWith(s, pat) ==> ReplaceFirst(s, pat, "") == s[|pat|..]
  {
    if StartsWith(s, pat) {
      assert s == pat + s[|pat|..];
      ReplaceLeadingOccurrence(pat, s[|pat|..]);
    }
  }

  /** `getOffer` on the store's contents. */
  function GetOffer(offers: map<string, StoredOffer>, param: Option<string>): (r: HttpResponse)
    ensures !PresentText(GetSlug(param)) ==> r == Error(400, MissingSlug)
    ensures PresentText(GetSlug(param)) ==>
      var slug := GetSlug(param).value;
      && (slug in offers ==> r == HttpResponse(200, OfferBody(offers[slug])))
      && (slug !in offers ==> r == Error(404, OfferNotFound))
  {
    var slug := GetSlug(param);
    if !PresentText(slug) then Error(400, MissingSlug)
    else if slug.value !in offers then Error(404, OfferNotFound)
    else HttpResponse(200, OfferBody(offers[slug.value]))
  }

  /** `request.params[0]?.split('/')[2]`: the slug of api/offer/<slug>/sign. */
  function SignSlug(param: Option<string>): (slug: Option<string>)
    ensures slug.Some? <==> param.Some? && Count(param.value, '/') >= 2
    ensures slug.Some? ==> '/' !in slug.value
  {
    match param
    case None => None
    case Some(p) =>
      var parts := Split(p, '/');
      SplitCount(p, '/');
      if |parts| > 2 then Some(parts[2]) else None
  }

  /** The response of `signOffer` and the store after it. */
  datatype SignResult = SignResult(response: HttpResponse, offers: map<string, StoredOffer>)

  /** `signOffer` as a transition of the store's contents. */
  function SignRequest(offers: map<string, StoredOffer>, httpMethod: string, param: Option<string>,
                       now: string): (r: SignResult)
    ensures httpMethod != "POST" ==> r == SignResult(Error(405, MethodNotAllowed), offers)
    ensures httpMethod == "POST" && !PresentText(SignSlug(param)) ==> r == SignResult(Error(400, MissingSlug), offers)
    ensures httpMethod == "POST" && PresentText(SignSlug(param)) ==> r == SignSlugIn(offers, SignSlug(param).value, now)
  {
    if httpMethod != "POST" then SignResult(Error(405, MethodNotAllowed), offers)
    else
      var slug := SignSlug(param);
      if !PresentText(slug) then SignResult(Error(400, MissingSlug), offers)
      else SignSlugIn(offers, slug.value, now)
  }

  /** Signing the offer stored under `slug`. */
  function SignSlugIn(offers: map<string, StoredOffer>, slug: string, now: string): (r: SignResult)
    ensures slug !in offers ==> r == SignResult(Error(404, OfferNotFound), offers)
    ensures slug in offers && offers[slug].isSigned ==> r == SignResult(Error(409, AlreadySigned), offers)
    ensures slug in offers && !offers[slug].isSigned ==>
      && r.offers.Keys == offers.Keys
      && r.offers[slug] == offers[slug].(isSigned := true, signedAt := Some(now))
      && (forall k | k in offers && k != slug :: r.offers[k] == offers[k])
      && r.response == HttpResponse(200, OfferBody(r.offers[slug]))
  {
    if slug !in offers then SignResult(Error(404, OfferNotFound), offers)
    else
      var offer := offers[slug];
      if offer.isSigned then SignResult(Error(409, AlreadySigned), offers)
      else
        var updated := offer.(isSigned := true, signedAt := Some(now));
        SignResult(HttpResponse(200, OfferBody(updated)), offers[slug := updated])
  }

  /** Any method but POST is refused before the store is looked at: the
      answer is the same for every store, and no store changes. */
  lemma NonPostIgnoresStore(o1: map<string, StoredOffer>, o2: map<string, StoredOffer>, httpMethod: string,
                            param: Option<string>, now: string)
    requires httpMethod != "POST"
    ensures SignRequest(o1, httpMethod, param, now).response == SignRequest(o2, httpMethod, param, now).response
    ensures SignRequest(o1, httpMethod, param, now).offers == o1
  {
  }

  /** Signing keeps the store consistent. */
  lemma SignKeepsConsistent(offers: map<string, StoredOffer>, httpMethod: string, param: Option<string>, now: string)
    requires Consistent(offers)
    ensures Consistent(SignRequest(offers, httpMethod, param, now).offers)
  {
  }

  /** Signing only moves offers from unsigned to signed: no offer appears or
      disappears, and a signed offer stays exactly as it was. */
  lemma SignIsMonotone(offers: map<string, StoredOffer>, httpMethod: string, param: Option<string>, now: string)
    ensures SignRequest(offers, httpMethod, param, now).offers.Keys == offers.Keys
    ensures forall k | k in offers && offers[k].isSigned ::
      SignRequest(offers, httpMethod, param, now).offers[k] == offers[k]
    ensures forall k | k in offers ::
      SignRequest(offers, httpMethod, param, now).offers[k].isSigned
      || SignRequest(offers, httpMethod, param, now).offers[k] == offers[k]
  {
  }

  /** A second signature of the same offer is refused with 409 and changes nothing. */
  lemma SignTwiceConflicts(offers: map<string, StoredOffer>, param: Option<string>, now: string, later: string)
    requires PresentText(SignSlug(param)) && SignSlug(param).value in offers
    ensures var once := SignRequest(offers, "POST", param, now);
      SignRequest(once.offers, "POST", param, later) == SignResult(Error(409, AlreadySigned), once.offers)
  {
  }

  // ---- the router ----

  /** Where `api` sends a request: to `signOffer` or `getOffer` with a
      rewritten path parameter, or nowhere. */
  datatype Route = ToSign(param: string) | ToGet(param: string) | NoRoute(path: string)

  /** `path.split('/')[1]` for a path starting with "offer/". */
  function RouteSlug(path: string): (slug: string)
    ensures '/' !in slug
    ensures Count(path, '/') == 0 ==> slug == ""
  {
    var parts := Split(path, '/');
    SplitCount(path, '/');
    if |parts| > 1 then parts[1] else ""
  }

  function Router(httpMethod: string, param: Option<string>): (r: Route)
    ensures var path := if param.Some? then param.value else "";
      && (StartsWith(path, "offer/") && EndsWith(path, "/sign") && httpMethod == "POST" ==>
            r == ToSign("api/offer/" + RouteSlug(path) + "/sign"))
      && (StartsWith(path, "offer/") && !(EndsWith(path, "/sign") && httpMethod == "POST") && httpMethod == "GET" ==>
            r == ToGet("api/offer/" + RouteSlug(path)))
      && (!StartsWith(path, "offer/") || (httpMethod != "POST" && httpMethod != "GET")
          || (httpMethod == "POST" && !EndsWith(path, "/sign")) ==>
            r == NoRoute(path))
  {
    var path := if param.Some? then param.value else "";
    if StartsWith(path, "offer/") && EndsWith(path, "/sign") && httpMethod == "POST" then
      ToSign("api/offer/" + RouteSlug(path) + "/sign")
    else if StartsWith(path, "offer/") && httpMethod == "GET" then
      ToGet("api/offer/" + RouteSlug(path))
    else NoRoute(path)
  }

  /** The slug the router extracts is the text between the first and the
      second '/', and has no '/' in it. */
  lemma RouteSlugOfOfferPath(slug: string, rest: string)
    requires '/' !in slug
    ensures RouteSlug("offer/" + slug) == slug
    ensures RouteSlug("offer/" + slug + "/" + rest) == slug
  {
    assert "offer/" + slug == "offer" + ['/'] + slug;
    SplitAtFirstSeparator("offer", '/', slug);
    SplitNoSeparator(slug, '/');
    assert "offer/" + slug + "/" + rest == "offer" + ['/'] + (slug + ['/'] + rest);
    SplitAtFirstSeparator("offer", '/', slug + ['/'] + rest);
    SplitAtFirstSeparator(slug, '/', rest);
  }

  /** The forwarded parameters give the handlers back the router's slug. */
  lemma ForwardedSlugsRoundTrip(slug: string)
    requires '/' !in slug
    ensures SignSlug(Some("api/offer/" + slug + "/sign")) == Some(slug)
    ensures GetSlug(Some("api/offer/" + slug)) == Some(slug)
  {
    ReplaceLeadingOccurrence(GetPrefix, slug);
    ForwardedSignSlug(slug);
  }

  lemma ForwardedSignSlug(slug: string)
    requires '/' !in slug
    ensures Split("api/offer/" + slug + "/sign", '/') == ["api", "offer", slug, "sign"]
  {
    var tail := ['/'] + "sign";
    var rest := "offer" + (['/'] + (slug + tail));
    assert "/sign" == tail;
    assert "api/offer/" == "api" + (['/'] + ("offer" + ['/']));
    assert "api/offer/" + slug + "/sign" == "api" + (['/'] + rest);
    SplitFourSegments("api", "offer", slug, "sign", '/');
  }

  /** Splitting a<sep>b<sep>c<sep>d at `sep` gives back its four segments. */
  lemma {:induction false} SplitFourSegments(a: string, b: string, c: string, d: string, sep: char)
    requires sep !in a && sep !in b && sep !in c && sep !in d
    ensures Split(a + ([sep] + (b + ([sep] + (c + ([sep] + d))))), sep) == [a, b, c, d]
  {
    SplitNoSeparator(d, sep);
    SplitBefore(c, sep, d, [d]);
    SplitBefore(b, sep, c + ([sep] + d), [c, d]);
    SplitBefore(a, sep, b + ([sep] + (c + ([sep] + d))), [b, c, d]);
  }

  /** A separator-free piece put in front of a text with its separator adds
      one piece in front of the text's pieces. */
  lemma {:induction false} SplitBefore(a: string, sep: char, b: string, pieces: seq<string>)
    requires sep !in a && Split(b, sep) == pieces
    ensures Split(a + ([sep] + b), sep) == [a] + pieces
  {
    assert a + ([sep] + b) == a + [sep] + b;
    SplitAtFirstSeparator(a, sep, b);
  }

  /** The store: `mockOffers`, changed in place by `signOffer`. */
  class OfferStore {
    var offers: map<string, StoredOffer>

    predicate Valid()
      reads this
    {
      Consistent(offers)
    }

    constructor ()
      ensures offers == InitialOffers
      ensures Valid()
    {
      offers := InitialOffers;
      InitialOffersConsistent();
    }

    /** The `signOffer` endpoint. */
    method SignOffer(httpMethod: string, param: Option<string>, now: string) returns (response: HttpResponse)
      requires Valid()
      modifies this
      ensures Valid()
      ensures response == SignRequest(old(offers), httpMethod, param, now).response
      ensures offers == SignRequest(old(offers), httpMethod, param, now).offers
    {
      SignKeepsConsistent(offers, httpMethod, param, now);
      if httpMethod != "POST" {
        return Error(405, MethodNotAllowed);
      }
      var slug := SignSlug(param);
      if !PresentText(slug) {
        return Error(400, MissingSlug);
      }
      if slug.value !in offers {
        return Error(404, OfferNotFound);
      }
      var offer := offers[slug.value];
      if offer.isSigned {
        return Error(409, AlreadySigned);
      }
      var updated := offer.(isSigned := true, signedAt := Some(now));
      offers := offers[slug.value := updated];
      response := HttpResponse(200, OfferBody(updated));
    }

    /** The `api` endpoint: route, then hand over to the chosen endpoint. */
    method Api(httpMethod: string, param: Option<string>, now: string) returns (response: HttpResponse)
      requires Valid()
      modifies this
      ensures Valid()
      ensures match Router(httpMethod, param)
        case ToSign(p) =>
          response == SignRequest(old(offers), httpMethod, Some(p), now).response
          && offers == SignRequest(old(offers), httpMethod, Some(p), now).offers
        case ToGet(p) => response == GetOffer(old(offers), Some(p)) && offers == old(offers)
        case NoRoute(path) => response == HttpResponse(404, EndpointNotFound(path)) && offers == old(offers)
    {
      match Router(httpMethod, param)
      case ToSign(p) =>
        response := SignOffer(httpMethod, Some(p), now);
      case ToGet(p) =>
        response := GetOffer(offers, Some(p));
      case NoRoute(path) =>
        response := HttpResponse(404, EndpointNotFound(path));
    }
  }

  /** A POST to offer/<slug>/sign through the router signs the offer stored
      under that slug. */
  lemma RoutedSignReachesSlug(slug: string, offers: map<string, StoredOffer>, now: string)
    requires '/' !in slug && slug != ""
    ensures Router("POST", Some("offer/" + slug + "/sign")) == ToSign("api/offer/" + slug + "/sign")
    ensures SignRequest(offers, "POST", Some("api/offer/" + slug + "/sign"), now) == SignSlugIn(offers, slug, now)
  {
    var path := "offer/" + slug + "/sign";
    assert path == "offer/" + (slug + "/sign");
    StartsWithConcat("offer/", slug + "/sign");
    assert path[|path| - 5..] == "/sign";
    RouteSlugOfOfferPath(slug, "sign");
    assert path == "offer/" + slug + "/" + "sign";
    ForwardedSlugsRoundTrip(slug);
  }

  /** A GET of offer/<slug> through the router answers with the offer stored
      under that slug. */
  lemma RoutedGetReachesSlug(slug: string, offers: map<string, StoredOffer>)
    requires '/' !in slug && slug != ""
    ensures Router("GET", Some("offer/" + slug)) == ToGet("api/offer/" + slug)
    ensures slug in offers ==> GetOffer(offers, Some("api/offer/" + slug)) == HttpResponse(200, OfferBody(offers[slug]))
    ensures slug !in offers ==> GetOffer(offers, Some("api/offer/" + slug)) == Error(404, OfferNotFound)
  {
    StartsWithConcat("offer/", slug);
    RouteSlugOfOfferPath(slug, "");
    ForwardedSlugsRoundTrip(slug);
  }

  /** After a successful signature a read of the same offer shows it signed
      at the time given. */
  lemma SignThenGetShowsSigned(offers: map<string, StoredOffer>, slug: string, now: string)
    requires '/' !in slug && slug != ""
    requires slug in offers && !offers[slug].isSigned
    ensures var after := SignRequest(offers, "POST", Some("api/offer/" + slug + "/sign"), now).offers;
      GetOffer(after, Some("api/offer/" + slug))
        == HttpResponse(200, OfferBody(offers[slug].(isSigned := true, signedAt := Some(now))))
  {
    ForwardedSlugsRoundTrip(slug);
  }
}
