/**
  Request sequences against one store, proved from the handlers' contracts alone:
  create then fetch then visit, and deleting the same code twice.
*/
module Scenarios {
  import opened JsValues
  import opened JsStrings
  import opened CodeGenerator
  import opened UrlValidator
  import opened LinkStore
  import opened Http
  import opened LinksApi
  import opened RedirectRoute

  /** POST with a fresh custom code, GET /api/links/:code, GET /:code, GET /api/links/:code again.
      The new link is fetched at once with its code and normalised target; a visit redirects
      there and the next fetch shows exactly one click, unless the code is a reserved path. */
  method CreateFetchVisit(store: Store, url: Value, code: Value, isURL: string -> bool,
                          draws: seq<Draw>, createdAt: int, clickedAt: int)
    returns (created: Response, fetched: Response, visit: Response, refetched: Response)
    requires store.Valid()
    requires MaxAttempts * DefaultLength <= |draws|
    requires IsValidUrl(url, isURL) && IsValidShortCode(code) && code.s !in store.links
    modifies store
    ensures store.Valid()
    ensures created.Created? && created.link.shortCode == code.s
    ensures created.link.targetUrl == NormalizeUrl(url).s && created.link.totalClicks == 0
    ensures fetched == Details(created.link)
    ensures !IsReserved(code.s) ==>
              && visit == Redirect(NormalizeUrl(url).s)
              && refetched.Details?
              && refetched.link.totalClicks == 1
              && refetched.link.lastClickedTime == Some(clickedAt)
              && refetched.link.targetUrl == created.link.targetUrl
    ensures IsReserved(code.s) ==> visit == NotFound && refetched == fetched
  {
    created := Create(store, url, code, isURL, draws, createdAt);
    fetched := GetByCode(store, code.s);
    NormalizedUrlIsRedirectable(url);
    visit := Resolve(store, code.s, clickedAt);
    refetched := GetByCode(store, code.s);
  }

  /** POST without a code, then GET /:code with the code handed back. Unless all ten
      candidates collided, the visit redirects to the normalised target, or answers 404
      when the random code happens to spell a reserved path. */
  method CreateGeneratedThenVisit(store: Store, url: Value, isURL: string -> bool,
                                  draws: seq<Draw>, createdAt: int, clickedAt: int)
    returns (created: Response, visit: Response)
    requires store.Valid()
    requires MaxAttempts * DefaultLength <= |draws|
    requires IsValidUrl(url, isURL)
    modifies store
    ensures store.Valid()
    ensures created.Created? || created == GenerationFailed
    ensures created.Created? && !IsReserved(created.link.shortCode) ==>
              && visit == Redirect(NormalizeUrl(url).s)
              && created.link.shortCode in store.links
              && store.links[created.link.shortCode].totalClicks == 1
  {
    created := Create(store, url, Undefined, isURL, draws, createdAt);
    if created.Created? {
      visit := VisitNormalized(store, created.link.shortCode, url, clickedAt);
    } else {
      visit := NotFound;
    }
  }

  /** GET /:code on a link whose target is what `normalizeUrl` made of `url`: unless the
      code is reserved, a redirect to that target, with one more click recorded. */
  method VisitNormalized(store: Store, code: string, url: Value, clickedAt: int) returns (visit: Response)
    requires store.Valid()
    requires Truthy(url) && url.Str?
    requires code in store.links && store.links[code].targetUrl == NormalizeUrl(url).s
    modifies store
    ensures store.Valid()
    ensures code in store.links
    ensures !IsReserved(code) ==>
              && visit == Redirect(NormalizeUrl(url).s)
              && store.links[code].totalClicks == old(store.links)[code].totalClicks + 1
  {
    NormalizedUrlIsRedirectable(url);
    visit := Resolve(store, code, clickedAt);
  }

  /** `{url: "example.com", code: "abc1234"}`: 201 with target "https://example.com" and no
      clicks, then GET /abc1234 is a 302 to that URL and the stats show one click. */
  method ExampleDotCom(store: Store, isURL: string -> bool, draws: seq<Draw>, createdAt: int, clickedAt: int)
    returns (created: Response, visit: Response, refetched: Response)
    requires store.Valid()
    requires MaxAttempts * DefaultLength <= |draws|
    requires isURL("https://example.com") && "abc1234" !in store.links
    modifies store
    ensures created.Created? && created.link.targetUrl == "https://example.com" && created.link.totalClicks == 0
    ensures visit == Redirect("https://example.com")
    ensures refetched.Details? && refetched.link.totalClicks == 1
    ensures created.Status() == 201 && visit.Status() == 302 && refetched.Status() == 200
  {
    var url, code := Str("example.com"), Str("abc1234");
    ExampleUrlNormalized();
    ExampleCodeUsable();
    var fetched;
    created, fetched, visit, refetched := CreateFetchVisit(store, url, code, isURL, draws, createdAt, clickedAt);
  }

  /** "example.com" has no scheme, so it gains "https://". */
  lemma ExampleUrlNormalized()
    ensures NormalizeUrl(Str("example.com")) == Str("https://example.com")
  {
    var u := "example.com";
    assert NoEdgeSpace(u) by { assert u[0] == 'e' && u[|u| - 1] == 'm'; }
    NoSchemeWithoutH(u);
    assert HttpsPrefix + u == "https://example.com";
  }

  /** A string that does not start with 'h' has neither scheme. */
  lemma NoSchemeWithoutH(s: string)
    requires s != [] && s[0] != 'h'
    ensures !HasHttpScheme(s)
  {
    StartsWithFirst(s, HttpPrefix);
    StartsWithFirst(s, HttpsPrefix);
  }

  /** "abc1234" is a valid custom code and not a reserved path. */
  lemma ExampleCodeUsable()
    ensures IsValidShortCode(Str("abc1234")) && !IsReserved("abc1234")
  {
    var c := "abc1234";
    ValidShortCodeExactly(Str(c));
    forall i | 0 <= i < |c| ensures IsAlphanumeric(c[i]) && ToLower(c)[i] == c[i] {
      assert i == 0 || i == 1 || i == 2 || i == 3 || i == 4 || i == 5 || i == 6;
    }
    assert ToLower(c) == c;
  }

  /** DELETE twice: the first answers 204 when the code was present, the second always 404. */
  method DeleteTwice(store: Store, code: string) returns (first: Response, second: Response)
    requires store.Valid()
    modifies store
    ensures first == if code in old(store.links) then NoContent else NotFound
    ensures second == NotFound
    ensures first.Status() == (if code in old(store.links) then 204 else 404) && second.Status() == 404
    ensures store.links == old(store.links) - {code}
  {
    first := DeleteByCode(store, code);
    second := DeleteByCode(store, code);
  }
}
