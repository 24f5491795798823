/**
  The `/api/links` routes (routes/api/links.js): create a link, list all links,
  fetch one by code, delete one by code. Each handler is a method over the
  store it is given; the random source is the sequence `draws`, read in order,
  `DefaultLength` draws per generated candidate.
*/
module LinksApi {
  import opened JsValues
  import opened CodeGenerator
  import opened UrlValidator
  import opened LinkStore
  import opened Http

  /** The create handler gives up after this many colliding candidates. */
  const MaxAttempts: nat := 10

  /** The code the generator produces on attempt `j` (from 0): the j-th block of draws. */
  function Candidate(draws: seq<Draw>, j: nat): (code: string)
    requires j < MaxAttempts && MaxAttempts * DefaultLength <= |draws|
    ensures |code| == DefaultLength && IsValidShortCode(Str(code))
  {
    assert (j + 1) * DefaultLength <= MaxAttempts * DefaultLength;
    var block := draws[j * DefaultLength .. (j + 1) * DefaultLength];
    SpelledCodeIsValid(block);
    Spell(block)
  }

  /** The `do … while (attempts < maxAttempts)` loop of the create handler: generate a
      7-character candidate, stop at the first one the store does not hold, and count
      the collisions. At most ten candidates are probed; `attempts` reaches ten only
      when all ten were taken. */
  method ProbeForFreeCode(store: Store, draws: seq<Draw>) returns (shortCode: string, attempts: nat)
    requires MaxAttempts * DefaultLength <= |draws|
    ensures attempts <= MaxAttempts
    ensures forall j :: 0 <= j < attempts ==> Candidate(draws, j) in store.links
    ensures attempts < MaxAttempts ==> shortCode == Candidate(draws, attempts) && shortCode !in store.links
  {
    attempts := 0;
    while true
      invariant attempts < MaxAttempts
      invariant forall j :: 0 <= j < attempts ==> Candidate(draws, j) in store.links
      decreases MaxAttempts - attempts
    {
      var rest := CandidateDraws(draws, attempts);
      shortCode := GenerateShortCode(DefaultLength, rest);
      if shortCode !in store.links {
        break;
      }
      forall j | 0 <= j <= attempts ensures Candidate(draws, j) in store.links {
        if j == attempts {
          assert Candidate(draws, j) == shortCode;
        }
      }
      attempts := attempts + 1;
      if attempts >= MaxAttempts {
        break;
      }
    }
  }

  /** The draws left for attempt `j`: they start with the block that spells candidate j. */
  function CandidateDraws(draws: seq<Draw>, j: nat): (rest: seq<Draw>)
    requires j < MaxAttempts && MaxAttempts * DefaultLength <= |draws|
    ensures DefaultLength <= |rest| && Spell(rest[..DefaultLength]) == Candidate(draws, j)
  {
    var rest := draws[j * DefaultLength..];
    assert rest[..DefaultLength] == draws[j * DefaultLength .. (j + 1) * DefaultLength];
    rest
  }

  /** POST /api/links with body `{url, code}`. */
  method Create(store: Store, url: Value, code: Value, isURL: string -> bool, draws: seq<Draw>, now: int)
    returns (resp: Response)
    requires store.Valid()
    requires MaxAttempts * DefaultLength <= |draws|
    modifies store
    ensures store.Valid()
    // 400 for a missing or invalid URL
    ensures !IsValidUrl(url, isURL) ==> resp == InvalidUrl
    // a custom code: 400 for a bad format, 409 when taken, else it is the new code
    ensures IsValidUrl(url, isURL) && Truthy(code) && !IsValidShortCode(code) ==> resp == InvalidCode
    ensures IsValidUrl(url, isURL) && IsValidShortCode(code) ==>
              if code.s in old(store.links) then resp == CodeTaken
              else resp.Created? && resp.link.shortCode == code.s
    // no custom code: 500 exactly when all ten candidates collide, else the first free one
    ensures IsValidUrl(url, isURL) && !Truthy(code) ==>
              if forall j :: 0 <= j < MaxAttempts ==> Candidate(draws, j) in old(store.links) then
                resp == GenerationFailed
              else
                && resp.Created?
                && exists k :: 0 <= k < MaxAttempts && resp.link.shortCode == Candidate(draws, k)
                               && forall j :: 0 <= j < k ==> Candidate(draws, j) in old(store.links)
    // 201: a new row under a code that was free, holding the normalised URL and no clicks
    ensures resp.Created? ==>
              && url.Str?
              && resp.link.shortCode !in old(store.links)
              && IsValidShortCode(Str(resp.link.shortCode))
              && resp.link == Link(old(store.nextId), resp.link.shortCode, NormalizeUrl(url).s, 0, None, now, now)
              && store.links == old(store.links)[resp.link.shortCode := resp.link]
              && store.nextId == old(store.nextId) + 1
    // every failure leaves the store as it was
    ensures !resp.Created? ==> store.links == old(store.links) && store.nextId == old(store.nextId)
    ensures TargetsRedirectable(old(store.links)) ==> TargetsRedirectable(store.links)
  {
    if !Truthy(url) || !IsValidUrl(url, isURL) {
      return InvalidUrl;
    }
    var normalizedUrl := NormalizeUrl(url).s;
    var shortCode: string;
    if Truthy(code) {
      if !IsValidShortCode(code) {
        return InvalidCode;
      }
      shortCode := code.s;
      if shortCode in store.links {
        return CodeTaken;
      }
    } else {
      var attempts;
      shortCode, attempts := ProbeForFreeCode(store, draws);
      if attempts >= MaxAttempts {
        return GenerationFailed;
      }
      assert shortCode == Candidate(draws, attempts);
    }
    NormalizedUrlIsRedirectable(url);
    ghost var before := store.links;
    var link := store.Insert(shortCode, normalizedUrl, 0, now);
    if TargetsRedirectable(before) {
      StoreRedirectable(before, shortCode, link);
    }
    resp := Created(link);
  }

  /** GET /api/links: every link, newest first. */
  method List(store: Store) returns (resp: Response)
    requires store.Valid()
    ensures resp.Listing?
    ensures NewestFirst(resp.links) && DistinctCodes(resp.links)
    ensures |resp.links| == |store.links|
    ensures forall l :: l in resp.links <==> l in store.links.Values
    ensures resp.Status() == 200
  {
    var links := store.FindManyNewestFirst();
    resp := Listing(links);
  }

  /** GET /api/links/:code: the stored link with this code, or 404. */
  method GetByCode(store: Store, code: string) returns (resp: Response)
    requires store.Valid()
    ensures resp.Details? <==> code in store.links
    ensures resp.Details? ==> resp.link == store.links[code] && resp.link.shortCode == code
    ensures !resp.Details? ==> resp == NotFound
    ensures resp.Status() == (if code in store.links then 200 else 404)
  {
    if code !in store.links {
      return NotFound;
    }
    resp := Details(store.links[code]);
  }

  /** DELETE /api/links/:code: 204 after removing exactly this code, or 404 with the store untouched. */
  method DeleteByCode(store: Store, code: string) returns (resp: Response)
    requires store.Valid()
    modifies store
    ensures store.Valid()
    ensures code in old(store.links) ==> resp == NoContent && store.links == old(store.links) - {code}
    ensures code !in old(store.links) ==> resp == NotFound && store.links == old(store.links)
    ensures store.nextId == old(store.nextId)
    ensures code !in store.links
    ensures resp.Status() == (if code in old(store.links) then 204 else 404)
  {
    if code !in store.links {
      return NotFound;
    }
    store.Remove(code);
    resp := NoContent;
  }
}
