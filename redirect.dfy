/**
  The catch-all `GET /:code` route (routes/redirect.js): reserved paths are
  turned away first, then the code is looked up, the click is recorded, and only
  then is the stored target checked for a scheme.
*/
module RedirectRoute {
  import opened JsValues
  import opened JsStrings
  import opened CodeGenerator
  import opened UrlValidator
  import opened LinkStore
  import opened Http

  /** Path segments claimed by other routes; compared after lower-casing. */
  const ReservedPaths: seq<string> := ["api", "stats", "healthz", "favicon.ico"]

  predicate IsReserved(code: string) {
    ToLower(code) in ReservedPaths
  }

  /** GET /:code at time `now`. */
  method Resolve(store: Store, code: string, now: int) returns (resp: Response)
    requires store.Valid()
    modifies store
    ensures store.Valid()
    ensures resp == NotFound || resp.Redirect? || resp.InvalidTarget?
    ensures store.nextId == old(store.nextId)
    // reserved paths and unknown codes: 404, nothing changes
    ensures IsReserved(code) ==> resp == NotFound && store.links == old(store.links)
    ensures code !in old(store.links) ==> resp == NotFound && store.links == old(store.links)
    // a known code: exactly one more click on exactly this row, whatever the outcome
    ensures !IsReserved(code) && code in old(store.links) ==>
              && store.links.Keys == old(store.links).Keys
              && (forall k :: k in store.links && k != code ==> store.links[k] == old(store.links)[k])
              && store.links[code] == old(store.links)[code].(totalClicks := old(store.links)[code].totalClicks + 1,
                                                            lastClickedTime := Some(now),
                                                            updatedAt := now)
    // the outcome: 302 to the trimmed target exactly when it has a scheme, else 500
    ensures !IsReserved(code) && code in old(store.links) ==>
              var target := Trim(old(store.links)[code].targetUrl);
              if HasHttpScheme(target) then resp == Redirect(target) else resp == InvalidTarget(target)
    ensures resp.Redirect? ==> HasHttpScheme(resp.url)
    // targets written by the create handler always redirect
    ensures TargetsRedirectable(old(store.links)) ==> TargetsRedirectable(store.links) && !resp.InvalidTarget?
  {
    if IsReserved(code) {
      return NotFound;
    }
    if code !in store.links {
      return NotFound;
    }
    var link := store.links[code];
    store.RecordClick(code, now);
    ghost var clicked := link.(totalClicks := link.totalClicks + 1, lastClickedTime := Some(now), updatedAt := now);
    assert store.links == old(store.links)[code := clicked];
    if TargetsRedirectable(old(store.links)) {
      TargetPreserved(old(store.links), code, clicked);
    }
    var redirectUrl := Trim(link.targetUrl);
    if !StartsWith(redirectUrl, HttpPrefix) && !StartsWith(redirectUrl, HttpsPrefix) {
      return InvalidTarget(redirectUrl);
    }
    resp := Redirect(redirectUrl);
  }

  /** Replacing a row by one with the same target keeps every target redirectable. */
  lemma TargetPreserved(links: map<string, Link>, code: string, updated: Link)
    requires TargetsRedirectable(links) && code in links
    requires updated.targetUrl == links[code].targetUrl
    ensures HasHttpScheme(Trim(links[code].targetUrl))
    ensures TargetsRedirectable(links[code := updated])
  {
  }

  /** Among valid short codes, only the spellings of "healthz" are reserved:
      "api", "stats" and "favicon.ico" have the wrong length or characters. */
  lemma {:induction false} ReservedValidCodeIsHealthz(code: string)
    requires IsValidShortCode(Str(code)) && IsReserved(code)
    ensures ToLower(code) == "healthz"
  {
    ValidShortCodeExactly(Str(code));
    assert |ToLower(code)| == |code|;
    assert |ReservedPaths[0]| == 3 && |ReservedPaths[1]| == 5 && |ReservedPaths[3]| == 11;
  }

  /** "HealthZ" passes the short-code format check, so the create handler accepts it as a
      custom code, yet the redirect route answers 404 for it whatever the store holds. */
  lemma ShadowedValidCode()
    ensures IsValidShortCode(Str("HealthZ")) && IsReserved("HealthZ")
  {
    var c := "HealthZ";
    ValidShortCodeExactly(Str(c));
    forall i | 0 <= i < |c| ensures IsAlphanumeric(c[i]) && ToLower(c)[i] == "healthz"[i] {
      assert i == 0 || i == 1 || i == 2 || i == 3 || i == 4 || i == 5 || i == 6;
    }
    assert ToLower(c) == "healthz";
  }
}
