/**
  URL validation and normalisation (utils/urlValidator.js). The URL-syntax check
  of the `validator` library is not modelled: it is the parameter `isURL`, a
  predicate on strings about which nothing is assumed.
*/
module UrlValidator {
  import opened JsValues
  import opened JsStrings

  const HttpPrefix: string := "http://"
  const HttpsPrefix: string := "https://"

  /** `s.startsWith('http://') || s.startsWith('https://')`. */
  predicate HasHttpScheme(s: string) {
    StartsWith(s, HttpPrefix) || StartsWith(s, HttpsPrefix)
  }

  /** `isValidUrl(url)`: falsy and non-string input is rejected; otherwise the trimmed
      input, with `https://` put in front when it has neither scheme, goes to `isURL`.
      The result is `isURL` of exactly the string that `normalizeUrl` produces. */
  function IsValidUrl(url: Value, isURL: string -> bool): (r: bool)
    ensures !Truthy(url) || !url.Str? ==> !r
    ensures Truthy(url) && url.Str? ==> NormalizeUrl(url).Str? && r == isURL(NormalizeUrl(url).s)
  {
    if !Truthy(url) || !url.Str? then false
    else
      var trimmed := Trim(url.s);
      var toValidate := if !StartsWith(trimmed, HttpPrefix) && !StartsWith(trimmed, HttpsPrefix) then HttpsPrefix + trimmed else trimmed;
      isURL(toValidate)
  }

  /** `normalizeUrl(url)`: falsy and non-string input comes back as it is; a string comes
      back trimmed, and with `https://` in front unless it already had a scheme. The
      result then has a scheme, no white space at either end, and it keeps the trimmed
      input as it is exactly when that input already had a scheme. */
  function NormalizeUrl(url: Value): (r: Value)
    ensures !Truthy(url) || !url.Str? ==> r == url
    ensures Truthy(url) && url.Str? ==>
              && r.Str?
              && HasHttpScheme(r.s)
              && NoEdgeSpace(r.s)
              && (r.s == Trim(url.s) || r.s == HttpsPrefix + Trim(url.s))
              && (r.s == Trim(url.s) <==> HasHttpScheme(Trim(url.s)))
  {
    if !Truthy(url) || !url.Str? then url
    else
      var normalized := Trim(url.s);
      Str(if !StartsWith(normalized, HttpPrefix) && !StartsWith(normalized, HttpsPrefix) then HttpsPrefix + normalized else normalized)
  }

  /** Normalising twice is normalising once. */
  lemma NormalizeUrlIdempotent(url: Value)
    ensures NormalizeUrl(NormalizeUrl(url)) == NormalizeUrl(url)
  {
  }

  /** A normalised URL passes the redirect-time check unchanged: trimming it again
      changes nothing, and it has an `http://` or `https://` scheme. */
  lemma NormalizedUrlIsRedirectable(url: Value)
    requires Truthy(url) && url.Str?
    ensures Trim(NormalizeUrl(url).s) == NormalizeUrl(url).s
    ensures HasHttpScheme(Trim(NormalizeUrl(url).s))
  {
  }
}
