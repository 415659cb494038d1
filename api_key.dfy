/** `verify_api_key`: the bearer-key check run before a conversion. The
    configured key (`API_KEY`) is a parameter rather than an environment read. */
module ApiKey {
  import opened Wrappers
  import opened Text
  import opened Responses

  const Scheme := "Bearer "
  /** The default of `API_KEY`; while it is configured, any non-empty key is accepted. */
  const DevSentinel := "dev-key-change-in-production"
  const MissingDetail := "Missing or invalid API key. Use: Authorization: Bearer YOUR_KEY"
  const InvalidDetail := "Invalid API key"

  /** The candidate key of a header: every occurrence of the scheme removed
      (not only the leading one), then surrounding white space stripped. */
  function ExtractKey(header: string): string {
    Strip(RemoveAll(header, Scheme))
  }

  /** The configured key admits `key`: any non-empty key in development mode,
      otherwise exactly the configured one. */
  predicate Admits(apiKey: string, key: string) {
    key != "" && (apiKey == DevSentinel || key == apiKey)
  }

  /** The `Authorization` header, absent read as "", must start with the
      scheme; the extracted key must then be admitted. Every rejection is a
      401 `HTTPException`, and an accepted key has no white space at its ends
      and is the configured key unless in development mode. */
  function VerifyApiKey(authorization: Option<string>, apiKey: string): (r: Result<string, HttpException>)
    ensures r.Failure? ==> r.error.statusCode == StatusUnauthorized
    ensures r.Success? ==> r.value != "" && !IsSpace(r.value[0]) && !IsSpace(r.value[|r.value| - 1])
    ensures r.Success? && apiKey != DevSentinel ==> r.value == apiKey
  {
    var header := authorization.GetOr("");
    if !StartsWith(header, Scheme) then
      Failure(HttpException(StatusUnauthorized, MissingDetail))
    else
      var key := ExtractKey(header);
      if !Admits(apiKey, key) then
        Failure(HttpException(StatusUnauthorized, InvalidDetail))
      else
        Success(key)
  }

  /** A header that does not start with the scheme is rejected as missing,
      whatever the configuration and whatever follows. */
  lemma MissingSchemeRejected(header: string, apiKey: string)
    requires !StartsWith(header, Scheme)
    ensures VerifyApiKey(Some(header), apiKey) == Failure(HttpException(401, MissingDetail))
  {
  }

  /** An absent header is rejected as missing, whatever the configuration. */
  lemma AbsentHeaderRejected(apiKey: string)
    ensures VerifyApiKey(None, apiKey) == Failure(HttpException(401, MissingDetail))
  {
  }

  /** A key that strips to nothing is rejected, even in development mode. */
  lemma EmptyKeyRejected(header: string, apiKey: string)
    requires StartsWith(header, Scheme)
    requires AllSpace(RemoveAll(header, Scheme))
    ensures VerifyApiKey(Some(header), apiKey) == Failure(HttpException(401, InvalidDetail))
  {
  }

  /** In development mode every header with the scheme and a non-blank key is accepted. */
  lemma DevModeAcceptsAnyKey(header: string)
    requires StartsWith(header, Scheme)
    requires !AllSpace(RemoveAll(header, Scheme))
    ensures VerifyApiKey(Some(header), DevSentinel) == Success(ExtractKey(header))
  {
  }

  /** Outside development mode, a request is accepted exactly when its
      extracted key is the configured key and is not empty. */
  lemma ProductionAcceptsOnlyConfiguredKey(authorization: Option<string>, apiKey: string)
    requires apiKey != DevSentinel
    ensures VerifyApiKey(authorization, apiKey).Success? <==>
      StartsWith(authorization.GetOr(""), Scheme) && apiKey != "" && ExtractKey(authorization.GetOr("")) == apiKey
    ensures VerifyApiKey(authorization, apiKey).Success? ==> VerifyApiKey(authorization, apiKey).value == apiKey
  {
  }

  /** An empty key and a wrong key are refused alike: a header with the
      scheme whose extracted key the configuration does not admit gets 401
      and "Invalid API key". */
  lemma UnadmittedKeyRejected(header: string, apiKey: string)
    requires StartsWith(header, Scheme)
    requires !Admits(apiKey, ExtractKey(header))
    ensures VerifyApiKey(Some(header), apiKey) == Failure(HttpException(401, InvalidDetail))
  {
  }

  /** The header a client is told to send, `Bearer <key>`, is accepted with
      that key whenever the configuration admits it, the key has no white
      space at its ends and the scheme does not occur inside it. */
  lemma BearerHeaderAccepted(apiKey: string, key: string)
    requires Admits(apiKey, key)
    requires !IsSpace(key[0]) && !IsSpace(key[|key| - 1])
    requires !Contains(key, Scheme)
    ensures VerifyApiKey(Some(Scheme + key), apiKey) == Success(key)
  {
    assert (Scheme + key)[..|Scheme|] == Scheme;
    RemoveAllLeading(Scheme, key);
    RemoveAllWithoutOccurrence(key, Scheme);
    StripTrimmed(key);
  }

  /** With the default configuration, `Bearer dev-key-change-in-production`,
      the header the test suite sends, is accepted. */
  lemma DefaultKeyHeaderAccepted()
    ensures VerifyApiKey(Some(Scheme + DevSentinel), DevSentinel) == Success(DevSentinel)
  {
    NotContainedWithoutFirstChar(DevSentinel, Scheme);
    BearerHeaderAccepted(DevSentinel, DevSentinel);
  }

  /** A configured key that is empty or has white space at either end can
      never be matched outside development mode: every request is rejected. */
  lemma UnmatchableConfiguredKey(authorization: Option<string>, apiKey: string)
    requires apiKey != DevSentinel
    requires apiKey == [] || IsSpace(apiKey[0]) || IsSpace(apiKey[|apiKey| - 1])
    ensures VerifyApiKey(authorization, apiKey).Failure?
  {
  }

  /** Every occurrence of the scheme is removed, so `Bearer Bearer k` yields `k`. */
  lemma RepeatedSchemeRemoved(key: string)
    requires key != [] && !IsSpace(key[0]) && !IsSpace(key[|key| - 1])
    requires !Contains(key, Scheme)
    ensures ExtractKey(Scheme + Scheme + key) == key
  {
    assert Scheme + Scheme + key == Scheme + (Scheme + key);
    RemoveAllLeading(Scheme, Scheme + key);
    RemoveAllLeading(Scheme, key);
    RemoveAllWithoutOccurrence(key, Scheme);
    assert RemoveAll(Scheme + Scheme + key, Scheme) == key;
    StripTrimmed(key);
  }

  /** The scheme is cut out wherever it occurs, not only at the front: an
      occurrence after any prefix `a` is deleted and the scan of `a` is not
      disturbed by it, because the scheme's `B` does not recur inside it. */
  lemma SchemeCutFromMiddle(a: string, b: string)
    ensures RemoveAll(a + Scheme + b, Scheme) == RemoveAll(a, Scheme) + RemoveAll(b, Scheme)
  {
    assert Scheme[0] !in Scheme[1..];
    RemoveAllAround(a, Scheme, b);
  }

  /** Every occurrence of the scheme shortens the result by at least its length. */
  lemma SchemeOccurrenceShrinks(s: string, i: nat)
    requires OccursAt(s, Scheme, i)
    ensures |RemoveAll(s, Scheme)| <= |s| - |Scheme|
  {
    assert s == s[..i] + Scheme + s[i + |Scheme|..];
    SchemeCutFromMiddle(s[..i], s[i + |Scheme|..]);
  }

  /** Because every occurrence is removed, a configured key with the scheme
      inside it is never accepted from `Bearer <key>` outside development
      mode: the key is cut shorter before it is compared. */
  lemma SchemeInsideKeyRejected(apiKey: string)
    requires apiKey != DevSentinel && Contains(apiKey, Scheme)
    ensures VerifyApiKey(Some(Scheme + apiKey), apiKey) == Failure(HttpException(401, InvalidDetail))
  {
    var i: nat :| OccursAt(apiKey, Scheme, i);
    SchemeOccurrenceShrinks(apiKey, i);
    var header := Scheme + apiKey;
    assert header[..|Scheme|] == Scheme;
    RemoveAllLeading(Scheme, apiKey);
    assert |ExtractKey(header)| < |apiKey|;
  }
}
