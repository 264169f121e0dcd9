/**
 * The access-token cache in front of the host player's OAuth endpoint: a
 * stored token is reused while it is more than five minutes from expiry,
 * otherwise a fresh one is fetched, checked and stored.
 */
module SpotifyAuth {
  import opened Wrappers
  import opened SessionStore

  /** Five minutes, in milliseconds. */
  const ExpirationBufferMs: real := 300000.0

  /** `t?.accessToken` is truthy: present and not the empty string. */
  predicate HasAccessToken(t: SpotifyToken) {
    t.accessToken.Some? && t.accessToken.value != ""
  }

  /** `t?.expiresAtTime` is truthy: present and not zero. */
  predicate HasExpiry(t: SpotifyToken) {
    t.expiresAtTime.Some? && t.expiresAtTime.value != 0.0
  }

  /** Both properties are truthy, the test applied to the stored token and to a response. */
  predicate Complete(t: SpotifyToken) {
    HasAccessToken(t) && HasExpiry(t)
  }

  /** The stored token may be returned without a fetch at time `now` (milliseconds). */
  predicate UsesCache(t: SpotifyToken, now: real) {
    Complete(t) && now < t.expiresAtTime.value - ExpirationBufferMs
  }

  /**
   * What the endpoint call produced: it threw, or it returned a value that is
   * `undefined` (no endpoint) or a token-shaped object.
   */
  type Fetched = Outcome<Option<SpotifyToken>>

  /** The fetched token, when the call returned one with both properties truthy. */
  function ValidResponse(fetched: Fetched): (r: Option<SpotifyToken>)
    ensures r.Some? <==> fetched.Returned? && fetched.value.Some? && Complete(fetched.value.value)
    ensures r.Some? ==> fetched == Returned(Some(r.value))
  {
    if fetched.Returned? && fetched.value.Some? && Complete(fetched.value.value)
    then fetched.value
    else None
  }

  /** The patch `setSpotifyToken(response)` spreads into the stored token. */
  function ResponsePatch(t: SpotifyToken): TokenPatch {
    TokenPatch(Some(t.accessToken), Some(t.expiresAtTime))
  }

  /** The token `getSpotifyToken` resolves to, given the stored token and what a fetch would produce. */
  function TokenResult(cached: SpotifyToken, now: real, fetched: Fetched): Option<SpotifyToken> {
    if UsesCache(cached, now) then Some(cached) else ValidResponse(fetched)
  }

  /** The stored token after the call. */
  function StoredAfter(cached: SpotifyToken, now: real, fetched: Fetched): SpotifyToken {
    var v := ValidResponse(fetched);
    if !UsesCache(cached, now) && v.Some? then PatchToken(cached, ResponsePatch(v.value)) else cached
  }

  /**
   * The three outcomes of the decision: a fresh cached token is returned and
   * nothing is fetched; otherwise the result is the fetched token exactly when
   * it is complete, and `null` when the fetch threw or returned an incomplete
   * token.
   */
  lemma TokenResultCases(cached: SpotifyToken, now: real, fetched: Fetched)
    ensures UsesCache(cached, now) ==> TokenResult(cached, now, fetched) == Some(cached)
    ensures !UsesCache(cached, now) && fetched.Threw? ==> TokenResult(cached, now, fetched) == None
    ensures !UsesCache(cached, now) && fetched.Returned? && fetched.value.None?
      ==> TokenResult(cached, now, fetched) == None
    ensures !UsesCache(cached, now) && fetched.Returned? && fetched.value.Some?
      ==> (TokenResult(cached, now, fetched)
           == if Complete(fetched.value.value) then fetched.value else None)
  {
  }

  /** Whatever path was taken, a token that is returned has both properties truthy. */
  lemma ResultComplete(cached: SpotifyToken, now: real, fetched: Fetched)
    ensures var r := TokenResult(cached, now, fetched);
      r.Some? ==> Complete(r.value)
  {
  }

  /**
   * The store is written only when a fetch was needed and returned a complete
   * token; the stored token is then the response itself, and it is what the
   * call returned.
   */
  lemma StoredAfterCases(cached: SpotifyToken, now: real, fetched: Fetched)
    ensures var v := ValidResponse(fetched);
      StoredAfter(cached, now, fetched) != cached ==> !UsesCache(cached, now) && v.Some?
    ensures !UsesCache(cached, now) && ValidResponse(fetched).Some?
      ==> (StoredAfter(cached, now, fetched) == ValidResponse(fetched).value
           && TokenResult(cached, now, fetched) == Some(StoredAfter(cached, now, fetched)))
  {
  }

  /**
   * A refreshed token whose expiry is later than the buffer from a later
   * moment is served from the cache at that moment, with no second fetch.
   */
  lemma RefreshThenCached(cached: SpotifyToken, now: real, fetched: Fetched, later: real, again: Fetched)
    requires !UsesCache(cached, now)
    requires ValidResponse(fetched).Some?
    requires later < ValidResponse(fetched).value.expiresAtTime.value - ExpirationBufferMs
    ensures var stored := StoredAfter(cached, now, fetched);
      UsesCache(stored, later)
      && TokenResult(stored, later, again) == Some(stored)
      && StoredAfter(stored, later, again) == stored
  {
    StoredAfterCases(cached, now, fetched);
  }

  /**
   * Caching never changes the answer within the freshness window: while the
   * stored token is fresh, later calls (not after expiry minus the buffer)
   * return it and leave it stored.
   */
  lemma CacheStable(cached: SpotifyToken, now: real, later: real, fetched: Fetched)
    requires UsesCache(cached, now)
    requires later <= now
    ensures TokenResult(cached, later, fetched) == Some(cached)
    ensures StoredAfter(cached, later, fetched) == cached
  {
  }

  /** `Bearer <accessToken>` for a token, `null` without one. */
  function Header(token: Option<SpotifyToken>): (r: Option<string>)
    requires token.Some? ==> token.value.accessToken.Some?
    ensures r.Some? <==> token.Some?
    ensures r.Some? ==> r.value == "Bearer " + token.value.accessToken.value
  {
    if token.Some? then Some("Bearer " + token.value.accessToken.value) else None
  }

  /** The header carries the token after the seven-character scheme prefix. */
  lemma HeaderCarriesToken(token: Option<SpotifyToken>)
    requires token.Some? && Complete(token.value)
    ensures var h := Header(token).value;
      |h| > 7 && h[..7] == "Bearer " && h[7..] == token.value.accessToken.value
  {
    var h := Header(token).value;
    assert h == "Bearer " + token.value.accessToken.value;
  }

  /**
   * `getSpotifyToken()`: the clock reading and the endpoint's answer are
   * parameters; the endpoint answer is only consulted when the cache is stale.
   */
  method GetSpotifyToken(store: Store, now: real, fetched: Fetched) returns (r: Option<SpotifyToken>)
    modifies store
    ensures r == TokenResult(old(store.state.spotifyToken), now, fetched)
    ensures store.state == old(store.state).(spotifyToken := StoredAfter(old(store.state.spotifyToken), now, fetched))
  {
    var cached := store.state.spotifyToken;
    if Complete(cached) {
      if now < cached.expiresAtTime.value - ExpirationBufferMs {
        return Some(cached);
      }
    }
    if fetched.Threw? {
      return None;
    }
    var response := fetched.value;
    if !(response.Some? && HasAccessToken(response.value)) || !HasExpiry(response.value) {
      return None;
    }
    store.Set(SetSpotifyToken(ResponsePatch(response.value)));
    return response;
  }

  /** `getSpotifyTokenHeader()`. */
  method GetSpotifyTokenHeader(store: Store, now: real, fetched: Fetched) returns (r: Option<string>)
    modifies store
    ensures r == Header(TokenResult(old(store.state.spotifyToken), now, fetched))
    ensures store.state == old(store.state).(spotifyToken := StoredAfter(old(store.state.spotifyToken), now, fetched))
  {
    ResultComplete(store.state.spotifyToken, now, fetched);
    var token := GetSpotifyToken(store, now, fetched);
    r := Header(token);
  }
}
