/**
 * BlobStorageAuthenticator: obtains the identity provider's access token (cache first, then
 * the client-credentials grant of section 4.4 of RFC 6749) and keeps the blob-storage
 * connection built from it, in the two fields `_token` and `_bsConnection`.
 */
module BlobAuth {
  import opened Wrappers
  import opened Php
  import opened RedisBackend
  import opened KeyValueCache
  import opened ImageCache
  import opened IdentityProvider
  import opened BlobBackend

  const TokenServiceBaseUrl := "https://login.microsoftonline.com/"
  const StorageScope := "https://storage.azure.com/.default"
  const AuthenticationFailedMessage := "Unable to authenticate the security principal on Azure Active Directory"
  const InvalidResponseMessage := "The response returned by Azure Active Directory is not a valid response."

  const ProtocolField := "DefaultEndpointsProtocol="
  const AccountField := ";AccountName="

  /** The connection string `_refreshConnection` builds. */
  function ConnectionString(protocol: string, accountName: string): (s: string)
    ensures |s| == |ProtocolField| + |protocol| + |AccountField| + |accountName| + 1
    ensures s[..|ProtocolField|] == ProtocolField
    ensures s[|s| - |accountName| - 1..] == accountName + ";"
  {
    ProtocolField + protocol + AccountField + accountName + ";"
  }

  /** Accounts reached over the same protocol never share a connection string. */
  lemma ConnectionStringNamesAccount(protocol: string, a: string, b: string)
    ensures ConnectionString(protocol, a) == ConnectionString(protocol, b) ==> a == b
  {
    if ConnectionString(protocol, a) == ConnectionString(protocol, b) {
      var n := |ProtocolField + protocol + AccountField|;
      assert a == ConnectionString(protocol, a)[n..|ConnectionString(protocol, a)| - 1];
      assert b == ConnectionString(protocol, b)[n..|ConnectionString(protocol, b)| - 1];
    }
  }

  /** The client-credentials token request sent to the tenant's v2.0 token endpoint. */
  function ClientCredentialsRequest(tenantId: string, clientId: string, clientSecret: string): (req: TokenRequest)
    ensures req.grantType == "client_credentials" && req.scope == StorageScope
    ensures req.clientId == clientId && req.clientSecret == clientSecret
  {
    TokenRequest(TokenServiceBaseUrl + tenantId + "/oauth2/v2.0/token", "client_credentials", clientId, StorageScope, clientSecret)
  }

  /**
   * Checking the endpoint's answer: a transport failure is an authentication error; a body
   * whose `access_token` or `expires_in` is missing or PHP-falsy is a generic error.
   */
  function ParseTokenReply(reply: TokenReply): (r: Result<(string, int), Error>)
    ensures reply.Unreachable? ==> r == Failure(BlobStorage(AuthenticationFailedMessage, Some(Transport)))
    ensures r.Success? <==>
      reply.Body? && reply.accessToken.Some? && StringTruthy(reply.accessToken.value)
      && reply.expiresIn.Some? && reply.expiresIn.value != 0
    ensures r.Success? ==> r.value == (reply.accessToken.value, reply.expiresIn.value)
    ensures reply.Body? && r.Failure? ==> r.error == Generic(InvalidResponseMessage)
  {
    match reply
    case Unreachable => Failure(BlobStorage(AuthenticationFailedMessage, Some(Transport)))
    case Body(accessToken, expiresIn) =>
      if accessToken.None? || !StringTruthy(accessToken.value) || expiresIn.None? || expiresIn.value == 0
      then Failure(Generic(InvalidResponseMessage))
      else Success((accessToken.value, expiresIn.value))
  }

  /** The cache answered with a token PHP treats as true, so no request is made. */
  predicate CacheHit(cached: Result<Option<string>, Error>) {
    cached.Success? && cached.value.Some? && StringTruthy(cached.value.value)
  }

  /** The cache answered, but with no usable token, so the endpoint is asked. */
  predicate CacheMiss(cached: Result<Option<string>, Error>) {
    cached.Success? && !CacheHit(cached)
  }

  /**
   * What `_getAuthToken` returns or throws, given the cache's answer, the endpoint's answer
   * and the commands the cache's server fails. Saving the token fails when SETEX is refused,
   * which includes an `expires_in` that is not positive.
   */
  function TokenOutcome(cached: Result<Option<string>, Error>, reply: TokenReply, cacheFaults: set<Command>): (r: Result<string, Error>)
    ensures CacheHit(cached) ==> r == Success(cached.value.value)
    ensures cached.Failure? ==> r == Failure(cached.error)
  {
    if cached.Failure? then Failure(cached.error)
    else if CacheHit(cached) then Success(cached.value.value)
    else match ParseTokenReply(reply)
      case Failure(e) => Failure(e)
      case Success(p) => if SetExRefused(cacheFaults, p.1) then Failure(Generic(SaveTokenFailedMessage)) else Success(p.0)
  }

  /** Every token `_getAuthToken` hands out is one PHP treats as true. */
  lemma TokenOutcomeTruthy(cached: Result<Option<string>, Error>, reply: TokenReply, cacheFaults: set<Command>)
    ensures TokenOutcome(cached, reply, cacheFaults).Success? ==> StringTruthy(TokenOutcome(cached, reply, cacheFaults).value)
  {
    if CacheMiss(cached) && ParseTokenReply(reply).Success? {
      assert StringTruthy(ParseTokenReply(reply).value.0);
    }
  }

  /** On a miss, a successful fetch is exactly a valid answer that the cache stored. */
  lemma TokenOutcomeOnMiss(cached: Result<Option<string>, Error>, reply: TokenReply, cacheFaults: set<Command>)
    requires CacheMiss(cached)
    ensures TokenOutcome(cached, reply, cacheFaults).Success? <==>
      ParseTokenReply(reply).Success? && !SetExRefused(cacheFaults, reply.expiresIn.value)
    ensures reply.Unreachable? ==>
              TokenOutcome(cached, reply, cacheFaults) == Failure(BlobStorage(AuthenticationFailedMessage, Some(Transport)))
    ensures TokenOutcome(cached, reply, cacheFaults).Success? ==>
      TokenOutcome(cached, reply, cacheFaults).value == reply.accessToken.value
  {
  }

  /**
   * A well-formed answer whose `expires_in` is negative passes the check on the answer, but
   * Redis refuses the SETEX, so `_getAuthToken` throws the save error even with a healthy cache.
   */
  lemma NegativeExpiryNotSaved(cached: Result<Option<string>, Error>, accessToken: string, expiresIn: int,
                               cacheFaults: set<Command>)
    requires CacheMiss(cached) && StringTruthy(accessToken) && expiresIn < 0
    ensures ParseTokenReply(Body(Some(accessToken), Some(expiresIn))).Success?
    ensures TokenOutcome(cached, Body(Some(accessToken), Some(expiresIn)), cacheFaults)
            == Failure(Generic(SaveTokenFailedMessage))
  {
  }

  /**
   * A token saved after a miss is what the next fetch finds: the cache then hits, so the
   * endpoint is not asked again and the same token comes back, whatever the endpoint would say.
   */
  lemma SavedTokenIsReused(entries: map<string, Entry>, missReply: Reply, prefix: string,
                           reply: TokenReply, nextReply: TokenReply, cacheFaults: set<Command>)
    requires ParseTokenReply(reply).Success?
    ensures var t := ParseTokenReply(reply).value.0;
      var saved := entries[PrefixedKey(prefix, AuthTokenKey) := Entry(Serialize(Str(t)), ParseTokenReply(reply).value.1)];
      var cached := TokenFromLookup(GetAnswer(saved, missReply, false, PrefixedKey(prefix, AuthTokenKey)));
      CacheHit(cached) && TokenOutcome(cached, nextReply, cacheFaults) == Success(t)
  {
    var (t, ttl) := ParseTokenReply(reply).value;
    SetThenGetAnswer(entries, missReply, PrefixedKey(prefix, AuthTokenKey), Str(t), ttl);
  }

  class BlobStorageAuthenticator {
    const accountName: string
    const protocol: string
    const clientId: string
    const tenantId: string
    const clientSecret: string
    const cache: UploadCache
    /** The identity provider, reached through the HTTP client. */
    const endpoint: TokenEndpoint
    /** `_token`; the empty string stands for the property's initial `null`. */
    var token: string
    /** `_bsConnection`. */
    var bsConnection: BlobConnection?

    /** A held token always comes with a connection built from it. */
    ghost predicate Valid()
      reads this
    {
      StringTruthy(token) ==>
        bsConnection != null && bsConnection.token == token
        && bsConnection.connectionString == ConnectionString(protocol, accountName)
    }

    constructor(accountName: string, protocol: string, cache: UploadCache,
                clientId: string, tenantId: string, clientSecret: string, endpoint: TokenEndpoint)
      ensures Valid() && token == "" && bsConnection == null
      ensures this.accountName == accountName && this.protocol == protocol && this.cache == cache
      ensures this.clientId == clientId && this.tenantId == tenantId && this.clientSecret == clientSecret
      ensures this.endpoint == endpoint
    {
      this.accountName := accountName;
      this.protocol := protocol;
      this.cache := cache;
      this.clientId := clientId;
      this.tenantId := tenantId;
      this.clientSecret := clientSecret;
      this.endpoint := endpoint;
      token := "";
      bsConnection := null;
    }

    /** What `_getAuthToken` returns or throws in the current state. */
    function NextToken(): Result<string, Error>
      reads cache.registry, cache.registry.server, endpoint
    {
      TokenOutcome(cache.PeekAuthToken(), endpoint.reply, cache.registry.server.faults)
    }

    /** The endpoint's request log after `_getAuthToken` in the current state. */
    function RequestsAfterFetch(): seq<TokenRequest>
      reads cache.registry, cache.registry.server, endpoint
    {
      if CacheMiss(cache.PeekAuthToken())
      then endpoint.requests + [ClientCredentialsRequest(tenantId, clientId, clientSecret)]
      else endpoint.requests
    }

    /** The cache entries after `_getAuthToken`: a valid fresh token is stored with ttl `expires_in`. */
    function EntriesAfterFetch(): map<string, Entry>
      reads cache.registry, cache.registry.server, endpoint
    {
      var parsed := ParseTokenReply(endpoint.reply);
      if CacheMiss(cache.PeekAuthToken()) && parsed.Success? && !SetExRefused(cache.registry.server.faults, parsed.value.1)
      then cache.registry.server.entries[PrefixedKey(cache.registry.keyPrefix, AuthTokenKey) :=
             Entry(Serialize(Str(parsed.value.0)), parsed.value.1)]
      else cache.registry.server.entries
    }

    /** `_getAuthToken`: cache first; on a miss, ask the endpoint, check, store, return. */
    method GetAuthToken() returns (r: Result<string, Error>)
      modifies cache.registry`conn, cache.registry.server`entries, endpoint`requests
      ensures r == old(NextToken())
      ensures endpoint.requests == old(RequestsAfterFetch())
      ensures cache.registry.server.entries == old(EntriesAfterFetch())
      ensures old(cache.registry.conn) != null ==> cache.registry.conn == old(cache.registry.conn)
    {
      var cached := cache.GetAuthToken();
      if cached.Failure? {
        return Failure(cached.error);
      }
      if cached.value.Some? && StringTruthy(cached.value.value) {
        return Success(cached.value.value);
      }
      var reply := endpoint.Request(ClientCredentialsRequest(tenantId, clientId, clientSecret));
      var parsed := ParseTokenReply(reply);
      if parsed.Failure? {
        return Failure(parsed.error);
      }
      var saved := cache.SaveAuthToken(parsed.value.0, parsed.value.1);
      if saved.Fail? {
        return Failure(saved.error);
      }
      r := Success(parsed.value.0);
    }

    /** `_refreshConnection`: a new client for `t` over the account's connection string. */
    method RefreshConnection(t: string)
      modifies this`bsConnection
      ensures fresh(bsConnection)
      ensures bsConnection.token == t && bsConnection.connectionString == ConnectionString(protocol, accountName)
    {
      var connString := ConnectionString(protocol, accountName);
      bsConnection := new BlobConnection(t, connString);
    }

    /**
     * `_authenticate`, as written: with no token held the fetched token builds a new
     * connection but is not kept in `_token`; with a token held the fetched token replaces it
     * and the connection is rebuilt only when the token changed.
     */
    method Authenticate() returns (r: Outcome<Error>)
      requires Valid()
      modifies this`token, this`bsConnection, cache.registry`conn, cache.registry.server`entries, endpoint`requests
      ensures Valid()
      ensures r.Fail? <==> old(NextToken()).Failure?
      ensures r.Fail? ==> r.error == old(NextToken()).error && token == old(token) && bsConnection == old(bsConnection)
      ensures r.Pass? ==>
        bsConnection != null && bsConnection.token == old(NextToken()).value
        && bsConnection.connectionString == ConnectionString(protocol, accountName)
      ensures r.Pass? && !StringTruthy(old(token)) ==> token == old(token) && fresh(bsConnection)
      ensures r.Pass? && StringTruthy(old(token)) ==> token == old(NextToken()).value
      ensures r.Pass? && StringTruthy(old(token)) && token != old(token) ==> fresh(bsConnection)
      ensures r.Pass? && StringTruthy(old(token)) && token == old(token) ==> bsConnection == old(bsConnection)
      ensures endpoint.requests == old(RequestsAfterFetch())
      ensures cache.registry.server.entries == old(EntriesAfterFetch())
      ensures old(cache.registry.conn) != null ==> cache.registry.conn == old(cache.registry.conn)
    {
      if !StringTruthy(token) {
        var t := GetAuthToken();
        if t.Failure? {
          return Fail(t.error);
        }
        RefreshConnection(t.value);
        return Pass;
      }
      var previousToken := token;
      var t := GetAuthToken();
      if t.Failure? {
        return Fail(t.error);
      }
      TokenOutcomeTruthy(old(cache.PeekAuthToken()), old(endpoint.reply), old(cache.registry.server.faults));
      token := t.value;
      if previousToken != token {
        RefreshConnection(token);
      }
      r := Pass;
    }

    /** `getBsConnection`: authenticate, then hand out the connection of the latest refresh. */
    method GetBsConnection() returns (r: Result<BlobConnection, Error>)
      requires Valid()
      modifies this`token, this`bsConnection, cache.registry`conn, cache.registry.server`entries, endpoint`requests
      ensures Valid()
      ensures r.Failure? <==> old(NextToken()).Failure?
      ensures r.Failure? ==> r.error == old(NextToken()).error && token == old(token) && bsConnection == old(bsConnection)
      ensures r.Success? ==> r.value == bsConnection && r.value.token == old(NextToken()).value
      ensures r.Success? ==> r.value.connectionString == ConnectionString(protocol, accountName)
      ensures r.Success? && !StringTruthy(old(token)) ==> token == old(token) && fresh(r.value)
      ensures r.Success? && StringTruthy(old(token)) ==> token == old(NextToken()).value
      ensures r.Success? && StringTruthy(old(token)) ==> (fresh(r.value) <==> token != old(token))
      ensures r.Success? && StringTruthy(old(token)) && token == old(token) ==> r.value == old(bsConnection)
      ensures endpoint.requests == old(RequestsAfterFetch())
      ensures cache.registry.server.entries == old(EntriesAfterFetch())
      ensures old(cache.registry.conn) != null ==> cache.registry.conn == old(cache.registry.conn)
    {
      var a := Authenticate();
      if a.Fail? {
        return Failure(a.error);
      }
      r := Success(bsConnection);
    }
  }
}
