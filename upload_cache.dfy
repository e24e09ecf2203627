/**
 * UploadCache: the domain cache on top of CacheRegistry. It keeps the identity provider's
 * access token and base64 image payloads under keys derived from a fixed prefix.
 */
module ImageCache {
  import opened Wrappers
  import opened Php
  import opened RedisBackend
  import opened KeyValueCache

  const CachePrefix := "upload_image"
  const AuthTokenKey := CachePrefix + "-azure_active_directory_token_key"
  const SaveTokenFailedMessage := "Error saving the azure active directory authentication token into redis cache."

  function ImageNotFoundMessage(imgId: string): string {
    "Unable to load the image base64 value respective to image " + imgId
  }

  function RemoveNotFoundMessage(imgId: string): string {
    "Unable to load the image base64 value respective to image: " + imgId
  }

  function RemoveFailedMessage(imgId: string): string {
    "Unable to remove the base64 image respective to image " + imgId
  }

  /** `_getImgBase64Key`. */
  function ImageKey(imgId: string): (k: string)
    ensures |k| == |CachePrefix| + 1 + |imgId|
    ensures k[..|CachePrefix|] == CachePrefix && k[|CachePrefix|] == '_' && k[|CachePrefix| + 1..] == imgId
  {
    CachePrefix + "_" + imgId
  }

  /** Different images never share a cache key. */
  lemma ImageKeyInjective(a: string, b: string)
    ensures ImageKey(a) == ImageKey(b) ==> a == b
  {
    if ImageKey(a) == ImageKey(b) {
      assert a == ImageKey(a)[|CachePrefix| + 1..];
      assert b == ImageKey(b)[|CachePrefix| + 1..];
    }
  }

  /** Both kinds of key the service writes live under the cache prefix "upload_image". */
  lemma KeysShareCachePrefix(imgId: string)
    ensures ImageKey(imgId)[..|CachePrefix|] == CachePrefix
    ensures |AuthTokenKey| > |CachePrefix| && AuthTokenKey[..|CachePrefix|] == CachePrefix
  {
  }

  /**
   * No image key is the token key: they part at the character after the prefix ('_' against
   * '-'), so saving or removing an image never touches the cached token.
   */
  lemma ImageKeyIsNotTokenKey(imgId: string)
    ensures ImageKey(imgId) != AuthTokenKey
  {
    assert ImageKey(imgId)[|CachePrefix|] == '_';
    assert AuthTokenKey[|CachePrefix|] == '-';
  }

  /** The same holds of the store keys, whatever the registry's prefix. */
  lemma ImageStoreKeyIsNotTokenStoreKey(prefix: string, imgId: string)
    ensures PrefixedKey(prefix, ImageKey(imgId)) != PrefixedKey(prefix, AuthTokenKey)
  {
    ImageKeyIsNotTokenKey(imgId);
    PrefixedKeyInjective(prefix, ImageKey(imgId), AuthTokenKey);
  }

  /**
   * `getAuthToken`'s answer for a registry lookup: the cached value when found, `null`
   * otherwise, passed through the declared `?string` return type.
   */
  function TokenFromLookup(lk: Lookup): (r: Result<Option<string>, Error>)
    ensures !lk.found ==> r == Success(None)
    ensures lk.found && lk.value.Str? ==> r == Success(Some(lk.value.s))
    ensures r.Failure? <==> lk.found && lk.value.Arr?
    ensures r.Failure? ==> r.error == TypeError
  {
    if !lk.found || lk.value.Null? then Success(None)
    else match CoerceToString(lk.value)
      case Some(s) => Success(Some(s))
      case None => Failure(TypeError)
  }

  /** `getImageBase64`'s answer for a registry lookup: NotFound unless found. */
  function ImageFromLookup(imgId: string, lk: Lookup): (r: Result<string, Error>)
    ensures !lk.found ==> r == Failure(NotFound(ImageNotFoundMessage(imgId)))
    ensures lk.found && lk.value.Str? ==> r == Success(lk.value.s)
    ensures r.Success? ==> lk.found
  {
    if !lk.found then Failure(NotFound(ImageNotFoundMessage(imgId)))
    else match CoerceToString(lk.value)
      case Some(s) => Success(s)
      case None => Failure(TypeError)
  }

  class UploadCache {
    const registry: CacheRegistry
    /** Seconds an image payload is kept. */
    const ttl: int

    constructor(registry: CacheRegistry, ttl: int)
      ensures this.registry == registry && this.ttl == ttl
    {
      this.registry := registry;
      this.ttl := ttl;
    }

    /** What `getAuthToken` returns or throws in the current state. */
    function PeekAuthToken(): Result<Option<string>, Error>
      reads registry, registry.server
    {
      if registry.ConnectFails() then Failure(Generic(ConnectFailedMessage))
      else TokenFromLookup(registry.Fetch(AuthTokenKey))
    }

    /** `saveImageBase64`: SETEX under the image key with `ttl`; the result of `set` is ignored. */
    method SaveImageBase64(imgId: string, imgBase64: string) returns (r: Outcome<Error>)
      modifies registry`conn, registry.server`entries
      ensures r.Fail? <==> old(registry.ConnectFails())
      ensures r.Fail? ==> r.error == Generic(ConnectFailedMessage)
      ensures old(registry.conn) != null ==> registry.conn == old(registry.conn)
      ensures registry.server.entries ==
        if r.Pass? && !SetExRefused(registry.server.faults, ttl)
        then old(registry.server.entries)[PrefixedKey(registry.keyPrefix, ImageKey(imgId)) := Entry(Serialize(Str(imgBase64)), ttl)]
        else old(registry.server.entries)
    {
      var key := ImageKey(imgId);
      var ok := registry.Set(key, Str(imgBase64), ttl);
      if ok.Failure? {
        return Fail(ok.error);
      }
      r := Pass;
    }

    /** `getImageBase64`: the cached payload, or NotFound when the lookup reports not found. */
    method GetImageBase64(imgId: string) returns (r: Result<string, Error>)
      modifies registry`conn
      ensures old(registry.ConnectFails()) ==> r == Failure(Generic(ConnectFailedMessage))
      ensures !old(registry.ConnectFails()) ==> r == ImageFromLookup(imgId, old(registry.Fetch(ImageKey(imgId))))
      ensures old(registry.conn) != null ==> registry.conn == old(registry.conn)
    {
      var key := ImageKey(imgId);
      var lk := registry.Get(key);
      if lk.Failure? {
        return Failure(lk.error);
      }
      if !lk.value.found {
        return Failure(NotFound(ImageNotFoundMessage(imgId)));
      }
      var s := CoerceToString(lk.value.value);
      if s.None? {
        return Failure(TypeError);
      }
      r := Success(s.value);
    }

    /**
     * `removeImageBase64`: NotFound (and no purge) when the entry is not found, a generic
     * error when the purge reports failure, otherwise the entry is deleted.
     */
    method RemoveImageBase64(imgId: string) returns (r: Outcome<Error>)
      modifies registry`conn, registry.server`entries
      ensures old(registry.conn) != null ==> registry.conn == old(registry.conn)
      ensures old(registry.ConnectFails()) ==>
        r == Fail(Generic(ConnectFailedMessage)) && registry.server.entries == old(registry.server.entries)
      ensures !old(registry.ConnectFails()) && !old(registry.Fetch(ImageKey(imgId))).found ==>
        r == Fail(NotFound(RemoveNotFoundMessage(imgId))) && registry.server.entries == old(registry.server.entries)
      ensures !old(registry.ConnectFails()) && old(registry.Fetch(ImageKey(imgId))).found && DelCmd in registry.server.faults ==>
        r == Fail(Generic(RemoveFailedMessage(imgId))) && registry.server.entries == old(registry.server.entries)
      ensures !old(registry.ConnectFails()) && old(registry.Fetch(ImageKey(imgId))).found && DelCmd !in registry.server.faults ==>
        r == Pass && registry.server.entries == old(registry.server.entries) - {PrefixedKey(registry.keyPrefix, ImageKey(imgId))}
    {
      var key := ImageKey(imgId);
      var lk := registry.Get(key);
      if lk.Failure? {
        return Fail(lk.error);
      }
      if !lk.value.found {
        return Fail(NotFound(RemoveNotFoundMessage(imgId)));
      }
      var purged := registry.Purge(key);
      // The connection is open after `get`, so `purge` cannot throw here.
      if !(purged.Success? && purged.value) {
        return Fail(Generic(RemoveFailedMessage(imgId)));
      }
      r := Pass;
    }

    /** `getAuthToken`: the cached token when found, `null` otherwise. */
    method GetAuthToken() returns (r: Result<Option<string>, Error>)
      modifies registry`conn
      ensures r == old(PeekAuthToken())
      ensures r.Success? ==> registry.conn != null
      ensures old(registry.conn) != null ==> registry.conn == old(registry.conn)
    {
      var lk := registry.Get(AuthTokenKey);
      if lk.Failure? {
        return Failure(lk.error);
      }
      if !lk.value.found || lk.value.value.Null? {
        return Success(None);
      }
      var s := CoerceToString(lk.value.value);
      if s.None? {
        return Failure(TypeError);
      }
      r := Success(Some(s.value));
    }

    /** `saveAuthToken`: throws exactly when the underlying `set` reports failure. */
    method SaveAuthToken(token: string, tokenTtl: int) returns (r: Outcome<Error>)
      modifies registry`conn, registry.server`entries
      ensures old(registry.ConnectFails()) ==> r == Fail(Generic(ConnectFailedMessage))
      ensures !old(registry.ConnectFails()) && SetExRefused(registry.server.faults, tokenTtl) ==> r == Fail(Generic(SaveTokenFailedMessage))
      ensures !old(registry.ConnectFails()) && !SetExRefused(registry.server.faults, tokenTtl) ==> r == Pass
      ensures old(registry.conn) != null ==> registry.conn == old(registry.conn)
      ensures registry.server.entries ==
        if r.Pass?
        then old(registry.server.entries)[PrefixedKey(registry.keyPrefix, AuthTokenKey) := Entry(Serialize(Str(token)), tokenTtl)]
        else old(registry.server.entries)
    {
      var ok := registry.Set(AuthTokenKey, Str(token), tokenTtl);
      if ok.Failure? {
        return Fail(ok.error);
      }
      if !ok.value {
        return Fail(Generic(SaveTokenFailedMessage));
      }
      r := Pass;
    }
  }
}
