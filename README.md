# Azure blob-storage image services, modelled in Dafny

A Symfony application lets a user upload one image as base64 and render it back. The image is
stored in an Azure Blob Storage container, and the access token that Azure Active Directory
issues for it is cached in Redis. This project models the five services that do this work and
proves what they promise:

- **CacheRegistry** (`KeyValueCache`, `cache_registry.dfy`): a key/value wrapper over a Redis
  server (`RedisBackend`, `redis_backend.dfy`).
  - It connects lazily, and only once.
  - It prefixes every key with its namespace.
  - GET, SETEX and DEL failures become "not found" or `false` results; a failure to connect is
    thrown.
- **UploadCache** (`ImageCache`, `upload_cache.dfy`): keeps the token and image payloads under
  keys built from the prefix `upload_image`.
- **BlobStorageAuthenticator** (`BlobAuth`, `authenticator.dfy`):
  - fetches the token, from the cache first and otherwise from the identity provider
    (`IdentityProvider`, `identity_provider.dfy`), using the client-credentials grant of
    section 4.4 of RFC 6749;
  - builds the blob-storage client from that token and keeps it in a field;
  - has a `_token` field meant to hold the token, which the code as written never fills (see
    below).
- **BlobStorageManager** (`BlobManager`, `blob_manager.dfy`):
  - connects once;
  - makes sure the configured container exists;
  - uploads an image as the blob `<imgId>-general-images`;
  - reads an image back by listing the blob names that start with the image id.

  The storage account is a sequence of containers, each holding a sequence of blobs
  (`BlobBackend` and `BlobBackendFacts`, `blob_backend.dfy`).
- **UploadImageValidator** (`Validation`, `validator.dfy`): two independent checks on the
  submitted value. Each broken check appends its message to the caller's list.

Supporting modules:
- `Wrappers` holds `Option`, `Result` and `Outcome`.
- `Php` holds the PHP values the services handle, PHP's truthiness and `empty`, the string
  coercion of a declared `string` return type, and the exceptions the code throws, as a datatype.
- `Base64` is the base64 alphabet of section 4 of RFC 4648. Encoding is standard. Decoding
  follows PHP's non-strict `base64_decode`: `=` and characters outside the alphabet are skipped,
  and the remaining sextets are packed into bytes. The model proves that decoding an encoding
  gives back the bytes.

The external systems are classes whose state the services change:
- `RedisServer.entries`;
- `BlobAccount.containers`;
- the identity provider's request log, `TokenEndpoint.requests`.

Which of their operations fail is a field (`faults`) the environment sets, so every error path
is reachable. The contracts of the services' operations give the outcome for each combination
of faults. Some helper functions state less, and their rows below say what they state.
Redis itself refuses a SETEX whose ttl is not positive, so saving a token whose `expires_in` is
negative fails even when Redis is healthy (`BlobAuth.NegativeExpiryNotSaved`).

Some proved properties go beyond single calls:
- a `set` followed by a `get` returns the value;
- an image key never collides with the token key;
- a saved token is reused without asking the identity provider again;
- when no other blob name in the container starts with the image id, an upload followed by a
  `getImage` returns the canonical base64 encoding of the uploaded bytes (the uploaded text
  itself when it was canonical), and a second upload replaces the first;
- an upload leaves other blobs and containers alone;
- in a well-formed account, an upload in which listing and creating the container do not fail
  keeps the configured container listed exactly once, so a sequence of such uploads does too.

The model also proves three consequences of the code as written:
- **A token is never held.** The docblock of `_authenticate`
  (src/Service/BlobStorageAuthenticator.php:165-167) says that the connection is refreshed
  when the token has expired and a new one was generated. But the branch taken with no token
  held (lines 174-178) passes the fetched token to `_refreshConnection` without assigning
  `_token`. `_token` starts empty, so it stays empty, and every `getBsConnection` fetches a
  token and builds a new connection. The comparison of the old and new token (lines 180-185)
  is never reached. The model follows the code (`BlobAuth.BlobStorageAuthenticator.Authenticate`).
- **Prefix ids are ambiguous.** `getImage` selects blobs by prefix. After uploading the ids
  `ab` and `abc`, `getImage("ab")` fails as ambiguous (`BlobManager.PrefixIdsCollide`).
- **Only the download step is wrapped.** In `getImage` (src/Service/BlobStorageManager.php:83-123)
  only the block at lines 112-120, which reads the blob, sits in a `try` that wraps its
  exception as "Unable to obtain the image identifier by <id>". Failures of `connect`,
  `listContainers` and `listBlobs` reach the caller as they are. `uploadImage`, in contrast,
  wraps every exception (lines 136-143). The model follows the code (`BlobManager.ImageAnswer`).

## Model

| member | source | states |
|---|---|---|
| KeyValueCache.CacheRegistry.Create | src/Service/CacheRegistry.php:62-71 | construction fails with InvalidArgumentException "Redis Host cannot be empty." exactly when the host is PHP-falsy ("" or "0"); otherwise the registry keeps its settings and holds no connection |
| KeyValueCache.CacheRegistry.Connect | src/Service/CacheRegistry.php:78-94 | a connection is opened only while none is held, and a held one is kept; it throws "Unable to connect Redis server" exactly when none is held and opening fails, and then still holds none |
| KeyValueCache.CacheRegistry.Get | src/Service/CacheRegistry.php:106-119 | a connect failure is thrown; otherwise the answer is the lookup of the prefixed key: a failing GET gives found=false and value false, otherwise found exactly when the raw reply is not false, with the unserialized value |
| KeyValueCache.Interpret | src/Service/CacheRegistry.php:116-118 | found exactly when the raw reply is not false; the value is unserialize of the raw reply |
| KeyValueCache.GetAnswer | src/Service/CacheRegistry.php:110-118 | a failing GET gives the transport miss; a stored key gives its value, found; a missing key gives what the client's missing-key reply reads as |
| KeyValueCache.CacheRegistry.Set | src/Service/CacheRegistry.php:152-161 | a connect failure is thrown; otherwise the result is true exactly when SETEX is accepted (no transport failure and a positive ttl), and then the serialized value with the ttl is stored under the prefixed key and nothing else changes |
| KeyValueCache.CacheRegistry.Purge | src/Service/CacheRegistry.php:129-140 | a connect failure is thrown; otherwise the result is true exactly when DEL does not fail (also for an absent key), and then the prefixed key is removed and nothing else changes |
| KeyValueCache.PrefixedKeyInjective | src/Service/CacheRegistry.php:170-173 | two keys share a store key only if they are equal, so operations on one key never touch another |
| KeyValueCache.PrefixedKeyNotBare | src/Service/CacheRegistry.php:170-173 | with a non-empty prefix the store key is never the bare key |
| KeyValueCache.PrefixedKey | src/Service/CacheRegistry.php:170-173 | the store key is the registry's prefix followed by the key, character for character |
| KeyValueCache.SetThenGetAnswer | src/Service/CacheRegistry.php:152-161 | after a successful SETEX of v, reading the same key gives v, found |
| KeyValueCache.MissingKeyNotFound | src/Service/CacheRegistry.php:116 | when the client answers a missing key with false, the key reads as not found |
| KeyValueCache.MissingKeyFoundUnderNullReply | src/Service/CacheRegistry.php:116-118 | when the client answers a missing key with null, the literal test reports it found, with the value false |
| RedisBackend.Unserialize | src/Service/CacheRegistry.php:118 | a payload unserializes to the value it encodes; false and null unserialize to false |
| RedisBackend.UnserializeSerialize | src/Service/CacheRegistry.php:157 | unserialize inverts serialize |
| RedisBackend.Read | src/Service/CacheRegistry.php:111 | GET of a stored key returns its payload; a missing key returns the client's missing-key reply |
| RedisBackend.RedisServer.Open | src/Service/CacheRegistry.php:82-89 | a connection is returned exactly when connecting does not fail |
| RedisBackend.RedisServer.GetCommand | src/Service/CacheRegistry.php:111 | GET fails when its transport fails, otherwise returns what the server holds for the key |
| RedisBackend.RedisServer.SetExCommand | src/Service/CacheRegistry.php:157 | SETEX fails exactly when its transport fails or the ttl is not positive (which Redis answers with an error reply), and then changes nothing; otherwise it stores the payload with the ttl under the key |
| RedisBackend.RedisServer.DelCommand | src/Service/CacheRegistry.php:134 | DEL either fails and changes nothing, or removes the key, present or not |
| ImageCache.ImageKeyInjective | src/Service/UploadCache.php:148-151 | different image ids never share a cache key |
| ImageCache.ImageKey | src/Service/UploadCache.php:148-151 | an image key is "upload_image", then '_', then the image id |
| ImageCache.KeysShareCachePrefix | src/Service/UploadCache.php:148-162 | both the image keys and the token key "upload_image-azure_active_directory_token_key" start with the cache prefix "upload_image" |
| ImageCache.ImageKeyIsNotTokenKey | src/Service/UploadCache.php:148-162 | no image key equals the token key: they differ at the character after "upload_image" ('_' against '-') |
| ImageCache.ImageStoreKeyIsNotTokenStoreKey | src/Service/UploadCache.php:148-162 | whatever the registry's prefix, saving or removing an image never touches the stored token |
| ImageCache.TokenFromLookup | src/Service/UploadCache.php:116-122 | a lookup not found gives null; a found string is returned as the token; only a found array fails, with a TypeError from the ?string return type |
| ImageCache.ImageFromLookup | src/Service/UploadCache.php:74-84 | a lookup not found throws NotFoundException with the image's message; a found string is returned; success implies found |
| ImageCache.UploadCache.SaveImageBase64 | src/Service/UploadCache.php:57-61 | only a connect failure is thrown; the payload is stored under the image key with the configured ttl exactly when SETEX is accepted, and a refused SETEX is ignored |
| ImageCache.UploadCache.GetImageBase64 | src/Service/UploadCache.php:74-84 | a connect failure is thrown; otherwise the answer is the image key's lookup read by ImageFromLookup (the payload, or NotFoundException) |
| ImageCache.UploadCache.RemoveImageBase64 | src/Service/UploadCache.php:96-107 | not found: NotFoundException and the store is unchanged, no purge; a failing purge: a generic exception and the store unchanged; otherwise the image key is removed |
| ImageCache.UploadCache.GetAuthToken | src/Service/UploadCache.php:116-122 | the answer is the token key's lookup read by TokenFromLookup: the cached token when found, null otherwise |
| ImageCache.UploadCache.SaveAuthToken | src/Service/UploadCache.php:134-139 | a connect failure is thrown; otherwise the save error is thrown exactly when SETEX is refused (a transport failure or a ttl that is not positive), and on success the token is stored under the token key with the given ttl |
| Php.CoerceToString | src/Service/UploadCache.php:83 | a string return value is kept, false becomes "", null and arrays are refused |
| IdentityProvider.TokenEndpoint.Request | src/Service/BlobStorageAuthenticator.php:224-236 | the request is appended to the endpoint's log and the endpoint's answer is returned |
| BlobAuth.ClientCredentialsRequest | src/Service/BlobStorageAuthenticator.php:223-235 | the request carries grant type client_credentials, the storage scope, the client id and the client secret |
| BlobAuth.ParseTokenReply | src/Service/BlobStorageAuthenticator.php:237-248 | a transport failure is the authentication error with its cause; a body is accepted exactly when access_token and expires_in are both present and PHP-truthy (so also not 0 and not "0"), otherwise it is the generic invalid-response error |
| BlobAuth.TokenOutcome | src/Service/BlobStorageAuthenticator.php:210-253 | a truthy cached token is returned as is; a cache failure propagates |
| BlobAuth.TokenOutcomeTruthy | src/Service/BlobStorageAuthenticator.php:215-252 | every token handed out is PHP-truthy |
| BlobAuth.TokenOutcomeOnMiss | src/Service/BlobStorageAuthenticator.php:222-252 | on a cache miss a token is returned exactly when the reply is valid and SETEX accepts it (no failure and a positive expires_in); the token is the reply's access_token; an unreachable endpoint gives the authentication error |
| BlobAuth.NegativeExpiryNotSaved | src/Service/BlobStorageAuthenticator.php:242-250 | a reply with a truthy access_token and a negative expires_in passes the validity check, yet the fetch throws the save error, whatever the cache's faults |
| BlobAuth.SavedTokenIsReused | src/Service/BlobStorageAuthenticator.php:215-250 | after a valid reply's token is saved, the next fetch hits the cache (no request) and returns the same token |
| BlobAuth.BlobStorageAuthenticator.constructor | src/Service/BlobStorageAuthenticator.php:133-148 | the settings are kept; no token and no connection are held |
| BlobAuth.BlobStorageAuthenticator.GetAuthToken | src/Service/BlobStorageAuthenticator.php:210-253 | the result is TokenOutcome of the cache's answer, the endpoint's answer and the cache's faults; the endpoint is asked once exactly on a cache miss; a valid fresh token is stored with ttl expires_in when SETEX accepts it, and nothing is stored otherwise |
| BlobAuth.BlobStorageAuthenticator.RefreshConnection | src/Service/BlobStorageAuthenticator.php:195-199 | a new client is built for the given token over "DefaultEndpointsProtocol=<protocol>;AccountName=<account>;" |
| BlobAuth.ConnectionString | src/Service/BlobStorageAuthenticator.php:197 | the connection string starts with "DefaultEndpointsProtocol=", ends with the account name and ';', and has the length of its parts |
| BlobAuth.ConnectionStringNamesAccount | src/Service/BlobStorageAuthenticator.php:197 | two accounts reached over the same protocol get different connection strings |
| BlobAuth.BlobStorageAuthenticator.Authenticate | src/Service/BlobStorageAuthenticator.php:172-186 | fails exactly when fetching the token fails, changing neither field. With no token held, a new connection is built from the fetched token and _token stays empty. With a token held, the fetched token replaces it and the connection is rebuilt exactly when the token changed. A held token always comes with its connection |
| BlobAuth.BlobStorageAuthenticator.GetBsConnection | src/Service/BlobStorageAuthenticator.php:157-162 | returns the connection of the latest refresh, built from the fetched token; it is new when no token was held or the token changed, and the old one otherwise |
| BlobBackend.FindContainer | src/Service/BlobStorageManager.php:204-208 | a container is found exactly when its name is listed, and it is one of the account's containers |
| BlobBackend.FindBlob | src/Service/BlobStorageManager.php:116 | a content is found exactly when the name is in the container, and it is the content of a blob of that name |
| BlobBackend.BlobNamesWithPrefix | src/Service/BlobStorageManager.php:93-95 | the listing holds exactly the container's blob names that start with the prefix |
| BlobBackend.BlobAccount.ListContainers | src/Service/BlobStorageManager.php:202-203 | lists the container names, or fails when listing fails |
| BlobBackend.BlobAccount.CreateContainer | src/Service/BlobStorageManager.php:187 | succeeds exactly when creation does not fail and the name is new, and then appends an empty container; otherwise nothing changes |
| BlobBackend.BlobAccount.ListBlobs | src/Service/BlobStorageManager.php:93-95 | lists the container's names with the prefix, or fails when listing fails or the container is missing |
| BlobBackend.BlobAccount.GetBlob | src/Service/BlobStorageManager.php:116 | returns the named blob's content, or fails when reading fails or the blob is missing |
| BlobBackend.BlobAccount.CreateBlockBlob | src/Service/BlobStorageManager.php:140 | succeeds exactly when writing does not fail and the container exists, and then writes the blob over any blob of that name; names stay unique |
| BlobBackend.PutInContainerWellFormed | src/Service/BlobStorageManager.php:140 | writing a blob keeps container and blob names unique and leaves the container names as they were |
| BlobBackend.PutBlobNames | src/Service/BlobStorageManager.php:140 | after writing, the blob names are the old ones plus the written one |
| BlobBackendFacts.FindBlobAfterPut | src/Service/BlobStorageManager.php:140 | after writing, the written name reads the new content and every other name reads as before |
| BlobBackendFacts.FindContainerAfterPut | src/Service/BlobStorageManager.php:140 | writing changes only the target container, and in it only the written blob |
| BlobBackendFacts.PrefixListingAfterPut | src/Service/BlobStorageManager.php:93-95 | when no other name in the container has the prefix, after writing a name with that prefix the prefix listing is exactly that name |
| BlobManager.BlobNameHasImagePrefix | src/Service/BlobStorageManager.php:168-171 | the blob name starts with the image id, so getImage's prefix listing sees it |
| BlobManager.BlobNameInjective | src/Service/BlobStorageManager.php:168-171 | different image ids get different blob names |
| BlobManager.BlobName | src/Service/BlobStorageManager.php:168-171 | a blob name is the image id followed by "-general-images" |
| BlobManager.SelectBlob | src/Service/BlobStorageManager.php:96-113 | no match throws AzureBlobStorageNotFoundException "There is not an image identifier by <id>"; more than one throws AzureBlobStorageException "There are more than one image identified by <id>"; exactly one selects it |
| BlobManager.ImageAnswer | src/Service/BlobStorageManager.php:83-123 | a listContainers failure is thrown as is; a missing container is AzureBlobStorageNotFoundException "There is not defined the container"; a listBlobs failure is thrown as is; no match, several matches and a failing read give their errors; the answer succeeds exactly when nothing fails and one blob name starts with the id, and it is then the base64 encoding of that blob's content |
| BlobManager.NoMatchingBlobNotFound | src/Service/BlobStorageManager.php:100-102 | when no blob name of the existing container starts with the id, getImage throws AzureBlobStorageNotFoundException "There is not an image identifier by <id>" |
| BlobManager.WithContainerIdempotent | src/Service/BlobStorageManager.php:180-188 | after _createContainer's effect the container exists, and doing it again changes nothing |
| BlobManager.WrapUploadError | src/Service/BlobStorageManager.php:141-143 | every exception becomes AzureBlobStorageException "Unable to upload the image <id> to Blob Storage Service" with the original as its cause; a TypeError is not caught |
| BlobManager.ContainsName | src/Service/BlobStorageManager.php:204-210 | the scan answers true exactly when some listed name equals the wanted one |
| BlobManager.BlobStorageManager.constructor | src/Service/BlobStorageManager.php:63-71 | the authenticator and container name are kept; no connection is held |
| BlobManager.BlobStorageManager.Connect | src/Service/BlobStorageManager.php:153-159 | while no connection is held the authenticator is asked and its connection kept (its error is thrown); once one is held nothing at all changes |
| BlobManager.BlobStorageManager.ExistsContainer | src/Service/BlobStorageManager.php:198-211 | after connecting, true exactly when a listed container's name equals the given one; a listing failure is thrown |
| BlobManager.BlobStorageManager.CreateContainer | src/Service/BlobStorageManager.php:180-188 | after connecting, an existing container is left alone; a missing one is created; the account afterwards is the old one with the container added only if absent, or unchanged on failure |
| BlobManager.BlobStorageManager.GetImage | src/Service/BlobStorageManager.php:83-123 | after connecting, the answer is ImageAnswer of the account: a missing container is AzureBlobStorageNotFoundException "There is not defined the container"; then the selection rule; then the base64 encoding of the one blob's content, a read failure being wrapped with "Unable to obtain the image identifier by <id>"; the account is not changed |
| BlobManager.BlobStorageManager.UploadImage | src/Service/BlobStorageManager.php:134-144 | every failure is wrapped as the upload error; on success the container exists and holds the base64 decoding of the payload under the image's blob name, written over any blob of that name |
| BlobManager.UploadedContainer | src/Service/BlobStorageManager.php:136-140 | after an upload the account is well formed, the container exists and holds its former blobs with the image's blob written over them |
| BlobManager.UploadThenGetImage | src/Service/BlobStorageManager.php:83-144 | uploading the canonical base64 text of some bytes and then getting the same id returns that same text, when no other blob name in the container starts with the id (in particular in a new account) |
| BlobManager.UploadThenGetCanonical | src/Service/BlobStorageManager.php:83-144 | uploading any text and then getting the same id returns the canonical base64 encoding of the text's decoding (unpadded or non-alphabet text comes back normalised), under the same condition |
| BlobManager.UploadKeepsOnlyOwnBlob | src/Service/BlobStorageManager.php:139-140 | an upload keeps the image's blob the only one its id selects |
| BlobManager.ReplaceThenGetImage | src/Service/BlobStorageManager.php:134-144 | uploading an id twice and then getting it returns the second upload |
| BlobManager.UploadLeavesOthersAlone | src/Service/BlobStorageManager.php:139-140 | an upload changes no other container and no other blob of its container; the image's blob holds the decoded payload |
| BlobManager.UploadLeavesOneContainer | src/Service/BlobStorageManager.php:180-188 | in a well-formed account, an upload in which listing and creating the container do not fail leaves the account well formed with the configured container listed exactly once, so a sequence of such uploads does too |
| BlobManager.PrefixIdsCollide | src/Service/BlobStorageManager.php:93-107 | once an id and a longer id that starts with it are both uploaded, getImage of the shorter one fails as ambiguous |
| Base64.Encode | src/Service/BlobStorageManager.php:122 | the encoding has 4 characters per started group of 3 bytes |
| Base64.DecodeEncode | src/Service/BlobStorageManager.php:140 | decoding an encoding gives back the bytes |
| Base64.Decode | src/Service/BlobStorageManager.php:140 | the decoding is at most three bytes per four characters of text |
| Base64.EncodeDecodeOfEncoded | src/Service/BlobStorageManager.php:140 | an encoded text survives decoding and encoding again unchanged |
| Base64.UnpaddedTextComesBackPadded | src/Service/BlobStorageManager.php:122 | the unpadded text "aGk" decodes to "hi", whose encoding is "aGk=" |
| Validation.Violations | src/Service/UploadImageValidator.php:27-34 | no message exactly for a PHP-truthy string; one message per broken rule, "required" first when the value is empty and "string" last when it is not a string |
| Validation.Validate | src/Service/UploadImageValidator.php:23-37 | the messages of the broken rules are appended after the existing entries, and the result is true exactly when none was appended |
| Validation.ErrorList.Append | src/Service/UploadImageValidator.php:29 | the message is added at the end and the earlier entries are kept |
| Validation.ValidIffTruthyString | src/Service/UploadImageValidator.php:27-34 | a value is accepted exactly when it is a string other than "" and "0" |
| Validation.ZeroStringOnlyRequired | src/Service/UploadImageValidator.php:27-31 | "0" gets only the "required" message |
| Validation.EmptyNonStringGetsBoth | src/Service/UploadImageValidator.php:27-34 | an empty non-string (null, false, 0, []) gets both messages, "required" first |
| Validation.TruthyNonStringOnlyString | src/Service/UploadImageValidator.php:31-34 | a non-empty non-string gets only the "string" message |
| Php.IsEmpty | src/Service/UploadImageValidator.php:27 | empty() holds exactly for null, false, 0, "", "0" and the empty array |

## Left out

- Redis expiry: the ttl is recorded with each entry, but there is no clock, and entries never expire.
- `serialize`/`unserialize` are an injective encoding (`Serialized(v)`), not PHP's text format. Unserializing arbitrary text is not modelled.
- PHP floats and objects are not part of the value model. Values are null, booleans, integers, strings and arrays.
- The Predis client's answer for a missing key is library behaviour. It is a parameter of the server (`missReply`), and the code's test against `false` is modelled literally.
- The identity provider's HTTP exchange is not modelled: Guzzle, the request headers, `verify => false`, `json_decode` and reading the body. The endpoint is a parameter returning a transport failure or a body with an optional token and an optional `expires_in`.
- BlobAuth.ParseTokenReply: does not model JSON fields of other types (a numeric `access_token`, a string `expires_in`) or PHP's coercion of them when they are passed to `saveAuthToken`.
- The Azure SDK's wire protocol is not modelled. A connection handle has only an identity, its token and its connection string. Every handle reaches the same account.
- BlobBackend.BlobAccount.ListBlobs: listing pagination and continuation markers are not modelled; one listing returns every match.
- BlobBackend.BlobAccount.ListContainers: listing pagination is not modelled either (src/Service/BlobStorageManager.php:202 reads only the first page); one listing returns every container.
- BlobManager.BlobStorageManager.GetImage: the temporary-directory staging (`_initTmpDir`, `mkdir`, `file_put_contents`, `file_get_contents`) is not modelled. The blob's content is encoded directly, so filesystem failures are not modelled either.
- The Symfony kernel argument of the manager's constructor, logging and dependency-injection wiring are not modelled.
- The HTTP controllers, the exception classes (folded into `Php.Error`) and `ImageModel` are not part of this model.
- Concurrency is not modelled: requests sharing one service instance, and the race between checking for and creating a container.
