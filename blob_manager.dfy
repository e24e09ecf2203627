/**
 * BlobStorageManager: connects once through the authenticator, makes sure the configured
 * container exists, uploads an image as the blob `<imgId>-general-images`, and reads an
 * image back by listing the blobs whose name starts with the image id.
 */
module BlobManager {
  import opened Wrappers
  import opened Php
  import opened Base64
  import opened BlobBackend
  import opened BlobAuth
  import opened BlobBackendFacts

  const ContainerPrefix := "general-images"
  const ContainerMissingMessage := "There is not defined the container"

  function NoImageMessage(imgId: string): string {
    "There is not an image identifier by " + imgId
  }

  function AmbiguousImageMessage(imgId: string): string {
    "There are more than one image identified by " + imgId
  }

  function DownloadFailedMessage(imgId: string): string {
    "Unable to obtain the image identifier by " + imgId
  }

  function UploadFailedMessage(imgId: string): string {
    "Unable to upload the image " + imgId + " to Blob Storage Service"
  }

  /**
   * `_buildBlobName`. The contract spells out the format; the properties that matter are
   * `BlobNameHasImagePrefix` and `BlobNameInjective`.
   */
  function BlobName(imgId: string): (n: string)
    ensures |n| == |imgId| + 1 + |ContainerPrefix|
    ensures n[..|imgId|] == imgId && n[|imgId|..] == "-" + ContainerPrefix
  {
    imgId + "-" + ContainerPrefix
  }

  /** The blob of an image starts with the image id, so `getImage`'s prefix listing sees it. */
  lemma BlobNameHasImagePrefix(imgId: string)
    ensures HasPrefix(imgId, BlobName(imgId))
  {
  }

  /** Different images get different blobs. */
  lemma BlobNameInjective(a: string, b: string)
    ensures BlobName(a) == BlobName(b) ==> a == b
  {
    if BlobName(a) == BlobName(b) {
      assert |a| == |b|;
      assert a == BlobName(a)[..|a|];
      assert b == BlobName(b)[..|b|];
    }
  }

  /**
   * `getImage`'s selection rule over the prefix listing: no match is NotFound, more than one
   * is an ambiguity error, exactly one is the blob to read. The contract is the code's table
   * of cases; `NoMatchingBlobNotFound` and `AmbiguousAnswer` state it in terms of the account.
   */
  function SelectBlob(imgId: string, names: seq<string>): (r: Result<string, Error>)
    ensures r.Success? <==> |names| == 1
    ensures r.Success? ==> r.value == names[0]
    ensures |names| == 0 ==> r == Failure(BlobStorageNotFound(NoImageMessage(imgId)))
    ensures |names| > 1 ==> r == Failure(BlobStorage(AmbiguousImageMessage(imgId), None))
  {
    if |names| == 0 then Failure(BlobStorageNotFound(NoImageMessage(imgId)))
    else if |names| > 1 then Failure(BlobStorage(AmbiguousImageMessage(imgId), None))
    else Success(names[0])
  }

  /** What `getImage` returns or throws once connected, given the account and its faults. */
  function ImageAnswer(cs: seq<Container>, faults: set<Operation>, container: string, imgId: string): (r: Result<string, Error>)
    ensures ListContainersOp in faults ==> r == Failure(Service)
    ensures ListContainersOp !in faults && container !in ContainerNames(cs) ==>
      r == Failure(BlobStorageNotFound(ContainerMissingMessage))
    ensures ListContainersOp !in faults && container in ContainerNames(cs) && ListBlobsOp in faults ==>
      r == Failure(Service)
    ensures ListContainersOp !in faults && ListBlobsOp !in faults && container in ContainerNames(cs) ==>
      var matches := BlobNamesWithPrefix(BlobsOf(cs, container), imgId);
      (|matches| == 0 ==> r == Failure(BlobStorageNotFound(NoImageMessage(imgId))))
      && (|matches| > 1 ==> r == Failure(BlobStorage(AmbiguousImageMessage(imgId), None)))
      && (|matches| == 1 && GetBlobOp in faults ==> r == Failure(BlobStorage(DownloadFailedMessage(imgId), Some(Service))))
    ensures r.Success? <==>
      ListContainersOp !in faults && ListBlobsOp !in faults && GetBlobOp !in faults && container in ContainerNames(cs)
      && |BlobNamesWithPrefix(BlobsOf(cs, container), imgId)| == 1
    ensures r.Success? ==>
      exists b :: b in BlobsOf(cs, container) && b.name == BlobNamesWithPrefix(BlobsOf(cs, container), imgId)[0]
                  && r.value == Encode(b.content)
  {
    if ListContainersOp in faults then Failure(Service)
    else if container !in ContainerNames(cs) then Failure(BlobStorageNotFound(ContainerMissingMessage))
    else if ListBlobsOp in faults then Failure(Service)
    else
      var blobs := FindContainer(cs, container).value.blobs;
      match SelectBlob(imgId, BlobNamesWithPrefix(blobs, imgId))
      case Failure(e) => Failure(e)
      case Success(name) =>
        if GetBlobOp in faults || FindBlob(blobs, name).None?
        then Failure(BlobStorage(DownloadFailedMessage(imgId), Some(Service)))
        else
          assert Blob(name, FindBlob(blobs, name).value) in blobs;
          Success(Encode(FindBlob(blobs, name).value))
  }

  /** With nothing failing, an existing container none of whose blob names starts with the id has no image. */
  lemma NoMatchingBlobNotFound(cs: seq<Container>, faults: set<Operation>, container: string, imgId: string)
    requires ListContainersOp !in faults && ListBlobsOp !in faults && container in ContainerNames(cs)
    requires forall m :: m in BlobNames(BlobsOf(cs, container)) ==> !HasPrefix(imgId, m)
    ensures ImageAnswer(cs, faults, container, imgId) == Failure(BlobStorageNotFound(NoImageMessage(imgId)))
  {
    NoPrefixMatches(BlobsOf(cs, container), imgId);
  }

  /** The account after `_createContainer` succeeds: the container is added only when absent. */
  function WithContainer(cs: seq<Container>, container: string): seq<Container> {
    if container in ContainerNames(cs) then cs else cs + [Container(container, [])]
  }

  /** After `_createContainer` the container is there, and a second call changes nothing. */
  lemma WithContainerIdempotent(cs: seq<Container>, container: string)
    ensures container in ContainerNames(WithContainer(cs, container))
    ensures WithContainer(WithContainer(cs, container), container) == WithContainer(cs, container)
  {
    if container !in ContainerNames(cs) {
      ContainerNamesAppend(cs, Container(container, []));
    }
  }

  /**
   * `uploadImage`'s `catch (Exception $e)`: every exception is wrapped, a TypeError is not.
   * The contract is that rule as written; `UploadImage` applies it to every failing step.
   */
  function WrapUploadError(imgId: string, e: Error): (w: Error)
    ensures e.IsException() ==> w == BlobStorage(UploadFailedMessage(imgId), Some(e))
    ensures !e.IsException() ==> w == e
  {
    if e.IsException() then BlobStorage(UploadFailedMessage(imgId), Some(e)) else e
  }

  /** What `uploadImage` returns or throws once connected. */
  function UploadAnswer(cs: seq<Container>, faults: set<Operation>, container: string): Outcome<Error> {
    if ListContainersOp in faults then Fail(Service)
    else if container !in ContainerNames(cs) && CreateContainerOp in faults then Fail(Service)
    else if CreateBlockBlobOp in faults then Fail(Service)
    else Pass
  }

  /** The account after `uploadImage` once connected. */
  function UploadedContainers(cs: seq<Container>, faults: set<Operation>, container: string,
                              imgId: string, imageBase64: string): seq<Container> {
    if ListContainersOp in faults || (container !in ContainerNames(cs) && CreateContainerOp in faults) then cs
    else if CreateBlockBlobOp in faults then WithContainer(cs, container)
    else PutInContainer(WithContainer(cs, container), container, BlobName(imgId), Decode(imageBase64))
  }

  /** The `foreach` of `_existsContainer`: true as soon as a listed name equals `name`. */
  method ContainsName(names: seq<string>, name: string) returns (found: bool)
    ensures found <==> name in names
  {
    var i := 0;
    while i < |names|
      invariant 0 <= i <= |names|
      invariant name !in names[..i]
    {
      if names[i] == name {
        return true;
      }
      i := i + 1;
    }
    return false;
  }

  /** No blob of `container` other than the image's own has a name starting with the image id. */
  predicate OnlyOwnBlobMatches(cs: seq<Container>, container: string, imgId: string) {
    match FindContainer(cs, container)
    case None => true
    case Some(k) => forall m :: m in BlobNames(k.blobs) && HasPrefix(imgId, m) ==> m == BlobName(imgId)
  }

  /** The blobs `container` holds; none when it does not exist. */
  function BlobsOf(cs: seq<Container>, container: string): seq<Blob> {
    match FindContainer(cs, container)
    case None => []
    case Some(k) => k.blobs
  }

  /** How often `name` occurs in a listing. */
  function Occurrences(names: seq<string>, name: string): nat {
    if names == [] then 0 else (if names[0] == name then 1 else 0) + Occurrences(names[1..], name)
  }

  /** In a well-formed account a container name is listed at most once. */
  lemma {:induction false} OccurrencesInWellFormed(cs: seq<Container>, name: string)
    requires WellFormed(cs)
    ensures Occurrences(ContainerNames(cs), name) == if name in ContainerNames(cs) then 1 else 0
  {
    if cs != [] {
      assert ContainerNames(cs)[1..] == ContainerNames(cs[1..]);
      OccurrencesInWellFormed(cs[1..], name);
    }
  }

  /**
   * A fault-free upload leaves a well-formed account in which the container exists and holds
   * its former blobs with the image's blob written over them.
   */
  lemma UploadedContainer(cs: seq<Container>, container: string, imgId: string, imageBase64: string)
    requires WellFormed(cs)
    ensures var u := UploadedContainers(cs, {}, container, imgId, imageBase64);
      WellFormed(u)
      && ContainerNames(u) == ContainerNames(WithContainer(cs, container))
      && FindContainer(u, container)
         == Some(Container(container, PutBlob(BlobsOf(cs, container), BlobName(imgId), Decode(imageBase64))))
  {
    var w := WithContainer(cs, container);
    if container !in ContainerNames(cs) {
      AppendContainerWellFormed(cs, container);
      FindContainerAfterAppend(cs, Container(container, []), container);
    }
    WithContainerIdempotent(cs, container);
    PutInContainerWellFormed(w, container, BlobName(imgId), Decode(imageBase64));
    FindContainerAfterPut(w, container, BlobName(imgId), Decode(imageBase64), container);
  }

  /**
   * `uploadImage` of any text then `getImage` of the same id gives back the canonical base64
   * text of the decoded bytes, as long as no other blob name in the container starts with that
   * id (for instance, in a new account).
   */
  lemma UploadThenGetCanonical(cs: seq<Container>, container: string, imgId: string, imageBase64: string)
    requires WellFormed(cs) && OnlyOwnBlobMatches(cs, container, imgId)
    ensures ImageAnswer(UploadedContainers(cs, {}, container, imgId, imageBase64), {}, container, imgId)
         == Success(Encode(Decode(imageBase64)))
  {
    var bs := BlobsOf(cs, container);
    UploadedContainer(cs, container, imgId, imageBase64);
    WithContainerIdempotent(cs, container);
    if FindContainer(cs, container).Some? {
      FoundContainerUnique(cs, container);
    }
    BlobNameHasImagePrefix(imgId);
    PrefixListingAfterPut(bs, BlobName(imgId), Decode(imageBase64), imgId);
    FindBlobAfterPut(bs, BlobName(imgId), Decode(imageBase64), BlobName(imgId));
  }

  /** For text that is already canonical base64, `getImage` returns exactly the uploaded text. */
  lemma UploadThenGetImage(cs: seq<Container>, container: string, imgId: string, d: Bytes)
    requires WellFormed(cs) && OnlyOwnBlobMatches(cs, container, imgId)
    ensures ImageAnswer(UploadedContainers(cs, {}, container, imgId, Encode(d)), {}, container, imgId)
         == Success(Encode(d))
  {
    UploadThenGetCanonical(cs, container, imgId, Encode(d));
    EncodeDecodeOfEncoded(d);
  }

  /** A fault-free upload keeps the image's blob the only one its id selects. */
  lemma UploadKeepsOnlyOwnBlob(cs: seq<Container>, container: string, imgId: string, imageBase64: string)
    requires WellFormed(cs) && OnlyOwnBlobMatches(cs, container, imgId)
    ensures OnlyOwnBlobMatches(UploadedContainers(cs, {}, container, imgId, imageBase64), container, imgId)
  {
    UploadedContainer(cs, container, imgId, imageBase64);
    PutBlobNames(BlobsOf(cs, container), BlobName(imgId), Decode(imageBase64));
  }

  /** Uploading an id a second time replaces its image: `getImage` returns the newer one. */
  lemma ReplaceThenGetImage(cs: seq<Container>, container: string, imgId: string, first: Bytes, second: Bytes)
    requires WellFormed(cs) && OnlyOwnBlobMatches(cs, container, imgId)
    ensures var once := UploadedContainers(cs, {}, container, imgId, Encode(first));
      ImageAnswer(UploadedContainers(once, {}, container, imgId, Encode(second)), {}, container, imgId)
      == Success(Encode(second))
  {
    UploadedContainer(cs, container, imgId, Encode(first));
    UploadKeepsOnlyOwnBlob(cs, container, imgId, Encode(first));
    UploadThenGetImage(UploadedContainers(cs, {}, container, imgId, Encode(first)), container, imgId, second);
  }

  /**
   * A fault-free upload writes the image's blob and nothing else: other containers and the
   * container's other blobs read as before.
   */
  lemma UploadLeavesOthersAlone(cs: seq<Container>, container: string, imgId: string, imageBase64: string,
                                otherContainer: string, otherBlob: string)
    requires WellFormed(cs)
    ensures var u := UploadedContainers(cs, {}, container, imgId, imageBase64);
      && (otherContainer != container ==> FindContainer(u, otherContainer) == FindContainer(cs, otherContainer))
      && FindBlob(BlobsOf(u, container), BlobName(imgId)) == Some(Decode(imageBase64))
      && (otherBlob != BlobName(imgId) ==>
            FindBlob(BlobsOf(u, container), otherBlob) == FindBlob(BlobsOf(cs, container), otherBlob))
  {
    var w := WithContainer(cs, container);
    UploadedContainer(cs, container, imgId, imageBase64);
    if container !in ContainerNames(cs) {
      FindContainerAfterAppend(cs, Container(container, []), otherContainer);
    }
    FindContainerAfterPut(w, container, BlobName(imgId), Decode(imageBase64), otherContainer);
    FindBlobAfterPut(BlobsOf(cs, container), BlobName(imgId), Decode(imageBase64), BlobName(imgId));
    FindBlobAfterPut(BlobsOf(cs, container), BlobName(imgId), Decode(imageBase64), otherBlob);
  }

  /**
   * However often images are uploaded, the account lists the configured container exactly once
   * (unless listing or creating it failed).
   */
  lemma UploadLeavesOneContainer(cs: seq<Container>, faults: set<Operation>, container: string,
                                 imgId: string, imageBase64: string)
    requires WellFormed(cs)
    requires ListContainersOp !in faults && CreateContainerOp !in faults
    ensures WellFormed(UploadedContainers(cs, faults, container, imgId, imageBase64))
    ensures Occurrences(ContainerNames(UploadedContainers(cs, faults, container, imgId, imageBase64)), container) == 1
  {
    var w := WithContainer(cs, container);
    if container !in ContainerNames(cs) {
      AppendContainerWellFormed(cs, container);
    }
    WithContainerIdempotent(cs, container);
    PutInContainerWellFormed(w, container, BlobName(imgId), Decode(imageBase64));
    OccurrencesInWellFormed(UploadedContainers(cs, faults, container, imgId, imageBase64), container);
  }

  /** After a fault-free upload the container exists and holds its former names and the image's. */
  lemma UploadedNames(cs: seq<Container>, container: string, imgId: string, imageBase64: string)
    requires WellFormed(cs)
    ensures var u := UploadedContainers(cs, {}, container, imgId, imageBase64);
      WellFormed(u) && container in ContainerNames(u)
      && BlobName(imgId) in BlobNames(BlobsOf(u, container))
      && forall m :: m in BlobNames(BlobsOf(cs, container)) ==> m in BlobNames(BlobsOf(u, container))
  {
    UploadedContainer(cs, container, imgId, imageBase64);
    WithContainerIdempotent(cs, container);
    PutBlobNames(BlobsOf(cs, container), BlobName(imgId), Decode(imageBase64));
  }

  /** Two different names with the prefix make the prefix listing longer than one. */
  lemma AmbiguousListing(blobs: seq<Blob>, prefix: string, a: string, b: string)
    requires a in BlobNames(blobs) && b in BlobNames(blobs) && a != b
    requires HasPrefix(prefix, a) && HasPrefix(prefix, b)
    ensures |BlobNamesWithPrefix(blobs, prefix)| > 1
  {
    var listing := BlobNamesWithPrefix(blobs, prefix);
    assert a in listing && b in listing;
  }

  /** With the container present and no faults, a listing longer than one is the ambiguity error. */
  lemma AmbiguousAnswer(cs: seq<Container>, container: string, imgId: string)
    requires container in ContainerNames(cs)
    requires |BlobNamesWithPrefix(BlobsOf(cs, container), imgId)| > 1
    ensures ImageAnswer(cs, {}, container, imgId) == Failure(BlobStorage(AmbiguousImageMessage(imgId), None))
  {
  }

  /**
   * The prefix selection does not separate an id from a longer id it starts: once both are
   * uploaded, `getImage` of the shorter one fails as ambiguous.
   */
  lemma PrefixIdsCollide(cs: seq<Container>, container: string, shorter: string, longer: string, x: string, y: string)
    requires WellFormed(cs) && HasPrefix(shorter, longer) && shorter != longer
    ensures var once := UploadedContainers(cs, {}, container, shorter, x);
      ImageAnswer(UploadedContainers(once, {}, container, longer, y), {}, container, shorter)
      == Failure(BlobStorage(AmbiguousImageMessage(shorter), None))
  {
    var once := UploadedContainers(cs, {}, container, shorter, x);
    var twice := UploadedContainers(once, {}, container, longer, y);
    UploadedNames(cs, container, shorter, x);
    UploadedNames(once, container, longer, y);
    BlobNameInjective(shorter, longer);
    BlobNameHasImagePrefix(shorter);
    assert HasPrefix(shorter, BlobName(longer)) by {
      assert BlobName(longer)[..|longer|] == longer;
    }
    AmbiguousListing(BlobsOf(twice, container), shorter, BlobName(shorter), BlobName(longer));
    AmbiguousAnswer(twice, container, shorter);
  }

  class BlobStorageManager {
    const authenticator: BlobStorageAuthenticator
    const containerName: string
    /** The storage account every connection handle reaches. */
    const account: BlobAccount
    /** `_bsConnection`. */
    var bsConnection: BlobConnection?

    ghost predicate Valid()
      reads this, authenticator, account
    {
      authenticator.Valid() && account.Valid()
    }

    constructor(authenticator: BlobStorageAuthenticator, containerName: string, account: BlobAccount)
      ensures this.authenticator == authenticator && this.containerName == containerName
      ensures this.account == account && bsConnection == null
    {
      this.authenticator := authenticator;
      this.containerName := containerName;
      this.account := account;
      bsConnection := null;
    }

    /** What `connect` throws, if anything, in the current state. */
    function ConnectAnswer(): Outcome<Error>
      reads this, authenticator.cache.registry, authenticator.cache.registry.server, authenticator.endpoint
    {
      if bsConnection != null then Pass
      else match authenticator.NextToken()
        case Failure(e) => Fail(e)
        case Success(_) => Pass
    }

    /**
     * The effect of the `connect` calls on the authentication side: none once a handle is
     * held; otherwise one `getBsConnection`, whose handle is kept.
     */
    twostate predicate ConnectEffects()
      reads this, authenticator, authenticator.cache.registry, authenticator.cache.registry.server, authenticator.endpoint
    {
      if old(bsConnection) != null then
        bsConnection == old(bsConnection)
        && unchanged(authenticator) && unchanged(authenticator.cache.registry)
        && unchanged(authenticator.cache.registry.server) && unchanged(authenticator.endpoint)
      else
        authenticator.endpoint.requests == old(authenticator.RequestsAfterFetch())
        && authenticator.cache.registry.server.entries == old(authenticator.EntriesAfterFetch())
        && (old(authenticator.NextToken()).Failure? ==> bsConnection == null)
        && (old(authenticator.NextToken()).Success? ==>
              bsConnection != null && bsConnection == authenticator.bsConnection
              && bsConnection.token == old(authenticator.NextToken()).value)
    }

    /** `connect`: asks the authenticator only while no handle is held. */
    method Connect() returns (r: Outcome<Error>)
      requires Valid()
      modifies this`bsConnection, authenticator`token, authenticator`bsConnection,
               authenticator.cache.registry`conn, authenticator.cache.registry.server`entries,
               authenticator.endpoint`requests
      ensures Valid()
      ensures r == old(ConnectAnswer())
      ensures r.Pass? ==> bsConnection != null
      ensures ConnectEffects()
    {
      if bsConnection != null {
        return Pass;
      }
      var c := authenticator.GetBsConnection();
      if c.Failure? {
        return Fail(c.error);
      }
      bsConnection := c.value;
      r := Pass;
    }

    /** `_existsContainer`: connect, list the containers, look for `name`. */
    method ExistsContainer(name: string) returns (r: Result<bool, Error>)
      requires Valid()
      modifies this`bsConnection, authenticator`token, authenticator`bsConnection,
               authenticator.cache.registry`conn, authenticator.cache.registry.server`entries,
               authenticator.endpoint`requests
      ensures Valid()
      ensures ConnectEffects()
      ensures old(ConnectAnswer()).Fail? ==> r == Failure(old(ConnectAnswer()).error)
      ensures old(ConnectAnswer()).Pass? ==>
        bsConnection != null
        && r == if ListContainersOp in account.faults then Failure(Service)
                else Success(name in ContainerNames(account.containers))
    {
      var c := Connect();
      if c.Fail? {
        return Failure(c.error);
      }
      var listed := account.ListContainers();
      if listed.Failure? {
        return Failure(listed.error);
      }
      var found := ContainsName(listed.value, name);
      r := Success(found);
    }

    /** `_createContainer`: create the configured container only when it is not listed. */
    method CreateContainer() returns (r: Outcome<Error>)
      requires Valid()
      modifies this`bsConnection, authenticator`token, authenticator`bsConnection,
               authenticator.cache.registry`conn, authenticator.cache.registry.server`entries,
               authenticator.endpoint`requests, account`containers
      ensures Valid()
      ensures ConnectEffects()
      ensures old(ConnectAnswer()).Fail? ==>
        r == Fail(old(ConnectAnswer()).error) && account.containers == old(account.containers)
      ensures old(ConnectAnswer()).Pass? ==> bsConnection != null
      ensures old(ConnectAnswer()).Pass? && ListContainersOp in account.faults ==>
        r == Fail(Service) && account.containers == old(account.containers)
      ensures old(ConnectAnswer()).Pass? && ListContainersOp !in account.faults ==>
        if containerName !in ContainerNames(old(account.containers)) && CreateContainerOp in account.faults
        then r == Fail(Service) && account.containers == old(account.containers)
        else r == Pass && account.containers == WithContainer(old(account.containers), containerName)
    {
      var c := Connect();
      if c.Fail? {
        return Fail(c.error);
      }
      var present := ExistsContainer(containerName);
      if present.Failure? {
        return Fail(present.error);
      }
      if present.value {
        return Pass;
      }
      r := account.CreateContainer(containerName);
    }

    /**
     * `getImage`: NotFound when the container is missing or no blob name starts with the id,
     * an ambiguity error for several, otherwise the base64 text of the one blob's content.
     */
    method GetImage(imgId: string) returns (r: Result<string, Error>)
      requires Valid()
      modifies this`bsConnection, authenticator`token, authenticator`bsConnection,
               authenticator.cache.registry`conn, authenticator.cache.registry.server`entries,
               authenticator.endpoint`requests
      ensures Valid()
      ensures ConnectEffects()
      ensures old(ConnectAnswer()).Fail? ==> r == Failure(old(ConnectAnswer()).error)
      ensures old(ConnectAnswer()).Pass? ==> r == ImageAnswer(account.containers, account.faults, containerName, imgId)
    {
      var c := Connect();
      if c.Fail? {
        return Failure(c.error);
      }
      var present := ExistsContainer(containerName);
      if present.Failure? {
        return Failure(present.error);
      }
      if !present.value {
        return Failure(BlobStorageNotFound(ContainerMissingMessage));
      }
      var listed := account.ListBlobs(containerName, imgId);
      if listed.Failure? {
        return Failure(listed.error);
      }
      var selected := SelectBlob(imgId, listed.value);
      if selected.Failure? {
        return Failure(selected.error);
      }
      var content := account.GetBlob(containerName, selected.value);
      if content.Failure? {
        return Failure(BlobStorage(DownloadFailedMessage(imgId), Some(content.error)));
      }
      r := Success(Encode(content.value));
    }

    /**
     * `uploadImage`: connect, make sure the container exists, store the decoded bytes as the
     * image's blob; every exception on the way is wrapped in one upload error.
     */
    method UploadImage(imgId: string, imageBase64: string) returns (r: Outcome<Error>)
      requires Valid()
      modifies this`bsConnection, authenticator`token, authenticator`bsConnection,
               authenticator.cache.registry`conn, authenticator.cache.registry.server`entries,
               authenticator.endpoint`requests, account`containers
      ensures Valid()
      ensures ConnectEffects()
      ensures old(ConnectAnswer()).Fail? ==>
        r == Fail(WrapUploadError(imgId, old(ConnectAnswer()).error)) && account.containers == old(account.containers)
      ensures old(ConnectAnswer()).Pass? ==>
        r == (match UploadAnswer(old(account.containers), account.faults, containerName)
              case Pass => Pass
              case Fail(e) => Fail(WrapUploadError(imgId, e)))
        && account.containers == UploadedContainers(old(account.containers), account.faults, containerName, imgId, imageBase64)
    {
      var c := Connect();
      if c.Fail? {
        return Fail(WrapUploadError(imgId, c.error));
      }
      var created := CreateContainer();
      if created.Fail? {
        return Fail(WrapUploadError(imgId, created.error));
      }
      WithContainerIdempotent(old(account.containers), containerName);
      var blobName := BlobName(imgId);
      var written := account.CreateBlockBlob(containerName, blobName, Decode(imageBase64));
      if written.Fail? {
        return Fail(WrapUploadError(imgId, written.error));
      }
      r := Pass;
    }
  }
}
