/**
 * The blob-storage account behind the SDK: containers in listing order, each holding its
 * blobs in listing order. Which SDK operations fail is an oracle the environment sets
 * (`faults`); a failing operation throws the SDK's ServiceException.
 */
module BlobBackend {
  import opened Wrappers
  import opened Php
  import opened Base64

  datatype Blob = Blob(name: string, content: Bytes)
  datatype Container = Container(name: string, blobs: seq<Blob>)

  datatype Operation = ListContainersOp | CreateContainerOp | ListBlobsOp | GetBlobOp | CreateBlockBlobOp

  /** The client object `createBlobServiceWithTokenCredential` returns; only its identity matters. */
  class BlobConnection {
    const token: string
    const connectionString: string

    constructor(token: string, connectionString: string)
      ensures this.token == token && this.connectionString == connectionString
    {
      this.token := token;
      this.connectionString := connectionString;
    }
  }

  predicate HasPrefix(prefix: string, s: string) {
    prefix <= s
  }

  function ContainerNames(cs: seq<Container>): (names: seq<string>)
    ensures |names| == |cs|
    ensures forall i :: 0 <= i < |cs| ==> names[i] == cs[i].name
  {
    if cs == [] then [] else [cs[0].name] + ContainerNames(cs[1..])
  }

  function BlobNames(bs: seq<Blob>): (names: seq<string>)
    ensures |names| == |bs|
    ensures forall i :: 0 <= i < |bs| ==> names[i] == bs[i].name
  {
    seq(|bs|, i requires 0 <= i < |bs| => bs[i].name)
  }

  /** No two containers share a name. */
  predicate UniqueContainerNames(cs: seq<Container>) {
    cs == [] || (cs[0].name !in ContainerNames(cs[1..]) && UniqueContainerNames(cs[1..]))
  }

  /** No two blobs of a container share a name. */
  predicate UniqueBlobNames(bs: seq<Blob>) {
    bs == [] || (bs[0].name !in BlobNames(bs[1..]) && UniqueBlobNames(bs[1..]))
  }

  /** The container called `name`, if any. */
  function FindContainer(cs: seq<Container>, name: string): (r: Option<Container>)
    ensures r.Some? <==> name in ContainerNames(cs)
    ensures r.Some? ==> r.value in cs && r.value.name == name
  {
    if cs == [] then None
    else if cs[0].name == name then Some(cs[0])
    else FindContainer(cs[1..], name)
  }

  /** The content of the blob called `name`, if any. */
  function FindBlob(bs: seq<Blob>, name: string): (r: Option<Bytes>)
    ensures r.Some? <==> name in BlobNames(bs)
    ensures r.Some? ==> Blob(name, r.value) in bs
  {
    if bs == [] then None
    else if bs[0].name == name then Some(bs[0].content)
    else FindBlob(bs[1..], name)
  }

  /** The listing `listBlobs` gives with a name-prefix filter: matching names, in order. */
  function BlobNamesWithPrefix(bs: seq<Blob>, prefix: string): (names: seq<string>)
    ensures forall n :: n in names <==> n in BlobNames(bs) && HasPrefix(prefix, n)
  {
    if bs == [] then []
    else if HasPrefix(prefix, bs[0].name) then [bs[0].name] + BlobNamesWithPrefix(bs[1..], prefix)
    else BlobNamesWithPrefix(bs[1..], prefix)
  }

  /** `createBlockBlob`'s effect on one container: replace the blob of that name, or append it. */
  function PutBlob(bs: seq<Blob>, name: string, content: Bytes): seq<Blob> {
    if bs == [] then [Blob(name, content)]
    else if bs[0].name == name then [Blob(name, content)] + bs[1..]
    else [bs[0]] + PutBlob(bs[1..], name, content)
  }

  /** `createBlockBlob`'s effect on the account. */
  function PutInContainer(cs: seq<Container>, container: string, name: string, content: Bytes): seq<Container> {
    if cs == [] then []
    else if cs[0].name == container then [Container(container, PutBlob(cs[0].blobs, name, content))] + cs[1..]
    else [cs[0]] + PutInContainer(cs[1..], container, name, content)
  }

  /** Unique names throughout the account. */
  predicate WellFormed(cs: seq<Container>) {
    cs == [] || (cs[0].name !in ContainerNames(cs[1..]) && UniqueBlobNames(cs[0].blobs) && WellFormed(cs[1..]))
  }

  class BlobAccount {
    var containers: seq<Container>
    var faults: set<Operation>

    ghost predicate Valid()
      reads this
    {
      WellFormed(containers)
    }

    constructor()
      ensures Valid() && containers == [] && faults == {}
    {
      containers := [];
      faults := {};
    }

    method ListContainers() returns (r: Result<seq<string>, Error>)
      ensures r == if ListContainersOp in faults then Failure(Service) else Success(ContainerNames(containers))
    {
      if ListContainersOp in faults {
        return Failure(Service);
      }
      r := Success(ContainerNames(containers));
    }

    /** Creating a container that already exists is refused (HTTP 409). */
    method CreateContainer(name: string) returns (r: Outcome<Error>)
      requires Valid()
      modifies this`containers
      ensures Valid()
      ensures r.Pass? <==> CreateContainerOp !in faults && name !in ContainerNames(old(containers))
      ensures r.Fail? ==> r.error == Service && containers == old(containers)
      ensures r.Pass? ==> containers == old(containers) + [Container(name, [])]
    {
      if CreateContainerOp in faults || name in ContainerNames(containers) {
        return Fail(Service);
      }
      AppendContainerWellFormed(containers, name);
      containers := containers + [Container(name, [])];
      r := Pass;
    }

    method ListBlobs(container: string, prefix: string) returns (r: Result<seq<string>, Error>)
      ensures r == if ListBlobsOp in faults || FindContainer(containers, container).None? then Failure(Service)
                   else Success(BlobNamesWithPrefix(FindContainer(containers, container).value.blobs, prefix))
    {
      var c := FindContainer(containers, container);
      if ListBlobsOp in faults || c.None? {
        return Failure(Service);
      }
      r := Success(BlobNamesWithPrefix(c.value.blobs, prefix));
    }

    method GetBlob(container: string, name: string) returns (r: Result<Bytes, Error>)
      ensures r == if GetBlobOp in faults || FindContainer(containers, container).None?
                      || FindBlob(FindContainer(containers, container).value.blobs, name).None?
                   then Failure(Service)
                   else Success(FindBlob(FindContainer(containers, container).value.blobs, name).value)
    {
      var c := FindContainer(containers, container);
      if GetBlobOp in faults || c.None? {
        return Failure(Service);
      }
      var b := FindBlob(c.value.blobs, name);
      if b.None? {
        return Failure(Service);
      }
      r := Success(b.value);
    }

    method CreateBlockBlob(container: string, name: string, content: Bytes) returns (r: Outcome<Error>)
      requires Valid()
      modifies this`containers
      ensures Valid()
      ensures r.Pass? <==> CreateBlockBlobOp !in faults && container in ContainerNames(old(containers))
      ensures r.Fail? ==> r.error == Service && containers == old(containers)
      ensures r.Pass? ==> containers == PutInContainer(old(containers), container, name, content)
    {
      if CreateBlockBlobOp in faults || container !in ContainerNames(containers) {
        return Fail(Service);
      }
      PutInContainerWellFormed(containers, container, name, content);
      containers := PutInContainer(containers, container, name, content);
      r := Pass;
    }
  }

  /** The names of a non-empty container: the first blob's, then the rest's. */
  lemma BlobNamesCons(bs: seq<Blob>)
    requires bs != []
    ensures BlobNames(bs) == [bs[0].name] + BlobNames(bs[1..])
  {
  }

  lemma {:induction false} PutBlobNames(bs: seq<Blob>, name: string, content: Bytes)
    ensures forall m :: m in BlobNames(PutBlob(bs, name, content)) <==> m == name || m in BlobNames(bs)
  {
    BlobNamesCons(PutBlob(bs, name, content));
    if bs != [] {
      PutBlobNames(bs[1..], name, content);
      BlobNamesCons(bs);
      if bs[0].name == name {
        assert PutBlob(bs, name, content)[1..] == bs[1..];
      } else {
        assert PutBlob(bs, name, content)[1..] == PutBlob(bs[1..], name, content);
      }
    }
  }

  lemma {:induction false} PutBlobUnique(bs: seq<Blob>, name: string, content: Bytes)
    requires UniqueBlobNames(bs)
    ensures UniqueBlobNames(PutBlob(bs, name, content))
  {
    if bs != [] {
      var p := PutBlob(bs, name, content);
      if bs[0].name == name {
        assert p[1..] == bs[1..];
        assert BlobNames(p[1..]) == BlobNames(bs[1..]);
      } else {
        PutBlobUnique(bs[1..], name, content);
        PutBlobNames(bs[1..], name, content);
        assert p[1..] == PutBlob(bs[1..], name, content);
      }
    }
  }

  lemma {:induction false} PutInContainerWellFormed(cs: seq<Container>, container: string, name: string, content: Bytes)
    requires WellFormed(cs)
    ensures WellFormed(PutInContainer(cs, container, name, content))
    ensures ContainerNames(PutInContainer(cs, container, name, content)) == ContainerNames(cs)
  {
    if cs != [] {
      var p := PutInContainer(cs, container, name, content);
      PutInContainerWellFormed(cs[1..], container, name, content);
      if cs[0].name == container {
        PutBlobUnique(cs[0].blobs, name, content);
        assert p[1..] == cs[1..];
      } else {
        assert p[1..] == PutInContainer(cs[1..], container, name, content);
      }
    }
  }

  lemma {:induction false} ContainerNamesAppend(cs: seq<Container>, c: Container)
    ensures ContainerNames(cs + [c]) == ContainerNames(cs) + [c.name]
  {
  }

  lemma {:induction false} AppendContainerWellFormed(cs: seq<Container>, name: string)
    requires WellFormed(cs) && name !in ContainerNames(cs)
    ensures WellFormed(cs + [Container(name, [])])
  {
    if cs != [] {
      var c := Container(name, []);
      assert (cs + [c])[1..] == cs[1..] + [c];
      AppendContainerWellFormed(cs[1..], name);
      ContainerNamesAppend(cs[1..], c);
    }
  }
}

/** Reading back from an account after `createBlockBlob`. */
module BlobBackendFacts {
  import opened Wrappers
  import opened Base64
  import opened BlobBackend

  /** After a put, the written name reads the new content and every other name reads as before. */
  lemma {:induction false} FindBlobAfterPut(bs: seq<Blob>, name: string, content: Bytes, other: string)
    ensures FindBlob(PutBlob(bs, name, content), other)
         == if other == name then Some(content) else FindBlob(bs, other)
  {
    if bs != [] && bs[0].name != name {
      FindBlobAfterPut(bs[1..], name, content, other);
      assert PutBlob(bs, name, content)[1..] == PutBlob(bs[1..], name, content);
    }
  }

  /** A put changes only the target container, and in it only the written blob. */
  lemma {:induction false} FindContainerAfterPut(cs: seq<Container>, container: string, name: string,
                                                 content: Bytes, other: string)
    ensures FindContainer(PutInContainer(cs, container, name, content), other)
         == if other != container then FindContainer(cs, other)
            else match FindContainer(cs, container)
              case None => None
              case Some(k) => Some(Container(container, PutBlob(k.blobs, name, content)))
  {
    if cs != [] {
      var p := PutInContainer(cs, container, name, content);
      if cs[0].name == container {
        assert p[1..] == cs[1..];
      } else {
        FindContainerAfterPut(cs[1..], container, name, content, other);
        assert p[1..] == PutInContainer(cs[1..], container, name, content);
      }
    }
  }

  /** Looking up a container after one was appended at the end. */
  lemma {:induction false} FindContainerAfterAppend(cs: seq<Container>, c: Container, other: string)
    ensures FindContainer(cs + [c], other)
         == if other in ContainerNames(cs) then FindContainer(cs, other)
            else if other == c.name then Some(c) else None
  {
    if cs == [] {
      assert [c][1..] == [];
    } else {
      assert (cs + [c])[1..] == cs[1..] + [c];
      FindContainerAfterAppend(cs[1..], c, other);
    }
  }

  /** In a well-formed account every container's blob names are unique. */
  lemma {:induction false} FoundContainerUnique(cs: seq<Container>, container: string)
    requires WellFormed(cs) && FindContainer(cs, container).Some?
    ensures UniqueBlobNames(FindContainer(cs, container).value.blobs)
  {
    if cs[0].name != container {
      FoundContainerUnique(cs[1..], container);
    }
  }

  /** A container none of whose names starts with `prefix` lists nothing for it. */
  lemma {:induction false} NoPrefixMatches(bs: seq<Blob>, prefix: string)
    requires forall m :: m in BlobNames(bs) ==> !HasPrefix(prefix, m)
    ensures BlobNamesWithPrefix(bs, prefix) == []
  {
    if bs != [] {
      assert BlobNames(bs) == [bs[0].name] + BlobNames(bs[1..]);
      NoPrefixMatches(bs[1..], prefix);
    }
  }

  /**
   * When the only name with prefix `prefix` a container may hold is `name`, after writing
   * `name` the prefix listing is exactly `[name]`.
   */
  lemma {:induction false} PrefixListingAfterPut(bs: seq<Blob>, name: string, content: Bytes, prefix: string)
    requires UniqueBlobNames(bs) && HasPrefix(prefix, name)
    requires forall m :: m in BlobNames(bs) && HasPrefix(prefix, m) ==> m == name
    ensures BlobNamesWithPrefix(PutBlob(bs, name, content), prefix) == [name]
  {
    if bs != [] {
      assert BlobNames(bs) == [bs[0].name] + BlobNames(bs[1..]);
      if bs[0].name == name {
        NoPrefixMatches(bs[1..], prefix);
        assert PutBlob(bs, name, content)[1..] == bs[1..];
      } else {
        assert bs[0].name in BlobNames(bs);
        assert PutBlob(bs, name, content)[1..] == PutBlob(bs[1..], name, content);
        PrefixListingAfterPut(bs[1..], name, content, prefix);
      }
    }
  }
}
