/**
 * CacheRegistry: the key/value wrapper over Redis. It connects lazily and at most once,
 * namespaces every key with its prefix, and turns transport failures of GET, SETEX and DEL
 * into "not found" / `false` results, while a failure to connect is thrown.
 */
module KeyValueCache {
  import opened Wrappers
  import opened Php
  import opened RedisBackend

  const HostEmptyMessage := "Redis Host cannot be empty."
  const ConnectFailedMessage := "Unable to connect Redis server"

  /** `get`'s answer: the value returned and the by-reference `$found` flag. */
  datatype Lookup = Lookup(value: Value, found: bool)

  /** The key under which `key` lives in the store: the registry's prefix, then the key. */
  function PrefixedKey(prefix: string, key: string): (k: string)
    ensures |k| == |prefix| + |key|
    ensures k[..|prefix|] == prefix && k[|prefix|..] == key
  {
    prefix + key
  }

  /** Distinct keys never share a store key, so operations on one never touch another. */
  lemma PrefixedKeyInjective(prefix: string, a: string, b: string)
    ensures PrefixedKey(prefix, a) == PrefixedKey(prefix, b) ==> a == b
  {
    if PrefixedKey(prefix, a) == PrefixedKey(prefix, b) {
      assert a == PrefixedKey(prefix, a)[|prefix|..];
      assert b == PrefixedKey(prefix, b)[|prefix|..];
    }
  }

  /** With a non-empty prefix the bare key is never the store key. */
  lemma PrefixedKeyNotBare(prefix: string, key: string)
    requires prefix != ""
    ensures PrefixedKey(prefix, key) != key
  {
    assert |PrefixedKey(prefix, key)| == |prefix| + |key|;
  }

  /**
   * Reading a raw GET reply: found exactly when the raw value is not `false`. The contract is
   * the code's own case split; what it means for a stored key is `SetThenGetAnswer`, and for a
   * missing one `MissingKeyNotFound` and `MissingKeyFoundUnderNullReply`.
   */
  function Interpret(raw: Reply): (lk: Lookup)
    ensures lk.found <==> raw != FalseReply
    ensures lk.value == Unserialize(raw)
  {
    Lookup(Unserialize(raw), raw != FalseReply)
  }

  /** `get` when its GET command fails: `$found = false` and `false` returned. */
  const TransportMiss := Lookup(Bool(false), false)

  /**
   * What `get` answers for the store key `storeKey`, given the server's entries, its
   * missing-key reply and whether GET fails at the transport level.
   */
  function GetAnswer(entries: map<string, Entry>, missReply: Reply, getFails: bool, storeKey: string): (lk: Lookup)
    ensures getFails ==> lk == TransportMiss
    ensures !getFails && storeKey in entries ==> lk == Lookup(entries[storeKey].payload.value, true)
    ensures !getFails && storeKey !in entries ==> lk == Interpret(missReply)
  {
    if getFails then TransportMiss else Interpret(Read(entries, missReply, storeKey))
  }

  /** After a successful SETEX of `v`, reading the same store key gives back `v`, found. */
  lemma SetThenGetAnswer(entries: map<string, Entry>, missReply: Reply, storeKey: string, v: Value, ttl: int)
    ensures GetAnswer(entries[storeKey := Entry(Serialize(v), ttl)], missReply, false, storeKey) == Lookup(v, true)
  {
  }

  /** When the client reports a missing key as `false`, a missing key reads as not found. */
  lemma MissingKeyNotFound(entries: map<string, Entry>, getFails: bool, storeKey: string)
    requires storeKey !in entries
    ensures GetAnswer(entries, FalseReply, getFails, storeKey) == TransportMiss
  {
  }

  /**
   * When the client reports a missing key as `null` instead, the literal test `false !== $value`
   * reports it as found, with the value `unserialize(null) === false`.
   */
  lemma MissingKeyFoundUnderNullReply(entries: map<string, Entry>, storeKey: string)
    requires storeKey !in entries
    ensures GetAnswer(entries, NullReply, false, storeKey) == Lookup(Bool(false), true)
  {
  }

  class CacheRegistry {
    /** The Redis server at `host`:`port`. */
    const server: RedisServer
    const host: string
    const port: int
    const keyPrefix: string
    const password: Option<string>
    var conn: Connection?

    constructor(host: string, keyPrefix: string, password: Option<string>, port: int, server: RedisServer)
      requires StringTruthy(host)
      ensures this.host == host && this.keyPrefix == keyPrefix && this.password == password
      ensures this.port == port && this.server == server && conn == null
    {
      this.host := host;
      this.port := port;
      this.keyPrefix := keyPrefix;
      this.password := password;
      this.server := server;
      conn := null;
    }

    /** `__construct`: an empty host (PHP-falsy, so also "0") is rejected. */
    static method Create(host: string, keyPrefix: string, password: Option<string>, port: int, server: RedisServer)
      returns (r: Result<CacheRegistry, Error>)
      ensures r.Failure? <==> !StringTruthy(host)
      ensures r.Failure? ==> r.error == InvalidArgument(HostEmptyMessage)
      ensures r.Success? ==> fresh(r.value) && r.value.conn == null && r.value.server == server
      ensures r.Success? ==> r.value.host == host && r.value.keyPrefix == keyPrefix
      ensures r.Success? ==> r.value.port == port && r.value.password == password
    {
      if !StringTruthy(host) {
        return Failure(InvalidArgument(HostEmptyMessage));
      }
      var c := new CacheRegistry(host, keyPrefix, password, port, server);
      r := Success(c);
    }

    /** True when the next operation's `_connect` throws. */
    predicate ConnectFails()
      reads this, server
    {
      conn == null && ConnectCmd in server.faults
    }

    /** What `get(key)` returns when it does not throw. */
    function Fetch(key: string): Lookup
      reads this, server
    {
      GetAnswer(server.entries, server.missReply, GetCmd in server.faults, PrefixedKey(keyPrefix, key))
    }

    /** `_connect`: opens the connection only while none is held; a failure to open is thrown. */
    method Connect() returns (r: Outcome<Error>)
      modifies this`conn
      ensures r.Fail? <==> old(ConnectFails())
      ensures r.Fail? ==> r.error == Generic(ConnectFailedMessage) && conn == null
      ensures old(conn) != null ==> conn == old(conn)
      ensures old(conn) == null && r.Pass? ==> conn != null && fresh(conn)
    {
      if conn == null {
        var c := server.Open();
        if c == null {
          return Fail(Generic(ConnectFailedMessage));
        }
        conn := c;
      }
      r := Pass;
    }

    /** `get($key, &$found)`. */
    method Get(key: string) returns (r: Result<Lookup, Error>)
      modifies this`conn
      ensures r.Failure? <==> old(ConnectFails())
      ensures r.Failure? ==> r.error == Generic(ConnectFailedMessage) && conn == null
      ensures r.Success? ==> r.value == old(Fetch(key)) && conn != null
      ensures old(conn) != null ==> conn == old(conn)
    {
      var c := Connect();
      if c.Fail? {
        return Failure(c.error);
      }
      var raw := server.GetCommand(PrefixedKey(keyPrefix, key));
      if raw.Failure? {
        return Success(TransportMiss);
      }
      r := Success(Interpret(raw.value));
    }

    /** `set($key, $value, $ttl)`: SETEX of the serialized value under the prefixed key. */
    method Set(key: string, value: Value, ttl: int) returns (r: Result<bool, Error>)
      modifies this`conn, server`entries
      ensures r.Failure? <==> old(ConnectFails())
      ensures r.Failure? ==> r.error == Generic(ConnectFailedMessage) && conn == null
      ensures r.Success? ==> r.value == !SetExRefused(server.faults, ttl) && conn != null
      ensures old(conn) != null ==> conn == old(conn)
      ensures server.entries ==
        if r.Success? && r.value
        then old(server.entries)[PrefixedKey(keyPrefix, key) := Entry(Serialize(value), ttl)]
        else old(server.entries)
    {
      var c := Connect();
      if c.Fail? {
        return Failure(c.error);
      }
      var reply := server.SetExCommand(PrefixedKey(keyPrefix, key), ttl, Serialize(value));
      r := Success(reply.Pass?);
    }

    /** `purge($key)`: true whenever DEL does not throw, also when the key was absent. */
    method Purge(key: string) returns (r: Result<bool, Error>)
      modifies this`conn, server`entries
      ensures r.Failure? <==> old(ConnectFails())
      ensures r.Failure? ==> r.error == Generic(ConnectFailedMessage) && conn == null
      ensures r.Success? ==> r.value == (DelCmd !in server.faults) && conn != null
      ensures old(conn) != null ==> conn == old(conn)
      ensures server.entries ==
        if r.Success? && r.value
        then old(server.entries) - {PrefixedKey(keyPrefix, key)}
        else old(server.entries)
    {
      var c := Connect();
      if c.Fail? {
        return Failure(c.error);
      }
      var reply := server.DelCommand(PrefixedKey(keyPrefix, key));
      r := Success(reply.Pass?);
    }
  }
}
