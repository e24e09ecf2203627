/**
 * The Redis server behind the cache, seen through the Predis client: a map from keys to
 * (serialized payload, ttl) entries. Expiry is not modelled; the ttl is only recorded.
 * Which commands fail at the transport level is an oracle the environment sets (`faults`).
 */
module RedisBackend {
  import opened Wrappers
  import opened Php

  /** The text `serialize($v)` produces, kept abstract as an injective encoding of `v`. */
  datatype Payload = Serialized(value: Value)

  function Serialize(v: Value): Payload {
    Serialized(v)
  }

  /** The raw reply of GET as the client hands it back: `false`, `null` or a payload string. */
  datatype Reply = FalseReply | NullReply | Bulk(payload: Payload)

  /** `unserialize($raw)`: the encoded value, or `false` for a raw `false`/`null` (the empty text). */
  function Unserialize(raw: Reply): (v: Value)
    ensures raw.Bulk? ==> v == raw.payload.value
    ensures !raw.Bulk? ==> v == Bool(false)
  {
    match raw
    case Bulk(Serialized(v)) => v
    case _ => Bool(false)
  }

  lemma UnserializeSerialize(v: Value)
    ensures Unserialize(Bulk(Serialize(v))) == v
  {
  }

  datatype Entry = Entry(payload: Payload, ttl: int)

  /** Commands whose transport can fail. */
  datatype Command = ConnectCmd | GetCmd | SetExCmd | DelCmd

  /**
   * SETEX is refused when its transport fails, and by the server itself for a ttl that is not
   * positive ("invalid expire time"), which the client raises as an exception.
   */
  predicate SetExRefused(faults: set<Command>, ttl: int) {
    SetExCmd in faults || ttl <= 0
  }

  /** Opaque identity of an open client connection. */
  class Connection {
    constructor() {}
  }

  /**
   * What GET answers for `key`: the stored payload, or the client's sentinel for a missing key.
   * The contract is this case table itself; `SetThenGetAnswer` is the property built on it.
   */
  function Read(entries: map<string, Entry>, missReply: Reply, key: string): (raw: Reply)
    ensures key in entries ==> raw == Bulk(entries[key].payload)
    ensures key !in entries ==> raw == missReply
  {
    if key in entries then Bulk(entries[key].payload) else missReply
  }

  class RedisServer {
    var entries: map<string, Entry>
    var faults: set<Command>
    /** What the client returns from GET for a key the server does not hold. */
    const missReply: Reply

    constructor(missReply: Reply)
      ensures entries == map[] && faults == {} && this.missReply == missReply
    {
      entries := map[];
      faults := {};
      this.missReply := missReply;
    }

    method Open() returns (c: Connection?)
      ensures ConnectCmd in faults <==> c == null
      ensures c != null ==> fresh(c)
    {
      if ConnectCmd in faults {
        c := null;
      } else {
        c := new Connection();
      }
    }

    method GetCommand(key: string) returns (r: Result<Reply, Error>)
      ensures r == if GetCmd in faults then Failure(Transport) else Success(Read(entries, missReply, key))
    {
      if GetCmd in faults {
        r := Failure(Transport);
      } else {
        r := Success(Read(entries, missReply, key));
      }
    }

    /**
     * SETEX key ttl payload; Redis acknowledges a successful SETEX with the status OK and
     * answers a ttl that is not positive with an error reply.
     */
    method SetExCommand(key: string, ttl: int, payload: Payload) returns (r: Outcome<Error>)
      modifies this`entries
      ensures r.Fail? <==> SetExRefused(faults, ttl)
      ensures SetExCmd in faults ==> r == Fail(Transport)
      ensures SetExCmd !in faults && ttl <= 0 ==> r == Fail(ServerReply)
      ensures entries == if SetExRefused(faults, ttl) then old(entries) else old(entries)[key := Entry(payload, ttl)]
    {
      if SetExCmd in faults {
        r := Fail(Transport);
      } else if ttl <= 0 {
        r := Fail(ServerReply);
      } else {
        entries := entries[key := Entry(payload, ttl)];
        r := Pass;
      }
    }

    /** DEL key; removing an absent key is not an error. */
    method DelCommand(key: string) returns (r: Outcome<Error>)
      modifies this`entries
      ensures r == if DelCmd in faults then Fail(Transport) else Pass
      ensures entries == if DelCmd in faults then old(entries) else old(entries) - {key}
    {
      if DelCmd in faults {
        r := Fail(Transport);
      } else {
        entries := entries - {key};
        r := Pass;
      }
    }
  }
}
