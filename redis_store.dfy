/**
 * An in-memory stand-in for the Redis client the cache manager talks to:
 * string values, the expiry each write asked for, and a record of the
 * commands issued (which is what the unit tests of the cache layer observe).
 * Nothing here expires on its own: there is no clock.
 */
module RedisStore {
  import opened Wrappers
  import opened Glob

  datatype Command =
    | GetCmd(key: string)
    | SetCmd(key: string, value: string, px: Option<int>)
    | DelCmd(keys: seq<string>)
    | KeysCmd(pattern: string)

  /** The keys a command's argument list names. */
  function KeySet(keys: seq<string>): set<string>
  {
    set k | k in keys
  }

  /** The stored keys a `KEYS pattern` command reports. */
  function MatchingKeys(pattern: string, keys: set<string>): (r: set<string>)
    ensures r <= keys
    ensures forall k :: k in r <==> k in keys && Matches(pattern, k)
  {
    set k | k in keys && Matches(pattern, k)
  }

  class Store {
    /** Key to stored string. */
    var data: map<string, string>
    /** Key to the `PX` (milliseconds) of its last write; absent means no expiry. */
    var expiry: map<string, int>
    /** Every command issued so far, oldest first. */
    ghost var log: seq<Command>

    ghost predicate Valid()
      reads this
    {
      expiry.Keys <= data.Keys
    }

    constructor ()
      ensures Valid()
      ensures data == map[] && expiry == map[] && log == []
    {
      data := map[];
      expiry := map[];
      log := [];
    }

    /** `GET key`: the stored string, or nothing (Redis `null`). */
    method Get(key: string) returns (value: Option<string>)
      requires Valid()
      modifies this`log
      ensures log == old(log) + [GetCmd(key)]
      ensures value == (if key in data then Some(data[key]) else None)
    {
      value := if key in data then Some(data[key]) else None;
      log := log + [GetCmd(key)];
    }

    /** `SET key value [PX px]`: overwrites; a write without `PX` leaves no expiry. */
    method Set(key: string, value: string, px: Option<int>)
      requires Valid()
      modifies this
      ensures Valid()
      ensures data == old(data)[key := value]
      ensures expiry == if px.Some? then old(expiry)[key := px.value] else old(expiry) - {key}
      ensures log == old(log) + [SetCmd(key, value, px)]
    {
      data := data[key := value];
      expiry := if px.Some? then expiry[key := px.value] else expiry - {key};
      log := log + [SetCmd(key, value, px)];
    }

    /** `DEL key...`: removes every listed key that is present. */
    method Del(keys: seq<string>)
      requires Valid()
      modifies this
      ensures Valid()
      ensures data == old(data) - KeySet(keys)
      ensures expiry == old(expiry) - KeySet(keys)
      ensures log == old(log) + [DelCmd(keys)]
    {
      var gone := KeySet(keys);
      data := data - gone;
      expiry := expiry - gone;
      log := log + [DelCmd(keys)];
    }

    /** `KEYS pattern`: every stored key the pattern matches, each once, in no particular order. */
    method Keys(pattern: string) returns (keys: seq<string>)
      requires Valid()
      modifies this`log
      ensures log == old(log) + [KeysCmd(pattern)]
      ensures KeySet(keys) == MatchingKeys(pattern, data.Keys)
      ensures forall i, j :: 0 <= i < j < |keys| ==> keys[i] != keys[j]
    {
      keys := [];
      var unseen := data.Keys;
      while unseen != {}
        invariant unseen <= data.Keys
        invariant KeySet(keys) == MatchingKeys(pattern, data.Keys - unseen)
        invariant forall i, j :: 0 <= i < j < |keys| ==> keys[i] != keys[j]
        decreases unseen
      {
        var k :| k in unseen;
        assert data.Keys - (unseen - {k}) == (data.Keys - unseen) + {k};
        if Matches(pattern, k) {
          assert KeySet(keys + [k]) == KeySet(keys) + {k};
          keys := keys + [k];
        }
        unseen := unseen - {k};
      }
      log := log + [KeysCmd(pattern)];
    }
  }
}
