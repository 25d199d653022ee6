/** pyroflow/listener_coordinator/redis_listener_coordinator.py: the commands and scripts the shared
    registry is changed with, and the coordinator that issues them. */
module RedisListenerCoordinators {
  import opened Wrappers
  import opened ListenerKeys
  import opened ListenerSteps

  /** The Redis server, as far as the coordinator uses it. */
  class Redis {
    var registry: Registry
    var channel: seq<Signal>

    constructor ()
      ensures registry == map[] && channel == []
    {
      registry, channel := map[], [];
    }

    method Get(key: ListenerKey) returns (value: Option<Token>)
      ensures value == Lookup(registry, key)
    {
      value := if key in registry then Some(registry[key]) else None;
    }

    /** `SET key value NX` */
    method SetNx(key: ListenerKey, value: Token) returns (success: bool)
      modifies this`registry
      ensures success <==> key !in old(registry)
      ensures registry == if success then old(registry)[key := value] else old(registry)
    {
      success := key !in registry;
      if success {
        registry := registry[key := value];
      }
    }

    method Delete(key: ListenerKey) returns (removed: nat)
      modifies this`registry
      ensures registry == old(registry) - {key}
      ensures removed == if key in old(registry) then 1 else 0
    {
      removed := if key in registry then 1 else 0;
      registry := registry - {key};
    }

    /** `LUA_UNREGISTER_SCRIPT` */
    method LuaUnregister(key: ListenerKey, expected: Token) returns (reply: nat)
      modifies this`registry
      ensures registry == DropEntry(old(registry), key, expected)
      ensures reply == if key in old(registry) && old(registry)[key] != expected then 0 else 1
    {
      var value := Get(key);
      if value.None? {
        return 1;
      }
      if value.value == expected {
        registry := registry - {key};
        return 1;
      }
      return 0;
    }

    /** `LUA_GETDEL_SCRIPT` */
    method LuaGetDel(key: ListenerKey) returns (value: Option<Token>)
      modifies this`registry
      ensures value == Lookup(old(registry), key)
      ensures registry == old(registry) - {key}
    {
      value := Get(key);
      if value.Some? {
        registry := registry - {key};
      }
    }

    /** `LUA_BULK_UNREGISTER_SCRIPT`: every key whose value is still the expected one. */
    method LuaBulkUnregister(keys: seq<ListenerKey>, expected: seq<Token>) returns (deleted: nat)
      requires |keys| == |expected|
      modifies this`registry
      ensures forall k :: k in registry <==> k in old(registry) && !Named(keys, expected, k, old(registry)[k])
      ensures forall k :: k in registry ==> registry[k] == old(registry)[k]
      ensures |registry| + deleted == |old(registry)|
    {
      deleted := 0;
      for i := 0 to |keys|
        invariant forall k :: k in registry <==>
                    k in old(registry) && !Named(keys[..i], expected[..i], k, old(registry)[k])
        invariant forall k :: k in registry ==> registry[k] == old(registry)[k]
        invariant |registry| + deleted == |old(registry)|
      {
        NamedStep(keys, expected, i);
        var current := Get(keys[i]);
        if current == Some(expected[i]) {
          assert registry.Keys == (registry - {keys[i]}).Keys + {keys[i]};
          registry := registry - {keys[i]};
          deleted := deleted + 1;
        }
      }
      assert keys[..|keys|] == keys && expected[..|keys|] == expected;
    }
  }

  ghost predicate Named(keys: seq<ListenerKey>, expected: seq<Token>, k: ListenerKey, token: Token)
    requires |keys| == |expected|
  {
    exists i :: 0 <= i < |keys| && keys[i] == k && expected[i] == token
  }

  lemma NamedStep(keys: seq<ListenerKey>, expected: seq<Token>, i: nat)
    requires |keys| == |expected| && i < |keys|
    ensures forall k, t :: Named(keys[..i + 1], expected[..i + 1], k, t) <==>
              Named(keys[..i], expected[..i], k, t) || (keys[i] == k && expected[i] == t)
  {
    forall k, t
      ensures Named(keys[..i + 1], expected[..i + 1], k, t) <==>
                Named(keys[..i], expected[..i], k, t) || (keys[i] == k && expected[i] == t)
    {
      NamedOne(keys, expected, i, k, t);
    }
  }

  lemma NamedOne(keys: seq<ListenerKey>, expected: seq<Token>, i: nat, k: ListenerKey, t: Token)
    requires |keys| == |expected| && i < |keys|
    ensures Named(keys[..i + 1], expected[..i + 1], k, t) <==>
              Named(keys[..i], expected[..i], k, t) || (keys[i] == k && expected[i] == t)
  {
    var shorter, longer := keys[..i], keys[..i + 1];
    if Named(longer, expected[..i + 1], k, t) {
      var j :| 0 <= j < |longer| && longer[j] == k && expected[..i + 1][j] == t;
      assert j < i ==> shorter[j] == k && expected[..i][j] == t;
    }
    if Named(shorter, expected[..i], k, t) {
      var j :| 0 <= j < |shorter| && shorter[j] == k && expected[..i][j] == t;
      assert longer[j] == k && expected[..i + 1][j] == t;
    }
    assert longer[i] == keys[i] && expected[..i + 1][i] == expected[i];
  }

  class RedisListenerCoordinator {
    const redis: Redis
    var ownedRegistrations: map<ListenerKey, Token>

    constructor (redis: Redis)
      ensures this.redis == redis && ownedRegistrations == map[]
    {
      this.redis := redis;
      ownedRegistrations := map[];
    }

    /** The registry, the ownership record and the channel, with no listener. */
    ghost function Seen(): Local
      reads this, redis
    {
      Local(redis.registry, map[], ownedRegistrations, map[], redis.channel)
    }

    /** `register`, with the identifier `uuid4` draws. */
    method Register(key: ListenerKey, uuid: Token) returns (r: Result<Token, ListenError>)
      modifies this, redis
      ensures Seen() == ListenerSteps.Register(old(Seen()), key, uuid).0
      ensures r == if key in old(redis.registry) then Err(KeyTaken) else Ok(uuid)
    {
      var success := redis.SetNx(key, uuid);
      if !success {
        return Err(KeyTaken);
      }
      ownedRegistrations := ownedRegistrations[key := uuid];
      return Ok(uuid);
    }

    /** `unregister`: guarded by a token, or unconditional. */
    method Unregister(key: ListenerKey, coordinatorId: Option<Token>) returns (r: bool)
      modifies this, redis
      ensures coordinatorId.Some? ==> Seen() == ListenerSteps.Unregister(old(Seen()), key, coordinatorId.value)
      ensures coordinatorId.Some? ==>
                r == (Lookup(old(redis.registry), key) in {None, Some(coordinatorId.value)})
      ensures coordinatorId.None? ==>
                Seen() == old(Seen()).(registry := old(redis.registry) - {key},
                                       owned := old(ownedRegistrations) - {key})
                && (r <==> key in old(redis.registry))
    {
      if coordinatorId.None? {
        ownedRegistrations := ownedRegistrations - {key};
        var removed := redis.Delete(key);
        return removed != 0;
      }
      if key in ownedRegistrations {
        var cid := ownedRegistrations[key];
        ownedRegistrations := ownedRegistrations - {key};
        if cid != coordinatorId.value {
          ownedRegistrations := ownedRegistrations[key := cid];
          assert ownedRegistrations == old(ownedRegistrations);
        }
      }
      var reply := redis.LuaUnregister(key, coordinatorId.value);
      return reply != 0;
    }

    method Registered(key: ListenerKey, coordinatorId: Option<Token>) returns (r: bool)
      ensures r == ListenerSteps.Registered(redis.registry, key, coordinatorId)
    {
      var value := redis.Get(key);
      if value.None? {
        return false;
      }
      return coordinatorId.None? || value.value == coordinatorId.value;
    }

    /** `cancel`: the deletion first, then a signal that carries what was deleted. */
    method Cancel(key: ListenerKey) returns (r: bool)
      modifies this, redis
      ensures Seen() == Invalidate(old(Seen()), key)
      ensures r <==> key in old(redis.registry)
    {
      ownedRegistrations := ownedRegistrations - {key};
      var cancelledId := redis.LuaGetDel(key);
      if cancelledId.None? {
        assert redis.registry == old(redis.registry);
        return false;
      }
      redis.channel := redis.channel + [Signal(key, cancelledId.value)];
      return true;
    }

    /** `zip(*owned.items())` */
    method OwnedItems() returns (keys: seq<ListenerKey>, ids: seq<Token>)
      ensures |keys| == |ids|
      ensures forall k, t: Token :: Named(keys, ids, k, t) <==> Lookup(ownedRegistrations, k) == Some(t)
    {
      keys, ids := [], [];
      var left := ownedRegistrations.Keys;
      while left != {}
        invariant left <= ownedRegistrations.Keys
        invariant |keys| == |ids|
        invariant forall i :: 0 <= i < |keys| ==>
                    keys[i] in ownedRegistrations && keys[i] !in left && ids[i] == ownedRegistrations[keys[i]]
        invariant forall k :: k in ownedRegistrations && k !in left ==> k in keys
        decreases left
      {
        var k :| k in left;
        left := left - {k};
        keys, ids := keys + [k], ids + [ownedRegistrations[k]];
      }
      forall k, t: Token | Lookup(ownedRegistrations, k) == Some(t) ensures Named(keys, ids, k, t) {
        assert k in keys;
        var i :| 0 <= i < |keys| && keys[i] == k;
        assert ids[i] == t;
      }
    }

    /** The bulk unregistration at the end of `stop`. */
    method StopRegistrations()
      modifies this, redis
      ensures Seen() == StopCoordinator(old(Seen()))
    {
      if ownedRegistrations == map[] {
        assert BulkUnregister(redis.registry, ownedRegistrations) == redis.registry;
        return;
      }
      var keys, ids := OwnedItems();
      var _ := redis.LuaBulkUnregister(keys, ids);
      assert redis.registry == BulkUnregister(old(redis.registry), ownedRegistrations);
      ownedRegistrations := map[];
    }
  }
}
