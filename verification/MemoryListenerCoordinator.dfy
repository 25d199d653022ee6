/** pyroflow/listener_coordinator/memory_listener_coordinator.py: the in-process registry, proved
    against the same abstract transitions as the shared one. */
module MemoryListenerCoordinators {
  import opened Wrappers
  import opened ListenerKeys
  import opened ListenerSteps

  class MemoryListenerCoordinator {
    var data: Registry
    var counter: nat

    /** Everything registered was counted. */
    ghost predicate Valid()
      reads this
    {
      forall k :: k in data ==> data[k] < counter
    }

    constructor ()
      ensures Valid() && data == map[] && counter == 0
    {
      data, counter := map[], 0;
    }

    method Registered(key: ListenerKey, coordinatorId: Option<Token>) returns (r: bool)
      ensures r == ListenerSteps.Registered(data, key, coordinatorId)
    {
      if key in data {
        return coordinatorId.None? || data[key] == coordinatorId.value;
      }
      return false;
    }

    /** `_register`: the same registry transition as a `SET NX` with a token never used before. */
    method Register(key: ListenerKey) returns (r: Result<Token, ListenError>)
      requires Valid()
      modifies this
      ensures Valid()
      ensures r == if key in old(data) then Err(KeyTaken) else Ok(old(counter))
      ensures data == if r.Ok? then old(data)[key := r.value] else old(data)
      ensures counter == if r.Ok? then old(counter) + 1 else old(counter)
      ensures r.Ok? ==> r.value !in old(data).Values
    {
      var taken := Registered(key, None);
      if taken {
        return Err(KeyTaken);
      }
      var id := counter;
      counter := counter + 1;
      data := data[key := id];
      return Ok(id);
    }

    /** `_unregister`: pop, and put back what belongs to another generation. */
    method Unregister(key: ListenerKey, coordinatorId: Option<Token>) returns (r: bool)
      requires Valid()
      modifies this`data
      ensures Valid()
      ensures coordinatorId.Some? ==>
                data == DropEntry(old(data), key, coordinatorId.value)
                && r == (Lookup(old(data), key) in {None, Some(coordinatorId.value)})
      ensures coordinatorId.None? ==> data == old(data) - {key} && r
    {
      if key in data {
        var id := data[key];
        data := data - {key};
        if coordinatorId.Some? && coordinatorId.value != id {
          data := data[key := id];
          assert data == old(data);
          return false;
        }
      } else {
        assert data - {key} == data;
      }
      return true;
    }

    /** `_cancel`: the registry part of the shared `cancel`; it reports success regardless. */
    method Cancel(key: ListenerKey) returns (r: bool)
      requires Valid()
      modifies this`data
      ensures Valid() && r
      ensures data == old(data) - {key}
      ensures data == Invalidate(Local(old(data), map[], map[], map[], []), key).registry
    {
      r := Unregister(key, None);
      assert key !in old(data) ==> data == old(data);
    }

    method Stop()
      modifies this
      ensures Valid() && data == map[] && counter == 0
    {
      counter := 0;
      data := map[];
    }
  }
}
