/** The fenced lock commands of the Redis service: set-if-absent with a TTL, and the two Lua scripts
    that compare the stored token before they expire or delete. Times are in milliseconds. */
module RedisLock {
  import opened Domain

  datatype Lock = Lock(token: nat, expiresAt: int)

  type Slot = Option<Lock>

  // Redis keeps a key through the millisecond it expires at.
  predicate Live(slot: Slot, now: int) {
    slot.Some? && now <= slot.value.expiresAt
  }

  predicate OwnedLive(slot: Slot, token: nat, now: int) {
    Live(slot, now) && slot.value.token == token
  }

  function SetIfAbsent(slot: Slot, token: nat, ttl: int, now: int): Slot {
    if Live(slot, now) then slot else Some(Lock(token, now + ttl))
  }

  function ExtendIfOwned(slot: Slot, token: nat, ttl: int, now: int): Slot {
    if OwnedLive(slot, token, now) then Some(Lock(token, now + ttl)) else slot
  }

  function DeleteIfOwned(slot: Slot, token: nat, now: int): Slot {
    if OwnedLive(slot, token, now) then None else slot
  }

  class RedisStore {
    var keys: map<string, Lock>
    var now: int

    constructor (now: int)
      ensures keys == map[] && this.now == now
    {
      this.keys, this.now := map[], now;
    }

    function Get(key: string): Slot
      reads this
    {
      if key in keys then Some(keys[key]) else None
    }

    /** `token` is the fresh token the caller drew. */
    method AcquireLock(key: string, token: nat, ttl: int) returns (acquired: bool)
      modifies this`keys
      ensures acquired <==> !Live(old(Get(key)), now)
      ensures Get(key) == SetIfAbsent(old(Get(key)), token, ttl, now)
      ensures acquired && ttl >= 0 ==> OwnedLive(Get(key), token, now)
      ensures keys - {key} == old(keys) - {key}
    {
      acquired := !(key in keys && now <= keys[key].expiresAt);
      if acquired {
        keys := keys[key := Lock(token, now + ttl)];
      }
    }

    method ExtendLock(key: string, token: nat, ttl: int) returns (extended: bool)
      modifies this`keys
      ensures extended <==> OwnedLive(old(Get(key)), token, now)
      ensures Get(key) == ExtendIfOwned(old(Get(key)), token, ttl, now)
      ensures keys - {key} == old(keys) - {key}
    {
      extended := key in keys && now <= keys[key].expiresAt && keys[key].token == token;
      if extended {
        keys := keys[key := Lock(token, now + ttl)];
      }
    }

    method ReleaseLock(key: string, token: nat) returns (released: bool)
      modifies this`keys
      ensures released <==> OwnedLive(old(Get(key)), token, now)
      ensures Get(key) == DeleteIfOwned(old(Get(key)), token, now)
      ensures keys - {key} == old(keys) - {key}
    {
      released := key in keys && now <= keys[key].expiresAt && keys[key].token == token;
      if released {
        keys := keys - {key};
      }
    }
  }
}
