/** The time-to-live cache with least-recently-used eviction. */
module GroundingCaches {
  import opened Wrappers

  type Time = int

  datatype Entry = Entry(data: string, stamp: Time, ttl: Time, accessCount: nat)

  /** An ordered dictionary: the keys from oldest to newest, and their entries. */
  datatype Cache = Cache(order: seq<string>, entries: map<string, Entry>)

  predicate Expired(e: Entry, now: Time) { now - e.stamp > e.ttl }

  /** The keys that stay, in their order. */
  function Keep(order: seq<string>, keys: set<string>): seq<string>
  {
    if order == [] then []
    else Keep(order[..|order| - 1], keys) + if order[|order| - 1] in keys then [order[|order| - 1]] else []
  }

  function Delete(c: Cache, key: string): Cache
  {
    Cache(Keep(c.order, c.entries.Keys - {key}), c.entries - {key})
  }

  // ---------------------------------------------------------------------- operations

  function Get(c: Cache, key: string, now: Time): (Cache, Option<string>)
  {
    if key !in c.entries then (c, None)
    else if Expired(c.entries[key], now) then (Delete(c, key), None)
    else
      var e := c.entries[key];
      (Cache(Keep(c.order, c.entries.Keys - {key}) + [key], c.entries[key := e.(accessCount := e.accessCount + 1)]), Some(e.data))
  }

  function EvictOldest(c: Cache): Cache { if c.order == [] then c else Delete(c, c.order[0]) }

  function Put(c: Cache, key: string, e: Entry): Cache
  {
    Cache(if key in c.entries then c.order else c.order + [key], c.entries[key := e])
  }

  function Set(c: Cache, key: string, value: string, ttl: Time, now: Time, maxSize: nat): Cache
  {
    Put(if |c.entries| >= maxSize then EvictOldest(c) else c, key, Entry(value, now, ttl, 0))
  }

  function Invalidate(c: Cache, key: string): Cache { if key in c.entries then Delete(c, key) else c }

  function Unexpired(entries: map<string, Entry>, now: Time): map<string, Entry>
  {
    map k | k in entries && !Expired(entries[k], now) :: entries[k]
  }

  function Cleanup(c: Cache, now: Time): Cache
  {
    Cache(Keep(c.order, Unexpired(c.entries, now).Keys), Unexpired(c.entries, now))
  }

  predicate NoRepeats(keys: seq<string>) { forall i, j :: 0 <= i < j < |keys| ==> keys[i] != keys[j] }

  ghost predicate IsOrderOf(order: seq<string>, keys: set<string>)
  {
    NoRepeats(order) && forall k :: k in order <==> k in keys
  }

  ghost predicate WellFormed(c: Cache) { IsOrderOf(c.order, c.entries.Keys) }

  lemma {:induction false} KeepKeys(order: seq<string>, keys: set<string>)
    requires NoRepeats(order)
    ensures NoRepeats(Keep(order, keys))
    ensures forall k :: k in Keep(order, keys) <==> k in order && k in keys
  {
    if order != [] {
      var front, last := order[..|order| - 1], order[|order| - 1];
      assert order == front + [last] && last !in front;
      KeepKeys(front, keys);
    }
  }

  lemma KeepIsOrder(order: seq<string>, keys: set<string>, kept: set<string>)
    requires IsOrderOf(order, keys) && kept <= keys
    ensures IsOrderOf(Keep(order, kept), kept)
  {
    KeepKeys(order, kept);
  }

  lemma AppendIsOrder(order: seq<string>, keys: set<string>, key: string)
    requires IsOrderOf(order, keys) && key !in keys
    ensures IsOrderOf(order + [key], keys + {key})
  {
  }

  lemma DeleteWellFormed(c: Cache, key: string)
    requires WellFormed(c)
    ensures WellFormed(Delete(c, key)) && Delete(c, key).entries.Keys == c.entries.Keys - {key}
  {
    KeepIsOrder(c.order, c.entries.Keys, c.entries.Keys - {key});
    assert Delete(c, key).entries.Keys == c.entries.Keys - {key};
  }

  lemma GetWellFormed(c: Cache, key: string, now: Time)
    requires WellFormed(c)
    ensures WellFormed(Get(c, key, now).0)
  {
    DeleteWellFormed(c, key);
    if key in c.entries && !Expired(c.entries[key], now) {
      AppendIsOrder(Delete(c, key).order, c.entries.Keys - {key}, key);
      assert Get(c, key, now).0.entries.Keys == c.entries.Keys - {key} + {key};
    }
  }

  lemma PutWellFormed(c: Cache, key: string, e: Entry)
    requires WellFormed(c)
    ensures WellFormed(Put(c, key, e)) && Put(c, key, e).entries.Keys == c.entries.Keys + {key}
  {
    assert c.entries[key := e].Keys == c.entries.Keys + {key};
    if key in c.entries {
      assert c.entries.Keys + {key} == c.entries.Keys;
    } else {
      AppendIsOrder(c.order, c.entries.Keys, key);
    }
  }

  lemma SetWellFormed(c: Cache, key: string, value: string, ttl: Time, now: Time, maxSize: nat)
    requires WellFormed(c)
    ensures WellFormed(Set(c, key, value, ttl, now, maxSize))
  {
    if |c.entries| >= maxSize && c.order != [] {
      DeleteWellFormed(c, c.order[0]);
      PutWellFormed(EvictOldest(c), key, Entry(value, now, ttl, 0));
    } else {
      PutWellFormed(c, key, Entry(value, now, ttl, 0));
    }
  }

  lemma CleanupWellFormed(c: Cache, now: Time)
    requires WellFormed(c)
    ensures WellFormed(Cleanup(c, now))
  {
    KeepIsOrder(c.order, c.entries.Keys, Unexpired(c.entries, now).Keys);
  }

  class GroundingCache {
    var order: seq<string>
    var entries: map<string, Entry>
    const defaultTtl: Time
    const maxSize: nat

    constructor (defaultTtl: Time, maxSize: nat)
      ensures Contents() == Cache([], map[]) && this.defaultTtl == defaultTtl && this.maxSize == maxSize && Valid()
    {
      order, entries := [], map[];
      this.defaultTtl, this.maxSize := defaultTtl, maxSize;
    }

    function Contents(): Cache
      reads this
    {
      Cache(order, entries)
    }

    ghost predicate Valid()
      reads this
    {
      WellFormed(Contents())
    }

    method Lookup(key: string, now: Time) returns (data: Option<string>)
      requires Valid()
      modifies this
      ensures Valid() && (Contents(), data) == Get(old(Contents()), key, now)
    {
      GetWellFormed(Contents(), key, now);
      if key !in entries {
        return None;
      }
      var e := entries[key];
      if now - e.stamp > e.ttl {
        order, entries := Keep(order, entries.Keys - {key}), entries - {key};
        return None;
      }
      order := Keep(order, entries.Keys - {key}) + [key];
      entries := entries[key := e.(accessCount := e.accessCount + 1)];
      data := Some(e.data);
    }

    method Store(key: string, value: string, ttl: Option<Time>, now: Time)
      requires Valid()
      modifies this
      ensures Valid()
      ensures Contents() == Set(old(Contents()), key, value, if ttl.Some? then ttl.value else defaultTtl, now, maxSize)
    {
      var seconds := match ttl case Some(t) => t case None => defaultTtl;
      SetWellFormed(Contents(), key, value, seconds, now, maxSize);
      if |entries| >= maxSize && order != [] {
        order, entries := Keep(order, entries.Keys - {order[0]}), entries - {order[0]};
      }
      if key !in entries {
        order := order + [key];
      }
      entries := entries[key := Entry(value, now, seconds, 0)];
    }

    method InvalidateKey(key: string) returns (present: bool)
      requires Valid()
      modifies this
      ensures Valid() && Contents() == Invalidate(old(Contents()), key) && present == (key in old(entries))
    {
      DeleteWellFormed(Contents(), key);
      present := key in entries;
      if present {
        order, entries := Keep(order, entries.Keys - {key}), entries - {key};
      }
    }

    method CleanupExpired(now: Time) returns (removed: nat)
      requires Valid()
      modifies this
      ensures Valid() && Contents() == Cleanup(old(Contents()), now)
      ensures removed == |old(entries)| - |entries|
    {
      CleanupWellFormed(Contents(), now);
      SplitByExpiry(entries, now);
      var expired := set k | k in entries && Expired(entries[k], now);
      removed := |expired|;
      entries := entries - expired;
      order := Keep(order, entries.Keys);
    }
  }

  lemma SplitByExpiry(entries: map<string, Entry>, now: Time)
    ensures var expired := set k | k in entries && Expired(entries[k], now);
            entries - expired == Unexpired(entries, now)
            && |entries| == |expired| + |Unexpired(entries, now)|
  {
    var expired := set k | k in entries && Expired(entries[k], now);
    assert entries - expired == Unexpired(entries, now);
    assert entries.Keys == expired + Unexpired(entries, now).Keys;
    assert |entries| == |entries.Keys| && |Unexpired(entries, now)| == |Unexpired(entries, now).Keys|;
  }
}
