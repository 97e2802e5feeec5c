/** The in-memory cache of cache/memory.go. Each critical section is one method; what other callers do while
    the lock is free is a parameter. */
module MemoryCache {
  import opened Wrappers
  import opened Keyer

  type Bytes = seq<Byte>

  datatype Entry = Entry(value: Bytes, expiresAt: int)

  type Entries = map<string, Entry>

  predicate Expired(e: Entry, now: int) {
    now > e.expiresAt
  }

  class MemoryCache {
    var entries: Entries

    constructor ()
      ensures entries == map[]
    {
      entries := map[];
    }

    method Lookup(key: string) returns (e: Option<Entry>)
      ensures e == if key in entries then Some(entries[key]) else None
    {
      e := if key in entries then Some(entries[key]) else None;
    }

    method Delete(key: string)
      modifies this
      ensures entries == old(entries) - {key}
    {
      entries := entries - {key};
    }

    method Others(later: Entries)
      modifies this
      ensures entries == later
    {
      entries := later;
    }

    /** An expired entry is deleted in a second section, which deletes whatever is there by then. */
    method Get(key: string, now: int, later: Entries) returns (r: Option<Bytes>)
      modifies this
      ensures r == if key in old(entries) && !Expired(old(entries)[key], now)
                   then Some(old(entries)[key].value) else None
      ensures entries == if key in old(entries) && Expired(old(entries)[key], now)
                         then later - {key} else old(entries)
    {
      var entry := Lookup(key);
      if entry == None {
        return None;
      }
      if Expired(entry.value, now) {
        Others(later);
        Delete(key);
        return None;
      }
      r := Some(entry.value.value);
    }

    method Set(key: string, value: Bytes, ttl: int, now: int)
      modifies this
      ensures entries == if ttl <= 0 then old(entries) else old(entries)[key := Entry(value, now + ttl)]
    {
      if ttl <= 0 {
        return;
      }
      entries := entries[key := Entry(value, now + ttl)];
    }
  }
}
