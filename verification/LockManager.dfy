/**
 The in-memory lock table keyed by lock URI: exclusive between owners, reentrant for one
 owner, with an optional time to live after which another owner may take an entry over.
 */
module LockManager {
  import opened Basics

  /** Who holds a lock. The service acquires under its job ids; anybody else is an outsider. */
  datatype Owner = ByJob(jobId: string) | ByOther(name: string)

  datatype Entry = Entry(owner: Owner, acquiredAt: int, ttl: Option<int>)

  type Table = map<string, Entry>

  predicate Expired(e: Entry, now: int) {
    e.ttl.Some? && now - e.acquiredAt >= e.ttl.value
  }

  /** The only reason an acquisition is refused: a live entry of somebody else. */
  predicate HeldAgainst(t: Table, uri: string, owner: Owner, now: int) {
    uri in t && t[uri].owner != owner && !Expired(t[uri], now)
  }

  function Acquired(t: Table, uri: string, owner: Owner, ttl: Option<int>, now: int): Table {
    if HeldAgainst(t, uri, owner, now) then t
    else if uri in t && t[uri].owner == owner then
      t[uri := Entry(owner, now, if ttl.Some? then ttl else t[uri].ttl)]
    else t[uri := Entry(owner, now, ttl)]
  }

  function Released(t: Table, uri: string, owner: Owner): Table {
    if uri in t && t[uri].owner == owner then t - {uri} else t
  }

  function Cleaned(t: Table, now: int): Table {
    map uri | uri in t && !Expired(t[uri], now) :: t[uri]
  }

  class ResourceLockManager {
    var table: Table

    constructor ()
      ensures table == map[]
    {
      table := map[];
    }

    method Acquire(uri: string, owner: Owner, ttl: Option<int>, now: int) returns (ok: bool)
      modifies this
      ensures ok == !HeldAgainst(old(table), uri, owner, now)
      ensures table == Acquired(old(table), uri, owner, ttl, now)
    {
      if uri in table {
        var existing := table[uri];
        if existing.owner == owner {
          var kept := if ttl.Some? then ttl else existing.ttl;
          table := table[uri := Entry(owner, now, kept)];
          return true;
        }
        if Expired(existing, now) {
          table := table[uri := Entry(owner, now, ttl)];
          return true;
        }
        return false;
      }
      table := table[uri := Entry(owner, now, ttl)];
      return true;
    }

    method Release(uri: string, owner: Owner) returns (ok: bool)
      modifies this
      ensures ok == (uri in old(table) && old(table)[uri].owner == owner)
      ensures table == Released(old(table), uri, owner)
    {
      if uri !in table || table[uri].owner != owner {
        return false;
      }
      table := table - {uri};
      return true;
    }
  }
}
