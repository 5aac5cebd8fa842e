/** The in-process API-key cache of engramia/api/auth.py: an ordered dictionary
    with a 60-second lifetime per entry and LRU eviction, in front of the
    `api_keys` table. */
module KeyCache {
  import opened Options

  type Hash = string
  type KeyId = string
  type Time = int   // microseconds

  const CACHE_TTL: int := 60_000_000
  const CACHE_MAX: nat := 4096

  // ----- the table ---------------------------------------------------------------

  datatype KeyInfo = KeyInfo(id: KeyId, tenant: string, project: string, role: string, maxPatterns: Option<int>)
  datatype KeyRow = KeyRow(hash: Hash, info: KeyInfo, revoked: bool, expiresAt: Option<Time>)
  type Keys = map<KeyId, KeyRow>

  predicate Usable(r: KeyRow, h: Hash, now: Time) {
    r.hash == h && !r.revoked && (r.expiresAt.None? || r.expiresAt.value > now)
  }

  /** A key opens while it is neither revoked nor expired, and for its hash only. */
  lemma UsableIs(r: KeyRow, h: Hash, now: Time)
    ensures Usable(r, h, now) <==>
              r.hash == h && !r.revoked && !(r.expiresAt.Some? && r.expiresAt.value <= now)
  {}

  /** `_db_lookup` on a reachable database. */
  ghost function DbLookup(keys: Keys, h: Hash, now: Time): (r: Option<KeyInfo>)
    ensures r.Some? ==> exists k :: k in keys && Usable(keys[k], h, now) && keys[k].info == r.value
    ensures r.None? <==> forall k :: k in keys ==> !Usable(keys[k], h, now)
  {
    if exists k :: k in keys && Usable(keys[k], h, now) then
      var k :| k in keys && Usable(keys[k], h, now); Some(keys[k].info)
    else None
  }

  // ----- the ordered dictionary -----------------------------------------------------

  datatype Entry = Entry(expiresAt: Time, row: Option<KeyInfo>)

  /** Keys from least to most recently used, and their values. */
  datatype Cache = Cache(order: seq<Hash>, entries: map<Hash, Entry>)

  ghost predicate WellFormed(c: Cache) {
    && (forall i, j :: 0 <= i < j < |c.order| ==> c.order[i] != c.order[j])
    && (forall h :: h in c.order <==> h in c.entries)
  }

  function Without(s: seq<Hash>, h: Hash): (r: seq<Hash>)
    ensures forall x :: x in r <==> x in s && x != h
    ensures |r| <= |s|
  {
    if s == [] then [] else if s[0] == h then Without(s[1..], h) else [s[0]] + Without(s[1..], h)
  }

  function Remove(c: Cache, h: Hash): Cache {
    Cache(Without(c.order, h), c.entries - {h})
  }

  function MoveToEnd(c: Cache, h: Hash): Cache {
    Cache(Without(c.order, h) + [h], c.entries)
  }

  /** The dictionary assignment: an existing key keeps its position. */
  function Put(c: Cache, h: Hash, e: Entry): Cache {
    Cache(if h in c.entries then c.order else c.order + [h], c.entries[h := e])
  }

  function PopFirst(c: Cache): Cache
    requires c.order != []
  {
    Cache(c.order[1..], c.entries - {c.order[0]})
  }

  function Insert(c: Cache, h: Hash, e: Entry): Cache {
    var c1 := Put(c, h, e);
    if |c1.order| > CACHE_MAX then PopFirst(c1) else c1
  }

  predicate Hit(c: Cache, h: Hash, now: Time) {
    h in c.entries && now < c.entries[h].expiresAt
  }

  function AfterProbe(c: Cache, h: Hash, now: Time): Cache {
    if Hit(c, h, now) then MoveToEnd(c, h) else Remove(c, h)
  }

  lemma {:induction false} WithoutOrder(s: seq<Hash>, h: Hash)
    requires forall i, j :: 0 <= i < j < |s| ==> s[i] != s[j]
    ensures forall i, j :: 0 <= i < j < |Without(s, h)| ==> Without(s, h)[i] != Without(s, h)[j]
    ensures |Without(s, h)| == if h in s then |s| - 1 else |s|
  {
    if s == [] {
    } else {
      WithoutOrder(s[1..], h);
      assert s == [s[0]] + s[1..];
      assert s[0] !in s[1..];
      if s[0] == h {
        WithoutAbsent(s[1..], h);
      } else {
        var rest := Without(s[1..], h);
        assert s[0] !in rest;
        assert Without(s, h) == [s[0]] + rest;
      }
    }
  }

  lemma {:induction false} WithoutAbsent(s: seq<Hash>, h: Hash)
    requires h !in s
    ensures Without(s, h) == s
  {
    if s == [] {
    } else {
      WithoutAbsent(s[1..], h);
    }
  }

  lemma {:induction false} WithoutAt(s: seq<Hash>, h: Hash, k: nat)
    requires forall i, j :: 0 <= i < j < |s| ==> s[i] != s[j]
    requires k < |s| && s[k] == h
    ensures Without(s, h) == s[..k] + s[k + 1..]
  {
    if k == 0 {
      assert h !in s[1..];
      WithoutAbsent(s[1..], h);
    } else {
      WithoutAt(s[1..], h, k - 1);
      assert s[..k] == [s[0]] + s[1..][..k - 1];
    }
  }

  lemma RemoveKeeps(c: Cache, h: Hash)
    requires WellFormed(c)
    ensures WellFormed(Remove(c, h)) && |Remove(c, h).order| <= |c.order|
  {
    WithoutOrder(c.order, h);
  }

  lemma MoveToEndKeeps(c: Cache, h: Hash)
    requires WellFormed(c) && h in c.entries
    ensures WellFormed(MoveToEnd(c, h)) && |MoveToEnd(c, h).order| == |c.order|
  {
    WithoutOrder(c.order, h);
  }

  lemma PutKeeps(c: Cache, h: Hash, e: Entry)
    requires WellFormed(c)
    ensures WellFormed(Put(c, h, e))
  {}

  lemma PopFirstKeeps(c: Cache)
    requires WellFormed(c) && c.order != []
    ensures WellFormed(PopFirst(c))
  {
    assert c.order == [c.order[0]] + c.order[1..];
  }

  lemma InsertKeepsShape(c: Cache, h: Hash, e: Entry)
    requires WellFormed(c) && |c.order| <= CACHE_MAX
    ensures WellFormed(Insert(c, h, e)) && |Insert(c, h, e).order| <= CACHE_MAX
  {
    PutKeeps(c, h, e);
    if |Put(c, h, e).order| > CACHE_MAX {
      PopFirstKeeps(Put(c, h, e));
    }
  }

  /** An insert drops at most one entry, the first in order and only from a full
      cache; never the one it inserts; and it changes no other. */
  lemma InsertKeepsOthers(c: Cache, h: Hash, e: Entry)
    requires WellFormed(c) && |c.order| <= CACHE_MAX
    ensures var c' := Insert(c, h, e);
            && h in c'.entries && c'.entries[h] == e
            && (forall x :: x in c'.entries && x != h ==> x in c.entries && c'.entries[x] == c.entries[x])
            && (forall x :: x in c.entries && x !in c'.entries ==> |c.order| == CACHE_MAX && x == c.order[0])
  {}

  lemma ProbeKeeps(c: Cache, h: Hash, now: Time)
    requires WellFormed(c)
    ensures var c' := AfterProbe(c, h, now);
            && WellFormed(c') && |c'.order| <= |c.order|
            && (forall x :: x in c'.entries ==> x in c.entries && c'.entries[x] == c.entries[x])
  {
    if Hit(c, h, now) {
      MoveToEndKeeps(c, h);
    } else {
      RemoveKeeps(c, h);
    }
  }

  // ----- the module's globals --------------------------------------------------------

  class KeyCacheStore {
    var cache: Cache

    ghost predicate Valid()
      reads this
    {
      WellFormed(cache) && |cache.order| <= CACHE_MAX
    }

    constructor ()
      ensures Valid() && cache == Cache([], map[])
    {
      cache := Cache([], map[]);
    }

    /** First critical section of a lookup: the stored row on a hit, which
        becomes most recently used; a stale entry is deleted. */
    method Probe(h: Hash, now: Time) returns (hit: bool, row: Option<KeyInfo>)
      requires Valid()
      modifies this
      ensures Valid() && cache == AfterProbe(old(cache), h, now)
      ensures hit <==> Hit(old(cache), h, now)
      ensures hit <==> h in old(cache).entries && now < old(cache).entries[h].expiresAt
      ensures hit ==> row == old(cache).entries[h].row
    {
      ProbeKeeps(cache, h, now);
      hit, row := false, None;
      if h in cache.entries {
        var e := cache.entries[h];
        if now < e.expiresAt {
          cache := MoveToEnd(cache, h);
          return true, e.row;
        }
        cache := Remove(cache, h);
      } else {
        WithoutAbsent(cache.order, h);
        assert cache.entries - {h} == cache.entries;
      }
    }

    /** Second critical section: the eviction loop runs at most once. */
    method Store(h: Hash, now: Time, row: Option<KeyInfo>) returns (evictions: nat)
      requires Valid()
      modifies this
      ensures Valid() && cache == Insert(old(cache), h, Entry(now + CACHE_TTL, row))
      ensures evictions <= 1 && h in cache.entries
      ensures cache.entries[h] == Entry(now + 60_000_000, row) && |cache.order| <= 4096
    {
      ghost var c0 := cache;
      var e := Entry(now + CACHE_TTL, row);
      InsertKeepsShape(c0, h, e);
      InsertKeepsOthers(c0, h, e);
      PutKeeps(c0, h, e);
      cache := Put(cache, h, e);
      evictions := 0;
      while |cache.order| > CACHE_MAX
        invariant evictions == 0 ==> cache == Put(c0, h, e)
        invariant evictions > 0 ==> evictions == 1 && cache == Insert(c0, h, e)
        decreases |cache.order|
      {
        PopFirstKeeps(cache);
        cache := PopFirst(cache);
        evictions := evictions + 1;
      }
    }

    /** A whole lookup that no other call overlaps; `fetched` is what the database
        read returns, None also when the database cannot be reached. */
    method LookupKeyCached(h: Hash, now: Time, fetched: Option<KeyInfo>) returns (row: Option<KeyInfo>)
      requires Valid()
      modifies this
      ensures Valid()
      ensures row == if Hit(old(cache), h, now) then old(cache).entries[h].row else fetched
      ensures h in cache.entries && cache.entries[h].row == row
      ensures cache.order != [] && cache.order[|cache.order| - 1] == h
      ensures cache == if Hit(old(cache), h, now) then MoveToEnd(old(cache), h)
                       else Insert(Remove(old(cache), h), h, Entry(now + CACHE_TTL, fetched))
    {
      var hit;
      hit, row := Probe(h, now);
      if !hit {
        row := fetched;
        var _ := Store(h, now, row);
      }
    }

    /** Afterwards h is not cached; every other entry and the order among them are
        as they were. */
    method Invalidate(h: Hash)
      requires Valid()
      modifies this
      ensures Valid() && cache == Remove(old(cache), h)
      ensures cache.entries.Keys == old(cache).entries.Keys - {h}
      ensures forall x :: x in cache.entries ==> cache.entries[x] == old(cache).entries[x]
      ensures h !in old(cache).entries ==> cache == old(cache)
      ensures forall k :: 0 <= k < |old(cache).order| && old(cache).order[k] == h ==>
                cache.order == old(cache).order[..k] + old(cache).order[k + 1..]
    {
      RemoveKeeps(cache, h);
      if h !in cache.entries {
        WithoutAbsent(cache.order, h);
        assert cache.entries - {h} == cache.entries;
      }
      forall k | 0 <= k < |cache.order| && cache.order[k] == h
        ensures Without(cache.order, h) == cache.order[..k] + cache.order[k + 1..]
      {
        WithoutAt(cache.order, h, k);
      }
      cache := Remove(cache, h);
    }
  }
}
