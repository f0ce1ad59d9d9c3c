/**
 The in-memory cover cache: one fetch at a time per URL, whose result all callers share, and a
 byte-bounded cache that evicts what expires first. The class has the sections of code under the
 cache's mutex; the transition system interleaves any number of callers at those sections.
 */
module CoverCache {
  import opened Bytes

  type Url = string

  const MAX_BYTES := 24 * 1024 * 1024
  const TTL := 900

  datatype Entry = Entry(data: seq<byte>, expires: int)

  type Cache = map<Url, Entry>

  /** The sum of the cached lengths. */
  ghost function Sum(c: Cache): nat
    decreases |c|
  {
    if c == map[] then 0 else
    var k :| k in c;
    RestIsSmaller(c, k);
    |c[k].data| + Sum(c - {k})
  }

  lemma RestIsSmaller(c: Cache, k: Url)
    requires k in c
    ensures |c - {k}| == |c| - 1
  {
    assert (c - {k}).Keys == c.Keys - {k};
  }

  /** The sum does not depend on the order of summation. */
  lemma {:induction false} SumWithout(c: Cache, k: Url)
    requires k in c
    ensures Sum(c) == |c[k].data| + Sum(c - {k})
    decreases |c|
  {
    var first :| first in c && Sum(c) == |c[first].data| + Sum(c - {first});
    if first != k {
      RestIsSmaller(c, first);
      RestIsSmaller(c, k);
      SumWithout(c - {first}, k);
      SumWithout(c - {k}, first);
      assert c - {first} - {k} == c - {k} - {first};
    }
  }

  lemma SumWith(c: Cache, k: Url, e: Entry)
    ensures Sum(c[k := e]) == Sum(c - {k}) + |e.data|
  {
    SumWithout(c[k := e], k);
    assert c[k := e] - {k} == c - {k};
  }

  // ----- the sections under the mutex -----

  /** Each entry is worth caching: not empty, and not larger than the cache. */
  ghost predicate Small(c: Cache) {
    forall k <- c :: 0 < |c[k].data| <= MAX_BYTES
  }

  ghost predicate SoonestFirst(c: Cache, d: Cache) {
    forall gone <- c, kept <- d :: gone !in d ==> c[gone].expires <= d[kept].expires
  }

  /** d is c after eviction: within the bound, the soonest to expire dropped first, and nothing
      dropped without need. */
  ghost predicate Evicted(c: Cache, d: Cache) {
    && (forall k <- d :: k in c && d[k] == c[k])
    && Sum(d) <= MAX_BYTES && (Sum(c) <= MAX_BYTES ==> d == c) && (c != map[] ==> d != map[])
    && SoonestFirst(c, d)
  }

  class Covers {
    var cache: Cache
    var bytes: int

    ghost predicate Valid()
      reads this
    {
      bytes == Sum(cache) && bytes <= MAX_BYTES && Small(cache)
    }

    constructor ()
      ensures Valid() && cache == map[]
    {
      cache, bytes := map[], 0;
    }

    method Clear()
      modifies this
      ensures Valid() && cache == map[]
    {
      cache, bytes := map[], 0;
    }

    /** A fresh entry is a hit; an expired one is dropped. */
    method Lookup(url: Url, now: int) returns (hit: Option<seq<byte>>)
      requires Valid()
      modifies this
      ensures Valid()
      ensures (hit, cache) == Looked(old(cache), url, now)
    {
      if url in cache {
        var e := cache[url];
        if now < e.expires { return Some(e.data); }
        SumWithout(cache, url);
        cache, bytes := cache - {url}, bytes - |e.data|;
      }
      return None;
    }

    method Put(url: Url, data: seq<byte>, now: int)
      requires Valid()
      modifies this
      ensures Valid()
      ensures if 0 < |data| <= MAX_BYTES then Evicted(old(cache)[url := Entry(data, now + TTL)], cache)
              else cache == old(cache)
    {
      if |data| == 0 || |data| > MAX_BYTES { return; }
      Insert(url, Entry(data, now + TTL));
      assert url in cache;
      EvictExcess();
    }

    method Insert(url: Url, e: Entry)
      requires Valid() && 0 < |e.data| <= MAX_BYTES
      modifies this
      ensures cache == old(cache)[url := e] && bytes == Sum(cache) && Small(cache)
    {
      SumWith(cache, url, e);
      if url in cache {
        SumWithout(cache, url);
        bytes := bytes - |cache[url].data|;
      } else {
        assert cache - {url} == cache;
      }
      cache, bytes := cache[url := e], bytes + |e.data|;
    }

    method EvictExcess()
      requires bytes == Sum(cache) && Small(cache) && cache != map[]
      modifies this
      ensures Valid() && Evicted(old(cache), cache)
    {
      while bytes > MAX_BYTES && |cache| > 1
        invariant bytes == Sum(cache) && Small(cache) && cache != map[]
        invariant forall k <- cache :: k in old(cache) && cache[k] == old(cache)[k]
        invariant SoonestFirst(old(cache), cache) && (Sum(old(cache)) <= MAX_BYTES ==> cache == old(cache))
        decreases |cache|
      {
        var soonest := Soonest();
        SumWithout(cache, soonest);
        RestIsSmaller(cache, soonest);
        DropSoonest(old(cache), cache, soonest);
        bytes := bytes - |cache[soonest].data|;
        cache := cache - {soonest};
      }
      if bytes > MAX_BYTES {
        OneEntry(cache);
      }
    }

    /** An entry no other expires before. */
    method Soonest() returns (k: Url)
      requires cache != map[]
      ensures k in cache && forall x <- cache :: cache[k].expires <= cache[x].expires
    {
      k :| k in cache;
      var todo := cache.Keys;
      while todo != {}
        invariant todo <= cache.Keys && k in cache
        invariant forall x <- cache :: x !in todo ==> cache[k].expires <= cache[x].expires
        decreases |todo|
      {
        var x :| x in todo;
        todo := todo - {x};
        if cache[x].expires < cache[k].expires { k := x; }
      }
    }
  }

  function Looked(c: Cache, url: Url, now: int): (Option<seq<byte>>, Cache) {
    if url !in c then (None, c)
    else if now < c[url].expires then (Some(c[url].data), c)
    else (None, c - {url})
  }

  lemma DropSoonest(all: Cache, c: Cache, k: Url)
    requires (forall x <- c :: x in all && c[x] == all[x]) && SoonestFirst(all, c)
    requires k in c && forall x <- c :: c[k].expires <= c[x].expires
    ensures SoonestFirst(all, c - {k})
  {
  }

  /** A single small entry is within the bound. */
  lemma OneEntry(c: Cache)
    requires |c| == 1 && Small(c)
    ensures Sum(c) <= MAX_BYTES
  {
    var k :| k in c;
    SumWithout(c, k);
    RestIsSmaller(c, k);
  }
}
