/**
 Concurrent requests for covers, interleaved at the sections under the cache's mutex: the first
 caller that misses fetches, later ones wait for its result.
 */
module CoverFlights {
  import opened Bytes
  import opened CoverCache

  type Thread = nat
  type CallId = nat

  /** What a fetch brings; a call whose fetch panicked keeps the error it was made with. */
  datatype Result = Data(bytes: seq<byte>) | Failed | Aborted

  /** A fetch others may wait for. Which thread leads it is history. */
  datatype Call = Call(url: Url, leader: Thread, result: Result, done: bool)

  datatype Pc =
    | Idle
    | Fetching(url: Url, id: CallId)     // the leader, outside the mutex
    | Storing(url: Url, id: CallId)      // the result is set, the cache not yet
    | Signalling(url: Url, id: CallId)   // about to wake the waiters
    | Removing(url: Url, id: CallId)     // waiters woken, the call not yet taken from the table
    | Waiting(url: Url, id: CallId)
    | Returned(url: Url, call: Option<CallId>, result: Result)  // without a call: a hit

  /** `produced` is history: what fetches of each URL have brought. */
  datatype State = State(
    now: int, cache: Cache, bytes: int, inflight: map<Url, CallId>, calls: seq<Call>, pcs: seq<Pc>,
    produced: set<(Url, seq<byte>)>)

  datatype Action =
    | Ask(t: Thread, url: Url)
    | Fetch(t: Thread, r: Result)
    | Panic(t: Thread)
    | Store(t: Thread, cache: Cache, bytes: int)  // what eviction leaves
    | Signal(t: Thread)
    | Remove(t: Thread)
    | Wake(t: Thread)
    | Leave(t: Thread)
    | Clear
    | Tick(to: int)

  predicate At(s: State, t: Thread) {
    t < |s.pcs|
  }

  /** The cache after storing a result: coverCachePut. */
  ghost predicate Stored(s: State, url: Url, r: Result, cache: Cache, bytes: int) {
    if r.Data? && 0 < |r.bytes| <= MAX_BYTES then
      Evicted(s.cache[url := Entry(r.bytes, s.now + TTL)], cache) && bytes == Sum(cache)
    else cache == s.cache && bytes == s.bytes
  }

  ghost predicate Enabled(s: State, a: Action) {
    match a
    case Ask(t, _) => At(s, t) && s.pcs[t].Idle?
    case Fetch(t, r) => At(s, t) && s.pcs[t].Fetching? && s.pcs[t].id < |s.calls| && !r.Aborted?
    case Panic(t) => At(s, t) && s.pcs[t].Fetching?
    case Store(t, cache, bytes) =>
      && At(s, t) && s.pcs[t].Storing? && s.pcs[t].id < |s.calls|
      && Stored(s, s.pcs[t].url, s.calls[s.pcs[t].id].result, cache, bytes)
    case Signal(t) => At(s, t) && s.pcs[t].Signalling? && s.pcs[t].id < |s.calls|
    case Remove(t) => At(s, t) && s.pcs[t].Removing? && s.pcs[t].id < |s.calls|
    case Wake(t) => At(s, t) && s.pcs[t].Waiting? && s.pcs[t].id < |s.calls| && s.calls[s.pcs[t].id].done
    case Leave(t) => At(s, t) && s.pcs[t].Returned?
    case Clear => true
    case Tick(to) => to >= s.now
  }

  function Go(s: State, t: Thread, pc: Pc): State
    requires At(s, t)
  {
    s.(pcs := s.pcs[t := pc])
  }

  /** One section of fetchCoverCached: hit, drop what expired, join a call or start one. */
  function Asked(s: State, t: Thread, url: Url): State
    requires At(s, t)
  {
    var (hit, cache) := Looked(s.cache, url, s.now);
    if hit.Some? then Go(s, t, Returned(url, None, Data(hit.value)))
    else
      var u := s.(cache := cache, bytes := s.bytes - if url in s.cache then |s.cache[url].data| else 0);
      if url in s.inflight then Go(u, t, Waiting(url, s.inflight[url]))
      else Go(u.(calls := s.calls + [Call(url, t, Aborted, false)], inflight := s.inflight[url := |s.calls|]),
              t, Fetching(url, |s.calls|))
  }

  ghost function Apply(s: State, a: Action): State
    requires Enabled(s, a)
  {
    match a
    case Ask(t, url) => Asked(s, t, url)
    case Fetch(t, r) =>
      var url, id := s.pcs[t].url, s.pcs[t].id;
      Go(s.(calls := s.calls[id := s.calls[id].(result := r)],
            produced := if r.Data? then s.produced + {(url, r.bytes)} else s.produced), t, Storing(url, id))
    case Panic(t) => Go(s, t, Signalling(s.pcs[t].url, s.pcs[t].id))
    case Store(t, cache, bytes) => Go(s.(cache := cache, bytes := bytes), t, Signalling(s.pcs[t].url, s.pcs[t].id))
    case Signal(t) =>
      var url, id := s.pcs[t].url, s.pcs[t].id;
      Go(s.(calls := s.calls[id := s.calls[id].(done := true)]), t, Removing(url, id))
    case Remove(t) =>
      var url, id := s.pcs[t].url, s.pcs[t].id;
      Go(s.(inflight := s.inflight - {url}), t, Returned(url, Some(id), s.calls[id].result))
    case Wake(t) => Go(s, t, Returned(s.pcs[t].url, Some(s.pcs[t].id), s.calls[s.pcs[t].id].result))
    case Leave(t) => Go(s, t, Idle)
    case Clear => s.(cache := map[], bytes := 0)
    case Tick(to) => s.(now := to)
  }

  function Init(now: int, threads: nat): State {
    State(now, map[], 0, map[], [], seq(threads, _ => Idle), {})
  }

  // ----- what holds of every state -----

  predicate Leads(pc: Pc, id: CallId) {
    (pc.Fetching? || pc.Storing? || pc.Signalling? || pc.Removing?) && pc.id == id
  }

  ghost predicate CacheOk(s: State) {
    && s.bytes == Sum(s.cache) && s.bytes <= MAX_BYTES && Small(s.cache)
    && forall url <- s.cache :: (url, s.cache[url].data) in s.produced
  }

  /** Each call in the table belongs to a leader that is still at it. */
  ghost predicate TableOk(s: State) {
    forall url <- s.inflight :: EntryOk(s, url)
  }

  predicate EntryOk(s: State, url: Url)
    requires url in s.inflight
  {
    var id := s.inflight[url];
    id < |s.calls| && s.calls[id].url == url && At(s, s.calls[id].leader) && Leads(s.pcs[s.calls[id].leader], id)
  }

  predicate PcOk(s: State, t: Thread)
    requires At(s, t)
  {
    var pc := s.pcs[t];
    match pc
    case Idle => true
    case Waiting(url, id) => id < |s.calls| && s.calls[id].url == url
    case Returned(url, None, r) => r.Data? && (url, r.bytes) in s.produced
    case Returned(url, Some(id), r) =>
      id < |s.calls| && s.calls[id].url == url && s.calls[id].done && s.calls[id].result == r
    case _ =>
      && pc.id < |s.calls| && s.calls[pc.id].url == pc.url && s.calls[pc.id].leader == t
      && pc.url in s.inflight && s.inflight[pc.url] == pc.id && (s.calls[pc.id].done <==> pc.Removing?)
  }

  ghost predicate PcsOk(s: State) {
    forall t: Thread :: At(s, t) ==> PcOk(s, t)
  }

  predicate CallOk(s: State, id: CallId)
    requires id < |s.calls|
  {
    s.calls[id].result.Data? ==> (s.calls[id].url, s.calls[id].result.bytes) in s.produced
  }

  ghost predicate CallsOk(s: State) {
    forall id :: 0 <= id < |s.calls| ==> CallOk(s, id)
  }

  ghost predicate Inv(s: State) {
    CacheOk(s) && TableOk(s) && PcsOk(s) && CallsOk(s)
  }

  lemma CacheKept(s: State, a: Action)
    requires Inv(s) && Enabled(s, a)
    ensures CacheOk(Apply(s, a))
  {
    hide TableOk;
    if a.Ask? && a.url in s.cache {
      SumWithout(s.cache, a.url);
    }
    if a.Store? {
      assert PcOk(s, a.t) && CallOk(s, s.pcs[a.t].id);
      StoreKept(s, a);
    }
  }

  lemma StoreKept(s: State, a: Action)
    requires Inv(s) && Enabled(s, a) && a.Store? && CallOk(s, s.pcs[a.t].id) && PcOk(s, a.t)
    ensures CacheOk(Apply(s, a))
  {
    hide TableOk, PcsOk, CallsOk;
    var url, r := s.pcs[a.t].url, s.calls[s.pcs[a.t].id].result;
    if r.Data? && 0 < |r.bytes| <= MAX_BYTES {
      var all := s.cache[url := Entry(r.bytes, s.now + TTL)];
      forall k | k in a.cache ensures 0 < |a.cache[k].data| <= MAX_BYTES && (k, a.cache[k].data) in s.produced {
        assert k in all;
      }
    }
  }

  lemma ActorOk(s: State, t: Thread)
    requires Inv(s) && At(s, t)
    ensures PcOk(s, t)
  {
  }

  lemma EntryKept(s: State, a: Action, url: Url)
    requires Inv(s) && Enabled(s, a) && url in Apply(s, a).inflight
    ensures EntryOk(Apply(s, a), url)
  {
    hide CacheOk, CallsOk, PcsOk, Stored;
    if !a.Clear? && !a.Tick? {
      ActorOk(s, a.t);
    }
    assert url in s.inflight ==> EntryOk(s, url);
  }

  lemma TableKept(s: State, a: Action)
    requires Inv(s) && Enabled(s, a)
    ensures TableOk(Apply(s, a))
  {
    hide Inv, Enabled, Apply, EntryOk;
    forall url | url in Apply(s, a).inflight ensures EntryOk(Apply(s, a), url) {
      EntryKept(s, a, url);
    }
  }

  predicate Acts(a: Action, t: Thread) {
    !a.Clear? && !a.Tick? && a.t == t
  }

  lemma ActorKept(s: State, a: Action, t: Thread)
    requires Inv(s) && Enabled(s, a) && At(s, t) && Acts(a, t)
    ensures PcOk(Apply(s, a), t)
  {
    hide Stored, Sum, Evicted, CallsOk, PcsOk;
    ActorOk(s, t);
  }

  lemma OtherKept(s: State, a: Action, t: Thread)
    requires Inv(s) && Enabled(s, a) && At(s, t) && !Acts(a, t)
    ensures PcOk(Apply(s, a), t)
  {
    hide Stored, CallsOk, PcsOk, CacheOk, TableOk;
    ActorOk(s, t);
    if !a.Clear? && !a.Tick? {
      ActorOk(s, a.t);
    }
  }

  lemma PcKept(s: State, a: Action, t: Thread)
    requires Inv(s) && Enabled(s, a) && At(Apply(s, a), t)
    ensures PcOk(Apply(s, a), t)
  {
    hide Inv, PcOk, Stored;
    if Acts(a, t) {
      ActorKept(s, a, t);
    } else {
      OtherKept(s, a, t);
    }
  }

  lemma CallsKept(s: State, a: Action)
    requires Inv(s) && Enabled(s, a)
    ensures CallsOk(Apply(s, a))
  {
    hide CacheOk, TableOk, Stored;
    var u := Apply(s, a);
    if a.Fetch? {
      assert PcOk(s, a.t);
    }
    forall id | 0 <= id < |u.calls| ensures CallOk(u, id) {
      assert id < |s.calls| ==> CallOk(s, id);
    }
  }

  lemma StepKeeps(s: State, a: Action)
    requires Inv(s) && Enabled(s, a)
    ensures Inv(Apply(s, a))
  {
    hide CacheOk, TableOk, CallsOk, PcOk, Apply, Enabled;
    CacheKept(s, a);
    TableKept(s, a);
    CallsKept(s, a);
    forall t: Thread | At(Apply(s, a), t) ensures PcOk(Apply(s, a), t) {
      PcKept(s, a, t);
    }
  }

  ghost predicate IsRun(s: State, acts: seq<Action>, end: State)
    decreases |acts|
  {
    if acts == [] then end == s else Enabled(s, acts[0]) && IsRun(Apply(s, acts[0]), acts[1..], end)
  }

  lemma {:induction false} RunKeeps(s: State, acts: seq<Action>, end: State)
    requires Inv(s) && IsRun(s, acts, end)
    ensures Inv(end)
    decreases |acts|
  {
    hide Inv, Enabled, Apply;
    if acts != [] {
      StepKeeps(s, acts[0]);
      RunKeeps(Apply(s, acts[0]), acts[1..], end);
    }
  }

  /** Whenever the mutex is free, in every interleaving: the byte count is the sum of the cached
      lengths and at most 24 MiB, and what is cached for a URL some fetch of that URL brought. */
  lemma CacheIsBounded(now: int, threads: nat, acts: seq<Action>, end: State)
    requires IsRun(Init(now, threads), acts, end)
    ensures end.bytes == Sum(end.cache) <= 24 * 1024 * 1024
    ensures forall url <- end.cache :: (url, end.cache[url].data) in end.produced
  {
    hide IsRun, Apply, Enabled;
    RunKeeps(Init(now, threads), acts, end);
  }

  /** At most one fetch per URL is in flight. */
  lemma OneFetchPerUrl(now: int, threads: nat, acts: seq<Action>, end: State, t: Thread, u: Thread)
    requires IsRun(Init(now, threads), acts, end)
    requires At(end, t) && At(end, u) && end.pcs[t].Fetching? && end.pcs[u].Fetching?
             && end.pcs[t].url == end.pcs[u].url
    ensures t == u
  {
    hide IsRun, Apply, Enabled;
    RunKeeps(Init(now, threads), acts, end);
    assert PcOk(end, t) && PcOk(end, u);
  }

  /** Once a call is done its result stands. */
  lemma {:induction false} ResultStands(s: State, acts: seq<Action>, end: State, id: CallId)
    requires Inv(s) && IsRun(s, acts, end) && id < |s.calls| && s.calls[id].done
    ensures id < |end.calls| && end.calls[id] == s.calls[id]
    decreases |acts|
  {
    hide Inv, Apply, Enabled;
    if acts != [] {
      StepKeeps(s, acts[0]);
      StepStands(s, acts[0], id);
      ResultStands(Apply(s, acts[0]), acts[1..], end, id);
    }
  }

  lemma StepStands(s: State, a: Action, id: CallId)
    requires Inv(s) && Enabled(s, a) && id < |s.calls| && s.calls[id].done
    ensures id < |Apply(s, a).calls| && Apply(s, a).calls[id] == s.calls[id]
  {
    hide CacheOk, TableOk, CallsOk, Stored;
    if a.Fetch? || a.Signal? {
      assert PcOk(s, a.t);
    }
  }

  /** Everyone that returns from one call - its leader and all that waited, however much later they run -
      has the same result, and if that is data, a fetch of this very URL brought it. */
  lemma AllGetTheLeadersResult(now: int, threads: nat, acts: seq<Action>, mid: State, t: Thread,
                               more: seq<Action>, end: State, u: Thread)
    requires IsRun(Init(now, threads), acts, mid) && At(mid, t) && mid.pcs[t].Returned? && mid.pcs[t].call.Some?
    requires IsRun(mid, more, end) && At(end, u) && end.pcs[u].Returned? && end.pcs[u].call == mid.pcs[t].call
    ensures end.pcs[u].result == mid.pcs[t].result && end.pcs[u].url == mid.pcs[t].url
    ensures mid.pcs[t].result.Data? ==> (mid.pcs[t].url, mid.pcs[t].result.bytes) in mid.produced
  {
    hide IsRun, Apply, Enabled;
    var id := mid.pcs[t].call.value;
    RunKeeps(Init(now, threads), acts, mid);
    assert PcOk(mid, t) && CallOk(mid, id);
    RunKeeps(mid, more, end);
    ResultStands(mid, more, end, id);
    assert PcOk(end, u);
  }

  /** A hit returns bytes that some fetch of the URL brought. */
  lemma HitsWereFetched(now: int, threads: nat, acts: seq<Action>, end: State, t: Thread)
    requires IsRun(Init(now, threads), acts, end) && At(end, t) && end.pcs[t].Returned? && end.pcs[t].call.None?
    ensures end.pcs[t].result.Data? && (end.pcs[t].url, end.pcs[t].result.bytes) in end.produced
  {
    hide IsRun, Apply, Enabled;
    RunKeeps(Init(now, threads), acts, end);
    assert PcOk(end, t);
  }

  /** A waiter is never left behind: its call is done, or a leader is still at it. */
  lemma WaitersAreWoken(now: int, threads: nat, acts: seq<Action>, end: State, t: Thread)
    requires IsRun(Init(now, threads), acts, end) && At(end, t) && end.pcs[t].Waiting?
    ensures var id := end.pcs[t].id;
            id < |end.calls| && (end.calls[id].done || exists u: Thread :: At(end, u) && Leads(end.pcs[u], id))
  {
    hide IsRun, Apply, Enabled;
    LedOrDone(Init(now, threads), acts, end);
    RunKeeps(Init(now, threads), acts, end);
    assert PcOk(end, t);
    assert Led(end, end.pcs[t].id);
  }

  predicate Led(s: State, id: CallId)
    requires id < |s.calls|
  {
    s.calls[id].done || (At(s, s.calls[id].leader) && Leads(s.pcs[s.calls[id].leader], id))
  }

  ghost predicate AllLed(s: State) {
    forall id :: 0 <= id < |s.calls| ==> Led(s, id)
  }

  lemma {:induction false} LedOrDone(s: State, acts: seq<Action>, end: State)
    requires Inv(s) && AllLed(s) && IsRun(s, acts, end)
    ensures AllLed(end)
    decreases |acts|
  {
    hide Inv, Apply, Enabled, AllLed;
    if acts != [] {
      StepKeeps(s, acts[0]);
      StepLed(s, acts[0]);
      LedOrDone(Apply(s, acts[0]), acts[1..], end);
    }
  }

  lemma StepLed(s: State, a: Action)
    requires Inv(s) && AllLed(s) && Enabled(s, a)
    ensures AllLed(Apply(s, a))
  {
    hide CacheOk, TableOk, CallsOk, Stored;
    var u := Apply(s, a);
    forall id | 0 <= id < |u.calls| ensures Led(u, id) {
      assert id < |s.calls| ==> Led(s, id);
      if id < |s.calls| && At(s, s.calls[id].leader) {
        assert PcOk(s, s.calls[id].leader);
      }
    }
  }

  // ----- what is a hit -----

  /** A caller gets a cached cover exactly if there is one that has not expired, and then nothing else changes;
      one that has expired is dropped, and fetched again unless a fetch is under way. */
  lemma HitIff(s: State, t: Thread, url: Url)
    requires Enabled(s, Ask(t, url))
    ensures var u, pc := Apply(s, Ask(t, url)), Apply(s, Ask(t, url)).pcs[t];
            && (pc.Returned? <==> url in s.cache && s.now < s.cache[url].expires)
            && (pc.Returned? ==> pc == Returned(url, None, Data(s.cache[url].data)) && u == s.(pcs := u.pcs))
            && (!pc.Returned? ==> u.cache == s.cache - {url})
            && (pc.Waiting? <==> !pc.Returned? && url in s.inflight)
            && (pc.Fetching? <==> !pc.Returned? && url !in s.inflight)
  {
    assert url !in s.cache ==> s.cache - {url} == s.cache;
  }

  /** What a fetch brought is cached for 15 minutes if it is worth it: at once if there is room for all; and if
      something must go, nothing that expires later goes before what expires sooner. */
  lemma StoredFor15Minutes(s: State, a: Action)
    requires Enabled(s, a) && a.Store? && s.calls[s.pcs[a.t].id].result.Data?
    requires var bytes := s.calls[s.pcs[a.t].id].result.bytes; 0 < |bytes| <= 24 * 1024 * 1024
    ensures var url, bytes := s.pcs[a.t].url, s.calls[s.pcs[a.t].id].result.bytes;
            var all := s.cache[url := Entry(bytes, s.now + 900)];
            && (Sum(all) <= 24 * 1024 * 1024 ==> Apply(s, a).cache == all)
            && (url in Apply(s, a).cache ==> Apply(s, a).cache[url] == Entry(bytes, s.now + 900))
            && (url !in Apply(s, a).cache ==>
                  forall k <- Apply(s, a).cache :: Apply(s, a).cache[k].expires >= s.now + 900)
  {
    hide Sum;
    var all := s.cache[s.pcs[a.t].url := Entry(s.calls[s.pcs[a.t].id].result.bytes, s.now + 900)];
    assert Evicted(all, Apply(s, a).cache);
  }

  /** What is not data, or too large, is not cached. */
  lemma FailuresAreNotCached(s: State, a: Action)
    requires Enabled(s, a) && (a.Store? || a.Panic?)
    requires a.Store? ==> var r := s.calls[s.pcs[a.t].id].result; !r.Data? || |r.bytes| == 0 || |r.bytes| > MAX_BYTES
    ensures Apply(s, a).cache == s.cache && Apply(s, a).bytes == s.bytes
  {
  }

  /** No action but a store of this very URL puts anything under it or prolongs it. */
  lemma EntryStands(s: State, a: Action, url: Url)
    requires Enabled(s, a) && !(a.Store? && s.pcs[a.t].url == url) && url in Apply(s, a).cache
    ensures url in s.cache && Apply(s, a).cache[url] == s.cache[url]
  {
    hide Sum;
  }

  ghost predicate NoStoreOf(s: State, acts: seq<Action>, url: Url)
    decreases |acts|
  {
    acts != [] ==>
      && Enabled(s, acts[0]) && !(acts[0].Store? && s.pcs[acts[0].t].url == url)
      && NoStoreOf(Apply(s, acts[0]), acts[1..], url)
  }

  /** A cover that was stored is served for 15 minutes at most: in every run without another store of its URL, whoever
      asks for it later is not given it. */
  lemma {:induction false} NoHitAfterExpiry(s: State, acts: seq<Action>, end: State, t: Thread, url: Url, expires: int)
    requires IsRun(s, acts, end) && NoStoreOf(s, acts, url) && (url in s.cache ==> s.cache[url].expires <= expires)
    requires end.now >= expires && Enabled(end, Ask(t, url))
    ensures !Apply(end, Ask(t, url)).pcs[t].Returned?
    decreases |acts|
  {
    if acts == [] {
      HitIff(s, t, url);
    } else {
      hide Apply, Enabled;
      var a := acts[0];
      if url in Apply(s, a).cache {
        EntryStands(s, a, url);
      }
      NoHitAfterExpiry(Apply(s, a), acts[1..], end, t, url, expires);
    }
  }

  /** The leader of the call is not fetching for it any more. */
  predicate Fetched(s: State, id: CallId) {
    && id < |s.calls| && At(s, s.calls[id].leader)
    && !(s.pcs[s.calls[id].leader].Fetching? && s.pcs[s.calls[id].leader].id == id)
  }

  lemma FetchedStep(s: State, a: Action, id: CallId)
    requires Inv(s) && Enabled(s, a) && Fetched(s, id)
    ensures Fetched(Apply(s, a), id) && Apply(s, a).calls[id].result == s.calls[id].result
  {
    hide CacheOk, TableOk, CallsOk, Stored;
    if !a.Clear? && !a.Tick? {
      assert PcOk(s, a.t);
    }
  }

  lemma {:induction false} FetchedStands(s: State, acts: seq<Action>, end: State, id: CallId)
    requires Inv(s) && IsRun(s, acts, end) && Fetched(s, id)
    ensures id < |end.calls| && end.calls[id].result == s.calls[id].result
    decreases |acts|
  {
    hide Inv, Apply, Enabled, Fetched;
    if acts == [] {
      FetchedId(s, id);
    } else {
      StepKeeps(s, acts[0]);
      FetchedStep(s, acts[0], id);
      FetchedStands(Apply(s, acts[0]), acts[1..], end, id);
    }
  }

  lemma FetchedId(s: State, id: CallId)
    requires Fetched(s, id)
    ensures id < |s.calls|
  {
  }

  /** What a fetch brings, data or failure, is what everyone who returns from its call is given, leader or waiter,
      however much later. */
  lemma FetchedIsReturned(now: int, threads: nat, acts: seq<Action>, mid: State, a: Action, more: seq<Action>,
                          end: State, u: Thread)
    requires IsRun(Init(now, threads), acts, mid) && Enabled(mid, a) && a.Fetch?
    requires IsRun(Apply(mid, a), more, end) && At(end, u) && end.pcs[u].Returned?
    requires end.pcs[u].call == Some(mid.pcs[a.t].id)
    ensures end.pcs[u].result == a.r
  {
    hide IsRun;
    RunKeeps(Init(now, threads), acts, mid);
    assert PcOk(mid, a.t);
    StepKeeps(mid, a);
    hide Inv, Apply, Enabled;
    FetchEnds(mid, a);
    FetchedStands(Apply(mid, a), more, end, mid.pcs[a.t].id);
    RunKeeps(Apply(mid, a), more, end);
    ActorOk(end, u);
  }

  lemma FetchEnds(s: State, a: Action)
    requires Enabled(s, a) && a.Fetch? && PcOk(s, a.t)
    ensures Fetched(Apply(s, a), s.pcs[a.t].id) && Apply(s, a).calls[s.pcs[a.t].id].result == a.r
  {
  }
}
