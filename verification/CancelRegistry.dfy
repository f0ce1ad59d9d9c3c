/**
 The ref-counted registry of cancellable work. An entry is live while work holds it; a cancel
 that finds no work leaves a tombstone, so that work about to start is still cancelled. Tombstones
 are swept by age and, above a hard cap, oldest first.

 Go visits map entries in no particular order, so which of two equally old tombstones goes
 first is open: the sweep is specified by a relation.
 */
module CancelRegistry {
  import opened Bytes

  type Context = nat

  const TOMBSTONE_TTL := 120
  const MAX_ENTRIES := 1024

  datatype Entry = Entry(ctx: Option<Context>, canceled: bool, refs: int, tombstonedAt: Option<int>)

  type Entries = map<string, Entry>

  /** The entries, the contexts that are cancelled, and the next context to hand out. */
  datatype Registry = Registry(entries: Entries, cancelled: set<Context>, next: Context)

  const EMPTY := Registry(map[], {}, 0)

  // ----- the sweep -----

  predicate Claimable(e: Entry) {
    e.refs <= 0 && e.tombstonedAt.Some?
  }

  predicate Expired(e: Entry, now: int) {
    Claimable(e) && now - e.tombstonedAt.value >= TOMBSTONE_TTL
  }

  function Unexpired(es: Entries, now: int): Entries {
    map id | id in es && !Expired(es[id], now) :: es[id]
  }

  predicate NotYounger(a: Entry, b: Entry) {
    a.tombstonedAt.Some? && b.tombstonedAt.Some? ==> a.tombstonedAt.value <= b.tombstonedAt.value
  }

  /** No tombstone that was dropped is younger than one that was kept. */
  ghost predicate OldestFirst(es: Entries, fs: Entries) {
    forall r <- es, k <- fs :: r !in fs && Claimable(es[r]) && Claimable(fs[k]) ==> NotYounger(es[r], fs[k])
  }

  /** fs is what a sweep leaves of es: all expired tombstones are gone, everything that is not a
      tombstone is kept, and tombstones are dropped oldest first, none unless the registry is over
      its cap, all if it stays over it. */
  ghost predicate Pruned(es: Entries, now: int, fs: Entries) {
    var young := Unexpired(es, now);
    && Sub(fs, young)
    && (forall id <- young :: !Claimable(es[id]) ==> id in fs)
    && OldestFirst(young, fs)
    && (|fs| <= MAX_ENTRIES || NoTombstone(fs))
    && (fs == young || |fs| >= MAX_ENTRIES)
  }

  ghost predicate Sub(fs: Entries, es: Entries) {
    forall id <- fs :: id in es && fs[id] == es[id]
  }

  ghost predicate NoTombstone(es: Entries) {
    forall id <- es :: !Claimable(es[id])
  }

  // ----- the operations -----

  /** Work attaches: the context it gets, and the registry after it. A pending cancel is passed on. */
  function Attached(r: Registry, id: string): (Registry, Context) {
    if id in r.entries then
      var e := r.entries[id];
      var c := if e.ctx.Some? then e.ctx.value else r.next;
      var e' := e.(ctx := Some(c), refs := e.refs + 1, tombstonedAt := None);
      (Registry(r.entries[id := e'], if e.ctx.None? && e.canceled then r.cancelled + {c} else r.cancelled,
                if e.ctx.None? then r.next + 1 else r.next), c)
    else
      (Registry(r.entries[id := Entry(Some(r.next), false, 1, None)], r.cancelled, r.next + 1), r.next)
  }

  /** A cancel, before the sweep. */
  function Cancelled(r: Registry, id: string, now: int): Registry {
    if id in r.entries then
      var e := r.entries[id];
      var at := if e.refs <= 0 && e.tombstonedAt.None? then Some(now) else e.tombstonedAt;
      r.(entries := r.entries[id := e.(canceled := true, tombstonedAt := at)],
         cancelled := if e.ctx.Some? then r.cancelled + {e.ctx.value} else r.cancelled)
    else r.(entries := r.entries[id := Entry(None, true, 0, Some(now))])
  }

  function Released(r: Registry, id: string): Registry {
    if id !in r.entries then r
    else if r.entries[id].refs <= 1 then r.(entries := r.entries - {id})
    else r.(entries := r.entries[id := r.entries[id].(refs := r.entries[id].refs - 1)])
  }

  function Reset(r: Registry, id: string): Registry {
    if id in r.entries && r.entries[id].refs <= 0 then r.(entries := r.entries - {id}) else r
  }

  predicate IsCancelled(r: Registry, id: string) {
    id in r.entries && r.entries[id].canceled
  }

  // ----- the registry as the code keeps it -----

  class CancelTable {
    var entries: Entries
    var cancelled: set<Context>
    var next: Context

    function State(): Registry
      reads this
    {
      Registry(entries, cancelled, next)
    }

    constructor ()
      ensures State() == EMPTY
    {
      entries, cancelled, next := map[], {}, 0;
    }

    method CancelContext(c: Option<Context>)
      modifies this`cancelled
      ensures cancelled == if c.Some? then old(cancelled) + {c.value} else old(cancelled)
    {
      if c.Some? { cancelled := cancelled + {c.value}; }
    }

    /** The oldest tombstone, if there is one. */
    method FindOldest() returns (oldest: Option<string>)
      ensures oldest.None? ==> NoTombstone(entries)
      ensures oldest.Some? ==> oldest.value in entries && IsOldest(entries, entries.Keys, oldest.value)
    {
      oldest := None;
      var todo := entries.Keys;
      while todo != {}
        invariant todo <= entries.Keys
        invariant oldest.None? ==> forall id <- entries :: id !in todo ==> !Claimable(entries[id])
        invariant oldest.Some? ==> oldest.value in entries && IsOldest(entries, entries.Keys - todo, oldest.value)
        decreases |todo|
      {
        var id :| id in todo;
        todo := todo - {id};
        if Claimable(entries[id]) {
          if oldest.None? || entries[id].tombstonedAt.value < entries[oldest.value].tombstonedAt.value {
            oldest := Some(id);
          }
        }
      }
    }

    /** Sweeps by age, then evicts the oldest tombstones while the registry is over its cap. */
    method PruneLocked(now: int)
      requires NoContexts(entries)
      modifies this`entries, this`cancelled
      ensures Pruned(old(entries), now, entries) && cancelled == old(cancelled)
    {
      ghost var es := entries;
      ghost var young := Unexpired(es, now);
      SweepExpired(now);
      assert entries == young;
      var oldest := FindOldest();
      while |entries| > MAX_ENTRIES && oldest.Some?
        invariant Sub(entries, young) && OldestFirst(young, entries) && cancelled == old(cancelled)
        invariant forall id <- young :: !Claimable(young[id]) ==> id in entries
        invariant entries == young || |entries| >= MAX_ENTRIES
        invariant oldest.None? ==> NoTombstone(entries)
        invariant oldest.Some? ==> oldest.value in entries && IsOldest(entries, entries.Keys, oldest.value)
        decreases |entries|
      {
        EvictOldest(young, entries, oldest.value);
        CancelContext(entries[oldest.value].ctx);
        entries := entries - {oldest.value};
        oldest := FindOldest();
      }
    }

    method SweepExpired(now: int)
      requires NoContexts(entries)
      modifies this`entries, this`cancelled
      ensures entries == Unexpired(old(entries), now) && cancelled == old(cancelled)
    {
      ghost var es := entries;
      var todo := entries.Keys;
      while todo != {}
        invariant todo <= entries.Keys && Sub(entries, es) && cancelled == old(cancelled)
        invariant forall id <- es :: id in todo || (id in entries <==> !Expired(es[id], now))
        decreases |todo|
      {
        var id :| id in todo;
        todo := todo - {id};
        if Expired(entries[id], now) {
          CancelContext(entries[id].ctx);
          entries := entries - {id};
        }
      }
      assert entries.Keys == Unexpired(es, now).Keys;
    }

    method Init(id: string, now: int) returns (c: Context)
      requires id != "" && NoContexts(entries)
      modifies this
      ensures exists fs :: Pruned(old(entries), now, fs)
                && (State(), c) == Attached(old(State()).(entries := fs), id)
    {
      PruneLocked(now);
      ghost var fs := entries;
      if id in entries {
        var e := entries[id];
        if e.ctx.None? {
          e := e.(ctx := Some(next));
          next := next + 1;
          if e.canceled { CancelContext(e.ctx); }
        }
        e := e.(refs := e.refs + 1, tombstonedAt := None);
        entries := entries[id := e];
        c := e.ctx.value;
      } else {
        c := next;
        next := next + 1;
        entries := entries[id := Entry(Some(c), false, 1, None)];
      }
      assert (State(), c) == Attached(old(State()).(entries := fs), id);
    }

    method RequestCancel(id: string, now: int, later: int)
      requires id != "" && NoContexts(entries) && NoIdle(entries)
      modifies this
      ensures exists fs :: Pruned(Cancelled(old(State()), id, now).entries, later, fs)
                && State() == Cancelled(old(State()), id, now).(entries := fs)
      ensures id in old(entries) && old(entries)[id].refs > 0 ==>
                && id in entries && entries[id] == old(entries)[id].(canceled := true)
                && (entries[id].ctx.Some? ==> entries[id].ctx.value in cancelled)
    {
      if id in entries {
        var e := entries[id].(canceled := true);
        CancelContext(e.ctx);
        if e.refs <= 0 && e.tombstonedAt.None? { e := e.(tombstonedAt := Some(now)); }
        entries := entries[id := e];
      } else {
        entries := entries[id := Entry(None, true, 0, Some(now))];
      }
      assert State() == Cancelled(old(State()), id, now);
      assert entries[id].refs > 0 ==> id in Unexpired(entries, later);
      PruneLocked(later);
    }

    method Release(id: string)
      modifies this`entries
      ensures State() == Released(old(State()), id)
    {
      if id in entries {
        var e := entries[id].(refs := entries[id].refs - 1);
        entries := entries[id := e];
        if e.refs <= 0 { entries := entries - {id}; }
      }
    }

    method ResetIfIdle(id: string)
      modifies this`entries
      ensures State() == Reset(old(State()), id)
    {
      if id in entries && entries[id].refs <= 0 {
        entries := entries - {id};
      }
    }
  }

  /** Among these ids, none has an older tombstone. */
  ghost predicate IsOldest(es: Entries, ids: set<string>, oldest: string)
    requires oldest in es
  {
    Claimable(es[oldest]) && forall id <- ids :: id in es && Claimable(es[id]) ==> NotYounger(es[oldest], es[id])
  }

  /** Tombstones never have a context. */
  ghost predicate NoContexts(es: Entries) {
    forall id <- es :: Claimable(es[id]) ==> es[id].ctx.None?
  }

  /** Entries without work are tombstones. */
  ghost predicate NoIdle(es: Entries) {
    forall id <- es :: es[id].refs <= 0 ==> es[id].tombstonedAt.Some?
  }

  lemma EvictOldest(young: Entries, es: Entries, oldest: string)
    requires Sub(es, young) && OldestFirst(young, es)
    requires oldest in es && IsOldest(es, es.Keys, oldest)
    ensures Sub(es - {oldest}, young) && OldestFirst(young, es - {oldest}) && |es - {oldest}| == |es| - 1
  {
    assert (es - {oldest}).Keys == es.Keys - {oldest};
    forall r, k
      | r in young && k in es - {oldest} && r !in es - {oldest} && Claimable(young[r]) && Claimable((es - {oldest})[k])
      ensures NotYounger(young[r], (es - {oldest})[k])
    {
      assert k in es;
    }
  }

  // ----- runs -----

  /** The registry, how much work is attached to each id, and the clock. */
  datatype State = State(r: Registry, work: map<string, nat>, now: int)

  datatype Action =
    | Attach(id: string, kept: Entries)        // what the sweep leaves
    | Detach(id: string)
    | Cancel(id: string, kept: Entries)
    | Retry(id: string)
    | Tick(to: int)

  function Work(s: State, id: string): nat {
    if id in s.work then s.work[id] else 0
  }

  /** Work is released as often as it was attached. */
  ghost predicate Enabled(s: State, a: Action) {
    match a
    case Attach(id, kept) => id != "" && Pruned(s.r.entries, s.now, kept)
    case Detach(id) => Work(s, id) > 0
    case Cancel(id, kept) => id != "" && Pruned(Cancelled(s.r, id, s.now).entries, s.now, kept)
    case Retry(_) => true
    case Tick(to) => to >= s.now
  }

  function Apply(s: State, a: Action): State {
    match a
    case Attach(id, kept) =>
      s.(r := Attached(s.r.(entries := kept), id).0, work := s.work[id := Work(s, id) + 1])
    case Detach(id) =>
      s.(r := Released(s.r, id), work := if Work(s, id) <= 1 then s.work - {id} else s.work[id := Work(s, id) - 1])
    case Cancel(id, kept) => s.(r := Cancelled(s.r, id, s.now).(entries := kept))
    case Retry(id) => s.(r := Reset(s.r, id))
    case Tick(to) => s.(now := to)
  }

  /** An entry is live, holding the work attached and the context handed out; or a tombstone of a
      cancel, without work or context. */
  predicate EntryOk(s: State, id: string)
    requires id in s.r.entries
  {
    var e := s.r.entries[id];
    if Work(s, id) > 0 then
      && e.refs == Work(s, id) && e.tombstonedAt.None? && e.ctx.Some? && e.ctx.value < s.r.next
      && (e.canceled <==> e.ctx.value in s.r.cancelled)
    else
      e.refs == 0 && e.canceled && e.tombstonedAt.Some? && e.ctx.None?
  }

  ghost predicate DistinctContexts(es: Entries) {
    forall a <- es, b <- es :: a != b && es[a].ctx.Some? && es[b].ctx.Some? ==> es[a].ctx != es[b].ctx
  }

  ghost predicate Inv(s: State) {
    && (forall id <- s.r.entries :: EntryOk(s, id))
    && (forall id <- s.work :: s.work[id] > 0 && id in s.r.entries)
    && (forall c <- s.r.cancelled :: c < s.r.next)
    && DistinctContexts(s.r.entries)
  }

  /** The sweep keeps the invariant: it drops tombstones only. */
  lemma PruneKeeps(s: State, kept: Entries)
    requires Inv(s) && Pruned(s.r.entries, s.now, kept)
    ensures Inv(s.(r := s.r.(entries := kept)))
  {
    var t := s.(r := s.r.(entries := kept));
    forall id | id in kept ensures EntryOk(t, id) {
      assert EntryOk(s, id);
    }
    forall id | id in s.work ensures id in kept {
      assert EntryOk(s, id) && id in Unexpired(s.r.entries, s.now);
    }
  }

  lemma CancelKeeps(s: State, id: string)
    requires Inv(s)
    ensures Inv(s.(r := Cancelled(s.r, id, s.now)))
  {
    var t := s.(r := Cancelled(s.r, id, s.now));
    forall x | x in t.r.entries ensures EntryOk(t, x) {
      if x in s.r.entries {
        assert EntryOk(s, x);
        if id in s.r.entries {
          assert EntryOk(s, id);
        }
      }
    }
  }

  lemma AttachKeeps(s: State, id: string)
    requires Inv(s)
    ensures Inv(State(Attached(s.r, id).0, s.work[id := Work(s, id) + 1], s.now))
  {
    var t := State(Attached(s.r, id).0, s.work[id := Work(s, id) + 1], s.now);
    forall x | x in t.r.entries ensures EntryOk(t, x) {
      if x in s.r.entries {
        assert EntryOk(s, x);
      }
    }
    forall a, b | a in t.r.entries && b in t.r.entries && a != b && t.r.entries[a].ctx.Some? && t.r.entries[b].ctx.Some?
      ensures t.r.entries[a].ctx != t.r.entries[b].ctx
    {
      assert a in s.r.entries ==> EntryOk(s, a);
      assert b in s.r.entries ==> EntryOk(s, b);
    }
  }

  lemma DetachKeeps(s: State, id: string)
    requires Inv(s) && Work(s, id) > 0
    ensures Inv(Apply(s, Detach(id)))
  {
    var t := Apply(s, Detach(id));
    forall x | x in t.r.entries ensures EntryOk(t, x) {
      assert EntryOk(s, x);
    }
    assert EntryOk(s, id);
  }

  lemma OthersKeep(s: State, a: Action)
    requires Inv(s) && Enabled(s, a) && (a.Retry? || a.Tick?)
    ensures Inv(Apply(s, a))
  {
    hide Pruned;
    var t := Apply(s, a);
    forall x | x in t.r.entries ensures EntryOk(t, x) {
      assert EntryOk(s, x);
    }
    assert a.Retry? && a.id in s.r.entries ==> EntryOk(s, a.id);
  }

  /** Every balanced action keeps the invariant. */
  lemma StepKeeps(s: State, a: Action)
    requires Inv(s) && Enabled(s, a)
    ensures Inv(Apply(s, a))
  {
    hide Inv, Pruned;
    match a
    case Attach(id, kept) =>
      PruneKeeps(s, kept);
      AttachKeeps(s.(r := s.r.(entries := kept)), id);
    case Detach(id) => DetachKeeps(s, id);
    case Cancel(id, kept) =>
      CancelKeeps(s, id);
      PruneKeeps(s.(r := Cancelled(s.r, id, s.now)), kept);
    case _ => OthersKeep(s, a);
  }

  ghost predicate IsRun(s: State, acts: seq<Action>, end: State)
    decreases |acts|
  {
    if acts == [] then end == s else Enabled(s, acts[0]) && IsRun(Apply(s, acts[0]), acts[1..], end)
  }

  lemma {:induction false} RunKeeps(s: State, acts: seq<Action>, end: State)
    requires Inv(s) && IsRun(s, acts, end)
    ensures Inv(end)
    decreases |acts|
  {
    hide Inv, Enabled, Apply;
    if acts != [] {
      StepKeeps(s, acts[0]);
      RunKeeps(Apply(s, acts[0]), acts[1..], end);
    }
  }

  /** In every balanced run each entry is either live, with refs the work attached and no tombstone,
      or a cancelled tombstone with no work; and all attached work has its entry. */
  lemma LiveOrTombstone(acts: seq<Action>, end: State, start: int)
    requires IsRun(State(EMPTY, map[], start), acts, end)
    ensures forall id <- end.r.entries ::
              var e := end.r.entries[id];
              if Work(end, id) > 0 then e.refs == Work(end, id) && e.tombstonedAt.None?
              else e.refs == 0 && e.canceled && e.tombstonedAt.Some?
    ensures forall id :: Work(end, id) > 0 ==> id in end.r.entries
  {
    RunKeeps(State(EMPTY, map[], start), acts, end);
    forall id | id in end.r.entries
      ensures var e := end.r.entries[id];
              if Work(end, id) > 0 then e.refs == Work(end, id) && e.tombstonedAt.None?
              else e.refs == 0 && e.canceled && e.tombstonedAt.Some?
    {
      assert EntryOk(end, id);
    }
  }

  /** After a cancel the registry holds at most 1024 entries, or none but live ones. */
  lemma SizeAfterCancel(s: State, a: Action)
    requires Inv(s) && Enabled(s, a) && a.Cancel?
    ensures |Apply(s, a).r.entries| <= MAX_ENTRIES || |Apply(s, a).r.entries| <= |s.work|
  {
    StepKeeps(s, a);
    var t := Apply(s, a);
    if |t.r.entries| > MAX_ENTRIES {
      forall id | id in t.r.entries ensures id in t.work {
        assert EntryOk(t, id);
      }
      assert t.r.entries.Keys <= t.work.Keys;
      SubsetSize(t.r.entries.Keys, t.work.Keys);
    }
  }

  lemma {:induction false} SubsetSize(a: set<string>, b: set<string>)
    requires a <= b
    ensures |a| <= |b|
    decreases a
  {
    if a != {} {
      var x :| x in a;
      SubsetSize(a - {x}, b - {x});
    }
  }

  /** Work is attached to the id at every moment of the run. */
  ghost predicate Busy(s: State, acts: seq<Action>, id: string)
    decreases |acts|
  {
    Work(s, id) > 0 && (acts != [] ==> Busy(Apply(s, acts[0]), acts[1..], id))
  }

  lemma StaysCancelled(s: State, a: Action, id: string)
    requires Inv(s) && Enabled(s, a) && Work(s, id) > 0 && Work(Apply(s, a), id) > 0 && IsCancelled(s.r, id)
    ensures IsCancelled(Apply(s, a).r, id)
    ensures Apply(s, a).r.entries[id].ctx == s.r.entries[id].ctx
  {
    assert EntryOk(s, id);
    StepKeeps(s, a);
    assert EntryOk(Apply(s, a), id);
    if a.Attach? {
      assert id in Unexpired(s.r.entries, s.now);
    } else if a.Cancel? {
      CancelKeeps(s, a.id);
      assert EntryOk(s.(r := Cancelled(s.r, a.id, s.now)), id);
      assert id in Unexpired(Cancelled(s.r, a.id, s.now).entries, s.now);
    }
  }

  /** A cancel during work holds until the last release: as long as work is attached, the id reads as
      cancelled and its context, always the same, is cancelled. */
  lemma {:induction false} CancelHolds(s: State, acts: seq<Action>, end: State, id: string)
    requires Inv(s) && IsRun(s, acts, end) && Busy(s, acts, id) && IsCancelled(s.r, id)
    ensures IsCancelled(end.r, id) && end.r.entries[id].ctx == s.r.entries[id].ctx
    ensures end.r.entries[id].ctx.Some? && end.r.entries[id].ctx.value in end.r.cancelled
    decreases |acts|
  {
    hide Apply, Enabled;
    if acts == [] {
      assert EntryOk(s, id);
    } else {
      StepKeeps(s, acts[0]);
      StaysCancelled(s, acts[0], id);
      CancelHolds(Apply(s, acts[0]), acts[1..], end, id);
    }
  }

  /** Work that attaches while a cancel is remembered gets a cancelled context; other work one that
      is not cancelled. */
  lemma AttachedContext(s: State, a: Action)
    requires Inv(s) && Enabled(s, a) && a.Attach?
    ensures var (r, c) := Attached(s.r.(entries := a.kept), a.id);
            c in r.cancelled <==> a.id in a.kept && a.kept[a.id].canceled
  {
    PruneKeeps(s, a.kept);
    if a.id in a.kept {
      assert EntryOk(s.(r := s.r.(entries := a.kept)), a.id);
    }
  }

  /** An earlier cancel survives the sweep if it is younger than the time to live and the registry is
      not over its cap. */
  lemma EarlierCancelSurvives(s: State, a: Action)
    requires Inv(s) && Enabled(s, a) && a.Attach? && IsCancelled(s.r, a.id) && |s.r.entries| <= MAX_ENTRIES
    requires s.r.entries[a.id].tombstonedAt.Some? ==> s.now - s.r.entries[a.id].tombstonedAt.value < TOMBSTONE_TTL
    ensures a.id in a.kept && a.kept[a.id].canceled
  {
    var young := Unexpired(s.r.entries, s.now);
    assert a.id in young;
    SubsetSize(young.Keys, s.r.entries.Keys);
    if a.kept != young {
      SubsetSize(young.Keys - {a.id}, young.Keys);
      if a.id !in a.kept {
        assert a.kept.Keys <= young.Keys - {a.id};
        SubsetSize(a.kept.Keys, young.Keys - {a.id});
      }
    }
  }

  // ----- what a cancel, a release and a retry bring about -----

  /** A cancel takes effect on running work: the id reads as cancelled from then on, and the context the work was
      given is cancelled. It touches no other id's work, and no context is ever un-cancelled. */
  lemma CancelTakesEffect(s: State, a: Action)
    requires Inv(s) && Enabled(s, a) && a.Cancel? && Work(s, a.id) > 0
    ensures IsCancelled(Apply(s, a).r, a.id)
    ensures s.r.entries[a.id].ctx.Some? && Apply(s, a).r.entries[a.id].ctx == s.r.entries[a.id].ctx
    ensures Apply(s, a).r.cancelled == s.r.cancelled + {s.r.entries[a.id].ctx.value}
    ensures forall id: string :: id != a.id && Work(s, id) > 0 ==>
              id in s.r.entries && id in Apply(s, a).r.entries && Apply(s, a).r.entries[id] == s.r.entries[id]
  {
    assert EntryOk(s, a.id);
    var c := Cancelled(s.r, a.id, s.now);
    assert a.id in Unexpired(c.entries, s.now);
    forall id: string | id != a.id && Work(s, id) > 0
      ensures id in s.r.entries && id in Apply(s, a).r.entries && Apply(s, a).r.entries[id] == s.r.entries[id]
    {
      assert EntryOk(s, id) && id in Unexpired(c.entries, s.now);
    }
  }

  /** A cancel that finds no work leaves a cancelled tombstone, dated now if it is the first, unless the sweep that
      follows takes it for its age or for the cap of 1024 entries. */
  lemma IdleCancelIsRemembered(s: State, a: Action)
    requires Inv(s) && Enabled(s, a) && a.Cancel? && Work(s, a.id) == 0
    ensures var es := Apply(s, a).r.entries;
            var at := if a.id in s.r.entries then s.r.entries[a.id].tombstonedAt else Some(s.now);
            if a.id in es then es[a.id] == Entry(None, true, 0, at)
            else at.Some? && (s.now - at.value >= 120 || |es| >= 1024)
    ensures Apply(s, a).r.cancelled == s.r.cancelled
  {
    var c := Cancelled(s.r, a.id, s.now);
    if a.id in s.r.entries {
      assert EntryOk(s, a.id);
    }
    if a.id !in a.kept && !Expired(c.entries[a.id], s.now) {
      assert a.id in Unexpired(c.entries, s.now);
    }
  }

  /** The sweep after an attach or a cancel leaves no tombstone of two minutes or more, and takes no entry with work. */
  lemma SweptIsYoung(s: State, a: Action, id: string)
    requires Inv(s) && Enabled(s, a) && (a.Attach? || a.Cancel?) && id in a.kept
    ensures a.kept[id].tombstonedAt.Some? && a.kept[id].refs <= 0 ==> s.now - a.kept[id].tombstonedAt.value < 120
  {
    var es := if a.Attach? then s.r.entries else Cancelled(s.r, a.id, s.now).entries;
    assert id in Unexpired(es, s.now);
  }

  /** The last release forgets the id, cancelled or not; work that attaches then is not cancelled. */
  lemma LastReleaseForgets(s: State, id: string, kept: Entries)
    requires Inv(s) && Work(s, id) == 1 && id != ""
    ensures var t := Apply(s, Detach(id));
            && id !in t.r.entries && Work(t, id) == 0
            && (Enabled(t, Attach(id, kept)) ==>
                  !IsCancelled(Apply(t, Attach(id, kept)).r, id)
                  && Attached(t.r.(entries := kept), id).1 !in Apply(t, Attach(id, kept)).r.cancelled)
  {
    assert EntryOk(s, id);
    var t := Apply(s, Detach(id));
    StepKeeps(s, Detach(id));
    if Enabled(t, Attach(id, kept)) {
      AttachedContext(t, Attach(id, kept));
      assert id !in kept by {
        assert id in kept ==> id in Unexpired(t.r.entries, t.now);
      }
    }
  }

  /** Any other release leaves the rest of the work its entry, its context and whether it is cancelled. */
  lemma ReleaseKeepsOthers(s: State, id: string, other: string)
    requires Inv(s) && Work(s, id) > 0 && Work(Apply(s, Detach(id)), other) > 0
    ensures var t := Apply(s, Detach(id));
            && other in s.r.entries && other in t.r.entries && t.r.cancelled == s.r.cancelled
            && t.r.entries[other].ctx == s.r.entries[other].ctx
            && t.r.entries[other].canceled == s.r.entries[other].canceled
  {
    assert EntryOk(s, id);
    assert other in s.work;
  }

  /** A retry forgets a cancel that no work is attached to, and changes nothing else. */
  lemma RetryForgetsIff(s: State, id: string)
    requires Inv(s)
    ensures var t := Apply(s, Retry(id));
            && (id in t.r.entries <==> Work(s, id) > 0)
            && t.r.entries - {id} == s.r.entries - {id} && t.r.cancelled == s.r.cancelled
            && (Work(s, id) > 0 ==> t == s)
  {
    if id in s.r.entries {
      assert EntryOk(s, id);
    }
  }
}
