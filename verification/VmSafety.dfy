/**
 Safety of the VM protocol: an invariant every action keeps, and what it says about every run.
 One action needs a condition: a goroutine whose closure reads a wrapper must start before the
 call that started it has given up on it.
 */
module VmSafety {
  import opened Bytes
  import opened VmOwnership

  /** Where a VM belongs: to the extension, to its pool, or to one thread. */
  datatype Owner = Shared | Pooled | Held(t: Thread)

  type Owners = map<Vm, Owner>

  predicate Is(o: Owners, v: Vm, w: Owner) {
    v in o && o[v] == w
  }

  predicate HoldsMu(pc: Pc) {
    match pc
    case Preparing(_) => true
    case Ready(m, _) => !m.Isolated?
    case Waiting(m, _, _) => !m.Isolated?
    case Grace(m, _, _) => !m.Isolated?
    case Returned(m, _, _) => !m.Isolated?
    case Using(m, _) => !m.Isolated?
    case Stuck(m, _) => !m.Isolated?
    case Building(_) => true
    case Cleaning(_, locked) => locked
    case Tearing => true
    case _ => false
  }

  ghost predicate MuOk(s: State) {
    && (s.mu.Some? ==> At(s, s.mu.value))
    && forall t: Thread :: At(s, t) ==> (HoldsMu(s.pcs[t]) <==> s.mu == Some(t))
  }

  predicate Unmarked(s: State, v: Vm) {
    v !in s.lost && v !in s.flags
  }

  ghost predicate FieldsOk(s: State, o: Owners) {
    && |s.ext.pool| <= MAX_IDLE
    && (forall v <- s.ext.pool :: Is(o, v, Pooled) && Unmarked(s, v))
    && (s.ext.vm.Some? ==>
          && Is(o, s.ext.vm.value, Shared)
          && (s.ext.vm.value in s.lost ==> s.mu.Some? && At(s, s.mu.value) && s.pcs[s.mu.value].Stuck?)
          && (s.ext.vm.value in s.flags ==>
                && s.mu.Some? && At(s, s.mu.value)
                && (s.pcs[s.mu.value].Stuck? || s.pcs[s.mu.value].Grace? || s.pcs[s.mu.value].Returned?)))
  }

  /** The VM is the thread's to use: it holds VMMu over the extension's VM, or the VM itself. */
  predicate Mine(s: State, o: Owners, t: Thread, mode: Mode, v: Vm) {
    if mode.Isolated? then Is(o, v, Held(t)) else s.ext.vm == Some(v)
  }

  /** The goroutine a thread waits for, and the wrapper it reads, belong to the call. */
  predicate Linked(s: State, t: Thread, mode: Mode, v: Vm, j: JobId) {
    && j < |s.jobs| && s.jobs[j].target == v && s.jobs[j].caller == t
    && s.jobs[j].wrapper == (if mode.Wrapped? then Some(mode.w) else None)
    && (mode.Wrapped? ==> mode.w in s.wrappers && s.wrappers[mode.w] == v)
  }

  ghost predicate PcOk(s: State, o: Owners, t: Thread)
    requires At(s, t)
  {
    match s.pcs[t]
    case Preparing(m) => !m.Isolated?
    case Ready(m, v) =>
      Mine(s, o, t, m, v) && Unmarked(s, v) && (m.Wrapped? ==> m.w in s.wrappers && s.wrappers[m.w] == v)
    case Using(m, v) => Mine(s, o, t, m, v) && Unmarked(s, v)
    case Waiting(m, v, j) => Mine(s, o, t, m, v) && Unmarked(s, v) && Linked(s, t, m, v, j)
    case Grace(m, v, j) => Mine(s, o, t, m, v) && v !in s.lost && Linked(s, t, m, v, j)
    case Returned(m, v, _) => Mine(s, o, t, m, v) && v !in s.lost
    case Stuck(m, v) => Mine(s, o, t, m, v) && v in s.lost
    case Building(v) => Is(o, v, Held(t)) && Unmarked(s, v)
    case Releasing(v, healthy, safe) => Is(o, v, Held(t)) && (healthy || safe ==> Unmarked(s, v))
    case Pooling(v) => Is(o, v, Held(t)) && Unmarked(s, v)
    case Cleaning(vms, _) => |vms| <= MAX_IDLE && forall v <- vms :: Is(o, v, Held(t)) && Unmarked(s, v)
    case _ => true
  }

  predicate Live(job: Job) {
    !job.status.Ended?
  }

  predicate Awaited(s: State, j: JobId)
    requires j < |s.jobs|
  {
    var t := s.jobs[j].caller;
    At(s, t) && (s.pcs[t].Waiting? || s.pcs[t].Grace?) && s.pcs[t].job == j
  }

  /** A goroutine that has not ended runs for the caller that awaits it, or in a lost VM; and it is
      in the VM it was started for. */
  predicate JobOk(s: State, j: JobId)
    requires j < |s.jobs|
  {
    var job := s.jobs[j];
    Live(job) ==>
      && (job.target in s.lost || Awaited(s, j))
      && (job.status.Running? ==> job.status.vm == job.target)
  }

  ghost predicate OneEach(s: State) {
    forall i, j | 0 <= i < j < |s.jobs| ::
      Live(s.jobs[i]) && Live(s.jobs[j]) ==> s.jobs[i].target != s.jobs[j].target
  }

  ghost predicate Fresh(s: State, o: Owners) {
    && (forall v <- o :: v < s.next) && (forall v <- s.lost :: v < s.next) && (forall v <- s.flags :: v < s.next)
    && (forall j :: 0 <= j < |s.jobs| ==> s.jobs[j].target < s.next)
  }

  ghost predicate PcsOk(s: State, o: Owners) {
    forall t: Thread :: At(s, t) ==> PcOk(s, o, t)
  }

  ghost predicate JobsOk(s: State) {
    forall j :: 0 <= j < |s.jobs| ==> JobOk(s, j)
  }

  ghost predicate Inv(s: State, o: Owners) {
    MuOk(s) && FieldsOk(s, o) && PcsOk(s, o) && JobsOk(s) && OneEach(s) && Fresh(s, o)
  }

  function GivenTo(pool: seq<Vm>, o: Owners, t: Thread): Owners {
    if pool == [] then o else o[pool[0] := Held(t)]
  }

  /** The owners after an action. */
  function Next(s: State, o: Owners, a: Action): Owners
    requires Enabled(s, a)
  {
    match a
    case Build(t, _, _) => o[s.next := Shared]
    case LockBuild(t) => o[s.next := Held(t)]
    case Acquire(t) => if s.ext.pool == [] then o else o[s.ext.pool[|s.ext.pool| - 1] := Held(t)]
    case TearDown(t) => GivenTo(s.ext.pool, o, t)
    case LockTearDown(t) => GivenTo(s.ext.pool, o, t)
    case Drain(t) => GivenTo(s.ext.pool, o, t)
    case Pool(t) => if |s.ext.pool| < MAX_IDLE then o[s.pcs[t].vm := Pooled] else o
    case _ => o
  }

  /** A goroutine that starts enters the VM it was started for. */
  predicate Harmless(s: State, a: Action)
    requires Enabled(s, a)
  {
    a.Start? ==> Entered(s, a.j) == s.jobs[a.j].target
  }

  /** A closure that reads a wrapper starts while its caller still waits. */
  predicate Timely(s: State, a: Action)
    requires Enabled(s, a)
  {
    a.Start? && s.jobs[a.j].wrapper.Some? ==> Awaited(s, a.j)
  }

  // ----- owners -----

  /** The VM belongs to this thread: by name, or as the extension's VM under VMMu. At most one
      thread can say so. */
  predicate Claims(s: State, o: Owners, t: Thread, v: Vm) {
    Is(o, v, Held(t)) || (Is(o, v, Shared) && s.mu == Some(t))
  }

  /** A thread that executes in a VM, or whose goroutine does, owns it; and the VM is not lost. */
  lemma UsersClaim(s: State, o: Owners, t: Thread, v: Vm)
    requires Inv(s, o) && At(s, t)
    requires Inline(s, s.pcs[t]) == Some(v) || ((s.pcs[t].Waiting? || s.pcs[t].Grace?) && s.pcs[t].vm == v)
    ensures Claims(s, o, t, v) && v !in s.lost
  {
    hide OneEach, JobsOk, Fresh;
    assert PcOk(s, o, t);
    assert HoldsMu(s.pcs[t]) <==> s.mu == Some(t);
    match s.pcs[t]
    case Cleaning(vms, _) => assert vms[0] in vms && vms[0] == v;
    case Preparing(_) => assert s.ext.vm == Some(v);
    case Tearing => assert s.ext.vm == Some(v);
    case _ =>
  }

  /** No live goroutine is meant for a VM that a thread executes in itself. */
  lemma InlineIsQuiet(s: State, o: Owners, t: Thread, v: Vm, j: JobId)
    requires Inv(s, o) && At(s, t) && Inline(s, s.pcs[t]) == Some(v) && j < |s.jobs| && Live(s.jobs[j])
    ensures s.jobs[j].target != v
  {
    hide OneEach, Fresh, FieldsOk, MuOk;
    UsersClaim(s, o, t, v);
    assert JobOk(s, j);
    if s.jobs[j].target == v {
      var c := s.jobs[j].caller;
      assert PcOk(s, o, c);
      UsersClaim(s, o, c, v);
      assert false;
    }
  }

  /** What the invariant says about a state. */
  lemma InvIsSafe(s: State, o: Owners)
    requires Inv(s, o)
    ensures Exclusive(s) && LostIsLeft(s) && IdleIsClear(s)
  {
    hide Inv;
    forall a: Actor, b: Actor, v: Vm | Executes(s, a, v) && Executes(s, b, v) ensures a == b {
      NoTwo(s, o, a, b, v);
    }
    LostLeft(s, o);
  }

  lemma LostLeft(s: State, o: Owners)
    requires Inv(s, o)
    ensures LostIsLeft(s) && IdleIsClear(s)
  {
    hide OneEach, Fresh, JobsOk, PcsOk;
    forall v, t: Thread | v in s.lost && At(s, t) ensures !Executes(s, Caller(t), v) {
      if Executes(s, Caller(t), v) {
        UsersClaim(s, o, t, v);
      }
    }
  }

  lemma NoTwo(s: State, o: Owners, a: Actor, b: Actor, v: Vm)
    requires Inv(s, o) && Executes(s, a, v) && Executes(s, b, v)
    ensures a == b
  {
    hide Fresh, FieldsOk, MuOk, PcsOk, Inline;
    match (a, b)
    case (Caller(t), Caller(u)) =>
      UsersClaim(s, o, t, v);
      UsersClaim(s, o, u, v);
    case (Caller(t), Goroutine(j)) =>
      assert JobOk(s, j);
      InlineIsQuiet(s, o, t, v, j);
      assert false;
    case (Goroutine(j), Caller(t)) =>
      assert JobOk(s, j);
      InlineIsQuiet(s, o, t, v, j);
      assert false;
    case (Goroutine(i), Goroutine(j)) =>
      assert JobOk(s, i) && JobOk(s, j);
  }

  // ----- every action keeps the invariant -----

  /** Actions that prepare a VM for a call. */
  predicate Preparation(a: Action) {
    || a.Lock? || a.Build? || a.Give? || a.Fail? || a.TearDown? || a.LockTearDown? || a.Acquire? || a.LockBuild?
    || a.Built?
  }

  /** Actions of a script call, from the start of its goroutine to the return. */
  predicate Calling(a: Action) {
    a.Run? || a.Start? || a.End? || a.Receive? || a.Timeout? || a.Expire? || a.Clear? || a.Quarantine?
  }

  /** The thread that acts, if one does. */
  function By(s: State, a: Action): (t: Option<Thread>)
    requires Enabled(s, a)
    ensures t.Some? ==> At(s, t.value)
  {
    if a.Start? || a.End? || a.SetEnabled? then None else Some(a.t)
  }

  predicate SameVm(s: State, s': State, v: Vm) {
    (v in s'.lost <==> v in s.lost) && (v in s'.flags ==> v in s.flags)
  }

  /** What a thread relies on, left alone by the others. */
  ghost predicate Beside(s: State, o: Owners, s': State, o': Owners, t: Thread)
    requires At(s, t)
  {
    && At(s', t) && s'.pcs[t] == s.pcs[t]
    && (forall v :: Is(o, v, Held(t)) ==> Is(o', v, Held(t)) && SameVm(s, s', v))
    && (HoldsMu(s.pcs[t]) ==>
          s'.ext.vm == s.ext.vm && s'.wrappers == s.wrappers && (s.ext.vm.Some? ==> SameVm(s, s', s.ext.vm.value)))
    && |s'.jobs| >= |s.jobs|
    && forall j :: 0 <= j < |s.jobs| ==>
         && s'.jobs[j].target == s.jobs[j].target && s'.jobs[j].caller == s.jobs[j].caller
         && s'.jobs[j].wrapper == s.jobs[j].wrapper
  }

  lemma BesideKeeps(s: State, o: Owners, s': State, o': Owners, t: Thread)
    requires At(s, t) && PcOk(s, o, t) && Beside(s, o, s', o', t)
    ensures PcOk(s', o', t)
  {
  }

  lemma PoolHead(s: State, o: Owners)
    requires FieldsOk(s, o)
    ensures s.ext.pool != [] ==>
            s.ext.pool == [s.ext.pool[0]] && Is(o, s.ext.pool[0], Pooled) && Unmarked(s, s.ext.pool[0])
  {
    if s.ext.pool != [] {
      assert s.ext.pool[0] in s.ext.pool;
    }
  }

  lemma ActorOk(s: State, o: Owners, a: Action)
    requires Inv(s, o) && Enabled(s, a) && By(s, a).Some?
    ensures PcOk(s, o, By(s, a).value)
  {
  }

  lemma BesidePreparing(s: State, o: Owners, a: Action, t: Thread)
    requires Inv(s, o) && Preparation(a) && Enabled(s, a) && Harmless(s, a)
    ensures At(s, t) && By(s, a) != Some(t) ==> Beside(s, o, Apply(s, a), Next(s, o, a), t)
  {
    hide OneEach, JobsOk, PcsOk;
    PoolHead(s, o);
    if By(s, a).Some? {
      ActorOk(s, o, a);
    }
  }

  lemma BesideStarting(s: State, o: Owners, a: Action, t: Thread)
    requires Inv(s, o) && (a.Run? || a.Start? || a.End?) && Enabled(s, a) && Harmless(s, a)
    ensures At(s, t) && By(s, a) != Some(t) ==> Beside(s, o, Apply(s, a), Next(s, o, a), t)
  {
    hide OneEach, JobsOk, PcsOk;
    PoolHead(s, o);
    if By(s, a).Some? {
      ActorOk(s, o, a);
    }
  }

  lemma BesideReturning(s: State, o: Owners, a: Action, t: Thread)
    requires Inv(s, o) && (a.Receive? || a.Timeout? || a.Expire? || a.Clear? || a.Quarantine?) && Enabled(s, a)
             && Harmless(s, a)
    ensures At(s, t) && By(s, a) != Some(t) ==> Beside(s, o, Apply(s, a), Next(s, o, a), t)
  {
    hide OneEach, JobsOk, PcsOk;
    PoolHead(s, o);
    if By(s, a).Some? {
      ActorOk(s, o, a);
    }
  }

  lemma BesideCalling(s: State, o: Owners, a: Action, t: Thread)
    requires Inv(s, o) && Calling(a) && Enabled(s, a) && Harmless(s, a)
    ensures At(s, t) && By(s, a) != Some(t) ==> Beside(s, o, Apply(s, a), Next(s, o, a), t)
  {
    hide Inv, Enabled, Apply, Next, Beside, Harmless, By;
    if a.Run? || a.Start? || a.End? {
      BesideStarting(s, o, a, t);
    } else {
      BesideReturning(s, o, a, t);
    }
  }

  lemma BesideEnding(s: State, o: Owners, a: Action, t: Thread)
    requires Inv(s, o) && !Preparation(a) && !Calling(a) && Enabled(s, a) && Harmless(s, a)
    ensures At(s, t) && By(s, a) != Some(t) ==> Beside(s, o, Apply(s, a), Next(s, o, a), t)
  {
    hide OneEach, JobsOk, PcsOk;
    PoolHead(s, o);
    if By(s, a).Some? {
      ActorOk(s, o, a);
    }
  }

  lemma ActorPreparing(s: State, o: Owners, a: Action)
    requires Inv(s, o) && Preparation(a) && Enabled(s, a) && Harmless(s, a)
    ensures By(s, a).Some? ==> PcOk(Apply(s, a), Next(s, o, a), By(s, a).value)
  {
    hide OneEach, JobsOk;
    PoolHead(s, o);
    assert By(s, a).Some? ==> PcOk(s, o, By(s, a).value);
  }

  lemma ActorCalling(s: State, o: Owners, a: Action)
    requires Inv(s, o) && Calling(a) && Enabled(s, a) && Harmless(s, a)
    ensures By(s, a).Some? ==> PcOk(Apply(s, a), Next(s, o, a), By(s, a).value)
  {
    hide OneEach, JobsOk;
    PoolHead(s, o);
    assert By(s, a).Some? ==> PcOk(s, o, By(s, a).value);
  }

  lemma ActorEnding(s: State, o: Owners, a: Action)
    requires Inv(s, o) && !Preparation(a) && !Calling(a) && Enabled(s, a) && Harmless(s, a)
    ensures By(s, a).Some? ==> PcOk(Apply(s, a), Next(s, o, a), By(s, a).value)
  {
    hide OneEach, JobsOk;
    PoolHead(s, o);
    assert By(s, a).Some? ==> PcOk(s, o, By(s, a).value);
  }

  lemma FieldsPreparing(s: State, o: Owners, a: Action)
    requires Inv(s, o) && Preparation(a) && Enabled(s, a) && Harmless(s, a)
    ensures FieldsOk(Apply(s, a), Next(s, o, a))
  {
    hide OneEach, PcsOk, JobsOk;
    PoolHead(s, o);
    if By(s, a).Some? {
      ActorOk(s, o, a);
    }
  }

  lemma FieldsCalling(s: State, o: Owners, a: Action)
    requires Inv(s, o) && Calling(a) && Enabled(s, a) && Harmless(s, a)
    ensures FieldsOk(Apply(s, a), Next(s, o, a))
  {
    hide OneEach, PcsOk, JobsOk;
    PoolHead(s, o);
    if By(s, a).Some? {
      ActorOk(s, o, a);
    }
  }

  lemma FieldsEnding(s: State, o: Owners, a: Action)
    requires Inv(s, o) && !Preparation(a) && !Calling(a) && Enabled(s, a) && Harmless(s, a)
    ensures FieldsOk(Apply(s, a), Next(s, o, a))
  {
    hide OneEach, PcsOk, JobsOk;
    PoolHead(s, o);
    if By(s, a).Some? {
      ActorOk(s, o, a);
    }
  }

  lemma MuPreparing(s: State, o: Owners, a: Action)
    requires Inv(s, o) && Preparation(a) && Enabled(s, a) && Harmless(s, a)
    ensures MuOk(Apply(s, a))
  {
    hide OneEach, PcsOk, JobsOk, Fresh, FieldsOk;
    if By(s, a).Some? {
      ActorOk(s, o, a);
    }
  }

  lemma MuCalling(s: State, o: Owners, a: Action)
    requires Inv(s, o) && Calling(a) && Enabled(s, a) && Harmless(s, a)
    ensures MuOk(Apply(s, a))
  {
    hide OneEach, PcsOk, JobsOk, Fresh, FieldsOk;
    if By(s, a).Some? {
      ActorOk(s, o, a);
    }
  }

  lemma MuEnding(s: State, o: Owners, a: Action)
    requires Inv(s, o) && !Preparation(a) && !Calling(a) && Enabled(s, a) && Harmless(s, a)
    ensures MuOk(Apply(s, a))
  {
    hide OneEach, PcsOk, JobsOk, Fresh, FieldsOk;
    if By(s, a).Some? {
      ActorOk(s, o, a);
    }
  }

  lemma FreshPreparing(s: State, o: Owners, a: Action)
    requires Inv(s, o) && Preparation(a) && Enabled(s, a) && Harmless(s, a)
    ensures Fresh(Apply(s, a), Next(s, o, a))
  {
    hide OneEach, PcsOk, JobsOk, MuOk;
    PoolHead(s, o);
    if By(s, a).Some? {
      ActorOk(s, o, a);
    }
  }

  lemma FreshCalling(s: State, o: Owners, a: Action)
    requires Inv(s, o) && Calling(a) && Enabled(s, a) && Harmless(s, a)
    ensures Fresh(Apply(s, a), Next(s, o, a))
  {
    hide OneEach, PcsOk, JobsOk, MuOk;
    PoolHead(s, o);
    if By(s, a).Some? {
      ActorOk(s, o, a);
    }
  }

  lemma FreshEnding(s: State, o: Owners, a: Action)
    requires Inv(s, o) && !Preparation(a) && !Calling(a) && Enabled(s, a) && Harmless(s, a)
    ensures Fresh(Apply(s, a), Next(s, o, a))
  {
    hide OneEach, PcsOk, JobsOk, MuOk;
    PoolHead(s, o);
    if By(s, a).Some? {
      ActorOk(s, o, a);
    }
  }

  lemma JobKept(s: State, o: Owners, a: Action, j: JobId)
    requires Inv(s, o) && Enabled(s, a) && Harmless(s, a) && j < |Apply(s, a).jobs|
    ensures JobOk(Apply(s, a), j)
  {
    hide OneEach, PcsOk, Fresh, FieldsOk, MuOk;
    assert j < |s.jobs| ==> JobOk(s, j);
    if By(s, a).Some? {
      ActorOk(s, o, a);
    }
  }

  lemma OneEachKept(s: State, o: Owners, a: Action)
    requires Inv(s, o) && Enabled(s, a) && Harmless(s, a)
    ensures OneEach(Apply(s, a))
  {
    hide JobsOk, Fresh, FieldsOk, MuOk, PcsOk;
    if a.Run? {
      var s', n := Apply(s, a), |s.jobs|;
      forall i, j | 0 <= i < j < |s'.jobs| && Live(s'.jobs[i]) && Live(s'.jobs[j])
        ensures s'.jobs[i].target != s'.jobs[j].target
      {
        if j == n {
          InlineIsQuiet(s, o, a.t, s.pcs[a.t].vm, i);
        }
      }
    }
  }

  /** Every timely action keeps the invariant. */
  lemma StepKeeps(s: State, o: Owners, a: Action)
    requires Inv(s, o) && Enabled(s, a) && Harmless(s, a)
    ensures Inv(Apply(s, a), Next(s, o, a))
  {
    hide Inv, Enabled, Apply, Next, MuOk, FieldsOk, PcOk, JobOk, OneEach, Fresh, Beside, Preparation, Calling, Harmless;
    var s', o' := Apply(s, a), Next(s, o, a);
    PcsKept(s, o, a);
    forall j | 0 <= j < |s'.jobs| ensures JobOk(s', j) {
      JobKept(s, o, a, j);
    }
    OneEachKept(s, o, a);
    if Preparation(a) {
      FieldsPreparing(s, o, a);
      MuPreparing(s, o, a);
      FreshPreparing(s, o, a);
    } else if Calling(a) {
      FieldsCalling(s, o, a);
      MuCalling(s, o, a);
      FreshCalling(s, o, a);
    } else {
      FieldsEnding(s, o, a);
      MuEnding(s, o, a);
      FreshEnding(s, o, a);
    }
    assert JobsOk(s');
    InvOf(s', o');
  }

  lemma InvOf(s: State, o: Owners)
    requires MuOk(s) && FieldsOk(s, o) && PcsOk(s, o) && JobsOk(s) && OneEach(s) && Fresh(s, o)
    ensures Inv(s, o)
  {
  }

  lemma SamePcs(s: State, a: Action)
    requires Enabled(s, a)
    ensures |Apply(s, a).pcs| == |s.pcs|
  {
  }

  lemma PcsKept(s: State, o: Owners, a: Action)
    requires Inv(s, o) && Enabled(s, a) && Harmless(s, a)
    ensures PcsOk(Apply(s, a), Next(s, o, a))
  {
    hide Enabled, Apply, Next, MuOk, FieldsOk, PcOk, JobOk, OneEach, Fresh, Beside, Preparation, Calling, Harmless;
    forall t: Thread | At(Apply(s, a), t) ensures PcOk(Apply(s, a), Next(s, o, a), t) {
      SamePcs(s, a);
      assert PcOk(s, o, t);
      if Preparation(a) {
        BesidePreparing(s, o, a, t);
        ActorPreparing(s, o, a);
      } else if Calling(a) {
        BesideCalling(s, o, a, t);
        ActorCalling(s, o, a);
      } else {
        BesideEnding(s, o, a, t);
        ActorEnding(s, o, a);
      }
      if By(s, a) != Some(t) {
        BesideKeeps(s, o, Apply(s, a), Next(s, o, a), t);
      }
    }
  }

  // ----- starting a goroutine -----

  /** A start keeps every VM to one goroutine exactly when nobody executes in the VM it enters. */
  lemma StartIsExclusiveIff(s: State, o: Owners, a: Action)
    requires Inv(s, o) && Enabled(s, a) && a.Start?
    ensures Exclusive(Apply(s, a)) <==> forall x: Actor :: !Executes(s, x, Entered(s, a.j))
  {
    hide Inv, Inline;
    InvIsSafe(s, o);
    var t, v, me := Apply(s, a), Entered(s, a.j), Goroutine(a.j);
    assert Executes(t, me, v) && !Executes(s, me, v);
    if x: Actor :| Executes(s, x, v) {
      SameExecutes(s, a, x, v);
    } else {
      forall x: Actor, y: Actor, u: Vm | Executes(t, x, u) && Executes(t, y, u) ensures x == y {
        SameExecutes(s, a, x, u);
        SameExecutes(s, a, y, u);
      }
    }
  }

  lemma SameExecutes(s: State, a: Action, x: Actor, v: Vm)
    requires Enabled(s, a) && a.Start?
    ensures Executes(Apply(s, a), x, v) <==> if x == Goroutine(a.j) then v == Entered(s, a.j) else Executes(s, x, v)
  {
  }

  /** A goroutine waiting to start, whose closure reads this wrapper. */
  predicate PendingOn(s: State, j: JobId, w: Wrapper) {
    j < |s.jobs| && s.jobs[j].status.Pending? && s.jobs[j].wrapper == Some(w)
  }

  /** A thread that holds VMMu outside of a script call: no other call on the shared VM is under way. */
  lemma HolderIsAlone(s: State, o: Owners, t: Thread, j: JobId)
    requires Inv(s, o) && At(s, t) && HoldsMu(s.pcs[t]) && (s.pcs[t].Preparing? || s.pcs[t].Ready?)
    requires j < |s.jobs| && s.jobs[j].wrapper.Some?
    ensures !Awaited(s, j) && !StuckFor(s, j)
  {
    hide JobsOk, OneEach, Fresh, FieldsOk;
    var c := s.jobs[j].caller;
    if At(s, c) {
      assert PcOk(s, o, c);
      assert HoldsMu(s.pcs[c]) <==> s.mu == Some(c);
      assert HoldsMu(s.pcs[t]) <==> s.mu == Some(t);
    }
  }

  predicate StuckFor(s: State, j: JobId)
    requires j < |s.jobs|
  {
    var job := s.jobs[j];
    job.wrapper.Some? && At(s, job.caller) && s.pcs[job.caller] == Stuck(Wrapped(job.wrapper.value), job.target)
  }

  /** Whenever a caller has taken up a wrapper while a goroutine of an earlier call through it has still
      not started, that goroutine can start at once, and two are then in the caller's VM. */
  lemma ReusedWrapperCollides(s: State, o: Owners, t: Thread, w: Wrapper, j: JobId)
    requires Inv(s, o) && At(s, t) && s.pcs[t].Ready? && s.pcs[t].mode == Wrapped(w) && PendingOn(s, j, w)
    ensures Enabled(s, Start(j)) && Entered(s, j) == s.pcs[t].vm && s.jobs[j].target in s.lost
    ensures !Exclusive(Apply(s, Start(j)))
  {
    hide OneEach, Fresh, FieldsOk;
    assert PcOk(s, o, t) && JobOk(s, j);
    HolderIsAlone(s, o, t, j);
    assert Executes(s, Caller(t), s.pcs[t].vm);
    StartIsExclusiveIff(s, o, Start(j));
  }

  // ----- runs -----

  ghost predicate IsRun(s: State, acts: seq<Action>, end: State)
    decreases |acts|
  {
    if acts == [] then end == s else Enabled(s, acts[0]) && IsRun(Apply(s, acts[0]), acts[1..], end)
  }

  ghost predicate IsHarmless(s: State, acts: seq<Action>)
    decreases |acts|
  {
    acts != [] ==> Enabled(s, acts[0]) && Harmless(s, acts[0]) && IsHarmless(Apply(s, acts[0]), acts[1..])
  }

  /** Goroutines are only added, and each stays with the VM it was started for. */
  ghost predicate Extends(s: State, end: State) {
    |s.jobs| <= |end.jobs| && forall j :: 0 <= j < |s.jobs| ==> end.jobs[j].target == s.jobs[j].target
  }

  lemma {:induction false} RunKeeps(s: State, o: Owners, acts: seq<Action>, end: State) returns (o': Owners)
    requires Inv(s, o) && IsRun(s, acts, end) && IsHarmless(s, acts)
    ensures Inv(end, o')
    ensures s.lost <= end.lost && Extends(s, end)
    ensures forall j :: 0 <= j < |end.jobs| && end.jobs[j].target in s.lost ==> j < |s.jobs|
    decreases |acts|
  {
    hide Inv, Enabled, Apply, Harmless;
    o' := o;
    if acts != [] {
      StepKeeps(s, o, acts[0]);
      NothingForLost(s, o, acts[0]);
      o' := RunKeeps(Apply(s, acts[0]), Next(s, o, acts[0]), acts[1..], end);
    }
  }

  /** No goroutine is started for a lost VM. */
  lemma NothingForLost(s: State, o: Owners, a: Action)
    requires Inv(s, o) && Enabled(s, a)
    ensures s.lost <= Apply(s, a).lost && Extends(s, Apply(s, a))
    ensures forall j :: 0 <= j < |Apply(s, a).jobs| && Apply(s, a).jobs[j].target in s.lost ==> j < |s.jobs|
  {
    hide OneEach, Fresh, FieldsOk, MuOk, JobsOk;
    assert a.Run? ==> PcOk(s, o, a.t);
  }

  /** In every interleaving of calls, timeouts, interrupts, pool reuse and teardown in which goroutines
      enter the VMs they were started for: no VM is executed by two goroutines, a lost VM is out of
      reach, and an idle VM has no interrupt pending. */
  lemma RunsAreSafe(threads: nat, enabled: bool, acts: seq<Action>, end: State)
    requires IsRun(Init(threads, enabled), acts, end) && IsHarmless(Init(threads, enabled), acts)
    ensures Exclusive(end) && LostIsLeft(end) && IdleIsClear(end)
  {
    hide IsRun, IsHarmless;
    var o := RunKeeps(Init(threads, enabled), map[], acts, end);
    InvIsSafe(end, o);
  }

  /** Once a grace period ran out on a VM, no later state of the run has a thread execute in it,
      has it in the pool, or has a goroutine for it that was not there before. */
  lemma LostForever(threads: nat, enabled: bool, acts: seq<Action>, mid: State, more: seq<Action>, end: State, vm: Vm)
    requires IsRun(Init(threads, enabled), acts, mid) && IsHarmless(Init(threads, enabled), acts)
    requires IsRun(mid, more, end) && IsHarmless(mid, more) && vm in mid.lost
    ensures vm !in end.ext.pool && forall t :: At(end, t) ==> !Executes(end, Caller(t), vm)
    ensures forall j :: 0 <= j < |end.jobs| && end.jobs[j].target == vm ==> j < |mid.jobs|
    ensures forall j :: 0 <= j < |end.jobs| && Executes(end, Goroutine(j), vm) ==> j < |mid.jobs|
  {
    hide IsRun, IsHarmless, Enabled, Apply;
    var o := RunKeeps(Init(threads, enabled), map[], acts, mid);
    var o' := RunKeeps(mid, o, more, end);
    InvIsSafe(end, o');
    forall j | 0 <= j < |end.jobs| && Executes(end, Goroutine(j), vm) ensures j < |mid.jobs| {
      assert JobOk(end, j);
    }
  }

  // ----- what makes runs harmless -----

  lemma TimelyIsHarmless(s: State, o: Owners, a: Action)
    requires Inv(s, o) && Enabled(s, a) && Timely(s, a)
    ensures Harmless(s, a)
  {
    hide OneEach, Fresh, FieldsOk, MuOk, JobsOk;
    if a.Start? && s.jobs[a.j].wrapper.Some? {
      assert PcOk(s, o, s.jobs[a.j].caller);
    }
  }

  ghost predicate IsTimely(s: State, acts: seq<Action>)
    decreases |acts|
  {
    acts != [] ==> Enabled(s, acts[0]) && Timely(s, acts[0]) && IsTimely(Apply(s, acts[0]), acts[1..])
  }

  /** Runs in which closures that read a wrapper start in time are harmless. */
  lemma {:induction false} TimelyRuns(s: State, o: Owners, acts: seq<Action>)
    requires Inv(s, o) && IsTimely(s, acts)
    ensures IsHarmless(s, acts)
    decreases |acts|
  {
    hide Inv, Enabled, Apply, Timely, Harmless;
    if acts != [] {
      TimelyIsHarmless(s, o, acts[0]);
      StepKeeps(s, o, acts[0]);
      TimelyRuns(Apply(s, acts[0]), Next(s, o, acts[0]), acts[1..]);
    }
  }

  /** The wrappers through which some call has returned with its VM quarantined. */
  function Retired(s: State, a: Action, retired: set<Wrapper>): set<Wrapper>
    requires Enabled(s, a)
  {
    if a.Quarantine? && s.pcs[a.t].mode.Wrapped? then retired + {s.pcs[a.t].mode.w} else retired
  }

  /** Callers take up no wrapper again once a call through it has returned with its VM quarantined. */
  ghost predicate NoReuse(s: State, acts: seq<Action>, retired: set<Wrapper>)
    decreases |acts|
  {
    acts != [] ==>
      && Enabled(s, acts[0]) && Allowed(acts[0], retired)
      && NoReuse(Apply(s, acts[0]), acts[1..], Retired(s, acts[0], retired))
  }

  predicate Allowed(a: Action, retired: set<Wrapper>) {
    a.Lock? && a.mode.Wrapped? ==> a.mode.w !in retired
  }

  /** A goroutine that has not started still finds its own VM in its wrapper: its caller waits, or is
      about to quarantine the VM, or the wrapper is retired. */
  predicate LazyOk(s: State, retired: set<Wrapper>, j: JobId)
    requires j < |s.jobs|
  {
    var job := s.jobs[j];
    job.status.Pending? && job.wrapper.Some? ==>
      && job.wrapper.value in s.wrappers && s.wrappers[job.wrapper.value] == job.target
      && (Awaited(s, j) || StuckFor(s, j) || job.wrapper.value in retired)
  }

  ghost predicate AllLazyOk(s: State, retired: set<Wrapper>) {
    && (forall j :: 0 <= j < |s.jobs| ==> LazyOk(s, retired, j))
    && (forall t: Thread :: At(s, t) && s.pcs[t].Preparing? ==> Allowed(Lock(t, s.pcs[t].mode), retired))
  }

  lemma LazyIsHarmless(s: State, retired: set<Wrapper>, a: Action)
    requires AllLazyOk(s, retired) && Enabled(s, a)
    ensures Harmless(s, a)
  {
    assert a.Start? ==> LazyOk(s, retired, a.j);
  }

  lemma PreparingKept(s: State, o: Owners, a: Action, retired: set<Wrapper>, t: Thread)
    requires Inv(s, o) && AllLazyOk(s, retired) && Enabled(s, a) && Allowed(a, retired)
    requires At(Apply(s, a), t) && Apply(s, a).pcs[t].Preparing?
    ensures Allowed(Lock(t, Apply(s, a).pcs[t].mode), Retired(s, a, retired))
  {
    hide PcsOk, JobsOk, OneEach, Fresh, FieldsOk, LazyOk;
    if a.Quarantine? {
      ActorOk(s, o, a);
      assert HoldsMu(s.pcs[t]) <==> s.mu == Some(t);
      assert HoldsMu(s.pcs[a.t]) <==> s.mu == Some(a.t);
    }
  }

  lemma LazyCalling(s: State, o: Owners, a: Action, retired: set<Wrapper>, j: JobId)
    requires Calling(a) && Inv(s, o) && AllLazyOk(s, retired) && Enabled(s, a) && j < |Apply(s, a).jobs|
    ensures LazyOk(Apply(s, a), Retired(s, a, retired), j)
  {
    hide PcsOk, JobsOk, OneEach, Fresh, FieldsOk, MuOk;
    if By(s, a).Some? {
      ActorOk(s, o, a);
    }
    if j < |s.jobs| {
      assert LazyOk(s, retired, j);
      if Awaited(s, j) {
        CallerOk(s, o, j);
      }
    }
  }

  lemma LazyElse(s: State, o: Owners, a: Action, retired: set<Wrapper>, j: JobId)
    requires !Calling(a) && Inv(s, o) && AllLazyOk(s, retired) && Enabled(s, a) && j < |Apply(s, a).jobs|
    ensures LazyOk(Apply(s, a), Retired(s, a, retired), j)
  {
    hide PcsOk, JobsOk, OneEach, Fresh, FieldsOk, MuOk;
    if By(s, a).Some? {
      ActorOk(s, o, a);
    }
    if j < |s.jobs| {
      assert LazyOk(s, retired, j);
      if a.Give? && s.jobs[j].wrapper.Some? {
        HolderIsAlone(s, o, a.t, j);
      }
      if Awaited(s, j) {
        CallerOk(s, o, j);
      }
    }
  }

  lemma LazyKept(s: State, o: Owners, a: Action, retired: set<Wrapper>, j: JobId)
    requires Inv(s, o) && AllLazyOk(s, retired) && Enabled(s, a) && j < |Apply(s, a).jobs|
    ensures LazyOk(Apply(s, a), Retired(s, a, retired), j)
  {
    hide Inv, AllLazyOk, Enabled, Apply, LazyOk, Retired, Calling;
    if Calling(a) {
      LazyCalling(s, o, a, retired, j);
    } else {
      LazyElse(s, o, a, retired, j);
    }
  }

  lemma CallerOk(s: State, o: Owners, j: JobId)
    requires Inv(s, o) && j < |s.jobs| && Awaited(s, j)
    ensures PcOk(s, o, s.jobs[j].caller)
  {
  }

  lemma {:induction false} NoReuseIsHarmless(s: State, o: Owners, acts: seq<Action>, retired: set<Wrapper>)
    requires Inv(s, o) && AllLazyOk(s, retired) && NoReuse(s, acts, retired)
    ensures IsHarmless(s, acts)
    decreases |acts|
  {
    hide Inv, Enabled, Apply, Harmless, LazyOk, Allowed, Next;
    if acts != [] {
      var a, t := acts[0], Apply(s, acts[0]);
      LazyIsHarmless(s, retired, a);
      StepKeeps(s, o, a);
      forall j | 0 <= j < |t.jobs| ensures LazyOk(t, Retired(s, a, retired), j) {
        LazyKept(s, o, a, retired, j);
      }
      forall u: Thread | At(t, u) && t.pcs[u].Preparing?
        ensures Allowed(Lock(u, t.pcs[u].mode), Retired(s, a, retired))
      {
        PreparingKept(s, o, a, retired, u);
      }
      NoReuseIsHarmless(t, Next(s, o, a), acts[1..], Retired(s, a, retired));
    }
  }

  /** Without any assumption on timing: as long as callers drop a wrapper once a call through it has returned
      with its VM quarantined, every run is safe. */
  lemma CarefulCallersAreSafe(threads: nat, enabled: bool, acts: seq<Action>, end: State)
    requires IsRun(Init(threads, enabled), acts, end) && NoReuse(Init(threads, enabled), acts, {})
    ensures Exclusive(end) && LostIsLeft(end) && IdleIsClear(end)
  {
    hide IsRun, NoReuse, IsHarmless;
    NoReuseIsHarmless(Init(threads, enabled), map[], acts, {});
    RunsAreSafe(threads, enabled, acts, end);
  }

  ghost predicate NoWrapper(acts: seq<Action>) {
    forall a <- acts :: a.Lock? ==> !a.mode.Wrapped?
  }

  lemma {:induction false} NoWrapperNoReuse(s: State, acts: seq<Action>, end: State, retired: set<Wrapper>)
    requires IsRun(s, acts, end) && NoWrapper(acts)
    ensures NoReuse(s, acts, retired)
    decreases |acts|
  {
    hide Enabled, Apply;
    if acts != [] {
      assert acts[0] in acts && forall a <- acts[1..] :: a in acts;
      NoWrapperNoReuse(Apply(s, acts[0]), acts[1..], end, Retired(s, acts[0], retired));
    }
  }

  /** Calls that hold their VM in a local, and downloads, are safe in every run and need no condition. */
  lemma LocalCallersAreSafe(threads: nat, enabled: bool, acts: seq<Action>, end: State)
    requires IsRun(Init(threads, enabled), acts, end) && NoWrapper(acts)
    ensures Exclusive(end) && LostIsLeft(end) && IdleIsClear(end)
  {
    hide IsRun, NoReuse;
    NoWrapperNoReuse(Init(threads, enabled), acts, end, {});
    CarefulCallersAreSafe(threads, enabled, acts, end);
  }

  /** The comment's reading: closures start while their callers still wait. */
  lemma TimelyRunsAreSafe(threads: nat, enabled: bool, acts: seq<Action>, end: State)
    requires IsRun(Init(threads, enabled), acts, end) && IsTimely(Init(threads, enabled), acts)
    ensures Exclusive(end) && LostIsLeft(end) && IdleIsClear(end)
  {
    hide IsRun, IsTimely, IsHarmless;
    TimelyRuns(Init(threads, enabled), map[], acts);
    RunsAreSafe(threads, enabled, acts, end);
  }

  // ----- the exception: a late start through a re-used wrapper -----

  function Steps(s: State, acts: seq<Action>): Option<State>
    decreases |acts|
  {
    if acts == [] then Some(s) else if Enabled(s, acts[0]) then Steps(Apply(s, acts[0]), acts[1..]) else None
  }

  lemma {:induction false} StepsRun(s: State, acts: seq<Action>)
    requires Steps(s, acts).Some?
    ensures IsRun(s, acts, Steps(s, acts).value)
    decreases |acts|
  {
    hide Enabled, Apply;
    if acts != [] {
      StepsRun(Apply(s, acts[0]), acts[1..]);
    }
  }

  lemma {:induction false} StepsAppend(s: State, a: seq<Action>, b: seq<Action>)
    requires Steps(s, a).Some?
    ensures Steps(s, a + b) == Steps(Steps(s, a).value, b)
    decreases |a|
  {
    hide Enabled, Apply;
    if a == [] {
      assert a + b == b;
    } else {
      assert (a + b)[1..] == a[1..] + b;
      StepsAppend(Apply(s, a[0]), a[1..], b);
    }
  }

  /** A call on the shared VM through wrapper 0, up to the start of its goroutine. */
  function OneCall(): seq<Action> {
    [Lock(0, Wrapped(0)), Build(0, true, true), Give(0), Run(0)]
  }

  /** The state when the n-th such call of thread 0 has just started its goroutine. */
  function CallStarted(jobs: seq<Job>, vm: Vm, flags: set<Vm>, lost: set<Vm>): State {
    State(Ext(Some(vm), true, true, []), Some(0), [Waiting(Wrapped(0), vm, |jobs|)],
          jobs + [Job(vm, Some(0), 0, Pending)], map[0 := vm], flags, vm + 1, lost)
  }

  lemma CallSteps(jobs: seq<Job>, vm: Vm, wrappers: map<Wrapper, Vm>, flags: set<Vm>, lost: set<Vm>)
    requires wrappers == map[] || wrappers.Keys == {0}
    ensures Steps(State(Ext(None, false, true, []), None, [Idle], jobs, wrappers, flags, vm, lost), OneCall())
         == Some(CallStarted(jobs, vm, flags, lost))
  {
    var s0 := State(Ext(None, false, true, []), None, [Idle], jobs, wrappers, flags, vm, lost);
    var s1 := Apply(s0, Lock(0, Wrapped(0)));
    var s2 := Apply(s1, Build(0, true, true));
    var s3 := Apply(s2, Give(0));
    assert s3.wrappers == map[0 := vm];
    assert OneCall()[1..] == [Build(0, true, true), Give(0), Run(0)];
    assert OneCall()[1..][1..] == [Give(0), Run(0)];
    assert OneCall()[1..][1..][1..] == [Run(0)];
    var s4 := Apply(s3, Run(0));
    assert s4.pcs == [Waiting(Wrapped(0), vm, |jobs|)] && s4 == CallStarted(jobs, vm, flags, lost);
    assert [Run(0)][1..] == [] && Steps(s4, []) == Some(s4);
    assert Steps(s3, [Run(0)]) == Some(CallStarted(jobs, vm, flags, lost));
    assert Steps(s2, [Give(0), Run(0)]) == Steps(s3, [Run(0)]);
    assert Steps(s1, [Build(0, true, true), Give(0), Run(0)]) == Steps(s2, [Give(0), Run(0)]);
  }

  /** The caller gives up on the goroutine, which has not started yet. */
  lemma GiveUpSteps(vm: Vm)
    ensures Steps(CallStarted([], vm, {}, {}), [Timeout(0), Expire(0), Quarantine(0)])
         == Some(State(Ext(None, false, true, []), None, [Idle], [Job(vm, Some(0), 0, Pending)], map[0 := vm], {vm},
                       vm + 1, {vm}))
  {
    var s0 := CallStarted([], vm, {}, {});
    var s1 := Apply(s0, Timeout(0));
    var s2 := Apply(s1, Expire(0));
    var s3 := Apply(s2, Quarantine(0));
    var acts := [Timeout(0), Expire(0), Quarantine(0)];
    assert acts[1..] == [Expire(0), Quarantine(0)] && acts[1..][1..] == [Quarantine(0)] && [Quarantine(0)][1..] == [];
    assert s1.pcs == [Grace(Wrapped(0), vm, 0)] && s2.pcs == [Stuck(Wrapped(0), vm)] && s3.pcs == [Idle];
    assert s3.jobs == [Job(vm, Some(0), 0, Pending)] && s3.flags == {vm} && s3.lost == {vm};
    assert s3.wrappers == map[0 := vm] && s3.ext == Ext(None, false, true, []);
    assert Steps(s3, []) == Some(s3);
    assert Steps(s2, [Quarantine(0)]) == Some(s3);
    assert Steps(s1, [Expire(0), Quarantine(0)]) == Some(s3);
  }

  /** Both goroutines start: the second in its own VM, the first in what the wrapper now holds. */
  lemma BothStartSteps(vm: Vm, next: Vm)
    ensures var s := CallStarted([Job(vm, Some(0), 0, Pending)], next, {vm}, {vm});
            var end := Steps(s, [Start(1), Start(0)]);
            end.Some? && Executes(end.value, Goroutine(0), next) && Executes(end.value, Goroutine(1), next)
  {
    var s0 := CallStarted([Job(vm, Some(0), 0, Pending)], next, {vm}, {vm});
    var s1 := Apply(s0, Start(1));
    var s2 := Apply(s1, Start(0));
    assert [Start(1), Start(0)][1..] == [Start(0)] && [Start(0)][1..] == [];
    assert Steps(s2, []) == Some(s2);
    assert Steps(s1, [Start(0)]) == Some(s2);
  }

  /** Without the condition the claim fails: one caller uses one wrapper twice, and its first
      script has not started when the grace period runs out. The second call puts a fresh VM into
      the wrapper, and both goroutines end up in it. */
  lemma LateStartCollides()
    ensures exists acts, end :: IsRun(Init(1, true), acts, end) && !Exclusive(end)
  {
    hide Enabled, Apply, Executes, Steps;
    var first, giveUp, both := OneCall(), [Timeout(0), Expire(0), Quarantine(0)], [Start(1), Start(0)];
    var start := Init(1, true);
    assert start.pcs == [Idle];
    CallSteps([], 0, map[], {}, {});
    GiveUpSteps(0);
    CallSteps([Job(0, Some(0), 0, Pending)], 1, map[0 := 0], {0}, {0});
    BothStartSteps(0, 1);
    StepsAppend(start, first, giveUp);
    StepsAppend(start, first + giveUp, first);
    StepsAppend(start, first + giveUp + first, both);
    var acts := first + giveUp + first + both;
    var end := Steps(start, acts).value;
    StepsRun(start, acts);
    assert Executes(end, Goroutine(0), 1) && Executes(end, Goroutine(1), 1);
  }
}
