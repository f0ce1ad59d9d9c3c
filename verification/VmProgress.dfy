/**
 What the VM protocol brings about, beside keeping VMs apart: scripts whose time is up are interrupted,
 shared calls find a runtime, nobody waits for ever on VMMu, VMs are re-used or cleaned up and
 not just dropped.
 */
module VmProgress {
  import opened Bytes
  import opened VmOwnership
  import opened VmSafety

  // ----- who holds which VM -----

  /** The VMs a thread has in hand. */
  predicate Carries(pc: Pc, v: Vm) {
    match pc
    case Idle => false
    case Preparing(_) => false
    case Wanting => false
    case Tearing => false
    case Cleaning(vms, _) => v in vms
    case _ => pc.vm == v
  }

  lemma CarriersClaim(s: State, o: Owners, t: Thread, v: Vm)
    requires Inv(s, o) && At(s, t) && Carries(s.pcs[t], v)
    ensures Claims(s, o, t, v)
  {
    hide JobsOk, OneEach, Fresh;
    assert PcOk(s, o, t);
    assert HoldsMu(s.pcs[t]) <==> s.mu == Some(t);
  }

  // ----- interrupts and runtimes, over runs -----

  /** A call on the shared VM, from the time it is given the VM to its end. */
  predicate OnShared(pc: Pc) {
    (pc.Ready? || pc.Waiting? || pc.Grace? || pc.Returned? || pc.Using?) && !pc.mode.Isolated?
  }

  predicate CallOk(s: State, pc: Pc) {
    && (pc.Grace? ==> pc.vm in s.flags)
    && (OnShared(pc) ==> s.ext.vm == Some(pc.vm) && s.ext.hasRuntime)
    && (pc.Releasing? && !pc.safe ==> !pc.healthy && pc.vm in s.lost)
  }

  ghost predicate CallsOk(s: State) {
    forall t: Thread :: At(s, t) ==> CallOk(s, s.pcs[t])
  }

  /** When an interrupt is set, and when it is cleared: by the caller's own timeout and its own return only. */
  lemma InterruptedIff(s: State, a: Action, v: Vm)
    requires Enabled(s, a)
    ensures v !in s.flags ==> (v in Apply(s, a).flags <==> a.Timeout? && s.pcs[a.t].vm == v)
    ensures v in s.flags ==> (v !in Apply(s, a).flags <==> a.Clear? && s.pcs[a.t].vm == v)
  {
  }

  /** Who holds VMMu keeps the extension's VM and runtime. */
  lemma RuntimeStays(s: State, a: Action, t: Thread)
    requires MuOk(s) && Enabled(s, a) && At(s, t) && By(s, a) != Some(t) && HoldsMu(s.pcs[t])
    ensures Apply(s, a).ext.vm == s.ext.vm && Apply(s, a).ext.hasRuntime == s.ext.hasRuntime
  {
    if By(s, a).Some? {
      assert HoldsMu(s.pcs[By(s, a).value]) <==> s.mu == By(s, a);
    }
  }

  lemma OtherPc(s: State, a: Action, t: Thread)
    requires Enabled(s, a) && At(s, t) && By(s, a) != Some(t)
    ensures At(Apply(s, a), t) && Apply(s, a).pcs[t] == s.pcs[t] && s.lost <= Apply(s, a).lost
  {
  }

  lemma CallBeside(s: State, o: Owners, a: Action, t: Thread)
    requires Inv(s, o) && At(s, t) && CallOk(s, s.pcs[t]) && Enabled(s, a) && By(s, a) != Some(t)
    ensures At(Apply(s, a), t) && CallOk(Apply(s, a), Apply(s, a).pcs[t])
  {
    hide FieldsOk, PcsOk, JobsOk, OneEach, Fresh, Enabled, Apply;
    OtherPc(s, a, t);
    if s.pcs[t].Grace? {
      InterruptedIff(s, a, s.pcs[t].vm);
      CarriersClaim(s, o, t, s.pcs[t].vm);
      if a.Clear? {
        ClearCarries(s, a);
        CarriersClaim(s, o, a.t, s.pcs[a.t].vm);
      }
    }
    if OnShared(s.pcs[t]) {
      RuntimeStays(s, a, t);
    }
  }

  lemma ClearCarries(s: State, a: Action)
    requires Enabled(s, a) && a.Clear?
    ensures By(s, a) == Some(a.t) && At(s, a.t) && s.pcs[a.t].Returned? && Carries(s.pcs[a.t], s.pcs[a.t].vm)
  {
  }

  lemma CallActor(s: State, o: Owners, a: Action)
    requires Inv(s, o) && Enabled(s, a) && By(s, a).Some? && CallOk(s, s.pcs[By(s, a).value])
    ensures At(Apply(s, a), By(s, a).value) && CallOk(Apply(s, a), Apply(s, a).pcs[By(s, a).value])
  {
    hide MuOk, FieldsOk, JobsOk, OneEach, Fresh;
    ActorOk(s, o, a);
  }

  lemma CallsKept(s: State, o: Owners, a: Action)
    requires Inv(s, o) && CallsOk(s) && Enabled(s, a)
    ensures CallsOk(Apply(s, a))
  {
    hide Inv, Enabled, Apply, CallOk;
    SamePcs(s, a);
    forall t: Thread | At(Apply(s, a), t) ensures CallOk(Apply(s, a), Apply(s, a).pcs[t]) {
      if By(s, a) == Some(t) {
        CallActor(s, o, a);
      } else {
        CallBeside(s, o, a, t);
      }
    }
  }

  /** Every action of every thread keeps each VM with one owner and each goroutine in its own VM; a script
      whose time is up interrupted; and calls on the shared VM in one with a runtime. */
  lemma EveryStepKeeps(s: State, o: Owners, a: Action)
    requires Inv(s, o) && CallsOk(s) && Enabled(s, a) && Harmless(s, a)
    ensures Inv(Apply(s, a), Next(s, o, a)) && CallsOk(Apply(s, a))
  {
    hide Inv, CallsOk, Enabled, Apply, Harmless, Next;
    StepKeeps(s, o, a);
    CallsKept(s, o, a);
  }

  lemma {:induction false} RunCalls(s: State, o: Owners, acts: seq<Action>, end: State)
    requires Inv(s, o) && CallsOk(s) && IsRun(s, acts, end) && IsHarmless(s, acts)
    ensures CallsOk(end)
    decreases |acts|
  {
    hide Inv, Enabled, Apply, Harmless, CallsOk;
    if acts != [] {
      EveryStepKeeps(s, o, acts[0]);
      RunCalls(Apply(s, acts[0]), Next(s, o, acts[0]), acts[1..], end);
    }
  }

  /** In every such run a script whose time is up stays interrupted until its goroutine ends or the grace period
      runs out, whichever way its caller holds the VM; and no script of a call on the shared VM is run
      in a VM without a runtime. */
  lemma ScriptsAreInterrupted(threads: nat, enabled: bool, acts: seq<Action>, end: State)
    requires IsRun(Init(threads, enabled), acts, end) && IsHarmless(Init(threads, enabled), acts)
    ensures forall t: Thread :: At(end, t) && end.pcs[t].Grace? ==> end.pcs[t].vm in end.flags
    ensures forall t: Thread :: At(end, t) && OnShared(end.pcs[t]) ==>
              end.ext.vm == Some(end.pcs[t].vm) && end.ext.hasRuntime
  {
    hide IsRun, IsHarmless;
    RunCalls(Init(threads, enabled), map[], acts, end);
  }

  // ----- nobody waits for ever -----

  ghost predicate CanAct(s: State, t: Thread) {
    exists a: Action :: Enabled(s, a) && By(s, a) == Some(t)
  }

  /** Some action of a thread that is not idle and does not wait for VMMu. */
  function OwnMove(s: State, t: Thread): (a: Action)
    requires At(s, t) && !s.pcs[t].Idle? && !s.pcs[t].Wanting?
    ensures Enabled(s, a) && By(s, a) == Some(t)
  {
    match s.pcs[t]
    case Preparing(_) => Fail(t)
    case Ready(_, _) => Run(t)
    case Waiting(_, _, _) => Timeout(t)
    case Grace(_, _, _) => Expire(t)
    case Returned(_, _, _) => Clear(t)
    case Using(_, _) => Finish(t)
    case Stuck(_, _) => Quarantine(t)
    case Building(_) => Built(t, true)
    case Releasing(_, _, _) => Release(t)
    case Pooling(_) => Pool(t)
    case Cleaning(_, _) => Cleaned(t)
    case Tearing => TornAll(t)
  }

  lemma SomeoneCanAct(s: State, o: Owners, t: Thread)
    requires Inv(s, o) && At(s, t) && !s.pcs[t].Idle?
    ensures CanAct(s, t) || (s.pcs[t].Wanting? && s.mu.Some? && s.mu.value != t && CanAct(s, s.mu.value))
  {
    hide FieldsOk, PcsOk, JobsOk, OneEach, Fresh, Enabled;
    if !s.pcs[t].Wanting? {
      var a := OwnMove(s, t);
    } else if s.mu.None? {
      CanLock(s, t);
    } else {
      var u := s.mu.value;
      assert HoldsMu(s.pcs[u]);
      var a := OwnMove(s, u);
    }
  }

  lemma CanLock(s: State, t: Thread)
    requires At(s, t) && s.pcs[t].Wanting? && s.mu.None?
    ensures CanAct(s, t)
  {
    assert Enabled(s, LockBuild(t)) && By(s, LockBuild(t)) == Some(t);
  }

  /** No deadlock: in every state of such a run a thread in a call can act, or it waits for VMMu and the thread
      that holds it can act. */
  lemma NoDeadlock(threads: nat, enabled: bool, acts: seq<Action>, end: State, t: Thread)
    requires IsRun(Init(threads, enabled), acts, end) && IsHarmless(Init(threads, enabled), acts)
    requires At(end, t) && !end.pcs[t].Idle?
    ensures CanAct(end, t)
            || (end.pcs[t].Wanting? && end.mu.Some? && end.mu.value != t && CanAct(end, end.mu.value))
  {
    hide IsRun, IsHarmless, Inv;
    InitOk(threads, enabled);
    ghost var o := RunKeeps(Init(threads, enabled), map[], acts, end);
    SomeoneCanAct(end, o, t);
  }

  lemma InitOk(threads: nat, enabled: bool)
    ensures Inv(Init(threads, enabled), map[]) && CallsOk(Init(threads, enabled))
  {
  }

  // ----- where VMs go -----

  /** The VM is the extension's, in the pool, or some thread's. */
  ghost predicate InUse(s: State, v: Vm) {
    s.ext.vm == Some(v) || v in s.ext.pool || exists t: Thread :: At(s, t) && Carries(s.pcs[t], v)
  }

  /** How a VM is given up: its cleanup script has run; a grace period ran out on it; it is replaced for want
      of a runtime; or building it failed. */
  predicate GivesUp(s: State, a: Action, v: Vm)
    requires Enabled(s, a)
  {
    match a
    case Cleaned(t) => s.pcs[t].vms != [] && s.pcs[t].vms[0] == v
    case TornAll(_) => s.ext.vm == Some(v)
    case Build(_, _, _) => s.ext.vm == Some(v)
    case Built(t, ok) => !ok && s.pcs[t].vm == v
    case Quarantine(t) => s.pcs[t].vm == v && v in s.lost && !s.pcs[t].mode.Isolated?
    case Release(t) => s.pcs[t].vm == v && v in s.lost
    case _ => false
  }

  lemma StillCarried(s: State, a: Action, v: Vm, t: Thread)
    requires Enabled(s, a) && At(s, t) && Carries(s.pcs[t], v) && By(s, a) != Some(t)
    ensures InUse(Apply(s, a), v)
  {
    assert At(Apply(s, a), t) && Apply(s, a).pcs[t] == s.pcs[t];
  }

  /** The actor's own VM stays in use unless it is given up. */
  lemma ActorKeeps(s: State, o: Owners, a: Action, v: Vm)
    requires Inv(s, o) && CallsOk(s) && Enabled(s, a) && By(s, a).Some? && Carries(s.pcs[By(s, a).value], v)
    requires !GivesUp(s, a, v)
    ensures InUse(Apply(s, a), v)
  {
    hide JobsOk, OneEach, Fresh;
    var t, s' := By(s, a).value, Apply(s, a);
    ActorOk(s, o, a);
    assert CallOk(s, s.pcs[t]);
    if Carries(s'.pcs[t], v) {
      assert At(s', t) && InUse(s', v);
    }
  }

  /** The extension's VM stays in use unless it is given up. */
  lemma SharedKeeps(s: State, o: Owners, a: Action, v: Vm)
    requires Inv(s, o) && Enabled(s, a) && s.ext.vm == Some(v) && !GivesUp(s, a, v)
    ensures InUse(Apply(s, a), v)
  {
    hide MuOk, JobsOk, OneEach, Fresh, Carries;
    if By(s, a).Some? {
      ActorOk(s, o, a);
    }
  }

  /** A VM in the pool stays there or is taken by the actor. */
  lemma PooledKeeps(s: State, o: Owners, a: Action, v: Vm)
    requires Inv(s, o) && Enabled(s, a) && v in s.ext.pool
    ensures InUse(Apply(s, a), v)
  {
    hide MuOk, JobsOk, OneEach, Fresh, PcsOk;
    var s' := Apply(s, a);
    PoolHead(s, o);
    if By(s, a).Some? && Carries(s'.pcs[By(s, a).value], v) {
      assert At(s', By(s, a).value) && InUse(s', v);
    }
  }

  lemma GiverClaims(s: State, o: Owners, a: Action, v: Vm)
    requires Inv(s, o) && Enabled(s, a) && GivesUp(s, a, v)
    ensures By(s, a).Some? && Claims(s, o, By(s, a).value, v)
  {
    hide JobsOk, OneEach, Fresh;
    var t := By(s, a).value;
    ActorOk(s, o, a);
    assert HoldsMu(s.pcs[t]) <==> s.mu == Some(t);
  }

  lemma GiverLetsGo(s: State, o: Owners, a: Action, v: Vm)
    requires Inv(s, o) && Enabled(s, a) && GivesUp(s, a, v) && Claims(s, o, By(s, a).value, v)
    ensures var s' := Apply(s, a);
            At(s', By(s, a).value) && !Carries(s'.pcs[By(s, a).value], v) && s'.ext.vm != Some(v) && v !in s'.ext.pool
  {
    hide MuOk, JobsOk, OneEach;
    ActorOk(s, o, a);
    assert v in o && v < s.next;
    assert a.Cleaned? ==> s.pcs[a.t].vms[0] in s.pcs[a.t].vms;
  }

  lemma GivenUp(s: State, o: Owners, a: Action, v: Vm)
    requires Inv(s, o) && Enabled(s, a) && GivesUp(s, a, v)
    ensures !InUse(Apply(s, a), v)
  {
    hide Inv, Enabled, Apply, GivesUp, By, Carries;
    GiverClaims(s, o, a, v);
    GiverLetsGo(s, o, a, v);
    SamePcs(s, a);
    forall u: Thread | At(s, u) && By(s, a) != Some(u) ensures !Carries(Apply(s, a).pcs[u], v) {
      OtherPc(s, a, u);
      if Carries(s.pcs[u], v) {
        CarriersClaim(s, o, u, v);
      }
    }
  }

  lemma InUseStep(s: State, o: Owners, a: Action, v: Vm)
    requires Inv(s, o) && CallsOk(s) && Enabled(s, a) && InUse(s, v)
    ensures InUse(Apply(s, a), v) <==> !GivesUp(s, a, v)
  {
    hide Inv, CallsOk, Enabled, Apply, GivesUp, By, Carries;
    if GivesUp(s, a, v) {
      GivenUp(s, o, a, v);
    } else if s.ext.vm == Some(v) {
      SharedKeeps(s, o, a, v);
    } else if v in s.ext.pool {
      PooledKeeps(s, o, a, v);
    } else {
      var t: Thread :| At(s, t) && Carries(s.pcs[t], v);
      if By(s, a) == Some(t) {
        ActorKeeps(s, o, a, v);
      } else {
        StillCarried(s, a, v, t);
      }
    }
  }

  /** Conservation, at every step of such a run: a VM in use stays the extension's, in the pool or some thread's,
      exactly unless its cleanup script has run, a grace period ran out on it, it is replaced for want of
      a runtime, or building it failed. No other VM is dropped, and none of these stays. */
  lemma InUseUnless(threads: nat, enabled: bool, acts: seq<Action>, s: State, a: Action, v: Vm)
    requires IsRun(Init(threads, enabled), acts, s) && IsHarmless(Init(threads, enabled), acts)
    requires Enabled(s, a) && InUse(s, v)
    ensures InUse(Apply(s, a), v) <==> !GivesUp(s, a, v)
  {
    hide IsRun, IsHarmless, Inv, CallsOk, Enabled, Apply, GivesUp, InUse;
    InitOk(threads, enabled);
    ghost var o := RunKeeps(Init(threads, enabled), map[], acts, s);
    RunCalls(Init(threads, enabled), map[], acts, s);
    InUseStep(s, o, a, v);
  }

  // ----- how calls on isolated VMs end -----

  lemma StepsCons(s: State, a: Action, acts: seq<Action>)
    requires Enabled(s, a)
    ensures Steps(s, [a] + acts) == Steps(Apply(s, a), acts)
  {
    hide Enabled, Apply;
    assert ([a] + acts)[1..] == acts;
  }

  /** The run exists and leaves the thread there. */
  predicate Leaves(r: Option<State>, t: Thread, pc: Pc) {
    r.Some? && At(r.value, t) && r.value.pcs[t] == pc
  }

  /** A call on an isolated VM whose goroutine has ended. */
  predicate Over(s: State, t: Thread) {
    && At(s, t) && s.pcs[t].Waiting? && s.pcs[t].mode.Isolated?
    && s.pcs[t].job < |s.jobs| && s.jobs[s.pcs[t].job].status.Ended?
  }

  /** The VM of a call that succeeds goes to the pool, not interrupted, if the extension is enabled and no
      VM is idle. */
  lemma SucceededVmIsPooled(s: State, t: Thread)
    requires Over(s, t) && s.ext.enabled && s.ext.pool == []
    ensures var end := Steps(s, [Receive(t, false)] + ([Clear(t)] + ([Finish(t)] + ([Release(t)] + ([Pool(t)] + [])))));
            Leaves(end, t, Idle) && end.value.ext.pool == [s.pcs[t].vm] && s.pcs[t].vm !in end.value.flags
  {
    OverThenUsed(s, t);
    hide Steps, Enabled, Apply;
    var s1 := Apply(s, Receive(t, false));
    StepsCons(s1, Clear(t), [Finish(t)] + ([Release(t)] + ([Pool(t)] + [])));
    StepsCons(s, Receive(t, false), [Clear(t)] + ([Finish(t)] + ([Release(t)] + ([Pool(t)] + []))));
    UsedVmIsPooled(Apply(s1, Clear(t)), t);
  }

  lemma OverThenUsed(s: State, t: Thread)
    requires Over(s, t)
    ensures Enabled(s, Receive(t, false))
    ensures var s1 := Apply(s, Receive(t, false));
            && Enabled(s1, Clear(t))
            && var s2 := Apply(s1, Clear(t));
               At(s2, t) && s2.pcs[t] == Using(Isolated, s.pcs[t].vm) && s2.ext == s.ext && s.pcs[t].vm !in s2.flags
  {
    var s1 := Apply(s, Receive(t, false));
    assert s1.pcs[t] == Returned(Isolated, s.pcs[t].vm, false) && s1.ext == s.ext;
  }

  lemma UsedVmIsPooled(s: State, t: Thread)
    requires At(s, t) && s.pcs[t].Using? && s.pcs[t].mode.Isolated? && s.ext.enabled && s.ext.pool == []
    ensures var end := Steps(s, [Finish(t)] + ([Release(t)] + ([Pool(t)] + [])));
            Leaves(end, t, Idle) && end.value.ext.pool == [s.pcs[t].vm] && end.value.flags == s.flags
  {
    var v := s.pcs[t].vm;
    var s1 := Apply(s, Finish(t));
    var s2 := Apply(s1, Release(t));
    var s3 := Apply(s2, Pool(t));
    assert s2.pcs[t] == Pooling(v) && s3.ext.pool == [v] && s3.pcs[t] == Idle;
    assert Steps(s3, []) == Some(s3);
    hide Steps;
    StepsCons(s2, Pool(t), []);
    StepsCons(s1, Release(t), [Pool(t)] + []);
    StepsCons(s, Finish(t), [Release(t)] + ([Pool(t)] + []));
  }

  /** A call that finds a pooled VM takes one from there, and no VM is built. */
  lemma PooledVmIsReused(s: State, t: Thread)
    requires Enabled(s, Acquire(t)) && s.ext.pool != []
    ensures var end := Apply(s, Acquire(t));
            && end.pcs[t].Ready? && end.pcs[t].mode == Isolated && end.next == s.next
            && s.ext.pool == end.ext.pool + [end.pcs[t].vm]
  {
  }

  /** The VM of a call that fails, interrupted or not, is cleaned up and not pooled. */
  lemma FailedVmIsCleaned(s: State, t: Thread)
    requires Over(s, t)
    ensures var v := s.pcs[t].vm;
            var inTime := Steps(s, [Receive(t, true)] + ([Clear(t)] + ([Release(t)] + [])));
            var late := Steps(s, [Timeout(t)] + ([Receive(t, true)] + ([Clear(t)] + ([Release(t)] + []))));
            && Leaves(inTime, t, Cleaning([v], false)) && v !in inTime.value.flags && inTime.value.ext == s.ext
            && Leaves(late, t, Cleaning([v], false)) && v !in late.value.flags && late.value.ext == s.ext
  {
    hide Steps, Enabled, Apply;
    OverThenLate(s, t);
    FailedFrom(s, t);
    StepsCons(s, Timeout(t), [Receive(t, true)] + ([Clear(t)] + ([Release(t)] + [])));
    FailedFrom(Apply(s, Timeout(t)), t);
  }

  lemma OverThenLate(s: State, t: Thread)
    requires Over(s, t)
    ensures Enabled(s, Receive(t, true)) && Enabled(s, Timeout(t))
    ensures var late := Apply(s, Timeout(t));
            && Enabled(late, Receive(t, true)) && late.pcs[t].mode == Isolated && late.pcs[t].vm == s.pcs[t].vm
            && late.ext == s.ext
  {
  }

  lemma FailedFrom(s: State, t: Thread)
    requires Enabled(s, Receive(t, true)) && At(s, t) && (s.pcs[t].Waiting? || s.pcs[t].Grace?)
    requires s.pcs[t].mode == Isolated
    ensures var end := Steps(s, [Receive(t, true)] + ([Clear(t)] + ([Release(t)] + [])));
            && Leaves(end, t, Cleaning([s.pcs[t].vm], false))
            && s.pcs[t].vm !in end.value.flags && end.value.ext == s.ext
  {
    FailedStates(s, t);
    hide Enabled, Apply;
    var s1 := Apply(s, Receive(t, true));
    var s2 := Apply(s1, Clear(t));
    var s3 := Apply(s2, Release(t));
    assert Steps(s3, []) == Some(s3);
    hide Steps;
    StepsCons(s2, Release(t), []);
    StepsCons(s1, Clear(t), [Release(t)] + []);
    StepsCons(s, Receive(t, true), [Clear(t)] + ([Release(t)] + []));
  }

  lemma FailedStates(s: State, t: Thread)
    requires Enabled(s, Receive(t, true)) && At(s, t) && (s.pcs[t].Waiting? || s.pcs[t].Grace?)
    requires s.pcs[t].mode == Isolated
    ensures var s1 := Apply(s, Receive(t, true));
            && Enabled(s1, Clear(t))
            && var s2 := Apply(s1, Clear(t));
               && Enabled(s2, Release(t))
               && var s3 := Apply(s2, Release(t));
                  && At(s3, t) && s3.pcs[t] == Cleaning([s.pcs[t].vm], false) && s.pcs[t].vm !in s3.flags
                  && s3.ext == s.ext
  {
    var s1 := Apply(s, Receive(t, true));
    assert s1.pcs[t] == Returned(Isolated, s.pcs[t].vm, true) && s1.ext == s.ext;
    var s2 := Apply(s1, Clear(t));
    assert s2.pcs[t] == Releasing(s.pcs[t].vm, false, true) && s2.ext == s.ext && s.pcs[t].vm !in s2.flags;
  }

  /** A call whose time is up fails, however its script ends. */
  lemma LateCallFails(s: State, a: Action, t: Thread)
    requires Enabled(s, a) && By(s, a) == Some(t) && s.pcs[t].Grace?
    ensures var pc := Apply(s, a).pcs[t];
            (pc.Stuck? || (pc.Returned? && pc.failed)) && pc.vm == s.pcs[t].vm
  {
  }

  /** A VM is not pooled either when no script ran in it to its end, or the extension is disabled by then. */
  lemma OtherVmIsCleaned(s: State, t: Thread)
    requires At(s, t) && (s.pcs[t].Ready? || s.pcs[t].Using?) && s.pcs[t].mode.Isolated?
    ensures Enabled(s, Finish(t)) && Enabled(Apply(s, Finish(t)), Release(t))
    ensures var end := Apply(Apply(s, Finish(t)), Release(t));
            && At(end, t)
            && end.pcs[t] == if s.pcs[t].Using? && s.ext.enabled then Pooling(s.pcs[t].vm)
                             else Cleaning([s.pcs[t].vm], false)
  {
    var s1 := Apply(s, Finish(t));
    assert s1.pcs[t] == Releasing(s.pcs[t].vm, s.pcs[t].Using?, true) && s1.ext == s.ext;
  }

  /** The shared VM is handed out only with a runtime: after a build exactly if its script compiled. */
  lemma GivenIffCompiled(s: State, a: Action)
    requires Enabled(s, a) && a.Build?
    ensures Enabled(Apply(s, a), Give(a.t)) <==> a.ok && a.compiled
  {
  }

  /** What switches the extension off and on. */
  lemma DisabledIff(s: State, a: Action)
    requires Enabled(s, a)
    ensures s.ext.enabled ==>
              (!Apply(s, a).ext.enabled
               <==> a.Fail? || a.TearDown? || a.LockTearDown? || (a.Build? && !a.ok) || a == SetEnabled(false))
    ensures !s.ext.enabled ==> (Apply(s, a).ext.enabled <==> a == SetEnabled(true))
  {
  }
}
