/**
 Who may touch an extension's script VMs. A VM is not thread-safe, so at any time at most one
 goroutine may execute in it. Callers run a script in a goroutine of its own, interrupt it when
 its time is up, and wait a grace period for it to end; a VM whose goroutine outlives the grace
 period is quarantined.

 The model is a transition system over any number of caller threads and script goroutines of one
 extension. Each action is what a thread does in one atomic step: under VMMu (`mu`), under the
 pool's own mutex, or on values only it can reach. `lost` is history: the VMs on which a grace
 period ran out. No action reads it.
 */
module VmOwnership {
  import opened Bytes

  type Vm = nat
  type Thread = nat
  type JobId = nat
  type Wrapper = nat

  const MAX_IDLE := 1

  /** How a call reaches its VM: the shared one through a wrapper, whose closure reads the
      wrapper's vm field only when the goroutine runs; the shared one held in a local; an isolated
      one, without VMMu. */
  datatype Mode = Wrapped(w: Wrapper) | Local | Isolated

  datatype Pc =
    | Idle
    | Preparing(mode: Mode)                       // VMMu held: the shared VM is built or initialised
    | Ready(mode: Mode, vm: Vm)                   // the VM is the caller's, no script started
    | Waiting(mode: Mode, vm: Vm, job: JobId)     // the script runs in a goroutine
    | Grace(mode: Mode, vm: Vm, job: JobId)       // interrupted, waiting for the goroutine to end
    | Returned(mode: Mode, vm: Vm, failed: bool)  // the goroutine ended, the interrupt flag not yet cleared
    | Using(mode: Mode, vm: Vm)                   // the result is read in the VM
    | Stuck(mode: Mode, vm: Vm)                   // the grace period ran out
    | Wanting                                     // no idle isolated VM, waiting for VMMu to build one
    | Building(vm: Vm)                            // VMMu held: an isolated VM is built
    | Releasing(vm: Vm, healthy: bool, safe: bool)
    | Pooling(vm: Vm)                             // healthy and enabled, about to lock the pool
    | Cleaning(vms: seq<Vm>, locked: bool)        // cleanup scripts run, first VM first
    | Tearing                                     // VMMu held: the shared VM's cleanup script runs

  /** A goroutine: the VM it was started for, the wrapper its closure reads, the thread that started it. */
  datatype Job = Job(target: Vm, wrapper: Option<Wrapper>, caller: Thread, status: Status)
  datatype Status = Pending | Running(vm: Vm) | Ended

  /** The fields of the loaded extension. */
  datatype Ext = Ext(vm: Option<Vm>, hasRuntime: bool, enabled: bool, pool: seq<Vm>)

  datatype State = State(
    ext: Ext, mu: Option<Thread>, pcs: seq<Pc>, jobs: seq<Job>, wrappers: map<Wrapper, Vm>,
    flags: set<Vm>, next: Vm, lost: set<Vm>)

  function Init(threads: nat, enabled: bool): State {
    State(Ext(None, false, enabled, []), None, seq(threads, _ => Idle), [], map[], {}, 0, {})
  }

  // ----- the atomic sections on the extension's fields -----

  /** initializeVMLocked: a fresh VM, with a runtime once the index script could be read and compiled. */
  function Rebuilt(e: Ext, vm: Vm, compiled: bool): Ext {
    e.(vm := Some(vm), hasRuntime := compiled)
  }

  function Popped(e: Ext): Ext
    requires e.pool != []
  {
    e.(pool := e.pool[..|e.pool| - 1])
  }

  function Pushed(e: Ext, vm: Vm): Ext {
    if |e.pool| < MAX_IDLE then e.(pool := e.pool + [vm]) else e
  }

  function Drained(e: Ext): Ext {
    e.(pool := [])
  }

  /** quarantineRuntimeLocked: detaches the VM, if it is still the extension's. */
  function Quarantined(e: Ext, vm: Vm): Ext {
    if e.vm == Some(vm) then e.(vm := None, hasRuntime := false) else e
  }

  function TornDown(e: Ext): Ext {
    e.(vm := None, hasRuntime := false)
  }

  /** The same sections as the code has them, on the mutable record. */
  class LoadedExtension {
    var vm: Option<Vm>
    var hasRuntime: bool
    var enabled: bool
    var isolatedPool: seq<Vm>

    function Fields(): Ext
      reads this
    {
      Ext(vm, hasRuntime, enabled, isolatedPool)
    }

    constructor (enabled: bool)
      ensures Fields() == Ext(None, false, enabled, [])
    {
      this.vm, hasRuntime, isolatedPool := None, false, [];
      this.enabled := enabled;
    }

    method InitializeVm(newVm: Vm, compiled: bool)
      modifies this
      ensures Fields() == Rebuilt(old(Fields()), newVm, compiled)
    {
      vm := None;
      hasRuntime := false;
      vm := Some(newVm);
      if compiled { hasRuntime := true; }
    }

    method AcquireIdle() returns (r: Option<Vm>)
      modifies this
      ensures old(isolatedPool) == [] ==> r == None && Fields() == old(Fields())
      ensures old(isolatedPool) != [] ==>
        r == Some(old(isolatedPool)[|old(isolatedPool)| - 1]) && Fields() == Popped(old(Fields()))
    {
      var n := |isolatedPool|;
      if n > 0 {
        r := Some(isolatedPool[n - 1]);
        isolatedPool := isolatedPool[..n - 1];
      } else {
        r := None;
      }
    }

    method PoolIfRoom(v: Vm) returns (pooled: bool)
      modifies this
      ensures Fields() == Pushed(old(Fields()), v) && pooled == (|old(isolatedPool)| < MAX_IDLE)
    {
      pooled := |isolatedPool| < MAX_IDLE;
      if pooled { isolatedPool := isolatedPool + [v]; }
    }

    method TakePool() returns (pool: seq<Vm>)
      modifies this
      ensures pool == old(isolatedPool) && Fields() == Drained(old(Fields()))
    {
      pool := isolatedPool;
      isolatedPool := [];
    }

    method Quarantine(v: Vm)
      modifies this
      ensures Fields() == Quarantined(old(Fields()), v)
    {
      if vm != Some(v) { return; }
      vm := None;
      hasRuntime := false;
    }

    method DropVm()
      modifies this
      ensures Fields() == TornDown(old(Fields()))
    {
      hasRuntime := false;
      vm := None;
    }
  }

  // ----- actions -----

  datatype Action =
    | Lock(t: Thread, mode: Mode)
    | Build(t: Thread, compiled: bool, ok: bool)
    | Give(t: Thread)
    | Fail(t: Thread)
    | TearDown(t: Thread)
    | LockTearDown(t: Thread)
    | Acquire(t: Thread)
    | LockBuild(t: Thread)
    | Built(t: Thread, ok: bool)
    | Run(t: Thread)
    | Start(j: JobId)
    | End(j: JobId)
    | Receive(t: Thread, failed: bool)
    | Timeout(t: Thread)
    | Expire(t: Thread)
    | Clear(t: Thread)
    | Quarantine(t: Thread)
    | Finish(t: Thread)
    | Release(t: Thread)
    | Pool(t: Thread)
    | Drain(t: Thread)
    | Cleaned(t: Thread)
    | TornAll(t: Thread)
    | SetEnabled(on: bool)

  predicate At(s: State, t: Thread) {
    t < |s.pcs|
  }

  /** The VM a goroutine enters when it starts: a wrapper's closure reads the wrapper's field now. */
  function Entered(s: State, j: JobId): Vm
    requires j < |s.jobs|
  {
    var job := s.jobs[j];
    if job.wrapper.Some? && job.wrapper.value in s.wrappers then s.wrappers[job.wrapper.value] else job.target
  }

  predicate NeedsBuild(e: Ext) {
    e.vm.None? || !e.hasRuntime
  }

  predicate Enabled(s: State, a: Action) {
    match a
    case Lock(t, mode) => At(s, t) && s.pcs[t].Idle? && s.mu.None? && !mode.Isolated?
    case Build(t, _, _) => At(s, t) && s.pcs[t].Preparing? && NeedsBuild(s.ext)
    case Give(t) => At(s, t) && s.pcs[t].Preparing? && !NeedsBuild(s.ext)
    case Fail(t) => At(s, t) && s.pcs[t].Preparing?
    case TearDown(t) => At(s, t) && s.pcs[t].Preparing?
    case LockTearDown(t) => At(s, t) && s.pcs[t].Idle? && s.mu.None?
    case Acquire(t) => At(s, t) && s.pcs[t].Idle?
    case LockBuild(t) => At(s, t) && s.pcs[t].Wanting? && s.mu.None?
    case Built(t, _) => At(s, t) && s.pcs[t].Building?
    case Run(t) => At(s, t) && s.pcs[t].Ready?
    case Start(j) => j < |s.jobs| && s.jobs[j].status.Pending?
    case End(j) => j < |s.jobs| && s.jobs[j].status.Running?
    case Receive(t, failed) =>
      && At(s, t) && (s.pcs[t].Waiting? || (s.pcs[t].Grace? && failed))
      && s.pcs[t].job < |s.jobs| && s.jobs[s.pcs[t].job].status.Ended?
    case Timeout(t) => At(s, t) && s.pcs[t].Waiting?
    case Expire(t) => At(s, t) && s.pcs[t].Grace?
    case Clear(t) => At(s, t) && s.pcs[t].Returned?
    case Quarantine(t) => At(s, t) && s.pcs[t].Stuck?
    case Finish(t) => At(s, t) && (s.pcs[t].Using? || s.pcs[t].Ready?)
    case Release(t) => At(s, t) && s.pcs[t].Releasing?
    case Pool(t) => At(s, t) && s.pcs[t].Pooling?
    case Drain(t) => At(s, t) && s.pcs[t].Idle?
    case Cleaned(t) => At(s, t) && s.pcs[t].Cleaning?
    case TornAll(t) => At(s, t) && s.pcs[t].Tearing?
    case SetEnabled(_) => true
  }

  function Go(s: State, t: Thread, pc: Pc): State
    requires At(s, t)
  {
    s.(pcs := s.pcs[t := pc])
  }

  /** A call on the shared VM ends by unlocking VMMu, one on an isolated VM by releasing the VM. */
  function Done(s: State, t: Thread, mode: Mode, vm: Vm, healthy: bool, safe: bool): State
    requires At(s, t)
  {
    if mode.Isolated? then Go(s, t, Releasing(vm, healthy, safe)) else Go(s.(mu := None), t, Idle)
  }

  function Apply(s: State, a: Action): State
    requires Enabled(s, a)
  {
    match a
    case Lock(t, mode) => Go(s.(mu := Some(t)), t, Preparing(mode))
    case Build(t, compiled, ok) =>
      var b := s.(ext := Rebuilt(s.ext, s.next, compiled), next := s.next + 1);
      if ok then b else Go(b.(mu := None, ext := b.ext.(enabled := false)), t, Idle)
    case Give(t) =>
      var mode, vm := s.pcs[t].mode, s.ext.vm.value;
      Go(if mode.Wrapped? then s.(wrappers := s.wrappers[mode.w := vm]) else s, t, Ready(mode, vm))
    case Fail(t) => Go(s.(mu := None, ext := s.ext.(enabled := false)), t, Idle)
    case TearDown(t) => Go(s.(ext := Drained(s.ext.(enabled := false))), t, Cleaning(s.ext.pool, true))
    case LockTearDown(t) =>
      Go(s.(mu := Some(t), ext := Drained(s.ext.(enabled := false))), t, Cleaning(s.ext.pool, true))
    case Acquire(t) =>
      if s.ext.pool == [] then Go(s, t, Wanting)
      else Go(s.(ext := Popped(s.ext)), t, Ready(Isolated, s.ext.pool[|s.ext.pool| - 1]))
    case LockBuild(t) => Go(s.(mu := Some(t), next := s.next + 1), t, Building(s.next))
    case Built(t, ok) => Go(s.(mu := None), t, if ok then Ready(Isolated, s.pcs[t].vm) else Idle)
    case Run(t) =>
      var mode, vm := s.pcs[t].mode, s.pcs[t].vm;
      Go(s.(jobs := s.jobs + [Job(vm, if mode.Wrapped? then Some(mode.w) else None, t, Pending)]),
         t, Waiting(mode, vm, |s.jobs|))
    case Start(j) => s.(jobs := s.jobs[j := s.jobs[j].(status := Running(Entered(s, j)))])
    case End(j) => s.(jobs := s.jobs[j := s.jobs[j].(status := Ended)])
    case Receive(t, failed) => Go(s, t, Returned(s.pcs[t].mode, s.pcs[t].vm, failed))
    case Timeout(t) => Go(s.(flags := s.flags + {s.pcs[t].vm}), t, Grace(s.pcs[t].mode, s.pcs[t].vm, s.pcs[t].job))
    case Expire(t) => Go(s.(lost := s.lost + {s.pcs[t].vm}), t, Stuck(s.pcs[t].mode, s.pcs[t].vm))
    case Clear(t) =>
      var mode, vm, c := s.pcs[t].mode, s.pcs[t].vm, s.(flags := s.flags - {s.pcs[t].vm});
      if s.pcs[t].failed then Done(c, t, mode, vm, false, true) else Go(c, t, Using(mode, vm))
    case Quarantine(t) =>
      var mode, vm := s.pcs[t].mode, s.pcs[t].vm;
      if mode.Isolated? then Go(s, t, Releasing(vm, false, false))
      else Done(s.(ext := Quarantined(s.ext, vm)), t, mode, vm, false, false)
    case Finish(t) => Done(s, t, s.pcs[t].mode, s.pcs[t].vm, s.pcs[t].Using?, true)
    case Release(t) =>
      var vm := s.pcs[t].vm;
      if s.pcs[t].healthy && s.ext.enabled then Go(s, t, Pooling(vm))
      else Go(s, t, if s.pcs[t].safe then Cleaning([vm], false) else Idle)
    case Pool(t) =>
      Go(s.(ext := Pushed(s.ext, s.pcs[t].vm)), t,
         if |s.ext.pool| < MAX_IDLE then Idle else Cleaning([s.pcs[t].vm], false))
    case Drain(t) => Go(s.(ext := Drained(s.ext)), t, Cleaning(s.ext.pool, false))
    case Cleaned(t) =>
      var vms, locked := s.pcs[t].vms, s.pcs[t].locked;
      Go(s, t, if vms != [] then Cleaning(vms[1..], locked) else if locked then Tearing else Idle)
    case TornAll(t) => Go(s.(mu := None, ext := TornDown(s.ext)), t, Idle)
    case SetEnabled(on) => s.(ext := s.ext.(enabled := on))
  }

  // ----- what is safe -----

  datatype Actor = Caller(t: Thread) | Goroutine(j: JobId)

  /** The VM a thread executes in itself, outside of any script goroutine. */
  function Inline(s: State, pc: Pc): Option<Vm> {
    match pc
    case Preparing(_) => s.ext.vm
    case Ready(_, vm) => Some(vm)
    case Using(_, vm) => Some(vm)
    case Building(vm) => Some(vm)
    case Cleaning(vms, _) => if vms == [] then None else Some(vms[0])
    case Tearing => s.ext.vm
    case _ => None
  }

  predicate Executes(s: State, a: Actor, vm: Vm) {
    match a
    case Caller(t) => At(s, t) && Inline(s, s.pcs[t]) == Some(vm)
    case Goroutine(j) => j < |s.jobs| && s.jobs[j].status == Running(vm)
  }

  /** No VM is executed by two goroutines at once. */
  ghost predicate Exclusive(s: State) {
    forall a, b, vm :: Executes(s, a, vm) && Executes(s, b, vm) ==> a == b
  }

  /** A VM whose goroutine outlived its grace period is out of reach: no thread executes in it, it
      is not in the pool, and it is the extension's VM only until the thread that holds VMMu has
      quarantined it. */
  ghost predicate LostIsLeft(s: State) {
    forall vm <- s.lost ::
      && (forall t :: At(s, t) ==> !Executes(s, Caller(t), vm))
      && vm !in s.ext.pool
      && (s.ext.vm == Some(vm) ==> s.mu.Some? && At(s, s.mu.value) && s.pcs[s.mu.value].Stuck?)
  }

  /** VMs nobody is using have no interrupt pending. */
  ghost predicate IdleIsClear(s: State) {
    && (s.mu.None? && s.ext.vm.Some? ==> s.ext.vm.value !in s.flags)
    && (forall vm <- s.ext.pool :: vm !in s.flags)
  }
}
