/** The encoder slot pool of a worker: CPU and GPU slots handed out under limits that
    change at run time. `Pool` is the state guarded by the mutex of the source, and each
    critical section is one function on it; `EncodeConcurrency` is the object that the
    source updates in place. */
module EncoderPool {

  const MAX_INT: int := 0x7fff_ffff_ffff_ffff

  datatype Kind = Cpu | Gpu
  {
    function Other(): Kind {
      if Cpu? then Gpu else Cpu
    }
  }

  /** The encoder class that an accepted or restored job is bound to, if any. */
  datatype Pin = Unpinned | Pinned(kind: Kind)

  function SafeSum(cpu: int, gpu: int): int {
    if cpu > MAX_INT - gpu then MAX_INT else cpu + gpu
  }

  datatype Pool = Pool(
    primary: Kind, independent: bool, paused: bool, target: int,
    cpuJobs: int, gpuJobs: int, cpuTarget: int, gpuTarget: int,
    lastCpuJobs: int, lastGpuJobs: int,
    active: int, cpuActive: int, gpuActive: int)
  {
    function Active(k: Kind): int {
      if k.Cpu? then cpuActive else gpuActive
    }

    function Target(k: Kind): int {
      if k.Cpu? then cpuTarget else gpuTarget
    }

    function Desired(k: Kind): int {
      if k.Cpu? then cpuJobs else gpuJobs
    }

    function WithTarget(k: Kind, t: int): Pool {
      if k.Cpu? then this.(cpuTarget := t) else this.(gpuTarget := t)
    }

    function WithActive(k: Kind, n: int): Pool {
      if k.Cpu? then this.(cpuActive := n) else this.(gpuActive := n)
    }

    /** What every history of operations keeps. */
    ghost predicate Valid() {
      && 0 <= cpuActive && 0 <= gpuActive && active == cpuActive + gpuActive
      && 0 <= cpuJobs && 0 <= gpuJobs && 0 <= lastCpuJobs && 0 <= lastGpuJobs
      && 1 <= target && 0 <= cpuTarget && 0 <= gpuTarget
      && 1 <= Target(primary)
      && (cpuTarget == 0 ==> cpuActive == 0 && cpuJobs == 0)
      && (gpuTarget == 0 ==> gpuActive == 0 && gpuJobs == 0)
    }

    /** True when unassigned work may take a slot of class `k` now. */
    predicate Open(k: Kind) {
      && (independent && cpuJobs + gpuJobs > 0 ==> Desired(k) != 0)
      && Active(k) < Target(k)
    }

    /** True when a job with this pin may start now; pinned work may use a class that
        has no target yet, at a target of one. */
    predicate CanStart(pin: Pin) {
      && !paused
      && (independent || active < target)
      && match pin
         case Pinned(k) => Target(k) == 0 || Active(k) < Target(k)
         case Unpinned => Open(primary) || (independent && Open(primary.Other()))
    }

    function Choice(pin: Pin): Kind {
      match pin
      case Pinned(k) => k
      case Unpinned => if Open(primary) then primary else primary.Other()
    }

    /** The state after a job took a slot of class `k`. */
    function Start(k: Kind): Pool {
      WithTarget(k, if Target(k) == 0 then 1 else Target(k)).WithActive(k, Active(k) + 1).(active := active + 1)
    }

    function Finish(k: Kind): Pool {
      WithActive(k, if Active(k) > 0 then Active(k) - 1 else Active(k))
      .(active := if active > 0 then active - 1 else active)
    }

    function SetTarget(t: int): Pool {
      if t < 1 then this
      else if primary.Cpu? then
        this.(target := t, independent := false, cpuJobs := t, gpuJobs := 0, cpuTarget := t,
              lastCpuJobs := t, lastGpuJobs := 0)
      else
        this.(target := t, independent := false, cpuJobs := 0, gpuJobs := t, gpuTarget := t,
              lastCpuJobs := 0, lastGpuJobs := t)
    }

    function SetLimits(cpu: int, gpu: int): Pool {
      var cpuT := if cpu > 0 then cpu else cpuTarget;
      var gpuT := if gpu > 0 then gpu else gpuTarget;
      if cpu + gpu > 0 then
        this.(independent := true, cpuJobs := cpu, gpuJobs := gpu, cpuTarget := cpuT, gpuTarget := gpuT,
              target := cpu + gpu, lastCpuJobs := cpu, lastGpuJobs := gpu)
      else
        this.(independent := true, cpuJobs := cpu, gpuJobs := gpu, target := SafeSum(cpuT, gpuT))
    }

    function Pause(): Pool {
      this.(cpuJobs := 0, gpuJobs := 0)
    }

    function SetPrimary(k: Kind): Pool {
      if k.Gpu? then this.(primary := k)
      else this.(primary := k, cpuJobs := target, cpuTarget := target, gpuJobs := 0, gpuTarget := 0,
                 lastCpuJobs := target, lastGpuJobs := 0)
    }

    /** The single class that newly admitted work is bound to; none when both are in use. */
    function AdmissionKind(): Pin {
      var (cpu, gpu) := if cpuJobs + gpuJobs == 0 then (lastCpuJobs, lastGpuJobs) else (cpuJobs, gpuJobs);
      if cpu > 0 && gpu == 0 then Pinned(Cpu)
      else if gpu > 0 && cpu == 0 then Pinned(Gpu)
      else Unpinned
    }
  }

  /** The operations that other goroutines perform on the pool while the queue runs. */
  datatype Adjustment =
    | OpSetTarget(t: int)
    | OpSetLimits(cpu: nat, gpu: nat)
    | OpPause
    | OpSetPaused(paused: bool)
  {
    function Apply(p: Pool): Pool {
      match this
      case OpSetTarget(t) => p.SetTarget(t)
      case OpSetLimits(cpu, gpu) => p.SetLimits(cpu, gpu)
      case OpPause => p.Pause()
      case OpSetPaused(b) => p.(paused := b)
    }
  }

  /** The caller of the limit pair has already refused a sum outside the integer range. */
  predicate Accepted(op: Adjustment) {
    op.OpSetLimits? ==> op.cpu + op.gpu <= MAX_INT
  }

  lemma OpKeepsValid(p: Pool, op: Adjustment)
    requires p.Valid() && Accepted(op)
    ensures op.Apply(p).Valid()
    ensures forall k: Kind :: op.Apply(p).Active(k) == p.Active(k)
  {
  }

  lemma StartKeepsValid(p: Pool, pin: Pin)
    requires p.Valid() && p.CanStart(pin)
    ensures p.Start(p.Choice(pin)).Valid()
  {
  }

  lemma FinishKeepsValid(p: Pool, k: Kind)
    requires p.Valid() && p.Active(k) > 0
    ensures p.Finish(k).Valid()
  {
  }

  /** A slot is only handed out inside the targets: the class ends within its target, the
      whole pool within its total when the classes share it, and no other class moves. */
  lemma StartStaysWithinTargets(p: Pool, pin: Pin)
    requires p.Valid() && p.CanStart(pin)
    ensures var k := p.Choice(pin); var q := p.Start(k);
            && q.Active(k) == p.Active(k) + 1 <= q.Target(k)
            && q.Active(k.Other()) == p.Active(k.Other())
            && q.active == p.active + 1
            && (!p.independent ==> q.active <= q.target)
            && (pin.Pinned? ==> k == pin.kind)
            && (p.independent && pin.Unpinned? && p.cpuJobs + p.gpuJobs > 0 ==> p.Desired(k) > 0)
  {
  }

  /** Which unassigned work starts, in terms of limits and counters alone. With independent
      limits it starts exactly when some class that new work may use has a free slot, whatever
      else runs; with a shared limit exactly when the total and the primary class both have
      one. The primary class is taken whenever it can be. */
  lemma UnassignedStartsWhereThereIsRoom(p: Pool)
    requires p.Valid() && !p.paused
    ensures var cpuFree := (p.cpuJobs > 0 || p.gpuJobs == 0) && p.cpuActive < p.cpuTarget;
            var gpuFree := (p.gpuJobs > 0 || p.cpuJobs == 0) && p.gpuActive < p.gpuTarget;
            p.independent ==>
              && (p.CanStart(Unpinned) <==> cpuFree || gpuFree)
              && (cpuFree && (p.primary.Cpu? || !gpuFree) ==> p.Choice(Unpinned) == Cpu)
              && (gpuFree && (p.primary.Gpu? || !cpuFree) ==> p.Choice(Unpinned) == Gpu)
    ensures !p.independent && p.primary.Cpu? ==>
              && (p.CanStart(Unpinned) <==> p.cpuActive + p.gpuActive < p.target && p.cpuActive < p.cpuTarget)
              && (p.CanStart(Unpinned) ==> p.Choice(Unpinned) == Cpu)
    ensures !p.independent && p.primary.Gpu? ==>
              && (p.CanStart(Unpinned) <==> p.cpuActive + p.gpuActive < p.target && p.gpuActive < p.gpuTarget)
              && (p.CanStart(Unpinned) ==> p.Choice(Unpinned) == Gpu)
  {
    assert p.Open(Cpu) <==>
           (p.independent && p.cpuJobs + p.gpuJobs > 0 ==> p.cpuJobs != 0) && p.cpuActive < p.cpuTarget;
  }

  /** Accepted or restored work starts in the class it is bound to, also when new work may no
      longer use that class, and one at a time when the class never had a limit. */
  lemma BoundStartsInItsClass(p: Pool, k: Kind)
    requires p.Valid()
    ensures p.CanStart(Pinned(Cpu)) <==>
              && !p.paused && (p.independent || p.cpuActive + p.gpuActive < p.target)
              && (p.cpuTarget == 0 || p.cpuActive < p.cpuTarget)
    ensures p.CanStart(Pinned(Gpu)) <==>
              && !p.paused && (p.independent || p.cpuActive + p.gpuActive < p.target)
              && (p.gpuTarget == 0 || p.gpuActive < p.gpuTarget)
    ensures p.Choice(Pinned(k)) == k
    ensures p.CanStart(Pinned(k)) && p.Target(k) == 0 ==> !p.Start(k).CanStart(Pinned(k))
    ensures p.paused ==> !p.CanStart(Unpinned)
  {
  }

  /** Starting one job never makes room for another: a job that could not start before
      still cannot. The queue's single left-to-right scan relies on this. */
  lemma RefusedStaysRefused(p: Pool, started: Pin, refused: Pin)
    requires p.Valid() && p.CanStart(started) && !p.CanStart(refused)
    ensures !p.Start(p.Choice(started)).CanStart(refused)
  {
    var k := p.Choice(started);
    var q := p.Start(k);
    assert q.primary == p.primary && q.independent == p.independent && q.Desired(Cpu) == p.Desired(Cpu);
    assert forall c: Kind :: q.Open(c) ==> p.Open(c);
  }

  /** An idle pool that is not paused refuses nobody, pinned or not, whatever limits it
      went through: zero limits and a class without a target leave no job stranded. */
  lemma IdlePoolStartsAnyJob(p: Pool, pin: Pin)
    requires p.Valid() && !p.paused && p.active == 0
    ensures p.CanStart(pin)
  {
    assert p.Active(p.primary) == 0 && p.Active(p.primary.Other()) == 0;
    assert p.Target(p.primary.Other()) == 0 ==> p.Desired(p.primary.Other()) == 0;
  }

  /** A class above a lowered target only shrinks: nothing but a finish changes its
      activity until it is below the target again. */
  lemma AboveTargetNeverGrows(p: Pool, pin: Pin, k: Kind)
    requires p.Valid() && p.CanStart(pin) && p.Target(k) > 0 && p.Active(k) >= p.Target(k)
    ensures p.Start(p.Choice(pin)).Active(k) == p.Active(k)
  {
  }

  /** New work is bound to a class exactly when the other class has no limit in force;
      a stop to zero keeps the binding of the last positive limits. */
  lemma AdmissionFollowsLastPositiveLimits(p: Pool, cpu: nat, gpu: nat)
    requires p.Valid() && 0 < cpu + gpu <= MAX_INT
    ensures var bound := if gpu == 0 then Pinned(Cpu) else if cpu == 0 then Pinned(Gpu) else Unpinned;
            var q := p.SetLimits(cpu, gpu);
            && q.AdmissionKind() == q.Pause().AdmissionKind() == q.SetLimits(0, 0).AdmissionKind() == bound
    ensures var q := p.SetTarget(cpu + gpu);
            q.AdmissionKind() == q.Pause().AdmissionKind() == Pinned(p.primary)
  {
  }

  /** Independent limits: a positive one becomes the target of its class, a zero one leaves the
      last target for work that is bound to the class already. The total is the limits' sum,
      or that of the targets while both are zero. */
  lemma LimitsKeepLastTargets(p: Pool, cpu: nat, gpu: nat)
    requires p.Valid() && cpu + gpu <= MAX_INT
    ensures var q := p.SetLimits(cpu, gpu);
            && q.cpuJobs == cpu && q.gpuJobs == gpu && q.independent && q.paused == p.paused
            && q.cpuTarget == (if cpu == 0 then p.cpuTarget else cpu)
            && q.gpuTarget == (if gpu == 0 then p.gpuTarget else gpu)
            && q.target == if cpu > 0 || gpu > 0 then cpu + gpu
                           else if p.cpuTarget + p.gpuTarget > MAX_INT then MAX_INT else p.cpuTarget + p.gpuTarget
    ensures cpu + gpu > 0 ==> p.SetLimits(cpu, gpu).SetLimits(0, 0).SetLimits(cpu, gpu) == p.SetLimits(cpu, gpu)
  {
  }

  /** The object of the source. `changed` is true while the one-token wakeup channel holds its token. */
  class EncodeConcurrency {
    var active: int
    var target: int
    var changed: bool
    var primary: Kind
    var independent: bool
    var cpuJobs: int
    var gpuJobs: int
    var cpuActive: int
    var gpuActive: int
    var cpuTarget: int
    var gpuTarget: int
    var lastCpuJobs: int
    var lastGpuJobs: int
    var paused: bool

    ghost function View(): Pool
      reads this
    {
      Pool(primary, independent, paused, target, cpuJobs, gpuJobs, cpuTarget, gpuTarget,
           lastCpuJobs, lastGpuJobs, active, cpuActive, gpuActive)
    }

    ghost predicate Valid()
      reads this
    {
      View().Valid()
    }

    constructor (target: int)
      ensures Valid() && primary == Gpu && !independent && !paused && !changed && active == 0
      ensures this.target == gpuTarget == gpuJobs == lastGpuJobs && cpuTarget == cpuJobs == lastCpuJobs == 0
      ensures this.target == if target < 1 then 1 else target
    {
      var t := if target < 1 then 1 else target;
      this.target, primary, independent, paused, changed := t, Gpu, false, false, false;
      cpuJobs, gpuJobs, cpuTarget, gpuTarget, lastCpuJobs, lastGpuJobs := 0, t, 0, t, 0, t;
      active, cpuActive, gpuActive := 0, 0, 0;
    }

    method Notify()
      modifies this`changed
      ensures changed
    {
      changed := true;
    }

    method SetTarget(target: int)
      requires Valid()
      modifies this
      ensures Valid() && View() == old(View()).SetTarget(target)
      ensures changed == (old(changed) || target >= 1)
    {
      if target < 1 {
        return;
      }
      this.target := target;
      independent := false;
      cpuJobs, gpuJobs := 0, 0;
      if primary == Cpu {
        cpuJobs, cpuTarget := target, target;
      } else {
        gpuJobs, gpuTarget := target, target;
      }
      lastCpuJobs, lastGpuJobs := cpuJobs, gpuJobs;
      Notify();
    }

    /** Called once, before any work starts. */
    method SetPrimary(kind: Kind)
      requires Valid() && active == 0 && (kind.Gpu? ==> gpuTarget > 0)
      modifies this
      ensures Valid() && View() == old(View()).SetPrimary(kind) && changed == old(changed)
    {
      primary := kind;
      if kind == Cpu {
        cpuJobs, cpuTarget := target, target;
        gpuJobs, gpuTarget := 0, 0;
        lastCpuJobs, lastGpuJobs := cpuJobs, gpuJobs;
      }
    }

    method Pause()
      requires Valid()
      modifies this
      ensures Valid() && View() == old(View()).Pause() && changed
    {
      OpKeepsValid(View(), OpPause);
      cpuJobs, gpuJobs := 0, 0;
      Notify();
    }

    method SetLimits(cpu: nat, gpu: nat)
      requires Valid() && cpu + gpu <= MAX_INT
      modifies this
      ensures Valid() && View() == old(View()).SetLimits(cpu, gpu) && changed
    {
      independent := true;
      cpuJobs, gpuJobs := cpu, gpu;
      if cpu > 0 {
        cpuTarget := cpu;
      }
      if gpu > 0 {
        gpuTarget := gpu;
      }
      if cpu + gpu > 0 {
        target := cpu + gpu;
        lastCpuJobs, lastGpuJobs := cpu, gpu;
      } else {
        target := SafeSum(cpuTarget, gpuTarget);
      }
      Notify();
    }

    method SetPaused(paused: bool)
      requires Valid()
      modifies this
      ensures Valid() && View() == old(View()).(paused := paused) && changed
    {
      OpKeepsValid(View(), OpSetPaused(paused));
      this.paused := paused;
      Notify();
    }

    /** Takes a slot of one class if it has room. */
    method TryClass(kind: Kind, restored: bool) returns (ok: bool)
      requires Valid()
      modifies this
      ensures ok == var p := old(View());
                    if restored then p.Target(kind) == 0 || p.Active(kind) < p.Target(kind) else p.Open(kind)
      ensures View() == if ok then old(View()).Start(kind) else old(View())
      ensures changed == old(changed)
    {
      var current, limit, desired := gpuActive, gpuTarget, gpuJobs;
      if kind == Cpu {
        current, limit, desired := cpuActive, cpuTarget, cpuJobs;
      }
      if independent && desired == 0 && !restored && cpuJobs + gpuJobs > 0 {
        return false;
      }
      if restored && limit == 0 {
        limit := 1;
        if kind == Cpu { cpuTarget := 1; } else { gpuTarget := 1; }
      }
      if current >= limit || limit == 0 {
        return false;
      }
      if kind == Cpu { cpuActive := cpuActive + 1; } else { gpuActive := gpuActive + 1; }
      active := active + 1;
      return true;
    }

    /** The primary class first, and with independent limits the other one after it. */
    method TryUnassigned() returns (kind: Kind, ok: bool)
      requires Valid() && !paused && (independent || active < target)
      modifies this
      ensures changed == old(changed)
      ensures ok == old(View()).CanStart(Unpinned)
      ensures ok ==> kind == old(View()).Choice(Unpinned)
      ensures View() == if ok then old(View()).Start(kind) else old(View())
    {
      kind := primary;
      ok := TryClass(primary, false);
      if !ok && independent {
        kind := primary.Other();
        ok := TryClass(kind, false);
      }
    }

    /** A refusal changes nothing. Unassigned work is refused only when no class that it may
        use has a free slot, bound work only when its class has none. */
    method TryStartEncoder(pinned: Pin) returns (kind: Kind, ok: bool)
      requires Valid()
      modifies this
      ensures Valid() && changed == old(changed)
      ensures ok == old(View()).CanStart(pinned)
      ensures ok ==> kind == old(View()).Choice(pinned)
      ensures !old(paused) && old(independent) && pinned.Unpinned? ==>
                (ok <==> old((cpuJobs > 0 || gpuJobs == 0) && cpuActive < cpuTarget)
                         || old((gpuJobs > 0 || cpuJobs == 0) && gpuActive < gpuTarget))
      ensures !old(paused) && old(independent) && pinned.Pinned? ==>
                (ok <==> if pinned.kind.Cpu? then old(cpuTarget == 0 || cpuActive < cpuTarget)
                         else old(gpuTarget == 0 || gpuActive < gpuTarget))
      ensures ok ==>
                && active == old(active) + 1 && (pinned.Pinned? ==> kind == pinned.kind)
                && (cpuActive, gpuActive) == if kind.Cpu? then (old(cpuActive) + 1, old(gpuActive))
                                             else (old(cpuActive), old(gpuActive) + 1)
      ensures View() == if ok then old(View()).Start(kind) else old(View())
    {
      BoundStartsInItsClass(View(), if pinned.Pinned? then pinned.kind else primary);
      if !paused {
        UnassignedStartsWhereThereIsRoom(View());
      }
      kind := primary;
      if paused || (!independent && active >= target) {
        return kind, false;
      }
      if pinned.Pinned? {
        kind := pinned.kind;
        ok := TryClass(kind, true);
      } else {
        kind, ok := TryUnassigned();
      }
      if ok { StartKeepsValid(old(View()), pinned); }
    }

    /** Releasing a slot that is held keeps the counters in step; the guards keep them
        non-negative otherwise. */
    method FinishEncoder(kind: Kind)
      requires Valid()
      modifies this
      ensures View() == old(View()).Finish(kind) && changed
      ensures 0 <= active && 0 <= cpuActive && 0 <= gpuActive
      ensures old(View()).Active(kind) > 0 ==> Valid()
    {
      if kind == Cpu && cpuActive > 0 {
        cpuActive := cpuActive - 1;
      }
      if kind == Gpu && gpuActive > 0 {
        gpuActive := gpuActive - 1;
      }
      if active > 0 {
        active := active - 1;
      }
      Notify();
      if old(View()).Active(kind) > 0 { FinishKeepsValid(old(View()), kind); }
    }

    method AdmissionKind() returns (pin: Pin)
      ensures pin == View().AdmissionKind()
    {
      var cpu, gpu := cpuJobs, gpuJobs;
      if cpu + gpu == 0 {
        cpu, gpu := lastCpuJobs, lastGpuJobs;
      }
      if cpu > 0 && gpu == 0 {
        return Pinned(Cpu);
      }
      if gpu > 0 && cpu == 0 {
        return Pinned(Gpu);
      }
      return Unpinned;
    }
  }
}
