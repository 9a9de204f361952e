/** Admission control of a worker: the flags of `JobExecutor`, the encoder pool and the
    process controller that they govern, and every operation that changes them. Each
    operation runs under one mutex. */
module Executor {
  import opened EncoderPool
  import PC = PauseControl

  datatype Mode = Finish | Ram

  datatype Admission = Admission(
    held: bool, finishing: bool, pending: bool, ramPaused: bool, mode: Mode,
    maxActive: int, reserved: int, active: int)

  datatype Worker = Worker(a: Admission, pool: Pool, controller: PC.Controller)
  {
    /** What every operation keeps, whether it succeeds or fails: both pause flags follow
        from the admission fields. */
    ghost predicate Consistent() {
      && controller.paused == ((a.ramPaused || (a.maxActive == 0 && a.mode.Ram?)) && !a.held && !a.finishing)
      && pool.paused == ((a.maxActive == 0 || a.ramPaused || a.pending) && !a.held && !a.finishing)
      && (a.finishing ==> a.maxActive == 0)
      && (a.held || a.finishing ==> !a.ramPaused)
      && 0 <= a.maxActive
    }

    /** New jobs are refused, and nothing holds accepted ones back. */
    ghost predicate Draining() {
      a.held && !pool.paused && controller.Released()
    }

    ghost predicate FinishingAccepted() {
      a.finishing && a.maxActive == 0 && !pool.paused && controller.Released()
    }

    predicate Accepting(withinSchedule: bool) {
      !a.held && !a.finishing && !a.pending && !a.ramPaused && a.maxActive > 0 && withinSchedule
    }

    predicate CanReserve(withinSchedule: bool) {
      Accepting(withinSchedule) && a.active + a.reserved < MaxAcceptedJobs(pool.target)
    }

    function ReportedRamPause(): bool {
      !a.held && (a.ramPaused || (a.maxActive == 0 && a.mode.Ram?))
    }
  }

  const PIPELINE_BUFFER_JOBS := 1

  function MaxAcceptedJobs(encodeTarget: int): int {
    if encodeTarget <= 0 then 0
    else if encodeTarget > MAX_INT - PIPELINE_BUFFER_JOBS then MAX_INT
    else encodeTarget + PIPELINE_BUFFER_JOBS
  }

  /** A worker that accepts jobs takes one more than it can encode at a time. */
  lemma ReservesOneAhead(w: Worker, within: bool)
    requires w.Accepting(within) && 0 < w.pool.target < MAX_INT
    ensures w.CanReserve(within) <==> w.a.active + w.a.reserved < w.pool.target + 1
  {
  }

  datatype Op =
    | SetMax(max: int)
    | SetEncoders(cpu: int, gpu: int)
    | Persisted(max: int, admissionOnly: bool)   // a limit the server has just saved
    | SetRam(ram: bool)
    | SetMode(mode: Mode)
    | PauseJob(key: string, hold: bool)
    | FinishAccepted
    | DrainAccepted
    | Hold
    | Resolve
  {
    predicate LimitChange() {
      SetMax? || SetEncoders? || Persisted?
    }

    /** Refused before anything is touched. */
    predicate Refused(a: Admission) {
      match this
      case SetMax(m) => m < 0
      case Persisted(m, _) => m < 0
      case SetEncoders(cpu, gpu) => cpu < 0 || gpu < 0 || cpu > MAX_INT - gpu
      case SetRam(_) => a.held || a.finishing
      case PauseJob(_, _) => a.held || a.finishing
      case _ => false
    }

    /** The RAM hold and pause mode that a limit change leaves in force. */
    function RamAfter(a: Admission): bool {
      a.ramPaused || (Persisted? && admissionOnly && a.maxActive == 0 && a.mode.Ram? && !a.held && !a.finishing)
    }

    function ModeAfter(a: Admission): Mode {
      if Persisted? && admissionOnly then Finish else a.mode
    }

    function LimitAfter(): int
      requires LimitChange()
    {
      if SetEncoders? then cpu + gpu else max
    }

    /** What the operation asks of the process controller. */
    ghost predicate Event(a: Admission, e: PC.Event) {
      match this
      case SetRam(b) => e.SetGeneral? && e.paused == b
      case SetMode(m) =>
        e.SetGeneral? && e.paused == ((a.ramPaused || (m.Ram? && a.maxActive == 0)) && !a.held && !a.finishing)
      case PauseJob(key, b) => e.SetJob? && e.key == key && e.paused == b
      case Resolve => false
      case FinishAccepted => e.Resume?
      case DrainAccepted => e.Resume?
      case Hold => e.Resume?
      case _ => e.SetGeneral? && e.paused == ((RamAfter(a) || (LimitAfter() == 0 && ModeAfter(a).Ram?)) && !a.held)
    }

    /** The admission fields after the operation succeeded. */
    function After(a: Admission): Admission {
      match this
      case SetRam(b) => a.(mode := Finish, ramPaused := b)
      case SetMode(m) => a.(mode := m)
      case PauseJob(_, _) => a
      case Resolve => a.(pending := false)
      case FinishAccepted => a.(finishing := true, mode := Finish, ramPaused := false, maxActive := 0)
      case DrainAccepted => a.(held := true, ramPaused := false, maxActive := 0)
      case Hold => a.(held := true, ramPaused := false)
      case _ => a.(finishing := false, maxActive := LimitAfter(), mode := ModeAfter(a), ramPaused := RamAfter(a))
    }

    function PoolAfter(a: Admission, pool: Pool): Pool {
      match this
      case SetRam(b) => pool.(paused := b || a.maxActive == 0 || a.pending)
      case SetMode(_) => pool
      case PauseJob(_, _) => pool
      case Resolve => pool.(paused := (a.maxActive == 0 || a.ramPaused) && !a.held && !a.finishing)
      case FinishAccepted => pool.(paused := false)
      case DrainAccepted => pool.(paused := false)
      case Hold => pool.(paused := false)
      case SetEncoders(cpu, gpu) =>
        pool.SetLimits(cpu, gpu).(paused := (cpu + gpu == 0 || a.ramPaused || a.pending) && !a.held)
      case _ =>
        var p := pool.SetTarget(LimitAfter()).(paused := (RamAfter(a) || LimitAfter() == 0 || a.pending) && !a.held);
        if LimitAfter() == 0 then p.Pause() else p
    }
  }

  /** One operation: refused, failed in the process controller (which leaves all else
      alone), or done. */
  datatype Result = Accepted | Failed | Refused

  ghost predicate Next(w: Worker, v: Worker, op: Op, result: Result) {
    match result
    case Refused => op.Refused(w.a) && v == w
    case Failed => !op.Refused(w.a) && v.a == w.a && v.pool == w.pool && FailedEvent(w, v, op)
    case Accepted =>
      !op.Refused(w.a) && v.a == op.After(w.a) && v.pool == op.PoolAfter(w.a, w.pool) && DoneEvent(w, v, op)
  }

  ghost predicate Success(e: PC.Event) {
    if e.SetJob? then e.result == PC.Changed(PC.Done) else (e.SetGeneral? || e.Resume?) && e.outcome.Done?
  }

  ghost predicate DoneEvent(w: Worker, v: Worker, op: Op) {
    if op.Resolve? then v.controller == w.controller
    else exists e :: op.Event(w.a, e) && Success(e) && PC.Next(w.controller, v.controller, e)
  }

  ghost predicate FailedEvent(w: Worker, v: Worker, op: Op) {
    exists e :: op.Event(w.a, e) && !Success(e) && PC.Next(w.controller, v.controller, e)
  }

  lemma PoolAfterIsValid(a: Admission, pool: Pool, op: Op)
    requires pool.Valid() && !op.Refused(a)
    ensures op.PoolAfter(a, pool).Valid()
    ensures op.PoolAfter(a, pool).cpuActive == pool.cpuActive && op.PoolAfter(a, pool).gpuActive == pool.gpuActive
  {
  }

  lemma Performed(w: Worker, v: Worker, op: Op, e: PC.Event, result: Result)
    requires !op.Refused(w.a) && op.Event(w.a, e) && PC.Next(w.controller, v.controller, e)
    requires result == if Success(e) then Accepted else Failed
    requires v.a == if Success(e) then op.After(w.a) else w.a
    requires v.pool == if Success(e) then op.PoolAfter(w.a, w.pool) else w.pool
    ensures Next(w, v, op, result)
  {
  }

  /** The two pause flags follow from the admission fields after every operation, also
      after one that failed. */
  lemma OperationKeepsConsistent(w: Worker, v: Worker, op: Op, result: Result)
    requires Next(w, v, op, result) && w.Consistent()
    ensures v.Consistent()
    ensures v.a.active == w.a.active && v.a.reserved == w.a.reserved
  {
    if result.Failed? {
      var e :| op.Event(w.a, e) && !Success(e) && PC.Next(w.controller, v.controller, e);
      assert v.controller.paused == w.controller.paused;
    } else if result.Accepted? && !op.Resolve? {
      var e :| op.Event(w.a, e) && Success(e) && PC.Next(w.controller, v.controller, e);
      assert v.controller.paused
          == if e.SetGeneral? then e.paused else if e.Resume? then false else w.controller.paused;
    }
  }

  /** A hold or a drain is for good: once it succeeded, no operation suspends an encode,
      pauses the pool or lets a reservation through. */
  lemma DrainingIsForGood(w: Worker, v: Worker, op: Op, result: Result)
    requires Next(w, v, op, result) && w.Consistent() && w.Draining()
    ensures v.Draining() && forall within :: !v.CanReserve(within)
    ensures !op.Refused(w.a) ==> result.Accepted?
  {
    if !result.Refused? && !op.Resolve? {
      var e :| op.Event(w.a, e) && PC.Next(w.controller, v.controller, e);
      PC.ReleasedStaysReleased(w.controller, v.controller, e);
    }
  }

  lemma SuccessfulHoldDrains(w: Worker, v: Worker, op: Op)
    requires (op.Hold? || op.DrainAccepted?) && Next(w, v, op, Accepted)
    ensures v.Draining() && forall within :: !v.CanReserve(within)
    ensures v.a.maxActive == if op.Hold? then w.a.maxActive else 0
  {
    var e :| op.Event(w.a, e) && Success(e) && PC.Next(w.controller, v.controller, e);
    PC.StepSettles(w.controller, v.controller, e);
  }

  /** A limit change puts exactly the limit in force and ends a finish. By itself it changes
      neither the mode nor the explicit RAM pause. One that only concerns admission leaves RAM
      mode, but suspends and resumes nothing: a pause that came from the mode becomes an
      explicit one. */
  lemma LimitChangeIsExact(w: Worker, v: Worker, op: Op)
    requires op.LimitChange() && Next(w, v, op, Accepted) && w.Consistent()
    ensures !v.a.finishing && v.a.held == w.a.held && v.a.pending == w.a.pending
    ensures v.a.maxActive == if op.SetEncoders? then op.cpu + op.gpu else op.max
    ensures !(op.Persisted? && op.admissionOnly) ==> v.a.mode == w.a.mode && v.a.ramPaused == w.a.ramPaused
    ensures op.Persisted? && op.admissionOnly ==>
              v.a.mode == Finish && v.controller.paused == w.controller.paused == v.a.ramPaused
  {
    OperationKeepsConsistent(w, v, op, Accepted);
  }

  /** After the operator's finish nothing is limited by RAM mode any more, and no limit is left. */
  lemma FinishLeavesNoPause(w: Worker, v: Worker)
    requires Next(w, v, FinishAccepted, Accepted)
    ensures v.a.mode == Finish && !v.a.ramPaused && v.a.maxActive == 0 && !v.controller.paused && !v.pool.paused
  {
  }

  /** The operator's hold lasts until the next explicit limit change; one that fails only
      disturbs it when an encode that it suspended could not be resumed again. */
  lemma FinishingLastsUntilLimitChange(w: Worker, v: Worker, op: Op, result: Result)
    requires Next(w, v, op, result) && w.Consistent()
    ensures op.FinishAccepted? && result.Accepted? ==> v.FinishingAccepted()
    ensures w.FinishingAccepted() && !(op.LimitChange() && result.Accepted?) ==>
              v.FinishingAccepted()
              || (op.LimitChange()
                  && exists e :: op.Event(w.a, e) && e.LeavesTaint() && PC.Next(w.controller, v.controller, e))
    ensures v.FinishingAccepted() ==> forall within :: !v.CanReserve(within)
    ensures op.LimitChange() && result.Accepted? ==> !v.a.finishing
  {
    if !result.Refused? && !op.Resolve? {
      var e :| op.Event(w.a, e) && PC.Next(w.controller, v.controller, e) && (result.Accepted? <==> Success(e));
      PC.StepSettles(w.controller, v.controller, e);
      if w.FinishingAccepted() && !op.LimitChange() {
        PC.ReleasedStaysReleased(w.controller, v.controller, e);
      }
    }
  }

  /** The RAM pause shown to operators is the one in force, except exactly while an
      operator lets accepted work finish in RAM mode. */
  lemma ReportedRamPauseIsReal(w: Worker)
    requires w.Consistent()
    ensures w.ReportedRamPause() == w.controller.paused <==> !(w.a.finishing && !w.a.held && w.a.mode.Ram?)
  {
  }

  /** That exception is reachable: finish accepted work, then choose RAM mode. */
  lemma ReportedRamPauseCanBeWrong(w: Worker)
    requires w.Consistent() && !w.a.held && w.controller.processes == map[]
    ensures exists v, u :: Next(w, v, FinishAccepted, Accepted) && Next(v, u, SetMode(Ram), Accepted)
                           && u.ReportedRamPause() && !u.controller.paused
  {
    var v := Worker(FinishAccepted.After(w.a), FinishAccepted.PoolAfter(w.a, w.pool), PC.Controller(false, map[]));
    var u := v.(a := SetMode(Ram).After(v.a));
    assert FinishAccepted.Event(w.a, PC.Resume(PC.Done)) && PC.Next(w.controller, v.controller, PC.Resume(PC.Done));
    assert SetMode(Ram).Event(v.a, PC.SetGeneral(false, PC.Done));
    assert PC.Next(v.controller, u.controller, PC.SetGeneral(false, PC.Done));
    assert Next(w, v, FinishAccepted, Accepted) && Next(v, u, SetMode(Ram), Accepted);
  }

  const UINT32: int := 0x1_0000_0000

  /** The object of the source. `order` and `answers` are the iteration order of the
      process table and the answers of the operating system during the call. */
  class JobExecutor {
    var activeJobs: int
    var reservedJobs: int
    var maxActiveJobs: int
    var settingsPending: bool
    var admissionHeld: bool
    var finishing: bool
    var pauseMode: Mode
    var ramPaused: bool
    const pool: EncodeConcurrency
    const processes: PC.PauseController

    ghost function Fields(): Admission
      reads this
    {
      Admission(admissionHeld, finishing, settingsPending, ramPaused, pauseMode,
                maxActiveJobs, reservedJobs, activeJobs)
    }

    ghost function View(): Worker
      reads this, pool, processes
    {
      Worker(Fields(), pool.View(), processes.View())
    }

    ghost predicate Ready(order: seq<PC.Id>)
      reads this, pool, processes
    {
      pool.Valid() && PC.Covers(order, processes.processes.Keys)
    }

    static method CreatePool(encodeTarget: int) returns (pool: EncodeConcurrency)
      ensures fresh(pool) && pool.Valid() && pool.active == 0 && !pool.independent
      ensures pool.target == pool.gpuTarget == pool.gpuJobs == (if encodeTarget < 1 then 1 else encodeTarget)
      ensures pool.cpuTarget == pool.cpuJobs == 0 && pool.lastCpuJobs == 0 && pool.lastGpuJobs == pool.target
    {
      pool := new EncodeConcurrency(encodeTarget);
    }

    /** The worker as configured; `encodeTarget` is the configured number of parallel
        encodes and `primary` the class of the configured codec. That class gets all of them;
        a worker that is configured to take no jobs has no limit in force. */
    constructor (max: nat, mode: Mode, ram: bool, encodeTarget: int, primary: Kind)
      ensures View().Consistent() && pool.Valid() && pool.primary == primary
      ensures Fields() == Admission(false, false, false, ram, mode, max, 0, 0) && processes.processes == map[]
      ensures fresh(pool) && fresh(processes)
      ensures pool.active == 0 && !pool.independent && pool.target == if encodeTarget < 1 then 1 else encodeTarget
      ensures (pool.cpuTarget, pool.gpuTarget) == if primary.Cpu? then (pool.target, 0) else (0, pool.target)
      ensures (pool.cpuJobs, pool.gpuJobs) == if max == 0 then (0, 0) else (pool.cpuTarget, pool.gpuTarget)
      ensures pool.View().AdmissionKind() == Pinned(primary)
    {
      activeJobs, reservedJobs, maxActiveJobs := 0, 0, max;
      settingsPending, admissionHeld, finishing := false, false, false;
      pauseMode, ramPaused := mode, ram;
      var p := CreatePool(encodeTarget);
      var c := new PC.PauseController();
      pool, processes := p, c;
      new;
      PauseInitially();
      ConfigurePool(primary);
    }

    method PauseInitially()
      requires processes.processes == map[] && !processes.paused
      modifies processes
      ensures processes.processes == map[]
      ensures processes.paused == (ramPaused || (maxActiveJobs == 0 && pauseMode == Ram))
    {
      if ramPaused || (maxActiveJobs == 0 && pauseMode == Ram) {
        var outcome := processes.SetPaused(true, [], n => true);
      }
    }

    method ConfigurePool(primary: Kind)
      requires pool.Valid() && pool.active == 0 && !pool.independent && pool.gpuJobs == pool.gpuTarget == pool.target
      requires pool.cpuJobs == pool.cpuTarget == 0 && pool.lastCpuJobs == 0 && pool.lastGpuJobs == pool.target
      modifies pool
      ensures pool.Valid() && pool.primary == primary && pool.paused == (maxActiveJobs == 0 || ramPaused)
      ensures pool.active == 0 && !pool.independent && pool.target == old(pool.target)
      ensures (pool.cpuTarget, pool.gpuTarget) == if primary.Cpu? then (pool.target, 0) else (0, pool.target)
      ensures (pool.cpuJobs, pool.gpuJobs) == if maxActiveJobs == 0 then (0, 0) else (pool.cpuTarget, pool.gpuTarget)
      ensures pool.View().AdmissionKind() == Pinned(primary)
    {
      pool.SetPaused(maxActiveJobs == 0 || ramPaused);
      pool.SetPrimary(primary);
      if maxActiveJobs == 0 {
        pool.Pause();
      }
    }

    /** The part of a limit change that cannot fail. */
    method AdoptLimit(max: int, mode: Mode, ram: bool, ghost op: Op)
      requires pool.Valid() && (op.SetMax? || op.Persisted?) && !op.Refused(Fields())
      requires max == op.LimitAfter() && mode == op.ModeAfter(Fields()) && ram == op.RamAfter(Fields())
      modifies this, pool
      ensures pool.Valid()
      ensures Fields() == op.After(old(Fields())) && pool.View() == op.PoolAfter(old(Fields()), old(pool.View()))
    {
      finishing := false;
      maxActiveJobs := max;
      pauseMode := mode;
      ramPaused := ram;
      if max > 0 {
        pool.SetTarget(max);
      }
      pool.SetPaused((ram || max == 0 || settingsPending) && !admissionHeld && !finishing);
      if max == 0 {
        pool.Pause();
      }
    }

    method AdoptPair(cpu: nat, gpu: nat, ghost op: Op)
      requires pool.Valid() && cpu + gpu <= MAX_INT && op == SetEncoders(cpu, gpu)
      modifies this, pool
      ensures pool.Valid()
      ensures Fields() == op.After(old(Fields())) && pool.View() == op.PoolAfter(old(Fields()), old(pool.View()))
    {
      pool.SetLimits(cpu, gpu);
      maxActiveJobs := cpu + gpu;
      finishing := false;
      pool.SetPaused((cpu + gpu == 0 || ramPaused || settingsPending) && !admissionHeld);
    }

    method ApplyLimit(max: int, mode: Mode, ram: bool, order: seq<PC.Id>, answers: nat -> bool, ghost op: Op)
      returns (result: Result)
      requires Ready(order)
      requires (op.SetMax? || op.Persisted?) && !op.Refused(Fields())
      requires max == op.LimitAfter() && mode == op.ModeAfter(Fields()) && ram == op.RamAfter(Fields())
      modifies this, pool, processes
      ensures pool.Valid() && Next(old(View()), View(), op, result)
      ensures PC.AllAnswer(answers) ==> !result.Failed?
    {
      ghost var w := View();
      var hold := (ram || (max == 0 && mode == Ram)) && !admissionHeld;
      var outcome := processes.SetPaused(hold, order, answers);
      result := if outcome.Failed? then Failed else Accepted;
      if outcome.Done? {
        AdoptLimit(max, mode, ram, op);
      }
      Performed(w, View(), op, PC.SetGeneral(hold, outcome), result);
    }

    method SetMaxActiveJobs(max: int, order: seq<PC.Id>, answers: nat -> bool) returns (result: Result)
      requires Ready(order)
      modifies this, pool, processes
      ensures pool.Valid() && Next(old(View()), View(), SetMax(max), result)
      ensures result.Refused? <==> max < 0
      ensures PC.AllAnswer(answers) ==> !result.Failed?
    {
      if max < 0 {
        return Refused;
      }
      result := ApplyLimit(max, pauseMode, ramPaused, order, answers, SetMax(max));
    }

    /** Applies a limit that the server has saved; with `admissionOnly` a RAM hold that
        came from the pause mode becomes an explicit one. */
    method ApplyPersistedLimit(max: int, admissionOnly: bool, order: seq<PC.Id>, answers: nat -> bool)
      returns (result: Result)
      requires Ready(order)
      modifies this, pool, processes
      ensures pool.Valid() && Next(old(View()), View(), Persisted(max, admissionOnly), result)
      ensures result.Refused? <==> max < 0
      ensures PC.AllAnswer(answers) ==> !result.Failed?
    {
      if max < 0 {
        return Refused;
      }
      var mode, ram := pauseMode, ramPaused;
      if admissionOnly {
        ram := ram || (maxActiveJobs == 0 && mode == Ram && !admissionHeld && !finishing);
        mode := Finish;
      }
      result := ApplyLimit(max, mode, ram, order, answers, Persisted(max, admissionOnly));
    }

    method ApplyPair(cpu: nat, gpu: nat, order: seq<PC.Id>, answers: nat -> bool, ghost op: Op) returns (result: Result)
      requires Ready(order) && op == SetEncoders(cpu, gpu) && !op.Refused(Fields())
      modifies this, pool, processes
      ensures pool.Valid() && Next(old(View()), View(), op, result)
      ensures PC.AllAnswer(answers) ==> !result.Failed?
    {
      ghost var w := View();
      var hold := (ramPaused || (cpu + gpu == 0 && pauseMode == Ram)) && !admissionHeld;
      var outcome := processes.SetPaused(hold, order, answers);
      result := if outcome.Failed? then Failed else Accepted;
      if outcome.Done? {
        AdoptPair(cpu, gpu, op);
      }
      Performed(w, View(), op, PC.SetGeneral(hold, outcome), result);
    }

    method SetEncoderLimits(cpu: int, gpu: int, order: seq<PC.Id>, answers: nat -> bool) returns (result: Result)
      requires Ready(order)
      modifies this, pool, processes
      ensures pool.Valid() && Next(old(View()), View(), SetEncoders(cpu, gpu), result)
      ensures result.Refused? <==> cpu < 0 || gpu < 0 || cpu + gpu > MAX_INT
      ensures PC.AllAnswer(answers) ==> !result.Failed?
    {
      if cpu < 0 || gpu < 0 || cpu > MAX_INT - gpu {
        return Refused;
      }
      result := ApplyPair(cpu, gpu, order, answers, SetEncoders(cpu, gpu));
    }

    method SetRAMPaused(paused: bool, order: seq<PC.Id>, answers: nat -> bool) returns (result: Result)
      requires Ready(order)
      modifies this, pool, processes
      ensures pool.Valid() && Next(old(View()), View(), SetRam(paused), result)
      ensures result.Refused? <==> old(admissionHeld) || old(finishing)
      ensures PC.AllAnswer(answers) ==> !result.Failed?
    {
      if admissionHeld || finishing {
        return Refused;
      }
      var outcome := processes.SetPaused(paused, order, answers);
      assert SetRam(paused).Event(old(Fields()), PC.SetGeneral(paused, outcome));
      if outcome.Failed? {
        return Failed;
      }
      pauseMode, ramPaused := Finish, paused;
      pool.SetPaused(paused || maxActiveJobs == 0 || settingsPending);
      return Accepted;
    }

    method SetPauseMode(mode: Mode, order: seq<PC.Id>, answers: nat -> bool) returns (result: Result)
      requires Ready(order)
      modifies this, processes
      ensures Next(old(View()), View(), SetMode(mode), result)
      ensures PC.AllAnswer(answers) ==> !result.Failed?
    {
      var hold := (ramPaused || (mode == Ram && maxActiveJobs == 0)) && !admissionHeld && !finishing;
      var outcome := processes.SetPaused(hold, order, answers);
      assert SetMode(mode).Event(old(Fields()), PC.SetGeneral(hold, outcome));
      if outcome.Failed? {
        return Failed;
      }
      pauseMode := mode;
      return Accepted;
    }

    method SetJobPaused(key: string, paused: bool, order: seq<PC.Id>, inspected: nat -> bool, answers: nat -> bool)
      returns (result: Result)
      requires Ready(order)
      modifies processes
      ensures Next(old(View()), View(), PauseJob(key, paused), result)
      ensures result.Refused? <==> old(admissionHeld) || old(finishing)
      ensures PC.AllAnswer(inspected) && PC.AllAnswer(answers) ==>
                (result.Failed? <==>
                   !old(admissionHeld) && !old(finishing) && !PC.Runs(old(processes.processes), key))
    {
      if admissionHeld || finishing {
        return Refused;
      }
      var r := processes.SetJobPaused(key, paused, order, inspected, answers);
      assert PauseJob(key, paused).Event(old(Fields()), PC.SetJob(key, paused, r));
      return if r == PC.Changed(PC.Done) then Accepted else Failed;
    }

    method FinishAcceptedJobs(order: seq<PC.Id>, answers: nat -> bool) returns (result: Result)
      requires Ready(order)
      modifies this, pool, processes
      ensures pool.Valid() && Next(old(View()), View(), FinishAccepted, result)
      ensures PC.AllAnswer(answers) ==> !result.Failed?
    {
      var outcome := processes.ResumeAll(order, answers);
      assert FinishAccepted.Event(old(Fields()), PC.Resume(outcome));
      if outcome.Failed? {
        return Failed;
      }
      finishing := true;
      pauseMode := Finish;
      ramPaused := false;
      maxActiveJobs := 0;
      pool.SetPaused(false);
      return Accepted;
    }

    method DrainAcceptedJobs(order: seq<PC.Id>, answers: nat -> bool) returns (result: Result)
      requires Ready(order)
      modifies this, pool, processes
      ensures pool.Valid() && Next(old(View()), View(), DrainAccepted, result)
      ensures PC.AllAnswer(answers) ==> !result.Failed?
    {
      var outcome := processes.ResumeAll(order, answers);
      assert DrainAccepted.Event(old(Fields()), PC.Resume(outcome));
      if outcome.Failed? {
        return Failed;
      }
      admissionHeld := true;
      ramPaused := false;
      maxActiveJobs := 0;
      pool.SetPaused(false);
      return Accepted;
    }

    method HoldAdmission(order: seq<PC.Id>, answers: nat -> bool) returns (result: Result)
      requires Ready(order)
      modifies this, pool, processes
      ensures pool.Valid() && Next(old(View()), View(), Hold, result)
      ensures PC.AllAnswer(answers) ==> !result.Failed?
    {
      var outcome := processes.ResumeAll(order, answers);
      assert Hold.Event(old(Fields()), PC.Resume(outcome));
      if outcome.Failed? {
        return Failed;
      }
      admissionHeld := true;
      ramPaused := false;
      pool.SetPaused(false);
      return Accepted;
    }

    method MarkWorkerSettingsResolved()
      requires pool.Valid()
      modifies this, pool
      ensures pool.Valid() && Next(old(View()), View(), Resolve, Accepted)
    {
      settingsPending := false;
      pool.SetPaused((maxActiveJobs == 0 || ramPaused) && !admissionHeld && !finishing);
    }

    /** Called at startup only. */
    method RequireWorkerSettings()
      requires pool.Valid() && !finishing
      modifies this, pool
      ensures pool.Valid() && Fields() == old(Fields()).(pending := true)
      ensures old(View()).Consistent() ==> View().Consistent()
      ensures pool.View() == old(pool.View()).(paused := pool.paused)
    {
      settingsPending := true;
      if !admissionHeld {
        pool.SetPaused(true);
      }
    }

    /** Accepting is what a reservation needs apart from free capacity: a positive limit, the
        saved limits known, and nothing that holds admission back. */
    method AdmissionStatus(withinSchedule: bool) returns (accepting: bool, reportedRamPause: bool)
      ensures accepting <==> maxActiveJobs > 0 && withinSchedule && !settingsPending
                             && !(admissionHeld || finishing || ramPaused)
      ensures View().CanReserve(withinSchedule) <==>
                accepting && activeJobs + reservedJobs < MaxAcceptedJobs(pool.target)
      ensures reportedRamPause == View().ReportedRamPause()
    {
      accepting :=
        !admissionHeld && !finishing && !settingsPending && !ramPaused && maxActiveJobs > 0 && withinSchedule;
      reportedRamPause := !admissionHeld && (ramPaused || (maxActiveJobs == 0 && pauseMode == Ram));
    }

    /** The worker takes one job more than it can encode at a time. */
    method ReserveJobSlot(withinSchedule: bool) returns (ok: bool)
      modifies this`reservedJobs
      ensures 0 < pool.target < MAX_INT ==>
                (ok <==> && maxActiveJobs > 0 && withinSchedule && !settingsPending
                         && !(admissionHeld || finishing || ramPaused)
                         && activeJobs + old(reservedJobs) <= pool.target)
      ensures ok == old(View()).CanReserve(withinSchedule)
      ensures reservedJobs == old(reservedJobs) + if ok then 1 else 0
    {
      if admissionHeld || finishing || settingsPending || ramPaused || maxActiveJobs <= 0 || !withinSchedule {
        return false;
      }
      if activeJobs + reservedJobs >= MaxAcceptedJobs(pool.target) {
        return false;
      }
      reservedJobs := reservedJobs + 1;
      return true;
    }

    /** Gives a reservation back: a worker that was full can reserve again. */
    method ReleaseJobSlot()
      modifies this`reservedJobs
      ensures old(reservedJobs) > 0 && activeJobs + old(reservedJobs) <= MaxAcceptedJobs(pool.target) ==>
                forall within :: old(View()).Accepting(within) ==> View().CanReserve(within)
      ensures reservedJobs == if old(reservedJobs) > 0 then old(reservedJobs) - 1 else old(reservedJobs)
    {
      if reservedJobs > 0 {
        reservedJobs := reservedJobs - 1;
      }
    }

    /** Turns a reservation into an accepted job; the counter is an unsigned 32-bit one. */
    method AcceptReserved()
      modifies this`reservedJobs, this`activeJobs
      ensures reservedJobs == if old(reservedJobs) > 0 then old(reservedJobs) - 1 else old(reservedJobs)
      ensures activeJobs == (old(activeJobs) + 1) % UINT32
    {
      if reservedJobs > 0 {
        reservedJobs := reservedJobs - 1;
      }
      activeJobs := (activeJobs + 1) % UINT32;
    }

    /** Adds the largest unsigned value, which subtracts one as long as a job is counted. */
    method CleanJob()
      modifies this`activeJobs
      ensures 0 < old(activeJobs) < UINT32 ==> activeJobs == old(activeJobs) - 1
      ensures old(activeJobs) == 0 ==> activeJobs == UINT32 - 1
    {
      activeJobs := (activeJobs + (UINT32 - 1)) % UINT32;
    }
  }
}
