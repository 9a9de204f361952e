/** Remote commands: the server keeps one command per worker, the worker polls it, executes
    it, and acknowledges it. Pings and acknowledgements may be lost or arrive late, and the
    worker remembers only the last command it executed. */
module RemoteControl {
  import opened Options
  import opened Executor
  import EP = EncoderPool
  import PC = PauseControl
  import WS = WorkerSettings

  datatype Action =
    | PauseEncodes | ResumeEncodes
    | StopAfterCurrent | ResumeQueue
    | HoldJob(key: string) | ReleaseJob(key: string)

  datatype CommandState = Pending | Applied | Failed

  /** Command identifiers are fresh; `id` is the position in the order of issue. */
  datatype Command = Command(id: nat, action: Action, state: CommandState, limits: WS.Settings)

  datatype Ack = Ack(id: nat, failed: bool)

  // ---------------------------------------------------------------------------------
  // The server's slot.

  class CommandSlot {
    var slot: Option<Command>

    constructor ()
      ensures slot == None
    {
      slot := None;
    }

    method SetWorkerControl(c: Command)
      modifies this
      ensures slot == Some(c.(state := Pending))
    {
      slot := Some(c.(state := Pending));
    }

    /** Only a pending command is handed out. */
    method Poll() returns (c: Option<Command>)
      ensures c == if slot.Some? && slot.value.state.Pending? then slot else None
    {
      if slot.Some? && slot.value.state.Pending? {
        return slot;
      }
      return None;
    }

    /** An acknowledgement only reaches the command it names. */
    method AckWorkerControl(ack: Ack) returns (found: bool)
      modifies this
      ensures found <==> old(slot).Some? && old(slot).value.id == ack.id
      ensures slot == AfterAck(old(slot), ack)
    {
      if slot.None? || slot.value.id != ack.id {
        return false;
      }
      slot := Some(slot.value.(state := if ack.failed then CommandState.Failed else Applied));
      return true;
    }

    /** Issues a command with its resume snapshot; resuming needs a snapshot that can be
        written back. */
    method ControlWorker(id: nat, action: Action, resume: WS.Settings, cpuJobs: int, gpuJobs: int) returns (ok: bool)
      modifies this
      ensures var limits := WS.Snapshot(resume, PreviousLimits(old(slot)), cpuJobs, gpuJobs);
              && (ok <==> action != ResumeQueue || limits.ValidWrite())
              && slot == if ok then Some(Command(id, action, Pending, limits)) else old(slot)
    {
      var restore := resume;
      if restore.max.None? && !restore.Independent() && slot.Some? {
        restore := slot.value.limits;
      }
      if restore.Independent() {
        restore := restore.(max := None);
      }
      if restore.max.None? && !restore.Independent() && cpuJobs + gpuJobs > 0 {
        restore := WS.Pair(cpuJobs, gpuJobs);
      }
      if action == ResumeQueue && !restore.ValidWrite() {
        return false;
      }
      SetWorkerControl(Command(id, action, Pending, restore));
      return true;
    }
  }

  function PreviousLimits(slot: Option<Command>): Option<WS.Settings> {
    if slot.Some? then Some(slot.value.limits) else None
  }

  function AfterAck(slot: Option<Command>, ack: Ack): Option<Command> {
    if slot.Some? && slot.value.id == ack.id then
      Some(slot.value.(state := if ack.failed then CommandState.Failed else Applied))
    else slot
  }

  // ---------------------------------------------------------------------------------
  // The worker.

  /** A pair of limits is the one in the pool. */
  predicate HasPair(pool: EP.Pool, s: WS.Settings) {
    s.Independent() ==> pool.cpuJobs == s.cpu.value && pool.gpuJobs == s.gpu.value
  }

  /** The commands that need no answer of the server. */
  function DirectOp(a: Action): Option<Op> {
    match a
    case HoldJob(key) => Some(PauseJob(key, true))
    case ReleaseJob(key) => Some(PauseJob(key, false))
    case PauseEncodes => Some(SetRam(true))
    case ResumeEncodes => Some(SetRam(false))
    case _ => None
  }

  /** What a stop or a resume does to the worker once its limits are saved. */
  ghost predicate LimitsApplied(w: Worker, v: Worker, s: WS.Settings) {
    exists x ::
      && Next(w, x, SetMode(Finish), Accepted)
      && if s.Independent() then Next(x, v, SetEncoders(s.cpu.value, s.gpu.value), Accepted)
         else s.max.Some? && Next(x, v, SetMax(s.max.value), Accepted)
  }

  /** What executing a command promises. `ok` is what the server is told. */
  ghost predicate Promised(w: Worker, v: Worker, c: Command, saved: bool, ok: bool) {
    if w.a.held || (w.a.finishing && !c.action.ResumeQueue?) then !ok && v == w
    else
      match c.action
      case StopAfterCurrent => (ok ==> saved && LimitsApplied(w, v, WS.Pair(0, 0))) && (!saved ==> v == w)
      case ResumeQueue =>
        (ok ==> saved && c.limits.ValidWrite() && LimitsApplied(w, v, c.limits)) && (!saved ==> v == w)
      case _ =>
        if ok then Next(w, v, DirectOp(c.action).value, Accepted) else v.a == w.a && v.pool == w.pool
  }

  /** And delivering it: after a success the saved limits are known to be resolved. */
  ghost predicate Delivered(w: Worker, v: Worker, c: Command, saved: bool, ok: bool) {
    exists x :: Promised(w, x, c, saved, ok) && if ok then Next(x, v, Resolve, Accepted) else v == x
  }

  /** The commands that succeed when every call they need does. */
  ghost predicate Succeeds(w: Worker, c: Command, saved: bool) {
    && !w.a.held && (w.a.finishing ==> c.action.ResumeQueue?)
    && match c.action
       case HoldJob(key) => PC.Runs(w.controller.processes, key)
       case ReleaseJob(key) => PC.Runs(w.controller.processes, key)
       case StopAfterCurrent => saved
       case ResumeQueue => saved && c.limits.ValidWrite()
       case _ => true
  }

  /** A successful stop leaves no limit and no RAM pause mode behind; a successful resume
      puts the limits of the command in force. */
  lemma PromisedLimits(w: Worker, v: Worker, c: Command, saved: bool)
    requires Promised(w, v, c, saved, true) && DirectOp(c.action).None?
    ensures v.a.mode == Finish && !v.a.finishing && !v.a.held
    ensures c.action.StopAfterCurrent? ==> v.a.maxActive == 0 && v.pool.cpuJobs == 0 && v.pool.gpuJobs == 0
    ensures c.action.ResumeQueue? ==> v.a.maxActive == c.limits.Limit()
    ensures c.action.ResumeQueue? && c.limits.cpu.Some? ==>
              && c.limits.gpu.Some? && v.a.maxActive == c.limits.cpu.value + c.limits.gpu.value
              && v.pool.cpuJobs == c.limits.cpu.value && v.pool.gpuJobs == c.limits.gpu.value
  {
    var s := if c.action.StopAfterCurrent? then WS.Pair(0, 0) else c.limits;
    assert LimitsApplied(w, v, s);
  }

  /** A successful pause command suspends every encode and holds back those that start later, a
      successful resume lifts that again; a job is held or released with all its processes. */
  lemma PromisedPauses(w: Worker, v: Worker, c: Command, saved: bool)
    requires Promised(w, v, c, saved, true)
    ensures c.action.PauseEncodes? ==>
              && v.a.ramPaused && v.controller.paused && v.pool.paused
              && forall id :: id in v.controller.processes ==> v.controller.processes[id].paused
    ensures c.action.ResumeEncodes? ==>
              && !v.a.ramPaused && !v.controller.paused
              && forall id :: id in v.controller.processes ==>
                   v.controller.processes[id].paused == v.controller.processes[id].individual
    ensures c.action.HoldJob? ==>
              forall id :: id in v.controller.processes && v.controller.processes[id].key == c.action.key ==>
                v.controller.processes[id].paused && v.controller.processes[id].individual
    ensures c.action.ReleaseJob? ==>
              forall id :: id in v.controller.processes && v.controller.processes[id].key == c.action.key ==>
                v.controller.processes[id].paused == v.controller.paused && !v.controller.processes[id].individual
  {
  }

  class ServerCoordinator {
    var appliedControl: Option<nat>
    var appliedFailed: bool
    const worker: JobExecutor

    constructor (worker: JobExecutor)
      ensures this.worker == worker && appliedControl == None && !appliedFailed
    {
      this.worker, appliedControl, appliedFailed := worker, None, false;
    }

    /** `saved` says whether the server stored the limits of a stop or a resume. */
    method ExecuteRemoteControl(c: Command, saved: bool, order: seq<PC.Id>, inspected: nat -> bool,
                                answers: nat -> bool, limitAnswers: nat -> bool)
      returns (ok: bool)
      requires worker.Ready(order)
      modifies worker, worker.pool, worker.processes
      ensures worker.pool.Valid()
      ensures Promised(old(worker.View()), worker.View(), c, saved, ok)
      ensures PC.AllAnswer(inspected) && PC.AllAnswer(answers) && PC.AllAnswer(limitAnswers) ==>
                ok == Succeeds(old(worker.View()), c, saved)
      ensures old(worker.admissionHeld) || (old(worker.finishing) && !c.action.ResumeQueue?) ==>
                !ok && worker.View() == old(worker.View())
      ensures ok && c.action.StopAfterCurrent? ==>
                worker.maxActiveJobs == 0 && worker.pauseMode == Finish && !worker.finishing
      ensures ok && c.action.ResumeQueue? ==>
                && c.limits.ValidWrite() && saved && worker.maxActiveJobs == c.limits.Limit()
                && worker.pauseMode == Finish && !worker.finishing && HasPair(worker.pool.View(), c.limits)
      ensures DirectOp(c.action).Some? ==>
                if ok then Next(old(worker.View()), worker.View(), DirectOp(c.action).value, Accepted)
                else worker.Fields() == old(worker.Fields()) && worker.pool.View() == old(worker.pool.View())
      ensures DirectOp(c.action).None? && !saved ==> !ok && worker.View() == old(worker.View())
    {
      if worker.admissionHeld || (worker.finishing && !c.action.ResumeQueue?) {
        return false;
      }
      match c.action {
        case HoldJob(key) =>
          var r := worker.SetJobPaused(key, true, order, inspected, answers);
          return r.Accepted?;
        case ReleaseJob(key) =>
          var r := worker.SetJobPaused(key, false, order, inspected, answers);
          return r.Accepted?;
        case PauseEncodes =>
          var r := worker.SetRAMPaused(true, order, answers);
          return r.Accepted?;
        case ResumeEncodes =>
          var r := worker.SetRAMPaused(false, order, answers);
          return r.Accepted?;
        case _ =>
          var settings := if c.action.StopAfterCurrent? then WS.Pair(0, 0) else c.limits;
          if !settings.ValidWrite() || !saved {
            return false;
          }
          ok := ApplyLimits(settings, order, answers, limitAnswers);
      }
    }

    /** One delivery: executes the command unless it is the remembered one, and answers with
        the remembered outcome unless the ping before it fails. So the server is told that a
        command was applied only if all that it promises has been done, and that it failed
        only if it was refused or a call did not work. */
    method ApplyRemoteControl(c: Command, saved: bool, pinged: bool, order: seq<PC.Id>, inspected: nat -> bool,
                              answers: nat -> bool, limitAnswers: nat -> bool)
      returns (ack: Option<Ack>)
      requires worker.Ready(order)
      modifies this, worker, worker.pool, worker.processes
      ensures worker.pool.Valid() && appliedControl == Some(c.id)
      ensures old(appliedControl) == Some(c.id) ==>
                && appliedFailed == old(appliedFailed)
                && worker.pool.View().(paused := false) == old(worker.pool.View()).(paused := false)
                && worker.Fields() == old(worker.Fields()).(pending := worker.settingsPending)
                && worker.processes.View() == old(worker.processes.View())
      ensures old(appliedControl) != Some(c.id) ==>
                Delivered(old(worker.View()), worker.View(), c, saved, !appliedFailed)
      ensures old(appliedControl) != Some(c.id)
              && PC.AllAnswer(inspected) && PC.AllAnswer(answers) && PC.AllAnswer(limitAnswers) ==>
                appliedFailed == !Succeeds(old(worker.View()), c, saved)
      ensures ack == if pinged then Some(Ack(c.id, appliedFailed)) else None
      ensures !appliedFailed ==> !worker.settingsPending
    {
      if appliedControl != Some(c.id) {
        var ok := ExecuteRemoteControl(c, saved, order, inspected, answers, limitAnswers);
        appliedControl, appliedFailed := Some(c.id), !ok;
      }
      ghost var w := worker.View();
      if !appliedFailed {
        worker.MarkWorkerSettingsResolved();
      }
      assert old(appliedControl) != Some(c.id) ==> Promised(old(worker.View()), w, c, saved, !appliedFailed);
      if !pinged {
        return None;
      }
      return Some(Ack(c.id, appliedFailed));
    }

    /** `limitAnswers` are those of the second call to the process controller. */
    method ApplyLimits(settings: WS.Settings, order: seq<PC.Id>, answers: nat -> bool, limitAnswers: nat -> bool)
      returns (ok: bool)
      requires worker.Ready(order) && settings.ValidWrite()
      modifies worker, worker.pool, worker.processes
      ensures worker.pool.Valid()
      ensures ok ==>
                && worker.maxActiveJobs == settings.Limit() && worker.pauseMode == Finish && !worker.finishing
                && HasPair(worker.pool.View(), settings)
      ensures ok ==> LimitsApplied(old(worker.View()), worker.View(), settings)
      ensures PC.AllAnswer(answers) && PC.AllAnswer(limitAnswers) ==> ok
    {
      var mode := worker.SetPauseMode(Finish, order, answers);
      if !mode.Accepted? {
        return false;
      }
      SameProcesses(old(worker.View()), worker.View(), SetMode(Finish));
      if settings.Independent() {
        var r := worker.SetEncoderLimits(settings.cpu.value, settings.gpu.value, order, limitAnswers);
        return r.Accepted?;
      }
      var r := worker.SetMaxActiveJobs(settings.max.value, order, limitAnswers);
      return r.Accepted?;
    }

    method Converge(settings: WS.Settings, order: seq<PC.Id>, answers: nat -> bool) returns (r: Result)
      requires worker.Ready(order)
      modifies worker, worker.pool, worker.processes
      ensures worker.pool.Valid()
      ensures r.Accepted? ==> InForce(worker.View(), settings)
      ensures InForce(old(worker.View()), settings) ==> r.Accepted? && worker.View() == old(worker.View())
      ensures !r.Accepted? ==> worker.Fields() == old(worker.Fields()) && worker.pool.View() == old(worker.pool.View())
    {
      ghost var w := worker.View();
      r := Accepted;
      if settings.Independent() {
        var cpu, gpu := settings.cpu.value, settings.gpu.value;
        if !worker.pool.independent || worker.pool.cpuJobs != cpu || worker.pool.gpuJobs != gpu {
          r := worker.SetEncoderLimits(cpu, gpu, order, answers);
          SavedLimitsInForce(w, worker.View(), SetEncoders(cpu, gpu), r, settings);
        }
      } else if settings.max.Some? {
        var max := settings.max.value;
        if worker.maxActiveJobs != max || (max > 0 && (worker.pool.target != max || worker.pool.independent)) {
          r := worker.SetMaxActiveJobs(max, order, answers);
          SavedLimitsInForce(w, worker.View(), SetMax(max), r, settings);
        }
      }
    }

    /** The periodic convergence without a command waiting. It never undoes a hold or an
        operator's finish, leaves limits alone that are in force already, and otherwise
        puts the saved ones in force; only then may jobs be admitted. */
    method SyncWorkerSettings(settings: WS.Settings, order: seq<PC.Id>, answers: nat -> bool) returns (ok: bool)
      requires worker.Ready(order)
      modifies worker, worker.pool, worker.processes
      ensures worker.pool.Valid() && (ok ==> !worker.settingsPending)
      ensures old(worker.admissionHeld) || old(worker.finishing) || InForce(old(worker.View()), settings) ==>
                && ok && worker.Fields() == old(worker.Fields()).(pending := false)
                && worker.processes.View() == old(worker.processes.View())
                && worker.pool.View().(paused := false) == old(worker.pool.View()).(paused := false)
      ensures ok && !old(worker.admissionHeld) && !old(worker.finishing) ==> InForce(worker.View(), settings)
      ensures ok && !old(worker.admissionHeld) && !old(worker.finishing) && settings.Independent() ==>
                && worker.pool.independent
                && worker.pool.cpuJobs == settings.cpu.value && worker.pool.gpuJobs == settings.gpu.value
      ensures ok && !old(worker.admissionHeld) && !old(worker.finishing)
              && !settings.Independent() && settings.max.Some? ==>
                && worker.maxActiveJobs == settings.max.value
                && (settings.max.value > 0 ==> worker.pool.target == settings.max.value && !worker.pool.independent)
      ensures !ok ==> worker.Fields() == old(worker.Fields()) && worker.pool.View() == old(worker.pool.View())
    {
      if !worker.admissionHeld && !worker.finishing {
        var r := Converge(settings, order, answers);
        if !r.Accepted? {
          return false;
        }
      }
      worker.MarkWorkerSettingsResolved();
      return true;
    }
  }

  /** The limits that the server has saved are those in force. */
  ghost predicate InForce(w: Worker, s: WS.Settings) {
    if s.Independent() then w.pool.independent && w.pool.cpuJobs == s.cpu.value && w.pool.gpuJobs == s.gpu.value
    else s.max.Some? ==>
      w.a.maxActive == s.max.value && (s.max.value > 0 ==> w.pool.target == s.max.value && !w.pool.independent)
  }

  lemma SavedLimitsInForce(w: Worker, v: Worker, op: Op, r: Result, s: WS.Settings)
    requires Next(w, v, op, r)
    requires if s.Independent() then op == SetEncoders(s.cpu.value, s.gpu.value)
             else s.max.Some? && op == SetMax(s.max.value)
    ensures r.Accepted? ==> InForce(v, s)
    ensures !r.Accepted? ==> v.a == w.a && v.pool == w.pool
  {
  }

  lemma SameProcesses(w: Worker, v: Worker, op: Op)
    requires Next(w, v, op, Accepted) && op.SetMode?
    ensures v.controller.processes.Keys == w.controller.processes.Keys
  {
  }

  // ---------------------------------------------------------------------------------
  // All interleavings of one server slot and one worker, with late and lost messages, and
  // with the limits that operators, other workers and the worker itself save meanwhile.

  datatype Execution = Execution(id: nat, failed: bool)

  datatype Stage = Idle | Polled(command: Command) | Answering(id: nat)

  datatype System = System(
    name: string,
    writes: seq<WS.Write>,            // saved limits, in order
    slot: Option<Command>,
    issuedAt: seq<nat>,               // per command, how many writes came before it
    stage: Stage,
    remembered: Option<Execution>,
    executed: seq<Execution>,         // by the current worker process
    earlier: seq<seq<Execution>>,     // by its predecessors
    wire: seq<Ack>)                   // acknowledgements on their way

  datatype Step =
    | SaveLimits(write: WS.Write)
    | Issue(action: Action, cpuJobs: int, gpuJobs: int)
    | Poll
    | Deliver(saved: bool, failed: bool)   // the worker handles what it polled; the outcome if it executes now
    | Answer(sent: bool)                   // the ping succeeds and the acknowledgement leaves, or not
    | Arrive(i: nat)                       // an acknowledgement arrives, late or not
    | Lose(i: nat)
    | Restart                              // a new worker process, with an empty memory

  /** The limits that a command saves before it applies them. */
  function ToSave(c: Command): Option<WS.Settings> {
    match c.action
    case StopAfterCurrent => Some(WS.Pair(0, 0))
    case ResumeQueue => Some(c.limits)
    case _ => None
  }

  ghost function IssuedLimits(s: System, cpuJobs: int, gpuJobs: int): WS.Settings
    requires WS.Valid(s.writes)
  {
    WS.Snapshot(WS.SqlResume(WS.SqlReplay(s.writes), s.name), PreviousLimits(s.slot), cpuJobs, gpuJobs)
  }

  /** The worker executes this command now: it is not the one it remembers. */
  predicate Executes(s: System, step: Step, id: nat) {
    && step.Deliver? && s.stage.Polled? && s.stage.command.id == id
    && (s.remembered.Some? ==> s.remembered.value.id != id)
  }

  ghost predicate Enabled(s: System, step: Step) {
    match step
    case SaveLimits(w) => WS.Valid([w])
    case Issue(action, cpu, gpu) =>
      WS.Valid(s.writes) && (action.ResumeQueue? ==> IssuedLimits(s, cpu, gpu).ValidWrite())
    case Poll => s.stage.Idle? && s.slot.Some? && s.slot.value.state.Pending?
    case Deliver(saved, failed) =>
      && s.stage.Polled?
      && var settings := ToSave(s.stage.command);
         && (saved ==> settings.Some? && settings.value.ValidWrite() && Executes(s, step, s.stage.command.id))
         && (settings.Some? && !failed && Executes(s, step, s.stage.command.id) ==> saved)
    case Answer(_) => s.stage.Answering? && s.remembered.Some?
    case Arrive(i) => i < |s.wire|
    case Lose(i) => i < |s.wire|
    case Restart => true
  }

  ghost function After(s: System, step: Step): System
    requires Enabled(s, step)
  {
    match step
    case SaveLimits(w) => s.(writes := s.writes + [w])
    case Issue(action, cpu, gpu) =>
      s.(slot := Some(Command(|s.issuedAt|, action, Pending, IssuedLimits(s, cpu, gpu))),
         issuedAt := s.issuedAt + [|s.writes|])
    case Poll => s.(stage := Polled(s.slot.value))
    case Deliver(saved, failed) =>
      var c := s.stage.command;
      if !Executes(s, step, c.id) then s.(stage := Answering(c.id))
      else
        s.(stage := Answering(c.id), remembered := Some(Execution(c.id, failed)),
           executed := s.executed + [Execution(c.id, failed)],
           writes := s.writes + if saved then [WS.Write(s.name, ToSave(c).value)] else [])
    case Answer(sent) =>
      s.(stage := Idle, wire := s.wire + if sent then [Ack(s.stage.id, s.remembered.value.failed)] else [])
    case Arrive(i) => s.(slot := AfterAck(s.slot, s.wire[i]), wire := s.wire[..i] + s.wire[i + 1..])
    case Lose(i) => s.(wire := s.wire[..i] + s.wire[i + 1..])
    case Restart => s.(stage := Idle, remembered := None, executed := [], earlier := s.earlier + [s.executed])
  }

  ghost predicate Increasing(executed: seq<Execution>) {
    forall i, j :: 0 <= i < j < |executed| ==> executed[i].id < executed[j].id
  }

  /** Some worker process executed this command with this outcome. */
  ghost predicate Happened(s: System, e: Execution) {
    e in s.executed || exists p :: 0 <= p < |s.earlier| && e in s.earlier[p]
  }

  /** The command carries the last positive limits that were saved before it was issued. */
  ghost predicate Carries(s: System, c: Command) {
    && c.id < |s.issuedAt| && s.issuedAt[c.id] <= |s.writes|
    && var limits := WS.LastPositive(s.writes[..s.issuedAt[c.id]], s.name);
       limits.Some? ==> c.limits == limits.value
  }

  ghost predicate CommandsFit(s: System) {
    && WS.Valid(s.writes) && s.name != ""
    && (s.slot.Some? ==> s.slot.value.id + 1 == |s.issuedAt| && Carries(s, s.slot.value))
    && (s.slot.None? ==> s.issuedAt == [])
    && (s.stage.Polled? ==> Carries(s, s.stage.command))
  }

  ghost predicate ExecutionsFit(s: System) {
    && (s.remembered == if s.executed == [] then None else Some(s.executed[|s.executed| - 1]))
    && Increasing(s.executed) && (forall p :: 0 <= p < |s.earlier| ==> Increasing(s.earlier[p]))
    && (s.remembered.Some? ==> s.remembered.value.id < |s.issuedAt|)
    && (s.stage.Polled? && s.remembered.Some? ==> s.remembered.value.id <= s.stage.command.id)
    && (s.stage.Answering? ==> s.remembered.Some? && s.remembered.value.id == s.stage.id)
  }

  ghost predicate AnswersFit(s: System) {
    && (forall i :: 0 <= i < |s.wire| ==> Happened(s, Execution(s.wire[i].id, s.wire[i].failed)))
    && (s.slot.Some? && !s.slot.value.state.Pending? ==>
          Happened(s, Execution(s.slot.value.id, s.slot.value.state == CommandState.Failed)))
  }

  ghost predicate Inv(s: System) {
    CommandsFit(s) && ExecutionsFit(s) && AnswersFit(s)
  }

  lemma HappenedStays(s: System, step: Step, e: Execution)
    requires Enabled(s, step) && Happened(s, e)
    ensures Happened(After(s, step), e)
  {
    var n := After(s, step);
    if step.Restart? {
      assert n.earlier[|s.earlier|] == s.executed;
      if e !in s.executed {
        var p :| 0 <= p < |s.earlier| && e in s.earlier[p];
        assert n.earlier[p] == s.earlier[p];
      }
    }
  }

  lemma CarriesStays(s: System, t: System, c: Command)
    requires Carries(s, c) && s.writes <= t.writes && s.issuedAt <= t.issuedAt && t.name == s.name
    ensures Carries(t, c)
  {
    assert t.writes[..s.issuedAt[c.id]] == s.writes[..s.issuedAt[c.id]];
  }

  lemma CommandsStayFit(s: System, step: Step)
    requires CommandsFit(s) && Enabled(s, step)
    ensures CommandsFit(After(s, step))
  {
    var t := After(s, step);
    match step {
      case Issue(_, cpu, gpu) =>
        assert s.writes[..|s.writes|] == s.writes;
        var limits := WS.LastPositive(s.writes, s.name);
        if limits.Some? {
          assert s.writes + [] == s.writes;
          WS.StopResumeRoundTrip(s.writes, [], s.name, limits.value, PreviousLimits(s.slot), cpu, gpu);
        }
        if s.stage.Polled? { CarriesStays(s, t, s.stage.command); }
      case _ =>
        if s.slot.Some? { CarriesStays(s, t, s.slot.value); }
        if s.stage.Polled? { CarriesStays(s, t, s.stage.command); }
    }
  }

  lemma ExecutionsStayFit(s: System, step: Step)
    requires CommandsFit(s) && ExecutionsFit(s) && Enabled(s, step)
    ensures ExecutionsFit(After(s, step))
  {
  }

  lemma AnswersStayFit(s: System, step: Step)
    requires ExecutionsFit(s) && AnswersFit(s) && Enabled(s, step)
    ensures AnswersFit(After(s, step))
  {
    forall e | Happened(s, e) ensures Happened(After(s, step), e) { HappenedStays(s, step, e); }
    match step {
      case Arrive(i) => assert Happened(s, Execution(s.wire[i].id, s.wire[i].failed));
      case Answer(sent) => assert s.executed[|s.executed| - 1] in s.executed;
      case _ =>
    }
  }

  lemma StepKeepsInv(s: System, step: Step)
    requires Inv(s) && Enabled(s, step)
    ensures Inv(After(s, step))
  {
    CommandsStayFit(s, step);
    ExecutionsStayFit(s, step);
    AnswersStayFit(s, step);
  }

  ghost predicate Init(s: System) {
    s.name != "" && WS.Valid(s.writes) && s == System(s.name, s.writes, None, [], Idle, None, [], [], [])
  }

  ghost predicate IsRun(run: seq<System>, steps: seq<Step>) {
    && |run| == |steps| + 1
    && forall i :: 0 <= i < |steps| ==> Enabled(run[i], steps[i]) && run[i + 1] == After(run[i], steps[i])
  }

  lemma {:induction false} RunKeepsInv(run: seq<System>, steps: seq<Step>, i: nat)
    requires IsRun(run, steps) && Inv(run[0]) && i < |run|
    ensures Inv(run[i])
  {
    if i > 0 {
      RunKeepsInv(run, steps, i - 1);
      StepKeepsInv(run[i - 1], steps[i - 1]);
    }
  }

  /** In every interleaving each worker process executes every command at most once and in
      the order of issue, and what the server shows as applied or failed is what happened. */
  lemma AtMostOnceInOrder(run: seq<System>, steps: seq<Step>, i: nat)
    requires IsRun(run, steps) && Init(run[0]) && i < |run|
    ensures Increasing(run[i].executed) && forall p :: 0 <= p < |run[i].earlier| ==> Increasing(run[i].earlier[p])
    ensures var s := run[i];
            s.slot.Some? && !s.slot.value.state.Pending? ==>
              Happened(s, Execution(s.slot.value.id, s.slot.value.state == CommandState.Failed))
  {
    RunKeepsInv(run, steps, i);
  }

  /** An acknowledgement of a superseded command never touches the newer one. */
  lemma StaleAckChangesNothing(s: System, i: nat)
    requires Inv(s) && i < |s.wire| && s.wire[i].id + 1 < |s.issuedAt|
    ensures After(s, Arrive(i)).slot == s.slot
  {
  }

  // ---------------------------------------------------------------------------------
  // What a resume restores.

  /** In every interleaving, a resume that is executed saves the last positive limits of the
      moment it was issued. They are the last positive limits of all if and only if none, or
      the same ones, were saved since. */
  lemma ResumeRestoresLimitsOfIssue(run: seq<System>, steps: seq<Step>, i: nat)
    requires IsRun(run, steps) && Init(run[0]) && i < |steps|
    requires steps[i].Deliver? && steps[i].saved && run[i].stage.command.action.ResumeQueue?
    ensures var s, c := run[i], run[i].stage.command;
            && c.id < |s.issuedAt| && s.issuedAt[c.id] <= |s.writes| && WS.Valid(run[i + 1].writes)
            && var limits := WS.LastPositive(s.writes[..s.issuedAt[c.id]], s.name);
               var since := WS.LastPositive(s.writes[s.issuedAt[c.id]..], s.name);
               limits.Some? ==>
                 && run[i + 1].writes == s.writes + [WS.Write(s.name, limits.value)]
                 && WS.SqlSettings(WS.SqlReplay(run[i + 1].writes), s.name)
                    == limits.value.(max := Some(limits.value.Limit()))
                 && (WS.LastPositive(s.writes, s.name) == limits <==> since.None? || since == limits)
  {
    RunKeepsInv(run, steps, i);
    var s, c := run[i], run[i].stage.command;
    var before, since := s.writes[..s.issuedAt[c.id]], s.writes[s.issuedAt[c.id]..];
    assert before + since == s.writes;
    var limits := WS.LastPositive(before, s.name);
    var w := [WS.Write(s.name, c.limits)];
    assert (s.writes + w)[..|s.writes + w| - 1] == s.writes;
    if limits.Some? {
      WS.StopResumeRoundTrip(before, since, s.name, limits.value, None, 0, 0);
    }
  }

  /** So an operator's later limits can be overwritten by an older snapshot: from any state
      with an idle worker, limits saved between issue and delivery are lost. */
  lemma ResumeCanOverwriteLaterLimits(s: System, limits: WS.Settings, later: WS.Settings)
    returns (run: seq<System>, steps: seq<Step>)
    requires Inv(s) && s.stage.Idle? && s.remembered.None?
    requires WS.LastPositive(s.writes, s.name) == Some(limits)
    requires later.ValidWrite() && later.Limit() > 0 && later != limits
    ensures IsRun(run, steps) && run[0] == s
    ensures run[|run| - 1].writes == s.writes + [WS.Write(s.name, later)] + [WS.Write(s.name, limits)]
  {
    WS.StopResumeRoundTrip(s.writes, [], s.name, limits, PreviousLimits(s.slot), 0, 0);
    var s1 := After(s, Issue(ResumeQueue, 0, 0));
    assert s1.slot.value.limits == limits && s1.writes == s.writes;
    var s2 := After(s1, SaveLimits(WS.Write(s.name, later)));
    var s3 := After(s2, Poll);
    assert s3.stage.command.limits == limits && s3.remembered.None?;
    var s4 := After(s3, Deliver(true, false));
    run := [s, s1, s2, s3, s4];
    steps := [Issue(ResumeQueue, 0, 0), SaveLimits(WS.Write(s.name, later)), Poll, Deliver(true, false)];
  }

  /** A stop that is executed without an error has saved zero limits, and leaves what a later
      resume restores alone. */
  lemma StopIsSaved(s: System, saved: bool, failed: bool)
    requires Inv(s) && Enabled(s, Deliver(saved, failed)) && s.stage.command.action.StopAfterCurrent?
    requires Executes(s, Deliver(saved, failed), s.stage.command.id) && (saved || !failed)
    ensures var t := After(s, Deliver(saved, failed));
            && WS.Valid(t.writes)
            && WS.SqlSettings(WS.SqlReplay(t.writes), s.name) == WS.Settings(false, Some(0), Some(0), Some(0))
            && WS.SqlResume(WS.SqlReplay(t.writes), s.name) == WS.SqlResume(WS.SqlReplay(s.writes), s.name)
  {
    StepKeepsInv(s, Deliver(saved, failed));
    var w := WS.Write(s.name, ToSave(s.stage.command).value);
    assert (s.writes + [w])[..|s.writes|] == s.writes;
  }

  // ---------------------------------------------------------------------------------
  // When a restart repeats a command.

  /** Answered or superseded on the server, and not in the hands of the worker. */
  predicate Retired(s: System, id: nat) {
    && id < |s.issuedAt|
    && (s.slot.Some? && s.slot.value.id == id ==> !s.slot.value.state.Pending?)
    && (s.stage.Polled? ==> s.stage.command.id != id)
  }

  lemma RetiredStays(s: System, step: Step, id: nat)
    requires Inv(s) && Enabled(s, step) && Retired(s, id)
    ensures Retired(After(s, step), id) && !Executes(s, step, id)
  {
  }

  /** Once a command is answered or superseded before it is polled, no process runs it, over
      any number of restarts. */
  lemma {:induction false} RetiredForever(run: seq<System>, steps: seq<Step>, i: nat, id: nat)
    requires IsRun(run, steps) && Inv(run[0]) && Retired(run[0], id) && i < |steps|
    ensures Retired(run[i], id) && !Executes(run[i], steps[i], id)
  {
    RunKeepsInv(run, steps, i);
    if i > 0 {
      RetiredForever(run, steps, i - 1, id);
      RunKeepsInv(run, steps, i - 1);
      RetiredStays(run[i - 1], steps[i - 1], id);
    }
    RetiredStays(run[i], steps[i], id);
  }

  /** Some continuation executes the command. */
  ghost predicate CanExecute(s: System, id: nat) {
    exists run: seq<System>, steps: seq<Step> ::
      IsRun(run, steps) && run[0] == s && steps != [] && Executes(run[|steps| - 1], steps[|steps| - 1], id)
  }

  /** After a restart a command can be executed, once more if it was before, if and only if
      the server still shows it as pending. "At most once" is a promise per process. */
  lemma RestartRepeatsExactly(s: System, id: nat)
    requires Inv(s) && id < |s.issuedAt|
    ensures CanExecute(After(s, Restart), id) <==>
              s.slot.Some? && s.slot.value.id == id && s.slot.value.state.Pending?
  {
    var t := After(s, Restart);
    StepKeepsInv(s, Restart);
    if s.slot.Some? && s.slot.value.id == id && s.slot.value.state.Pending? {
      var u := After(t, Poll);
      var run, steps := [t, u, After(u, Deliver(false, true))], [Poll, Deliver(false, true)];
      assert IsRun(run, steps) && Executes(run[|steps| - 1], steps[|steps| - 1], id);
    } else if CanExecute(t, id) {
      var run: seq<System>, steps: seq<Step> :|
        IsRun(run, steps) && run[0] == t && steps != [] && Executes(run[|steps| - 1], steps[|steps| - 1], id);
      RetiredForever(run, steps, |steps| - 1, id);
      assert false;
    }
  }

  lemma FirstExecution(s: System, action: Action) returns (s1: System, s2: System, s3: System)
    requires Inv(s) && s.stage.Idle? && !action.ResumeQueue?
    ensures Enabled(s, Issue(action, 0, 0)) && s1 == After(s, Issue(action, 0, 0))
    ensures Enabled(s1, Poll) && s2 == After(s1, Poll)
    ensures Enabled(s2, Deliver(false, true)) && s3 == After(s2, Deliver(false, true))
    ensures var e := Execution(|s.issuedAt|, true);
            s3 == s1.(stage := Answering(e.id), remembered := Some(e), executed := s.executed + [e])
  {
    s1 := After(s, Issue(action, 0, 0));
    s2 := After(s1, Poll);
    s3 := After(s2, Deliver(false, true));
  }

  /** From any state with an idle worker: a command is issued, executed, and executed again
      by the next process, because its acknowledgement did not arrive in between. */
  lemma RestartMayRepeat(s: System, action: Action) returns (run: seq<System>, steps: seq<Step>)
    requires Inv(s) && s.stage.Idle? && !action.ResumeQueue?
    ensures IsRun(run, steps) && run[0] == s
    ensures var t, e := run[|run| - 1], Execution(|s.issuedAt|, true);
            e in t.executed && |t.earlier| > 0 && e in t.earlier[|t.earlier| - 1]
  {
    steps := [Issue(action, 0, 0), Poll, Deliver(false, true), Restart, Poll, Deliver(false, true)];
    var s1, s2, s3 := FirstExecution(s, action);
    var s4 := After(s3, steps[3]);
    var s5 := After(s4, steps[4]);
    var s6 := After(s5, steps[5]);
    run := [s, s1, s2, s3, s4, s5, s6];
    var e := Execution(|s.issuedAt|, true);
    assert s3.executed[|s.executed|] == e && s4.earlier[|s.earlier|] == s3.executed;
    assert s6.executed == [e];
  }
}
