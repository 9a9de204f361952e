/** The whole worker over time: accepted jobs move through the pipeline phases while
    operators change limits, pause, hold and drain. One step is one critical section or
    one step of a job returning. */
module Pipeline {
  import opened EncoderPool
  import opened Executor
  import PC = PauseControl

  datatype Phase = Download | Extract | Ocr | Encode | Verify | Upload
  {
    /** How many phases a job still has to pass at most, this one included. */
    function Rank(): nat {
      match this
      case Download => 6
      case Extract => 5
      case Ocr => 4
      case Encode => 3
      case Verify => 2
      case Upload => 1
    }
  }

  datatype Stage = Queued | Running | Encoding(kind: Kind)

  datatype Job = Job(phase: Phase, stage: Stage, pin: Pin)
  {
    function Weight(): nat {
      3 * phase.Rank() - if stage.Queued? then 0 else 1
    }
  }

  /** What a returning step leads to; the subtitle tracks of the source choose between the
      first alternatives. */
  datatype Return = Fails | Succeeds(extractable: bool, images: bool)

  datatype Route = Leaves | Enters(phase: Phase)

  function RouteOf(phase: Phase, r: Return): Route {
    if r.Fails? then Leaves
    else
      match phase
      case Download => Enters(if r.extractable then Extract else Encode)
      case Extract => Enters(if r.images then Ocr else Encode)
      case Ocr => Enters(Encode)
      case Encode => Enters(Verify)
      case Verify => Enters(Upload)
      case Upload => Leaves
  }

  /** The phases that a job at `phase` still passes when its steps return `answers`, up to
      where it leaves or the answers end. */
  function Passed(phase: Phase, answers: seq<Return>): seq<Phase>
    decreases |answers|
  {
    if answers == [] then []
    else
      match RouteOf(phase, answers[0])
      case Leaves => [phase]
      case Enters(next) => [phase] + Passed(next, answers[1..])
  }

  predicate Leaving(phase: Phase, answers: seq<Return>)
    decreases |answers|
  {
    answers != [] && (RouteOf(phase, answers[0]).Leaves? || Leaving(RouteOf(phase, answers[0]).phase, answers[1..]))
  }

  lemma OnePhase(phase: Phase, answers: seq<Return>)
    requires Leaving(phase, answers) && answers[0].Succeeds? && phase != Upload
    ensures var next := RouteOf(phase, answers[0]);
            next.Enters? && Leaving(next.phase, answers[1..])
            && Passed(phase, answers) == [phase] + Passed(next.phase, answers[1..])
  {
  }

  lemma EncodedIsUploaded(answers: seq<Return>)
    requires Leaving(Encode, answers) && forall r :: r in answers ==> r.Succeeds?
    ensures Passed(Encode, answers) == [Encode, Verify, Upload]
  {
    OnePhase(Encode, answers);
    OnePhase(Verify, answers[1..]);
    assert Passed(Upload, answers[1..][1..]) == [Upload];
  }

  /** No job leaves without its upload, unless a step failed: it has been encoded, verified and
      uploaded in this order, after its subtitles were extracted if there are any to extract,
      and read if some of them are images. */
  lemma JobPassesEveryPhase(answers: seq<Return>)
    requires Leaving(Download, answers) && forall r :: r in answers ==> r.Succeeds?
    ensures answers[0].extractable ==> |answers| > 1
    ensures var subtitles := if !answers[0].extractable then []
                             else if answers[1].images then [Extract, Ocr] else [Extract];
            Passed(Download, answers) == [Download] + subtitles + [Encode, Verify, Upload]
  {
    OnePhase(Download, answers);
    var rest := answers[1..];
    if answers[0].extractable {
      OnePhase(Extract, rest);
      if rest[0].images {
        OnePhase(Ocr, rest[1..]);
        EncodedIsUploaded(rest[1..][1..]);
      } else {
        EncodedIsUploaded(rest[1..]);
      }
    } else {
      EncodedIsUploaded(rest);
    }
  }

  /** A failed step ends the job at once. */
  lemma FailureEndsTheJob(phase: Phase, answers: seq<Return>)
    requires answers != [] && answers[0].Fails?
    ensures Leaving(phase, answers) && Passed(phase, answers) == [phase]
  {
  }

  datatype System = System(
    w: Worker,
    jobs: seq<Job>,
    releasing: seq<Kind>,   // encodes that returned but still hold their slot
    cleaned: nat)

  function Slots(jobs: seq<Job>, k: Kind): nat {
    if jobs == [] then 0 else (if jobs[0].stage == Encoding(k) then 1 else 0) + Slots(jobs[1..], k)
  }

  function Held(kinds: seq<Kind>, k: Kind): nat {
    if kinds == [] then 0 else (if kinds[0] == k then 1 else 0) + Held(kinds[1..], k)
  }

  function Weights(jobs: seq<Job>): nat {
    if jobs == [] then 0 else jobs[0].Weight() + Weights(jobs[1..])
  }

  /** What is left to do for a worker that accepts nothing new: one unit per step at least. */
  function Measure(s: System): int {
    Weights(s.jobs) + |s.releasing| + 19 * s.w.a.reserved
  }

  datatype Step =
    | Administer(op: Op, result: Result, v: Worker)
    | Process(e: PC.Event, c: PC.Controller)     // an encoder process starts, exits or is removed
    | Reserve(within: bool)
    | Release
    | Accept(pin: Pin)
    | Begin(i: nat)
    | Returns(i: nat, r: Return)
    | FreeSlot
  {
    /** The steps by which accepted work advances. */
    predicate Work() {
      Begin? || Returns? || FreeSlot?
    }
  }

  /** A queued job may begin: an encode when the pool admits it, any other phase when its
      one goroutine is free. */
  predicate MayBegin(s: System, i: nat) {
    && i < |s.jobs| && s.jobs[i].stage.Queued?
    && if s.jobs[i].phase.Encode? then s.w.pool.CanStart(s.jobs[i].pin)
       else forall j :: 0 <= j < |s.jobs| && s.jobs[j].phase == s.jobs[i].phase ==> s.jobs[j].stage.Queued?
  }

  ghost predicate Enabled(s: System, step: Step) {
    match step
    case Administer(op, result, v) => Next(s.w, v, op, result)
    case Process(e, c) => (e.Started? || e.Exited? || e.Removed?) && PC.Next(s.w.controller, c, e)
    case Reserve(within) => s.w.CanReserve(within)
    case Release => s.w.a.reserved > 0
    case Accept(_) => s.w.a.reserved > 0
    case Begin(i) => MayBegin(s, i)
    case Returns(i, _) => i < |s.jobs| && !s.jobs[i].stage.Queued?
    case FreeSlot => s.releasing != []
  }

  function Without(jobs: seq<Job>, i: nat): seq<Job>
    requires i < |jobs|
  {
    jobs[..i] + jobs[i + 1..]
  }

  ghost function After(s: System, step: Step): System
    requires Enabled(s, step)
  {
    match step
    case Administer(_, _, v) => s.(w := v)
    case Process(_, c) => s.(w := s.w.(controller := c))
    case Reserve(_) => s.(w := s.w.(a := s.w.a.(reserved := s.w.a.reserved + 1)))
    case Release => s.(w := s.w.(a := s.w.a.(reserved := s.w.a.reserved - 1)))
    case Accept(pin) =>
      s.(w := s.w.(a := s.w.a.(reserved := s.w.a.reserved - 1, active := s.w.a.active + 1)),
         jobs := s.jobs + [Job(Download, Queued, pin)])
    case Begin(i) =>
      var job := s.jobs[i];
      if job.phase.Encode? then
        var k := s.w.pool.Choice(job.pin);
        s.(w := s.w.(pool := s.w.pool.Start(k)), jobs := s.jobs[i := job.(stage := Encoding(k))])
      else s.(jobs := s.jobs[i := job.(stage := Running)])
    case Returns(i, r) =>
      var job := s.jobs[i];
      var t := s.(releasing := s.releasing + if job.stage.Encoding? then [job.stage.kind] else []);
      (match RouteOf(job.phase, r)
       case Leaves =>
         t.(w := s.w.(a := s.w.a.(active := s.w.a.active - 1)), jobs := Without(s.jobs, i), cleaned := s.cleaned + 1)
       case Enters(phase) =>
         t.(jobs := s.jobs[i := Job(phase, Queued, if job.stage.Encoding? then Pinned(job.stage.kind) else job.pin)]))
    case FreeSlot =>
      s.(w := s.w.(pool := s.w.pool.Finish(s.releasing[0])), releasing := s.releasing[1..])
  }

  ghost predicate Inv(s: System) {
    && s.w.Consistent() && s.w.pool.Valid()
    && s.w.a.active == |s.jobs| && 0 <= s.w.a.reserved
    && s.w.pool.cpuActive == Slots(s.jobs, Cpu) + Held(s.releasing, Cpu)
    && s.w.pool.gpuActive == Slots(s.jobs, Gpu) + Held(s.releasing, Gpu)
  }

  lemma {:induction false} SplitJobs(a: seq<Job>, b: seq<Job>)
    ensures forall k :: Slots(a + b, k) == Slots(a, k) + Slots(b, k)
    ensures Weights(a + b) == Weights(a) + Weights(b)
  {
    if a == [] {
      assert a + b == b;
    } else {
      assert (a + b)[1..] == a[1..] + b;
      SplitJobs(a[1..], b);
    }
  }

  lemma {:induction false} HeldAppend(a: seq<Kind>, k: Kind)
    ensures forall c :: Held(a + [k], c) == Held(a, c) + (if c == k then 1 else 0)
  {
    if a == [] {
      assert a + [k] == [k];
    } else {
      assert (a + [k])[1..] == a[1..] + [k];
      HeldAppend(a[1..], k);
    }
  }

  lemma AddJob(jobs: seq<Job>, job: Job)
    ensures Weights(jobs + [job]) == Weights(jobs) + job.Weight()
    ensures forall k :: Slots(jobs + [job], k) == Slots(jobs, k) + (if job.stage == Encoding(k) then 1 else 0)
  {
    SplitJobs(jobs, [job]);
    assert [job][1..] == [];
    forall k ensures Slots([job], k) == if job.stage == Encoding(k) then 1 else 0 {
    }
  }

  lemma RemoveJob(jobs: seq<Job>, i: nat)
    requires i < |jobs|
    ensures Weights(Without(jobs, i)) == Weights(jobs) - jobs[i].Weight()
    ensures forall k :: Slots(Without(jobs, i), k) == Slots(jobs, k) - (if jobs[i].stage == Encoding(k) then 1 else 0)
  {
    SplitJobs(jobs[..i], jobs[i + 1..]);
    SplitJobs(jobs[..i], jobs[i..]);
    assert jobs == jobs[..i] + jobs[i..] && jobs[i..][1..] == jobs[i + 1..];
  }

  lemma ReplaceJob(jobs: seq<Job>, i: nat, job: Job)
    requires i < |jobs|
    ensures Weights(jobs[i := job]) == Weights(jobs) - jobs[i].Weight() + job.Weight()
    ensures forall k :: Slots(jobs[i := job], k)
                        == Slots(jobs, k) - (if jobs[i].stage == Encoding(k) then 1 else 0)
                           + (if job.stage == Encoding(k) then 1 else 0)
  {
    RemoveJob(jobs, i);
    RemoveJob(jobs[i := job], i);
    assert Without(jobs[i := job], i) == Without(jobs, i);
  }

  /** Accounting: the job counter always equals the jobs in the pipeline, so cleaning never
      wraps it, and the slots in use are those of the encodes that hold one. */
  lemma StepKeepsInv(s: System, step: Step)
    requires Inv(s) && Enabled(s, step)
    ensures Inv(After(s, step))
    ensures step.Returns? && RouteOf(s.jobs[step.i].phase, step.r).Leaves? ==> s.w.a.active > 0
    ensures After(s, step).cleaned + |After(s, step).jobs| == s.cleaned + |s.jobs| + (if step.Accept? then 1 else 0)
  {
    match step {
      case Administer(op, result, v) =>
        OperationKeepsConsistent(s.w, v, op, result);
        if result.Accepted? { PoolAfterIsValid(s.w.a, s.w.pool, op); }
      case Accept(pin) => AddJob(s.jobs, Job(Download, Queued, pin));
      case Begin(i) => BeginKeepsInv(s, i);
      case Returns(i, r) => ReturnKeepsInv(s, i, r);
      case FreeSlot => FinishKeepsValid(s.w.pool, s.releasing[0]);
      case _ =>
    }
  }

  lemma BeginKeepsInv(s: System, i: nat)
    requires Inv(s) && MayBegin(s, i)
    ensures Inv(After(s, Begin(i)))
  {
    var job := s.jobs[i];
    if job.phase.Encode? {
      var k := s.w.pool.Choice(job.pin);
      StartKeepsValid(s.w.pool, job.pin);
      ReplaceJob(s.jobs, i, job.(stage := Encoding(k)));
    } else {
      ReplaceJob(s.jobs, i, job.(stage := Running));
    }
  }

  lemma LeavingKeepsInv(s: System, i: nat, r: Return)
    requires Inv(s) && i < |s.jobs| && !s.jobs[i].stage.Queued? && RouteOf(s.jobs[i].phase, r).Leaves?
    ensures Inv(After(s, Returns(i, r)))
  {
    var job := s.jobs[i];
    if job.stage.Encoding? { HeldAppend(s.releasing, job.stage.kind); } else { assert s.releasing + [] == s.releasing; }
    RemoveJob(s.jobs, i);
  }

  lemma MovingKeepsInv(s: System, i: nat, r: Return)
    requires Inv(s) && i < |s.jobs| && !s.jobs[i].stage.Queued? && RouteOf(s.jobs[i].phase, r).Enters?
    ensures Inv(After(s, Returns(i, r)))
  {
    var job := s.jobs[i];
    if job.stage.Encoding? { HeldAppend(s.releasing, job.stage.kind); } else { assert s.releasing + [] == s.releasing; }
    ReplaceJob(s.jobs, i, After(s, Returns(i, r)).jobs[i]);
  }

  lemma ReturnKeepsInv(s: System, i: nat, r: Return)
    requires Inv(s) && i < |s.jobs| && !s.jobs[i].stage.Queued?
    ensures Inv(After(s, Returns(i, r)))
  {
    if RouteOf(s.jobs[i].phase, r).Leaves? {
      LeavingKeepsInv(s, i, r);
    } else {
      MovingKeepsInv(s, i, r);
    }
  }

  /** Giving back a reservation that was just taken leaves the worker as it was, so the same
      reservation is possible again; or it becomes a job that waits for its download. */
  lemma ReleaseUndoesReserve(s: System, within: bool, pin: Pin)
    requires Inv(s) && Enabled(s, Reserve(within))
    ensures Enabled(After(s, Reserve(within)), Release) && After(After(s, Reserve(within)), Release) == s
    ensures Enabled(After(s, Reserve(within)), Accept(pin))
    ensures var t := After(After(s, Reserve(within)), Accept(pin));
            t.jobs == s.jobs + [Job(Download, Queued, pin)] && t.w.a == s.w.a.(active := s.w.a.active + 1)
  {
  }

  /** Admission is closed and nothing holds accepted work back: for good after a hold or
      drain, until the next limit change after the operator's finish. */
  ghost predicate Closed(w: Worker) {
    w.Draining() || w.FinishingAccepted()
  }

  /** Only two things reopen an operator's finish: a limit change that succeeds, and one that
      fails after it suspended an encode that could not be resumed again. */
  ghost predicate StaysClosed(w: Worker, step: Step) {
    w.Draining() || !(step.Administer? && step.op.LimitChange() && (step.result.Accepted? || Stuck(w, step.v, step.op)))
  }

  ghost predicate Stuck(w: Worker, v: Worker, op: Op) {
    exists e :: op.Event(w.a, e) && e.LeavesTaint() && PC.Next(w.controller, v.controller, e)
  }

  /** Every step of accepted work leaves strictly less to do, and while admission is
      closed no other step adds any. */
  lemma WorkDecreasesMeasure(s: System, step: Step)
    requires Inv(s) && Enabled(s, step) && (step.Work() || Closed(s.w))
    ensures Measure(After(s, step)) <= Measure(s) - if step.Work() then 1 else 0
  {
    match step {
      case Administer(op, result, v) => OperationKeepsConsistent(s.w, v, op, result);
      case Accept(pin) => AddJob(s.jobs, Job(Download, Queued, pin));
      case Begin(i) => ReplaceJob(s.jobs, i, After(s, step).jobs[i]);
      case Returns(i, r) =>
        match RouteOf(s.jobs[i].phase, r) {
          case Leaves => RemoveJob(s.jobs, i);
          case Enters(_) => ReplaceJob(s.jobs, i, After(s, step).jobs[i]);
        }
      case _ =>
    }
  }

  /** A closed worker stays closed, accepts no reservation, and its accepted and reserved
      jobs together never grow. */
  lemma ClosedStep(s: System, step: Step)
    requires Inv(s) && Enabled(s, step) && Closed(s.w) && StaysClosed(s.w, step)
    ensures Closed(After(s, step).w) && (s.w.Draining() ==> After(s, step).w.Draining()) && !step.Reserve?
    ensures var a, b := s.w.a, After(s, step).w.a; b.active + b.reserved <= a.active + a.reserved
  {
    match step {
      case Administer(op, result, v) =>
        OperationKeepsConsistent(s.w, v, op, result);
        if s.w.Draining() {
          DrainingIsForGood(s.w, v, op, result);
        } else {
          FinishingLastsUntilLimitChange(s.w, v, op, result);
        }
      case Process(e, c) => PC.ReleasedStaysReleased(s.w.controller, c, e);
      case _ =>
    }
  }

  /** A closed worker with work left is never stuck: some step of that work can happen
      now, or is running and needs only to return. */
  lemma {:induction false} DrainNeverStuck(s: System) returns (step: Step)
    requires Inv(s) && Closed(s.w) && (s.jobs != [] || s.releasing != [])
    ensures step.Work() && Enabled(s, step)
  {
    if s.releasing != [] {
      return FreeSlot;
    }
    if i: nat :| i < |s.jobs| && !s.jobs[i].stage.Queued? {
      return Returns(i, Fails);
    }
    NothingRunning(s.jobs);
    IdlePoolStartsAnyJob(s.w.pool, s.jobs[0].pin);
    return Begin(0);
  }

  lemma {:induction false} NothingRunning(jobs: seq<Job>)
    requires forall i :: 0 <= i < |jobs| ==> jobs[i].stage.Queued?
    ensures Slots(jobs, Cpu) == 0 && Slots(jobs, Gpu) == 0
  {
    if jobs != [] { NothingRunning(jobs[1..]); }
  }

  // ---------------------------------------------------------------------------------
  // Whole runs.

  /** A worker at startup: restored jobs wait at the phase they had reached. */
  ghost predicate Init(s: System) {
    && Inv(s) && s.releasing == [] && s.w.a.reserved == 0 && s.cleaned == 0
    && forall i :: 0 <= i < |s.jobs| ==> s.jobs[i].stage.Queued?
  }

  ghost predicate IsRun(run: seq<System>, steps: seq<Step>) {
    && |run| == |steps| + 1
    && Inv(run[0])
    && forall i :: 0 <= i < |steps| ==> Enabled(run[i], steps[i]) && run[i + 1] == After(run[i], steps[i])
  }

  lemma {:induction false} RunKeepsInv(run: seq<System>, steps: seq<Step>, i: nat)
    requires IsRun(run, steps) && i < |run|
    ensures Inv(run[i])
  {
    if i > 0 {
      RunKeepsInv(run, steps, i - 1);
      StepKeepsInv(run[i - 1], steps[i - 1]);
    }
  }

  /** Every phase but the encodes has one goroutine, which works on one job at a time. */
  ghost predicate Exclusive(s: System) {
    forall i, j :: 0 <= i < j < |s.jobs| && s.jobs[i].phase == s.jobs[j].phase && !s.jobs[i].phase.Encode? ==>
      s.jobs[i].stage.Queued? || s.jobs[j].stage.Queued?
  }

  lemma StepKeepsExclusive(s: System, step: Step)
    requires Exclusive(s) && Enabled(s, step)
    ensures Exclusive(After(s, step))
  {
    var t := After(s, step);
    forall i, j | 0 <= i < j < |t.jobs| && t.jobs[i].phase == t.jobs[j].phase && !t.jobs[i].phase.Encode?
      ensures t.jobs[i].stage.Queued? || t.jobs[j].stage.Queued?
    {
      if step.Returns? && |t.jobs| < |s.jobs| {
        var a, b := if i < step.i then i else i + 1, if j < step.i then j else j + 1;
        assert t.jobs[i] == s.jobs[a] && t.jobs[j] == s.jobs[b] && a < b;
      }
    }
  }

  /** In every run at most one job is worked on in each phase, apart from the encodes. */
  lemma {:induction false} OneJobPerPhase(run: seq<System>, steps: seq<Step>, n: nat)
    requires IsRun(run, steps) && Init(run[0]) && n < |run|
    ensures Exclusive(run[n])
  {
    if n > 0 {
      OneJobPerPhase(run, steps, n - 1);
      StepKeepsExclusive(run[n - 1], steps[n - 1]);
    }
  }

  lemma AdmissionStep(s: System, step: Step)
    requires Inv(s) && Enabled(s, step)
    ensures var a, b := s.w.a, After(s, step).w.a;
            if step.Reserve? then
              && b.active + b.reserved == a.active + a.reserved + 1
              && b.active + b.reserved <= s.w.pool.target + 1
            else b.active + b.reserved <= a.active + a.reserved
  {
    if step.Administer? {
      OperationKeepsConsistent(s.w, step.v, step.op, step.result);
    }
  }

  /** Accepted and reserved jobs never exceed the larger of the restored ones and one more
      than the largest encode target that was ever in force. */
  lemma {:induction false} AdmissionStaysBounded(run: seq<System>, steps: seq<Step>, i: nat) returns (m: nat)
    requires IsRun(run, steps) && Init(run[0]) && i < |run|
    ensures m <= i
    ensures var a := run[i].w.a;
            || a.active + a.reserved <= |run[0].jobs|
            || a.active + a.reserved <= run[m].w.pool.target + 1
  {
    if i == 0 {
      return 0;
    }
    m := AdmissionStaysBounded(run, steps, i - 1);
    RunKeepsInv(run, steps, i - 1);
    AdmissionStep(run[i - 1], steps[i - 1]);
    if steps[i - 1].Reserve? {
      m := i - 1;
    }
  }

  function WorkSteps(steps: seq<Step>): nat {
    if steps == [] then 0 else WorkSteps(steps[..|steps| - 1]) + if steps[|steps| - 1].Work() then 1 else 0
  }

  /** The drain theorem: from the moment a hold or drain succeeded, or an operator's finish
      until it is reopened, in every run nothing is suspended or paused again, no job
      is added, and the steps of accepted work are bounded by what was left; when no such
      step is possible any more, no job is left. */
  lemma {:induction false} DrainTerminates(run: seq<System>, steps: seq<Step>, i: nat)
    requires IsRun(run, steps) && Closed(run[0].w) && i < |run|
    requires run[0].w.Draining() || forall j :: 0 <= j < i ==> StaysClosed(run[j].w, steps[j])
    ensures Inv(run[i]) && Closed(run[i].w) && (run[0].w.Draining() ==> run[i].w.Draining())
    ensures run[i].w.a.active + run[i].w.a.reserved <= run[0].w.a.active + run[0].w.a.reserved
    ensures WorkSteps(steps[..i]) + Measure(run[i]) <= Measure(run[0]) && 0 <= Measure(run[i])
    ensures (forall step: Step :: step.Work() ==> !Enabled(run[i], step)) ==> run[i].w.a.active == 0
    ensures Measure(run[i]) == 0 ==> run[i].w.a.active == 0 && run[i].w.a.reserved == 0
  {
    if i == 0 {
      assert steps[..0] == [];
    } else {
      DrainTerminates(run, steps, i - 1);
      assert steps[..i][..i - 1] == steps[..i - 1];
      StepKeepsInv(run[i - 1], steps[i - 1]);
      ClosedStep(run[i - 1], steps[i - 1]);
      WorkDecreasesMeasure(run[i - 1], steps[i - 1]);
    }
    if run[i].jobs != [] || run[i].releasing != [] {
      var step := DrainNeverStuck(run[i]);
    }
    EveryJobWeighs(run[i].jobs);
  }

  lemma {:induction false} EveryJobWeighs(jobs: seq<Job>)
    ensures Weights(jobs) >= |jobs|
  {
    if jobs != [] { EveryJobWeighs(jobs[1..]); }
  }
}
