/** The worker pipeline and its encoder queue as one system. An encode that waits is in the
    channel of the queue or in its list, begins only when a scan of the queue starts it, and
    releases its slot as a running encode of the queue. */
module QueuedPipeline {
  import opened EncoderPool
  import opened Executor
  import EP = EncoderPool
  import EQ = EncoderQueue
  import P = Pipeline

  datatype Joint = Joint(s: P.System, q: EQ.System, channel: seq<Pin>)

  datatype Step =
    | Pipe(step: P.Step)     // anything but the start of an encode and the release of a slot
    | TryNext(i: nat)        // `i` is the job that starts, if the scan can start one
    | FreeSlot(r: nat)       // `r` is its place among the running encodes
    | Receive
    | Sleep
    | Wake
    | Notify

  predicate Waits(job: P.Job) {
    job.phase.Encode? && job.stage.Queued?
  }

  /** How many encodes wait with this pin. */
  function Waiting(jobs: seq<P.Job>, pin: Pin): nat {
    if jobs == [] then 0 else One(jobs[0], pin) + Waiting(jobs[1..], pin)
  }

  function One(job: P.Job, pin: Pin): nat {
    if Waits(job) && job.pin == pin then 1 else 0
  }

  function Copies(pins: seq<Pin>, pin: Pin): nat {
    if pins == [] then 0 else (if pins[0] == pin then 1 else 0) + Copies(pins[1..], pin)
  }

  // ---------------------------------------------------------------------------------
  // What an operation does to the pool, change by change; each change notifies the queue.

  function Adjustments(a: Admission, op: Op): seq<Adjustment>
    requires !op.Refused(a)
  {
    match op
    case SetRam(b) => [OpSetPaused(b || a.maxActive == 0 || a.pending)]
    case SetMode(_) => []
    case PauseJob(_, _) => []
    case Resolve => [OpSetPaused((a.maxActive == 0 || a.ramPaused) && !a.held && !a.finishing)]
    case FinishAccepted => [OpSetPaused(false)]
    case DrainAccepted => [OpSetPaused(false)]
    case Hold => [OpSetPaused(false)]
    case SetEncoders(cpu, gpu) =>
      [OpSetLimits(cpu, gpu), OpSetPaused((cpu + gpu == 0 || a.ramPaused || a.pending) && !a.held)]
    case _ =>
      var max := op.LimitAfter();
      var pause := OpSetPaused((op.RamAfter(a) || max == 0 || a.pending) && !a.held);
      if max > 0 then [OpSetTarget(max), pause] else [pause, OpPause]
  }

  predicate AllAccepted(ops: seq<Adjustment>) {
    forall i :: 0 <= i < |ops| ==> EP.Accepted(ops[i])
  }

  function ApplyAll(p: Pool, ops: seq<Adjustment>): Pool
    decreases |ops|
  {
    if ops == [] then p else ApplyAll(ops[0].Apply(p), ops[1..])
  }

  /** The changes amount to what the operation promises of the pool. */
  lemma AdjustmentsAreTheOperation(a: Admission, pool: Pool, op: Op)
    requires !op.Refused(a)
    ensures ApplyAll(pool, Adjustments(a, op)) == op.PoolAfter(a, pool)
    ensures AllAccepted(Adjustments(a, op))
  {
    var ops := Adjustments(a, op);
    if |ops| == 1 {
      assert ops[1..] == [];
    } else if |ops| == 2 {
      ApplyBoth(pool, ops[0], ops[1]);
      assert ops == [ops[0], ops[1]];
    }
  }

  lemma ApplyBoth(pool: Pool, first: Adjustment, second: Adjustment)
    ensures ApplyAll(pool, [first, second]) == second.Apply(first.Apply(pool))
  {
    assert [first, second][1..] == [second] && [second][1..] == [];
    assert ApplyAll(first.Apply(pool), [second]) == second.Apply(first.Apply(pool));
  }

  /** The queue through a series of such changes. */
  function Changed(q: EQ.System, ops: seq<Adjustment>): EQ.System
    requires AllAccepted(ops)
    decreases |ops|
  {
    if ops == [] then q else Changed(EQ.Next(q, EQ.Change(ops[0])), ops[1..])
  }

  lemma {:induction false} ChangesKeepQueue(q: EQ.System, ops: seq<Adjustment>)
    requires q.Inv() && AllAccepted(ops)
    ensures Changed(q, ops).Inv()
    ensures Changed(q, ops) == q.(pool := ApplyAll(q.pool, ops), owed := q.owed + |ops|)
    decreases |ops|
  {
    if ops != [] {
      EQ.StepKeepsInv(q, EQ.Change(ops[0]));
      ChangesKeepQueue(EQ.Next(q, EQ.Change(ops[0])), ops[1..]);
    }
  }

  function ChangesOf(s: P.System, step: P.Step): seq<Adjustment> {
    if step.Administer? && step.result.Accepted? && !step.op.Refused(s.w.a) then Adjustments(s.w.a, step.op) else []
  }

  /** The class that a job is bound to from now on. */
  function Bound(job: P.Job): Pin {
    if job.stage.Encoding? then Pinned(job.stage.kind) else job.pin
  }

  /** The encode that a returning step sends to the queue. */
  function Sent(s: P.System, step: P.Step): seq<Pin> {
    if step.Returns? && step.i < |s.jobs| && P.RouteOf(s.jobs[step.i].phase, step.r) == P.Enters(P.Encode)
    then [Bound(s.jobs[step.i])]
    else []
  }

  // ---------------------------------------------------------------------------------
  // Joint steps.

  ghost predicate Enabled(j: Joint, step: Step) {
    match step
    case Pipe(p) =>
      P.Enabled(j.s, p) && !p.FreeSlot? && !(p.Begin? && j.s.jobs[p.i].phase.Encode?)
    case TryNext(i) =>
      && EQ.Enabled(j.q, EQ.TryNext)
      && (Starts(j) ==>
            P.Enabled(j.s, P.Begin(i)) && Waits(j.s.jobs[i]) && j.s.jobs[i].pin == j.q.pending[j.q.phase.at])
    case FreeSlot(r) => P.Enabled(j.s, P.FreeSlot) && r < |j.q.running| && j.q.running[r] == j.s.releasing[0]
    case Receive => j.q.phase.Blocked? && j.channel != []
    case Sleep => EQ.Enabled(j.q, EQ.Sleep)
    case Wake => EQ.Enabled(j.q, EQ.Wake)
    case Notify => EQ.Enabled(j.q, EQ.Notify)
  }

  /** The scan can start the job that it looks at. */
  predicate Starts(j: Joint)
    requires EQ.Enabled(j.q, EQ.TryNext)
  {
    j.q.pool.CanStart(j.q.pending[j.q.phase.at])
  }

  ghost function After(j: Joint, step: Step): Joint
    requires Enabled(j, step)
  {
    match step
    case Pipe(p) =>
      ChangesAreAccepted(j.s, p);
      Joint(P.After(j.s, p), Changed(j.q, ChangesOf(j.s, p)), j.channel + Sent(j.s, p))
    case TryNext(i) =>
      j.(q := EQ.Next(j.q, EQ.TryNext), s := if Starts(j) then P.After(j.s, P.Begin(i)) else j.s)
    case FreeSlot(r) => j.(q := EQ.Next(j.q, EQ.Done(r)), s := P.After(j.s, P.FreeSlot))
    case Receive => j.(q := EQ.Next(j.q, EQ.Receive(j.channel[0])), channel := j.channel[1..])
    case Sleep => j.(q := EQ.Next(j.q, EQ.Sleep))
    case Wake => j.(q := EQ.Next(j.q, EQ.Wake))
    case Notify => j.(q := EQ.Next(j.q, EQ.Notify))
  }

  lemma ChangesAreAccepted(s: P.System, step: P.Step)
    requires P.Enabled(s, step)
    ensures AllAccepted(ChangesOf(s, step))
    ensures !step.FreeSlot? && !(step.Begin? && s.jobs[step.i].phase.Encode?) ==>
              P.After(s, step).w.pool == ApplyAll(s.w.pool, ChangesOf(s, step))
  {
    if step.Administer? && step.result.Accepted? {
      AdjustmentsAreTheOperation(s.w.a, s.w.pool, step.op);
    }
  }

  ghost predicate Balanced(j: Joint) {
    forall pin: Pin :: Waiting(j.s.jobs, pin) == Copies(j.q.pending, pin) + Copies(j.channel, pin)
  }

  /** The queue has the pins of the waiting encodes, each as often as it occurs, and shares
      the pool. */
  ghost predicate Served(j: Joint) {
    && P.Inv(j.s) && j.q.Inv() && j.q.pool == j.s.w.pool
    && Balanced(j)
  }

  // ---------------------------------------------------------------------------------
  // The pins of the waiting encodes, as jobs come and go.

  lemma {:induction false} WaitingOfBoth(a: seq<P.Job>, b: seq<P.Job>, pin: Pin)
    ensures Waiting(a + b, pin) == Waiting(a, pin) + Waiting(b, pin)
  {
    if a == [] {
      assert a + b == b;
    } else {
      assert (a + b)[1..] == a[1..] + b;
      WaitingOfBoth(a[1..], b, pin);
    }
  }

  lemma {:induction false} CopiesOfBoth(a: seq<Pin>, b: seq<Pin>, pin: Pin)
    ensures Copies(a + b, pin) == Copies(a, pin) + Copies(b, pin)
  {
    if a == [] {
      assert a + b == b;
    } else {
      assert (a + b)[1..] == a[1..] + b;
      CopiesOfBoth(a[1..], b, pin);
    }
  }

  lemma WaitingWithout(jobs: seq<P.Job>, i: nat, pin: Pin)
    requires i < |jobs|
    ensures Waiting(jobs, pin) == Waiting(P.Without(jobs, i), pin) + One(jobs[i], pin)
  {
    WaitingOfBoth(jobs[..i], jobs[i + 1..], pin);
    WaitingOfBoth(jobs[..i], jobs[i..], pin);
    assert jobs == jobs[..i] + jobs[i..] && jobs[i..][1..] == jobs[i + 1..];
  }

  lemma WaitingReplaced(jobs: seq<P.Job>, i: nat, job: P.Job, pin: Pin)
    requires i < |jobs|
    ensures Waiting(jobs[i := job], pin) + One(jobs[i], pin) == Waiting(jobs, pin) + One(job, pin)
  {
    WaitingWithout(jobs, i, pin);
    WaitingWithout(jobs[i := job], i, pin);
    assert P.Without(jobs[i := job], i) == P.Without(jobs, i);
  }

  lemma WaitingMore(jobs: seq<P.Job>, job: P.Job, pin: Pin)
    ensures Waiting(jobs + [job], pin) == Waiting(jobs, pin) + One(job, pin)
  {
    WaitingOfBoth(jobs, [job], pin);
    assert [job][1..] == [];
  }

  lemma CopiesWithout(pins: seq<Pin>, i: nat, pin: Pin)
    requires i < |pins|
    ensures Copies(pins, pin) == Copies(pins[..i] + pins[i + 1..], pin) + if pins[i] == pin then 1 else 0
  {
    CopiesOfBoth(pins[..i], pins[i + 1..], pin);
    CopiesOfBoth(pins[..i], pins[i..], pin);
    assert pins == pins[..i] + pins[i..] && pins[i..][1..] == pins[i + 1..];
  }

  lemma CopiesMore(pins: seq<Pin>, last: Pin, pin: Pin)
    ensures Copies(pins + [last], pin) == Copies(pins, pin) + if last == pin then 1 else 0
  {
    CopiesOfBoth(pins, [last], pin);
    assert [last][1..] == [];
  }

  lemma {:induction false} SomeoneWaits(jobs: seq<P.Job>, pin: Pin) returns (i: nat)
    requires Waiting(jobs, pin) > 0
    ensures i < |jobs| && Waits(jobs[i]) && jobs[i].pin == pin
  {
    if One(jobs[0], pin) == 1 {
      return 0;
    }
    i := SomeoneWaits(jobs[1..], pin);
    i := i + 1;
  }

  lemma {:induction false} SomewhereIn(pins: seq<Pin>, pin: Pin) returns (i: nat)
    requires Copies(pins, pin) > 0
    ensures i < |pins| && pins[i] == pin
  {
    if pins[0] == pin {
      return 0;
    }
    i := SomewhereIn(pins[1..], pin);
    i := i + 1;
  }

  // ---------------------------------------------------------------------------------
  // Every joint step keeps the two machines together.

  lemma ReturnKeepsWaiting(s: P.System, i: nat, r: P.Return, pin: Pin)
    requires i < |s.jobs| && !s.jobs[i].stage.Queued?
    ensures Waiting(P.After(s, P.Returns(i, r)).jobs, pin)
         == Waiting(s.jobs, pin) + Copies(Sent(s, P.Returns(i, r)), pin)
  {
    if P.RouteOf(s.jobs[i].phase, r).Leaves? {
      WaitingWithout(s.jobs, i, pin);
    } else {
      WaitingReplaced(s.jobs, i, P.After(s, P.Returns(i, r)).jobs[i], pin);
      if Sent(s, P.Returns(i, r)) != [] {
        assert [Bound(s.jobs[i])][1..] == [];
      }
    }
  }

  lemma PipeKeepsWaiting(s: P.System, p: P.Step, pin: Pin)
    requires P.Enabled(s, p) && !(p.Begin? && s.jobs[p.i].phase.Encode?)
    ensures Waiting(P.After(s, p).jobs, pin) == Waiting(s.jobs, pin) + Copies(Sent(s, p), pin)
  {
    match p
    case Accept(bound) => WaitingMore(s.jobs, P.Job(P.Download, P.Queued, bound), pin);
    case Begin(i) => WaitingReplaced(s.jobs, i, P.After(s, p).jobs[i], pin);
    case Returns(i, r) => ReturnKeepsWaiting(s, i, r, pin);
    case _ =>
  }

  lemma PipeKeepsServed(j: Joint, p: P.Step)
    requires Served(j) && Enabled(j, Pipe(p))
    ensures Served(After(j, Pipe(p)))
  {
    P.StepKeepsInv(j.s, p);
    ChangesAreAccepted(j.s, p);
    ChangesKeepQueue(j.q, ChangesOf(j.s, p));
    var k := After(j, Pipe(p));
    forall pin: Pin ensures Waiting(k.s.jobs, pin) == Copies(k.q.pending, pin) + Copies(k.channel, pin) {
      PipeKeepsWaiting(j.s, p, pin);
      CopiesOfBoth(j.channel, Sent(j.s, p), pin);
    }
  }

  lemma StartKeepsServed(j: Joint, i: nat)
    requires Served(j) && Enabled(j, TryNext(i)) && Starts(j)
    ensures Served(After(j, TryNext(i)))
  {
    P.StepKeepsInv(j.s, P.Begin(i));
    EQ.StepKeepsInv(j.q, EQ.TryNext);
    var k := After(j, TryNext(i));
    forall pin: Pin ensures Waiting(k.s.jobs, pin) == Copies(k.q.pending, pin) + Copies(k.channel, pin) {
      WaitingReplaced(j.s.jobs, i, P.After(j.s, P.Begin(i)).jobs[i], pin);
      CopiesWithout(j.q.pending, j.q.phase.at, pin);
    }
  }

  lemma ReceiveKeepsServed(j: Joint)
    requires Served(j) && Enabled(j, Receive)
    ensures Served(After(j, Receive))
  {
    EQ.StepKeepsInv(j.q, EQ.Receive(j.channel[0]));
    var k := After(j, Receive);
    forall pin: Pin ensures Waiting(k.s.jobs, pin) == Copies(k.q.pending, pin) + Copies(k.channel, pin) {
      CopiesMore(j.q.pending, j.channel[0], pin);
    }
  }

  lemma QueueKeepsServed(j: Joint, step: Step)
    requires Served(j) && Enabled(j, step) && Queues(j, step)
    ensures Served(After(j, step))
  {
    match step
    case TryNext(_) => EQ.StepKeepsInv(j.q, EQ.TryNext);
    case Receive => ReceiveKeepsServed(j);
    case Sleep => EQ.StepKeepsInv(j.q, EQ.Sleep);
    case Wake => EQ.StepKeepsInv(j.q, EQ.Wake);
    case Notify => EQ.StepKeepsInv(j.q, EQ.Notify);
    case _ =>
  }

  /** Steps that only the queue takes. */
  predicate Queues(j: Joint, step: Step) {
    match step
    case Pipe(_) => false
    case TryNext(_) => EQ.Enabled(j.q, EQ.TryNext) && !Starts(j)
    case FreeSlot(_) => false
    case _ => true
  }

  lemma StepKeepsServed(j: Joint, step: Step)
    requires Served(j) && Enabled(j, step)
    ensures Served(After(j, step))
  {
    match step
    case Pipe(p) => PipeKeepsServed(j, p);
    case TryNext(i) =>
      if Starts(j) {
        StartKeepsServed(j, i);
      } else {
        QueueKeepsServed(j, step);
      }
    case FreeSlot(r) =>
      P.StepKeepsInv(j.s, P.FreeSlot);
      EQ.StepKeepsInv(j.q, EQ.Done(r));
    case _ => QueueKeepsServed(j, step);
  }

  // ---------------------------------------------------------------------------------
  // Whole runs.

  /** A worker at startup: the restored encodes are sent to the queue. */
  ghost predicate Init(j: Joint) {
    && P.Init(j.s) && EQ.Init(j.q) && j.q.pool == j.s.w.pool
    && forall pin: Pin :: Waiting(j.s.jobs, pin) == Copies(j.channel, pin)
  }

  ghost predicate IsRun(run: seq<Joint>, steps: seq<Step>) {
    && |run| == |steps| + 1
    && forall i :: 0 <= i < |steps| ==> Enabled(run[i], steps[i]) && run[i + 1] == After(run[i], steps[i])
  }

  /** From startup on the queue serves the pipeline, whatever is interleaved. */
  lemma {:induction false} QueueServesThePipeline(run: seq<Joint>, steps: seq<Step>, i: nat)
    requires IsRun(run, steps) && i < |run| && (Init(run[0]) || Served(run[0]))
    ensures Served(run[i])
  {
    if i > 0 {
      QueueServesThePipeline(run, steps, i - 1);
      StepKeepsServed(run[i - 1], steps[i - 1]);
    }
  }

  /** While the queue sleeps with nothing on its way to it, no waiting encode may begin. */
  lemma SleepIsJustified(j: Joint, i: nat)
    requires Served(j) && j.q.phase.Blocked? && !j.q.token && j.q.owed == 0 && j.channel == []
    requires i < |j.s.jobs| && Waits(j.s.jobs[i])
    ensures !P.MayBegin(j.s, i)
  {
    WaitingWithout(j.s.jobs, i, j.s.jobs[i].pin);
    var k := SomewhereIn(j.q.pending, j.s.jobs[i].pin);
  }

  /** In every run from startup a sleeping queue holds nothing back: no waiting encode may
      begin, and a closed worker has other work that goes on, or none at all. */
  lemma QueueNeverHoldsTheDrain(run: seq<Joint>, steps: seq<Step>, n: nat)
    requires IsRun(run, steps) && n < |run| && Init(run[0])
    requires run[n].q.phase.Blocked? && !run[n].q.token && run[n].q.owed == 0 && run[n].channel == []
    ensures forall i: nat :: i < |run[n].s.jobs| && Waits(run[n].s.jobs[i]) ==> !P.MayBegin(run[n].s, i)
    ensures var s := run[n].s;
            P.Closed(s.w) && s.jobs != [] ==> s.releasing != [] || exists i :: 0 <= i < |s.jobs| && !Waits(s.jobs[i])
  {
    QueueServesThePipeline(run, steps, n);
    forall i: nat | i < |run[n].s.jobs| && Waits(run[n].s.jobs[i]) ensures !P.MayBegin(run[n].s, i) {
      SleepIsJustified(run[n], i);
    }
    var s := run[n].s;
    if P.Closed(s.w) && s.jobs != [] && s.releasing == [] && forall i :: 0 <= i < |s.jobs| ==> Waits(s.jobs[i]) {
      P.NothingRunning(s.jobs);
      IdlePoolStartsAnyJob(s.w.pool, s.jobs[0].pin);
      assert false;
    }
  }

  // ---------------------------------------------------------------------------------
  // Draining through the queue.

  /** The steps by which accepted work and the queue advance. */
  predicate Advances(step: Step) {
    step.Pipe? ==> step.step.Work()
  }

  /** A running encode for a slot that is to be released. */
  lemma {:induction false} RunningOf(running: seq<Kind>, k: Kind) returns (r: nat)
    requires EQ.Count(running, k) > 0
    ensures r < |running| && running[r] == k
  {
    if running[0] == k {
      return 0;
    }
    r := RunningOf(running[1..], k);
    r := r + 1;
  }

  lemma ScanCanGoOn(j: Joint) returns (step: Step)
    requires Served(j) && j.q.phase.Scanning?
    ensures Enabled(j, step) && Advances(step)
  {
    var at := j.q.phase.at;
    if at >= |j.q.pending| {
      return Sleep;
    }
    CopiesWithout(j.q.pending, at, j.q.pending[at]);
    var i := SomeoneWaits(j.s.jobs, j.q.pending[at]);
    return TryNext(i);
  }

  /** When all that is left is waiting encodes, the queue has something to do. */
  lemma QueueCanGoOn(j: Joint) returns (step: Step)
    requires Served(j) && P.Closed(j.s.w) && j.s.jobs != [] && j.s.releasing == []
    requires forall i :: 0 <= i < |j.s.jobs| ==> Waits(j.s.jobs[i])
    ensures Enabled(j, step) && Advances(step)
  {
    if j.q.phase.Scanning? {
      step := ScanCanGoOn(j);
    } else if j.q.token {
      step := Wake;
    } else if j.q.owed > 0 {
      step := Notify;
    } else {
      step := Receive;
      if j.channel == [] {
        SleepIsJustified(j, 0);
        P.NothingRunning(j.s.jobs);
        IdlePoolStartsAnyJob(j.s.w.pool, j.s.jobs[0].pin);
      }
    }
  }

  /** A closed worker with work left always has a step of that work or of its queue that
      can happen. */
  lemma NeverStuck(j: Joint) returns (step: Step)
    requires Served(j) && P.Closed(j.s.w) && (j.s.jobs != [] || j.s.releasing != [])
    ensures Enabled(j, step) && Advances(step)
  {
    if j.s.releasing != [] {
      var r := RunningOf(j.q.running, j.s.releasing[0]);
      return FreeSlot(r);
    }
    if i: nat :| i < |j.s.jobs| && !j.s.jobs[i].stage.Queued? {
      return Pipe(P.Returns(i, P.Fails));
    }
    if i: nat :| i < |j.s.jobs| && !j.s.jobs[i].phase.Encode? {
      return Pipe(P.Begin(i));
    }
    step := QueueCanGoOn(j);
  }

  /** What the queue may still be told: two for a notification that is owed, one for the
      token, one for each encode in its channel. */
  function Signals(j: Joint): nat {
    2 * j.q.owed + (if j.q.token then 1 else 0) + |j.channel|
  }

  function ScanLeft(q: EQ.System): int {
    if q.phase.Scanning? then |q.pending| + 1 - q.phase.at else 0
  }

  /** How many steps work and queue can still take, when at most `b` - 2 jobs are accepted
      or reserved. */
  function Potential(j: Joint, b: nat): int {
    P.Measure(j.s) * (2 * b + 1) + Signals(j) * b + ScanLeft(j.q)
  }

  lemma {:induction false} CopiesInAll(pins: seq<Pin>)
    ensures Copies(pins, Unpinned) + Copies(pins, Pinned(Cpu)) + Copies(pins, Pinned(Gpu)) == |pins|
  {
    if pins != [] {
      CopiesInAll(pins[1..]);
      assert pins[0].Pinned? ==> pins[0].kind.Cpu? || pins[0].kind.Gpu?;
    }
  }

  lemma {:induction false} WaitingInAll(jobs: seq<P.Job>)
    ensures Waiting(jobs, Unpinned) + Waiting(jobs, Pinned(Cpu)) + Waiting(jobs, Pinned(Gpu)) <= |jobs|
  {
    if jobs != [] {
      WaitingInAll(jobs[1..]);
    }
  }

  lemma QueueIsBounded(j: Joint)
    requires Served(j)
    ensures |j.q.pending| + |j.channel| <= j.s.w.a.active
  {
    CopiesInAll(j.q.pending);
    CopiesInAll(j.channel);
    WaitingInAll(j.s.jobs);
  }

  predicate Fits(j: Joint, b: nat) {
    j.s.w.a.active + j.s.w.a.reserved + 2 <= b
  }

  lemma Times(x: int, y: int, d: int, k: nat)
    requires x <= y + d
    ensures x * k <= y * k + d * k
  {
    assert (y + d - x) * k >= 0;
  }

  lemma QueueStepIsUsed(j: Joint, step: Step, b: nat)
    requires Served(j) && Enabled(j, step) && Queues(j, step) && Fits(j, b)
    ensures Potential(After(j, step), b) < Potential(j, b)
  {
    var k := After(j, step);
    QueueIsBounded(j);
    if Signals(k) < Signals(j) {
      Times(Signals(k), Signals(j), -1, b);
    }
  }

  lemma StartIsUsed(j: Joint, i: nat, b: nat)
    requires Served(j) && Enabled(j, TryNext(i)) && Starts(j)
    ensures Potential(After(j, TryNext(i)), b) < Potential(j, b)
  {
    var k := After(j, TryNext(i));
    P.WorkDecreasesMeasure(j.s, P.Begin(i));
    Times(P.Measure(k.s), P.Measure(j.s), -1, 2 * b + 1);
  }

  lemma ReleaseIsUsed(j: Joint, r: nat, b: nat)
    requires Served(j) && Enabled(j, FreeSlot(r))
    ensures Potential(After(j, FreeSlot(r)), b) < Potential(j, b)
  {
    var k := After(j, FreeSlot(r));
    P.WorkDecreasesMeasure(j.s, P.FreeSlot);
    Times(P.Measure(k.s), P.Measure(j.s), -1, 2 * b + 1);
    Times(Signals(k), Signals(j), 2, b);
  }

  lemma PipeIsUsed(j: Joint, p: P.Step, b: nat)
    requires Served(j) && Enabled(j, Pipe(p)) && (p.Work() || P.Closed(j.s.w))
    ensures Potential(After(j, Pipe(p)), b)
         <= Potential(j, b) + if p.Work() then -1 else if p.Administer? then 4 * b else 0
  {
    var k := After(j, Pipe(p));
    P.WorkDecreasesMeasure(j.s, p);
    ChangesAreAccepted(j.s, p);
    ChangesKeepQueue(j.q, ChangesOf(j.s, p));
    Times(P.Measure(k.s), P.Measure(j.s), if p.Work() then -1 else 0, 2 * b + 1);
    Times(Signals(k), Signals(j), if p.Work() then 1 else if p.Administer? then 4 else 0, b);
  }

  /** Each step of work or queue uses up some of the potential. In a closed worker an
      operation adds to it no more than its notifications, and nothing else does. */
  lemma StepIsUsed(j: Joint, step: Step, b: nat)
    requires Served(j) && Enabled(j, step) && Fits(j, b) && P.Closed(j.s.w)
    ensures Potential(After(j, step), b)
         <= Potential(j, b) + if Advances(step) then -1 else if step.step.Administer? then 4 * b else 0
  {
    match step
    case Pipe(p) => PipeIsUsed(j, p, b);
    case TryNext(i) =>
      if Starts(j) {
        StartIsUsed(j, i, b);
      } else {
        QueueStepIsUsed(j, step, b);
      }
    case FreeSlot(r) => ReleaseIsUsed(j, r, b);
    case _ => QueueStepIsUsed(j, step, b);
  }

  lemma ClosedStep(j: Joint, step: Step)
    requires Served(j) && Enabled(j, step) && P.Closed(j.s.w) && (step.Pipe? ==> P.StaysClosed(j.s.w, step.step))
    ensures var k := After(j, step);
            && P.Closed(k.s.w) && (j.s.w.Draining() ==> k.s.w.Draining())
            && k.s.w.a.active + k.s.w.a.reserved <= j.s.w.a.active + j.s.w.a.reserved
  {
    match step
    case Pipe(p) => P.ClosedStep(j.s, p);
    case TryNext(i) =>
      if Starts(j) {
        P.ClosedStep(j.s, P.Begin(i));
      }
    case FreeSlot(_) => P.ClosedStep(j.s, P.FreeSlot);
    case _ =>
  }

  function Advanced(steps: seq<Step>): nat {
    if steps == [] then 0 else Advanced(steps[..|steps| - 1]) + if Advances(steps[|steps| - 1]) then 1 else 0
  }

  function Operations(steps: seq<Step>): nat {
    if steps == [] then 0 else Operations(steps[..|steps| - 1]) + if IsOperation(steps[|steps| - 1]) then 1 else 0
  }

  predicate IsOperation(step: Step) {
    step.Pipe? && step.step.Administer?
  }

  ghost predicate ClosedRun(run: seq<Joint>, steps: seq<Step>, i: nat) {
    && IsRun(run, steps) && i < |run| && Served(run[0]) && P.Closed(run[0].s.w)
    && (run[0].s.w.Draining()
        || forall n :: 0 <= n < i && steps[n].Pipe? ==> P.StaysClosed(run[n].s.w, steps[n].step))
  }

  lemma {:induction false} RunStaysClosed(run: seq<Joint>, steps: seq<Step>, i: nat, b: nat)
    requires ClosedRun(run, steps, i) && Fits(run[0], b)
    ensures Served(run[i]) && P.Closed(run[i].s.w) && Fits(run[i], b)
    ensures run[0].s.w.Draining() ==> run[i].s.w.Draining()
  {
    if i > 0 {
      RunStaysClosed(run, steps, i - 1, b);
      StepKeepsServed(run[i - 1], steps[i - 1]);
      ClosedStep(run[i - 1], steps[i - 1]);
    }
  }

  lemma {:induction false} RunUsesPotential(run: seq<Joint>, steps: seq<Step>, i: nat, b: nat)
    requires ClosedRun(run, steps, i) && Fits(run[0], b)
    ensures Advanced(steps[..i]) + Potential(run[i], b) <= Potential(run[0], b) + 4 * b * Operations(steps[..i])
  {
    if i == 0 {
      assert steps[..0] == [];
    } else {
      RunUsesPotential(run, steps, i - 1, b);
      RunStaysClosed(run, steps, i - 1, b);
      StepIsUsed(run[i - 1], steps[i - 1], b);
      OperationsCount(steps, i, b);
    }
  }

  lemma OperationsCount(steps: seq<Step>, i: nat, b: nat)
    requires 0 < i <= |steps|
    ensures Advanced(steps[..i]) == Advanced(steps[..i - 1]) + if Advances(steps[i - 1]) then 1 else 0
    ensures 4 * b * Operations(steps[..i])
         == 4 * b * Operations(steps[..i - 1]) + if IsOperation(steps[i - 1]) then 4 * b else 0
  {
    assert steps[..i][..i - 1] == steps[..i - 1];
  }

  lemma PotentialIsLeft(j: Joint, b: nat)
    requires Served(j)
    ensures 0 <= Potential(j, b)
  {
    Times(0, P.Measure(j.s), 0, 2 * b + 1);
    Times(0, Signals(j), 0, b);
  }

  /** The drain theorem with the queue in place: from the moment admission is closed, in every
      run the steps of work and of the queue together are bounded, each later operation adds
      no more than its notifications, and when none of them is possible any more, no job is
      left. */
  lemma DrainEndsThroughTheQueue(run: seq<Joint>, steps: seq<Step>, i: nat)
    requires ClosedRun(run, steps, i)
    ensures P.Closed(run[i].s.w) && (run[0].s.w.Draining() ==> run[i].s.w.Draining())
    ensures var b := run[0].s.w.a.active + run[0].s.w.a.reserved + 2;
            Advanced(steps[..i]) <= Potential(run[0], b) + 4 * b * Operations(steps[..i])
    ensures (forall step: Step :: Advances(step) ==> !Enabled(run[i], step)) ==> run[i].s.w.a.active == 0
  {
    var b := run[0].s.w.a.active + run[0].s.w.a.reserved + 2;
    RunStaysClosed(run, steps, i, b);
    RunUsesPotential(run, steps, i, b);
    PotentialIsLeft(run[i], b);
    if run[i].s.jobs != [] || run[i].s.releasing != [] {
      var step := NeverStuck(run[i]);
    }
  }
}
