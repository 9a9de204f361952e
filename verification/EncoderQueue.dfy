/** The encoder queue of a worker: one goroutine that scans its pending jobs from left to
    right, starts those that the pool admits, and sleeps until a job arrives or the pool
    says that something changed. */
module EncoderQueue {
  import opened EncoderPool

  /** One uninterrupted scan over `pending`, as a function: the pool afterwards, the jobs
      still pending, and the started ones with the class each got, in order. */
  function ScanFrom(pool: Pool, pending: seq<Pin>): (Pool, seq<Pin>, seq<Kind>)
    decreases |pending|
  {
    if pending == [] then (pool, [], [])
    else if pool.CanStart(pending[0]) then
      var k := pool.Choice(pending[0]);
      var (p, rest, kinds) := ScanFrom(pool.Start(k), pending[1..]);
      (p, rest, [k] + kinds)
    else
      var (p, rest, kinds) := ScanFrom(pool, pending[1..]);
      (p, [pending[0]] + rest, kinds)
  }

  /** The loop of the source, which edits `pending` while it walks over it. */
  method Scan(pool: EncodeConcurrency, pending: seq<Pin>) returns (rest: seq<Pin>, kinds: seq<Kind>)
    requires pool.Valid()
    modifies pool
    ensures pool.Valid()
    ensures (pool.View(), rest, kinds) == ScanFrom(old(pool.View()), pending)
  {
    rest, kinds := pending, [];
    var i := 0;
    ghost var whole := ScanFrom(pool.View(), pending);
    assert rest[0..] == pending;
    while i < |rest|
      invariant 0 <= i <= |rest|
      invariant pool.Valid()
      invariant whole.0 == ScanFrom(pool.View(), rest[i..]).0
      invariant whole.1 == rest[..i] + ScanFrom(pool.View(), rest[i..]).1
      invariant whole.2 == kinds + ScanFrom(pool.View(), rest[i..]).2
      decreases |rest| - i
    {
      ghost var before, tail := rest, rest[i + 1..];
      assert rest[i..][0] == rest[i] && rest[i..][1..] == tail;
      var kind, ok := pool.TryStartEncoder(rest[i]);
      if ok {
        kinds := kinds + [kind];
        rest := rest[..i] + rest[i + 1..];
        assert rest[i..] == tail && rest[..i] == before[..i];
      } else {
        i := i + 1;
        assert rest[..i] == before[..i - 1] + [before[i - 1]];
      }
    }
    assert rest[i..] == [] && rest[..i] == rest;
    assert ScanFrom(pool.View(), []) == (pool.View(), [], []);
    assert whole.0 == pool.View() && whole.1 == rest && whole.2 == kinds;
  }

  /** Work conserving: no job that a scan leaves behind could start on the pool it leaves. */
  lemma {:induction false} ScanLeavesNoStartableJob(pool: Pool, pending: seq<Pin>)
    requires pool.Valid()
    ensures var (p, rest, kinds) := ScanFrom(pool, pending);
            && p.Valid() && |rest| + |kinds| == |pending|
            && (forall j :: 0 <= j < |rest| ==> !p.CanStart(rest[j]))
            && (forall refused :: !pool.CanStart(refused) ==> !p.CanStart(refused))
            && p.active == pool.active + |kinds|
    decreases |pending|
  {
    if pending != [] {
      if pool.CanStart(pending[0]) {
        var k := pool.Choice(pending[0]);
        StartKeepsValid(pool, pending[0]);
        ScanLeavesNoStartableJob(pool.Start(k), pending[1..]);
        forall refused | !pool.CanStart(refused) ensures !pool.Start(k).CanStart(refused) {
          RefusedStaysRefused(pool, pending[0], refused);
        }
      } else {
        ScanLeavesNoStartableJob(pool, pending[1..]);
      }
    }
  }

  /** Progress: with nothing running and no pause in force, one scan of a non-empty queue
      starts at least one job. */
  lemma IdleScanStartsSomething(pool: Pool, pending: seq<Pin>)
    requires pool.Valid() && !pool.paused && pool.active == 0 && |pending| > 0
    ensures |ScanFrom(pool, pending).2| > 0
  {
    IdlePoolStartsAnyJob(pool, pending[0]);
  }

  // ---------------------------------------------------------------------------------
  // Every interleaving of the scan with the other goroutines. Each critical section of
  // the pool is one step; unlocking and notifying are two.

  datatype Phase = Scanning(at: nat) | Blocked

  datatype System = System(
    pool: Pool,
    pending: seq<Pin>,
    phase: Phase,
    token: bool,          // the wakeup channel holds its one token
    owed: nat,            // operations between unlock and notify
    running: seq<Kind>)   // encodes in progress
  {
    /** How far the current scan, or the one before the sleep, has looked. */
    function Looked(): nat {
      if phase.Scanning? then phase.at else |pending|
    }

    ghost predicate Inv() {
      && pool.Valid()
      && Looked() <= |pending|
      && pool.cpuActive == Count(running, Cpu) && pool.gpuActive == Count(running, Gpu)
      && (token || owed > 0 || forall j :: 0 <= j < Looked() ==> !pool.CanStart(pending[j]))
    }
  }

  function Count(s: seq<Kind>, k: Kind): nat {
    if s == [] then 0 else (if s[0] == k then 1 else 0) + Count(s[1..], k)
  }

  lemma {:induction false} CountAppend(s: seq<Kind>, t: seq<Kind>, k: Kind)
    ensures Count(s + t, k) == Count(s, k) + Count(t, k)
  {
    if s == [] {
      assert s + t == t;
    } else {
      assert (s + t)[1..] == s[1..] + t;
      CountAppend(s[1..], t, k);
    }
  }

  lemma CountRemove(s: seq<Kind>, i: nat, k: Kind)
    requires i < |s|
    ensures Count(s[..i] + s[i + 1..], k) == Count(s, k) - (if s[i] == k then 1 else 0)
  {
    assert s == s[..i] + ([s[i]] + s[i + 1..]);
    CountAppend(s[..i], [s[i]] + s[i + 1..], k);
    CountAppend([s[i]], s[i + 1..], k);
    CountAppend(s[..i], s[i + 1..], k);
  }

  datatype Step =
    | TryNext              // the scan tries the job it looks at
    | Sleep                // the scan is over
    | Receive(pin: Pin)    // a job arrives while the queue sleeps
    | Wake                 // the queue takes the token
    | Change(op: Adjustment)       // a limit or pause change unlocks the pool
    | Done(i: nat)         // a running encode releases its slot
    | Notify               // one of the two above notifies

  predicate Enabled(s: System, step: Step) {
    match step
    case TryNext => s.phase.Scanning? && s.phase.at < |s.pending|
    case Sleep => s.phase.Scanning? && s.phase.at >= |s.pending|
    case Receive(_) => s.phase.Blocked?
    case Wake => s.phase.Blocked? && s.token
    case Change(op) => Accepted(op)
    case Done(i) => i < |s.running|
    case Notify => s.owed > 0
  }

  function Next(s: System, step: Step): System
    requires Enabled(s, step)
  {
    match step
    case TryNext =>
      var i := s.phase.at;
      if s.pool.CanStart(s.pending[i]) then
        var k := s.pool.Choice(s.pending[i]);
        s.(pool := s.pool.Start(k), pending := s.pending[..i] + s.pending[i + 1..], running := s.running + [k])
      else s.(phase := Scanning(i + 1))
    case Sleep => s.(phase := Blocked)
    case Receive(pin) => s.(pending := s.pending + [pin], phase := Scanning(0))
    case Wake => s.(token := false, phase := Scanning(0))
    case Change(op) => s.(pool := op.Apply(s.pool), owed := s.owed + 1)
    case Done(i) =>
      s.(pool := s.pool.Finish(s.running[i]), running := s.running[..i] + s.running[i + 1..], owed := s.owed + 1)
    case Notify => s.(owed := s.owed - 1, token := true)
  }

  ghost predicate Init(s: System) {
    s.pool.Valid() && s.pool.active == 0 && s.pending == [] && s.running == [] && s.phase == Scanning(0)
  }

  ghost predicate IsRun(run: seq<System>, steps: seq<Step>) {
    && |run| == |steps| + 1
    && Init(run[0])
    && forall i :: 0 <= i < |steps| ==> Enabled(run[i], steps[i]) && run[i + 1] == Next(run[i], steps[i])
  }

  lemma StartKeepsInv(s: System)
    requires s.Inv() && Enabled(s, TryNext) && s.pool.CanStart(s.pending[s.phase.at])
    ensures Next(s, TryNext).Inv()
  {
    var n, i := Next(s, TryNext), s.phase.at;
    var k := s.pool.Choice(s.pending[i]);
    StartKeepsValid(s.pool, s.pending[i]);
    CountAppend(s.running, [k], Cpu);
    CountAppend(s.running, [k], Gpu);
    forall j | 0 <= j < i && !s.pool.CanStart(s.pending[j]) ensures !n.pool.CanStart(n.pending[j]) {
      RefusedStaysRefused(s.pool, s.pending[i], s.pending[j]);
    }
  }

  lemma StepKeepsInv(s: System, step: Step)
    requires s.Inv() && Enabled(s, step)
    ensures Next(s, step).Inv()
  {
    match step {
      case TryNext =>
        if s.pool.CanStart(s.pending[s.phase.at]) { StartKeepsInv(s); }
      case Done(i) =>
        CountRemove(s.running, i, Cpu);
        CountRemove(s.running, i, Gpu);
        FinishKeepsValid(s.pool, s.running[i]);
      case Change(op) => OpKeepsValid(s.pool, op);
      case _ =>
    }
  }

  lemma {:induction false} RunKeepsInv(run: seq<System>, steps: seq<Step>, i: nat)
    requires IsRun(run, steps) && i < |run|
    ensures run[i].Inv()
  {
    if i > 0 {
      RunKeepsInv(run, steps, i - 1);
      StepKeepsInv(run[i - 1], steps[i - 1]);
    }
  }

  /** No lost wakeup: in every interleaving, when the queue sleeps, a wakeup is on its way
      or none of its jobs can start. In particular a queue with jobs and an idle pool that
      is not paused never sleeps without a wakeup on its way. */
  lemma NoLostWakeup(run: seq<System>, steps: seq<Step>, i: nat)
    requires IsRun(run, steps) && i < |run| && run[i].phase.Blocked? && !run[i].token && run[i].owed == 0
    ensures forall j :: 0 <= j < |run[i].pending| ==> !run[i].pool.CanStart(run[i].pending[j])
    ensures run[i].pool.paused || run[i].running != [] || run[i].pending == []
  {
    RunKeepsInv(run, steps, i);
    var s := run[i];
    if !s.pool.paused && s.running == [] && s.pending != [] {
      IdlePoolStartsAnyJob(s.pool, s.pending[0]);
    }
  }

  /** Slot accounting in every reachable state. */
  lemma SlotsMatchRunningEncodes(run: seq<System>, steps: seq<Step>, i: nat)
    requires IsRun(run, steps) && i < |run|
    ensures run[i].pool.cpuActive == Count(run[i].running, Cpu) && run[i].pool.gpuActive == Count(run[i].running, Gpu)
    ensures run[i].pool.active == |run[i].running|
  {
    RunKeepsInv(run, steps, i);
    CountsAddUp(run[i].running);
  }

  lemma {:induction false} CountsAddUp(s: seq<Kind>)
    ensures Count(s, Cpu) + Count(s, Gpu) == |s|
  {
    if s != [] { CountsAddUp(s[1..]); }
  }

  /** A class only grows by a start, and a start leaves it within its target. */
  lemma GrowthStaysWithinTarget(s: System, step: Step, k: Kind)
    requires s.Inv() && Enabled(s, step)
    ensures var n := Next(s, step).pool;
            n.Active(k) > s.pool.Active(k) ==> step.TryNext? && n.Active(k) <= n.Target(k)
  {
    match step {
      case TryNext =>
        if s.pool.CanStart(s.pending[s.phase.at]) { StartStaysWithinTargets(s.pool, s.pending[s.phase.at]); }
      case Change(op) => OpKeepsValid(s.pool, op);
      case _ =>
    }
  }

  lemma GrowthInRun(run: seq<System>, steps: seq<Step>, i: nat, k: Kind)
    requires IsRun(run, steps) && 0 < i < |run|
    ensures var p, q := run[i - 1].pool, run[i].pool; q.Active(k) > p.Active(k) ==> q.Active(k) <= q.Target(k)
  {
    RunKeepsInv(run, steps, i - 1);
    GrowthStaysWithinTarget(run[i - 1], steps[i - 1], k);
  }

  /** The activity of a class never exceeds the largest target it ever had. */
  lemma {:induction false} ActivityWithinSomeTargetSoFar(run: seq<System>, steps: seq<Step>, i: nat, k: Kind)
    returns (m: nat)
    requires IsRun(run, steps) && i < |run|
    ensures m <= i && run[i].pool.Active(k) <= run[m].pool.Target(k)
  {
    if i == 0 {
      m := 0;
      assert run[0].pool.Valid() && run[0].pool.active == 0;
    } else {
      m := ActivityWithinSomeTargetSoFar(run, steps, i - 1, k);
      GrowthInRun(run, steps, i, k);
      if run[i].pool.Active(k) > run[i - 1].pool.Active(k) {
        m := i;
      }
    }
  }

  /** A class at or above its target only shrinks while its target is not changed. */
  lemma ClassAboveTargetOnlyShrinks(s: System, step: Step, k: Kind)
    requires s.Inv() && Enabled(s, step) && 0 < s.pool.Target(k) <= s.pool.Active(k)
    ensures Next(s, step).pool.Active(k) <= s.pool.Active(k)
  {
    match step {
      case TryNext =>
        if s.pool.CanStart(s.pending[s.phase.at]) { AboveTargetNeverGrows(s.pool, s.pending[s.phase.at], k); }
      case Change(op) => OpKeepsValid(s.pool, op);
      case _ =>
    }
  }
}
