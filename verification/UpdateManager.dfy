/** The update manager of the service: it chooses a release, closes admission, and starts the
    installation. Its state file is the durable admission barrier. The helper works on the
    same two files at the same time, and either process may stop between two of its steps. */
module UpdateManager {
  import opened Options
  import MU = ManagedUpdate

  /** A release with its signed manifest. */
  datatype Candidate = Candidate(version: int, signed: string)

  datatype Stage =
    | Unset | Waiting | Downloading | Draining | Installing
    | Retrying | Current | Updated
    | Helping(phase: MU.Phase)

  /** The state file. `pending` is the barrier; `target` and `candidate` say for what. */
  datatype State = State(pending: bool, stage: Stage, target: Option<int>, candidate: Option<Candidate>, attempts: nat)
  {
    function Fail(): State {
      this.(stage := Retrying, attempts := attempts + 1)
    }

    /** A release replaces the stored one if there is none, if the stored one no longer
        verifies, or if it is newer. */
    predicate Selects(c: Candidate, verifies: bool) {
      candidate.None? || !verifies || c.version > candidate.value.version
    }

    function Check(found: Option<Candidate>, verifies: bool): State {
      if found.Some? && Selects(found.value, verifies) then
        State(true, Waiting, Some(found.value.version), found, 0)
      else if pending then this
      else this.(stage := Current, attempts := 0)
    }

    function Clear(installed: int): State {
      State(false, Updated, Some(installed), None, 0)
    }

    predicate Sound() {
      && (candidate.Some? ==> pending && target == Some(candidate.value.version))
      && (pending ==> stage != Unset)
    }

    /** What a process knows of a file that another process may have cleared meanwhile. */
    predicate Follows(disk: State) {
      disk.pending ==> pending && target == disk.target && candidate == disk.candidate
    }
  }

  /** A release that is chosen already is not chosen again: its failures stay counted. Any other
      one is chosen exactly when it is newer or nothing that verifies is stored. */
  lemma ChosenOnce(x: State, c: Candidate, verifies: bool)
    ensures x.candidate == Some(c) && x.pending ==> x.Check(Some(c), true) == x
    ensures x.candidate.Some? && verifies && c.version <= x.candidate.value.version && x.pending ==>
              x.Check(Some(c), verifies) == x
    ensures (x.candidate.Some? && verifies ==> c.version > x.candidate.value.version) ==>
              x.Check(Some(c), verifies) == State(true, Waiting, Some(c.version), Some(c), 0)
    ensures x.pending ==> x.Check(None, verifies) == x
    ensures !x.pending ==> x.Check(None, verifies) == x.(stage := Current, attempts := 0)
  {
  }

  const EMPTY := State(false, Unset, None, None, 0)
  const UNREADABLE := State(true, Retrying, None, None, 0)

  datatype Journal = Journal(phase: MU.Phase, candidate: Candidate)

  /** `Withdrawing` is the manager whose installation has failed after it placed the
      transaction: it still has to write "retrying" over it. `Failing` comes after that write. */
  datatype Pc =
    | Ready
    | Loaded(state: State)
    | Deciding(state: State)
    | Acting(state: State)
    | Starting(state: State)
    | Withdrawing(state: State)
    | Failing(state: State)
    | Clearing
  {
    function Copy(): Option<State> {
      match this
      case Ready => None
      case Clearing => None
      case _ => Some(state)
    }
  }

  /** A working helper writes from the transaction that it has in memory. `Finishing` is the
      helper between its last two writes: the journal says completed, the barrier is still to
      be cleared. */
  datatype Helper = Free | Working(own: Journal) | Finishing(candidate: Candidate)

  datatype System = System(disk: State, memory: State, journal: Option<Journal>, pc: Pc, helper: Helper, installed: int)
  {
    predicate Active() {
      journal.Some? && journal.value.phase.Active()
    }

    /** An active transaction that has gone on to change the installation. */
    predicate Started() {
      Active() && journal.value.phase != MU.Prepared
    }

    predicate CompletedFor(version: int) {
      journal.Some? && journal.value.phase == MU.Completed && journal.value.candidate.version == version
    }

    /** The manager keeps `x` in memory and tries to save it. */
    function Set(x: State, landed: bool): System {
      this.(memory := x, disk := if landed then x else disk)
    }

    function GiveUp(x: State, landed: bool): System {
      Set(x.Fail(), landed).(pc := Ready)
    }

    /** The helper takes its transaction to another phase and writes it. */
    function Advance(phase: MU.Phase): System
      requires helper.Working?
    {
      var own := helper.own.(phase := phase);
      this.(journal := Some(own), helper := Working(own))
    }
  }

  datatype Step =
    | Load(readable: bool, landed: bool)
    | ReadJournal(readable: bool, verifies: bool, landed: bool)
    | CheckNotDue
    | CheckFails(landed: bool)
    | CheckDone(found: Option<Candidate>, verifies: bool, saved: bool, landed: bool)
    | ActFails(landed: bool)
    | ActWaits
    | Report(stage: Stage, saved: bool, landed: bool)
    | Progress(landed: bool)
    | BeginInstall(saved: bool, landed: bool)
    | Install(ok: bool, placed: bool, landed: bool)
    | Withdraw(written: bool)
    | FailNow(landed: bool)
    | Clear(works: bool)
    | Restart(readable: bool, version: int)
    | HelperStarts
    | HelperAdvances(phase: MU.Phase)
    | HelperReports
    | HelperRetries
    | HelperCompletes
    | HelperClears
    | HelperStops

  /** One helper at a time holds the update mutex. Any active transaction can start one: the
      scheduled recovery of an earlier attempt is deleted only when an installation completes. */
  predicate Enabled(s: System, step: Step) {
    match step
    case Load(_, _) => s.pc.Ready?
    case ReadJournal(_, _, _) => s.pc.Loaded?
    case CheckNotDue => s.pc.Deciding?
    case CheckFails(_) => s.pc.Deciding?
    case CheckDone(found, _, _, _) => s.pc.Deciding? && (found.Some? ==> found.value.version > s.installed)
    case ActFails(_) => s.pc.Acting? && s.pc.state.pending
    case ActWaits => s.pc.Acting?
    case Report(stage, _, _) => s.pc.Acting? && s.pc.state.pending && (stage == Downloading || stage == Draining)
    case Progress(_) => s.pc.Acting? && s.pc.state.pending
    case BeginInstall(_, _) =>
      && s.pc.Acting? && s.pc.state.pending
      && s.pc.state.candidate.Some? && s.pc.state.candidate.value.version > s.installed
    case Install(ok, placed, _) => s.pc.Starting? && s.pc.state.candidate.Some? && (ok ==> placed)
    case Withdraw(_) => s.pc.Withdrawing? && s.pc.state.candidate.Some?
    case FailNow(_) => s.pc.Failing?
    case Clear(_) => s.pc.Clearing?
    case Restart(_, version) => version == s.installed || (s.helper.Working? && s.helper.own.phase != MU.Prepared)
    case HelperStarts => s.Active() && s.helper.Free?
    case HelperAdvances(phase) => s.helper.Working? && phase.Active() && phase != MU.Prepared
    case HelperReports => s.helper.Working?
    case HelperRetries => s.helper.Working?
    case HelperCompletes =>
      s.helper.Working? && s.helper.own.phase != MU.Prepared && s.installed == s.helper.own.candidate.version
    case HelperClears => s.helper.Finishing?
    case HelperStops => true
  }

  function Next(s: System, step: Step): System
    requires Enabled(s, step)
  {
    match step
    case Load(readable, landed) =>
      if !readable then s.GiveUp(s.memory.(pending := true), landed)
      else
        var x := if s.disk.stage == Unset then s.memory else s.disk;
        s.(memory := x, pc := Loaded(x))
    case ReadJournal(readable, verifies, landed) =>
      var x := s.pc.state;
      if !readable then s.GiveUp(x.(pending := true), landed)
      else if s.Active() then s.(memory := x.(pending := true, stage := Helping(s.journal.value.phase)), pc := Ready)
      else if s.journal.Some? && s.journal.value.phase == MU.Completed && x.pending then
        var c := s.journal.value.candidate;
        if !verifies then s.GiveUp(x, landed)
        else if s.installed == c.version && x.target == Some(c.version) && (x.candidate.None? || x.candidate.value == c)
        then s.(pc := Clearing)
        else s.(pc := Deciding(x))
      else s.(pc := Deciding(x))
    case CheckNotDue => s.(pc := Acting(s.pc.state))
    case CheckFails(landed) => s.GiveUp(s.pc.state, landed)
    case CheckDone(found, verifies, saved, landed) =>
      var x := s.pc.state.Check(found, verifies);
      if saved then s.Set(x, true).(pc := Acting(x)) else s.GiveUp(x, landed)
    case ActFails(landed) => s.GiveUp(s.pc.state, landed)
    case ActWaits => s.(pc := Ready)
    case Report(stage, saved, landed) =>
      var x := s.pc.state.(stage := stage);
      if stage == Draining then s.Set(x, saved).(pc := Ready)
      else if saved then s.Set(x, true).(pc := Acting(x))
      else s.GiveUp(x, landed)
    case Progress(landed) => s.Set(s.pc.state, landed)
    case BeginInstall(saved, landed) =>
      var x := s.pc.state.(stage := Installing);
      if saved then s.Set(x, true).(pc := Starting(x)) else s.GiveUp(x, landed)
    case Install(ok, placed, landed) =>
      var x := s.pc.state;
      if !placed then s.GiveUp(x, landed)
      else
        s.(journal := Some(Journal(MU.Prepared, x.candidate.value)), pc := if ok then Ready else Withdrawing(x))
    case Withdraw(written) =>
      var x := s.pc.state;
      s.(journal := if written then Some(Journal(MU.Retrying, x.candidate.value)) else s.journal, pc := Failing(x))
    case FailNow(landed) => s.GiveUp(s.pc.state, landed)
    case Clear(works) =>
      s.(disk := if works then s.disk.Clear(s.installed) else s.disk, pc := Ready)
    case Restart(readable, version) =>
      s.(memory := if readable then s.disk else UNREADABLE, pc := Ready, installed := version)
    case HelperStarts => s.(helper := Working(s.journal.value))
    case HelperAdvances(phase) => s.Advance(phase)
    case HelperReports => s.(disk := s.disk.(pending := true).Fail())
    case HelperRetries => s.Advance(MU.Retrying).(helper := Free)
    case HelperCompletes => s.Advance(MU.Completed).(helper := Finishing(s.helper.own.candidate))
    case HelperClears => s.(disk := s.disk.Clear(s.helper.candidate.version), helper := Free)
    case HelperStops => s.(helper := Free)
  }

  // ---------------------------------------------------------------------------------
  // The invariant.

  predicate Init(s: System) {
    s.disk == EMPTY && s.memory == EMPTY && s.journal == None && s.pc == Ready && s.helper == Free
  }

  predicate JournalFits(s: System) {
    s.journal.Some? ==>
      && s.disk.stage != Unset
      && (s.journal.value.phase == MU.Completed ==> s.installed == s.journal.value.candidate.version)
      && (s.Active() ==> s.disk.pending && s.memory.pending)
  }

  /** A helper works behind the barrier, even when the manager has withdrawn its transaction. */
  predicate WorkFits(s: System) {
    s.helper.Working? ==>
      && s.journal.Some? && s.journal.value.phase != MU.Completed
      && s.disk.pending && s.memory.pending
  }

  /** The manager is about to place, or has just placed, the transaction for `x`. */
  predicate InstallFits(s: System, x: State) {
    && x.Sound() && x.Follows(s.disk) && s.memory == x
    && s.disk.stage != Unset && (s.disk.pending || !s.helper.Finishing?)
    && x.candidate.Some? && x.candidate.value.version > s.installed
  }

  predicate PcFits(s: System) {
    match s.pc
    case Ready => true
    case Loaded(x) => x.Sound() && x.Follows(s.disk)
    case Deciding(x) => x.Sound() && x.Follows(s.disk)
    case Acting(x) => x.Sound() && x.Follows(s.disk)
    case Starting(x) => InstallFits(s, x)
    case Withdrawing(x) => InstallFits(s, x) && s.journal.Some?
    case Failing(x) => InstallFits(s, x) && s.journal.Some?
    case Clearing => s.CompletedFor(s.installed) && (s.disk.pending ==> s.disk.target == Some(s.installed))
  }

  /** A helper that is about to clear the barrier has completed the last transaction, or the
      manager has gone on to a newer release since. */
  predicate HelperFits(s: System) {
    s.helper.Finishing? ==>
      var c := s.helper.candidate;
      && s.installed == c.version
      && (s.journal == Some(Journal(MU.Completed, c))
          || (&& s.disk.target != Some(c.version) && s.memory.target != Some(c.version)
              && (s.pc.Copy().Some? ==> s.pc.Copy().value.target != Some(c.version))
              && s.journal.Some? && s.journal.value.phase != MU.Completed))
  }

  predicate Inv(s: System) {
    s.disk.Sound() && s.memory.Sound() && JournalFits(s) && WorkFits(s) && PcFits(s) && HelperFits(s)
  }

  /** The helper clears the barrier although the manager has chosen another release since the
      transaction completed. */
  predicate ClearsTooLate(s: System, step: Step) {
    step.HelperClears? && s.helper.Finishing? && s.disk.pending && s.disk.target != Some(s.helper.candidate.version)
  }

  lemma InitFits(s: System)
    requires Init(s)
    ensures Inv(s) && ChoiceFits(s) && OwnFits(s) && Orderly(s)
  {
  }

  // ---------------------------------------------------------------------------------
  // What the barrier promises.

  /** An active transaction has the barrier up. */
  predicate Behind(s: System) {
    s.Active() ==> s.disk.pending
  }

  /** The two steps that leave an active transaction without its barrier: a helper clears it
      late, when the manager has placed the next transaction already; or the manager places a
      transaction after a late clear that came since it last saved the barrier. */
  predicate Exposes(s: System, step: Step) {
    match step
    case HelperClears => s.Active()
    case Install(_, placed, _) => placed && !s.disk.pending
    case _ => false
  }

  lemma StepIsExposed(s: System, step: Step)
    requires Inv(s) && Enabled(s, step)
    ensures Behind(Next(s, step)) <==> !Exposes(s, step)
  {
  }

  lemma StepKeepsJournal(s: System, step: Step)
    requires Inv(s) && Enabled(s, step) && !Exposes(s, step)
    ensures Next(s, step).disk.Sound() && Next(s, step).memory.Sound() && JournalFits(Next(s, step))
  {
  }

  lemma StepKeepsWork(s: System, step: Step)
    requires Inv(s) && Enabled(s, step) && !Exposes(s, step)
    ensures WorkFits(Next(s, step))
  {
  }

  lemma StepKeepsPc(s: System, step: Step)
    requires Inv(s) && Enabled(s, step) && !Exposes(s, step)
    ensures PcFits(Next(s, step))
  {
  }

  lemma StepKeepsHelper(s: System, step: Step)
    requires Inv(s) && Enabled(s, step) && !Exposes(s, step)
    ensures HelperFits(Next(s, step))
  {
  }

  /** Exactly these steps do that; all others keep the invariant, late clears included. */
  lemma StepKeepsInv(s: System, step: Step)
    requires Inv(s) && Enabled(s, step)
    ensures Behind(Next(s, step)) <==> !Exposes(s, step)
    ensures !Exposes(s, step) ==> Inv(Next(s, step))
  {
    StepIsExposed(s, step);
    if !Exposes(s, step) {
      StepKeepsJournal(s, step);
      StepKeepsWork(s, step);
      StepKeepsPc(s, step);
      StepKeepsHelper(s, step);
    }
  }

  /** A step that drops the durable barrier comes after a completed transaction for the
      pending target. */
  predicate DropIsJustified(s: System, step: Step)
    requires Enabled(s, step)
  {
    s.disk.pending && !Next(s, step).disk.pending ==>
      s.disk.target.Some? && s.CompletedFor(s.disk.target.value)
  }

  lemma BarrierDropsOnlyWhenCompleted(s: System, step: Step)
    requires Inv(s) && Enabled(s, step)
    ensures DropIsJustified(s, step) <==> !ClearsTooLate(s, step)
  {
  }

  /** Without a late clear the manager never starts an installation without its barrier. */
  predicate NothingCleared(s: System) {
    s.pc.Starting? ==> s.disk.pending
  }

  lemma PromptStep(s: System, step: Step)
    requires Inv(s) && NothingCleared(s) && Enabled(s, step) && !ClearsTooLate(s, step)
    ensures NothingCleared(Next(s, step)) && !Exposes(s, step)
  {
  }

  /** What the manager works on is what the file says, as long as the file says anything. */
  predicate ChoiceFits(s: System) {
    && s.disk.Sound() && s.memory.Sound()
    && (s.pc.Copy().Some? ==>
          var x := s.pc.Copy().value;
          x.Sound() && (s.disk.candidate.Some? ==> x.candidate == s.disk.candidate))
  }

  /** The chosen release is kept, or a newer one replaces it. */
  predicate KeepsChoice(before: State, after: State) {
    before.candidate.Some? && after.pending ==>
      after.candidate.Some? && after.candidate.value.version >= before.candidate.value.version
  }

  predicate Older(c: Option<Candidate>, d: Option<Candidate>) {
    d.Some? && (c.None? || c.value.version < d.value.version)
  }

  /** The two steps that forget or lower the chosen release: an unreadable state file is
      replaced from a memory that does not have it, or the stored release no longer verifies
      and an older one is found. */
  predicate Forgets(s: System, step: Step) {
    match step
    case Load(readable, landed) => !readable && landed && Older(s.memory.candidate, s.disk.candidate)
    case CheckDone(found, verifies, saved, landed) =>
      !verifies && found.Some? && (saved || landed) && Older(found, s.disk.candidate)
    case _ => false
  }

  lemma StepKeepsChoice(s: System, step: Step)
    requires ChoiceFits(s) && Enabled(s, step)
    ensures ChoiceFits(Next(s, step))
    ensures KeepsChoice(s.disk, Next(s, step).disk) <==> !Forgets(s, step)
  {
  }

  /** A manager writes over the transaction of an installation that has started. */
  predicate Replaces(s: System, step: Step) {
    && s.Started()
    && match step
       case Withdraw(written) => written
       case Install(_, placed, _) => placed
       case _ => false
  }

  /** A started installation goes on, unless the helper completes it or rolls it back. */
  predicate StartedGoesOn(s: System, step: Step)
    requires Enabled(s, step)
  {
    s.Started() ==>
      var t := Next(s, step);
      && t.journal.Some? && t.journal.value.candidate == s.journal.value.candidate
      && (t.Started() || (step.HelperCompletes? && t.journal.value.phase == MU.Completed)
          || (step.HelperRetries? && t.journal.value.phase == MU.Retrying))
  }

  /** The helper works on the transaction that has started. */
  predicate OwnFits(s: System) {
    s.Started() && s.helper.Working? ==> s.journal.value.candidate == s.helper.own.candidate
  }

  lemma StepKeepsStarted(s: System, step: Step)
    requires OwnFits(s) && Enabled(s, step)
    ensures OwnFits(Next(s, step))
    ensures StartedGoesOn(s, step) <==> !Replaces(s, step)
  {
  }

  /** The manager withdraws a transaction that a helper works on, or has worked on: one that
      the scheduled recovery of an earlier attempt has started before the manager failed. */
  predicate Overlaps(s: System, step: Step) {
    step.Withdraw? && step.written && (s.helper.Working? || s.Started())
  }

  predicate Chosen(x: State, c: Candidate) {
    x.candidate.Some? ==> x.candidate.value == c
  }

  predicate PcIsOrderly(s: System) {
    match s.pc
    case Ready => true
    case Loaded(_) => true
    case Withdrawing(x) => s.memory == x
    case Failing(x) => s.memory == x
    case Starting(x) => s.memory == x && !s.Active()
    case _ => !s.Active()
  }

  /** Manager and helper take turns, and what the helper works on is the chosen release. */
  predicate Orderly(s: System) {
    && ChoiceFits(s) && PcIsOrderly(s)
    && (s.helper.Working? ==> s.Active() && s.journal.value.candidate == s.helper.own.candidate)
    && (s.Active() ==>
          && Chosen(s.disk, s.journal.value.candidate) && Chosen(s.memory, s.journal.value.candidate)
          && (s.pc.Copy().Some? ==> Chosen(s.pc.Copy().value, s.journal.value.candidate)))
  }

  lemma StepKeepsOrderly(s: System, step: Step)
    requires Orderly(s) && Enabled(s, step) && !Overlaps(s, step)
    ensures Orderly(Next(s, step)) && !Replaces(s, step)
  {
    StepKeepsChoice(s, step);
  }

  /** A restarted manager has the barrier up whenever the file or an active transaction asks
      for it, and whenever the file cannot be read. */
  lemma RestartKeepsTheBarrier(s: System, readable: bool, version: int)
    requires Inv(s) && Enabled(s, Restart(readable, version))
    ensures s.disk.pending || s.Active() || !readable ==> Next(s, Restart(readable, version)).memory.pending
  {
  }

  /** A crash between the two halves of the commit is repaired by the next step of the manager. */
  lemma InterruptedCommitIsFinished(s: System, landed: bool)
    requires Inv(s) && s.pc.Ready?
    requires s.disk.pending && s.disk.target == Some(s.installed) && s.CompletedFor(s.installed)
    requires s.disk.candidate.None? || s.disk.candidate.value == s.journal.value.candidate
    ensures var steps := [Load(true, landed), ReadJournal(true, true, landed), Clear(true)];
            IsRun(s, steps) && After(s, steps) == s.(disk := s.disk.Clear(s.installed), memory := s.disk)
  {
    var s1 := Next(s, Load(true, landed));
    var s2 := Next(s1, ReadJournal(true, true, landed));
    var s3 := Next(s2, Clear(true));
    Prepend(s2, Clear(true), []);
    Prepend(s1, ReadJournal(true, true, landed), [Clear(true)]);
    Prepend(s, Load(true, landed), [ReadJournal(true, true, landed)] + [Clear(true)]);
    assert [Load(true, landed)] + ([ReadJournal(true, true, landed)] + [Clear(true)])
        == [Load(true, landed), ReadJournal(true, true, landed), Clear(true)];
  }

  // ---------------------------------------------------------------------------------
  // Whole runs.

  ghost predicate IsRun(s: System, steps: seq<Step>)
    decreases |steps|
  {
    steps != [] ==> Enabled(s, steps[0]) && IsRun(Next(s, steps[0]), steps[1..])
  }

  ghost function After(s: System, steps: seq<Step>): System
    requires IsRun(s, steps)
    decreases |steps|
  {
    if steps == [] then s else After(Next(s, steps[0]), steps[1..])
  }

  lemma Prepend(s: System, step: Step, rest: seq<Step>)
    requires Enabled(s, step) && IsRun(Next(s, step), rest)
    ensures IsRun(s, [step] + rest) && After(s, [step] + rest) == After(Next(s, step), rest)
  {
    assert ([step] + rest)[1..] == rest;
  }

  lemma {:induction false} Join(s: System, first: seq<Step>, second: seq<Step>)
    requires IsRun(s, first) && IsRun(After(s, first), second)
    ensures IsRun(s, first + second) && After(s, first + second) == After(After(s, first), second)
    decreases |first|
  {
    if first == [] {
      assert first + second == second;
    } else {
      Join(Next(s, first[0]), first[1..], second);
      assert (first + second)[1..] == first[1..] + second;
    }
  }

  ghost predicate AlwaysBehind(s: System, steps: seq<Step>)
    requires IsRun(s, steps)
    decreases |steps|
  {
    Behind(s) && (steps != [] ==> AlwaysBehind(Next(s, steps[0]), steps[1..]))
  }

  ghost predicate NeverExposes(s: System, steps: seq<Step>)
    requires IsRun(s, steps)
    decreases |steps|
  {
    steps != [] ==> !Exposes(s, steps[0]) && NeverExposes(Next(s, steps[0]), steps[1..])
  }

  lemma {:induction false} RunKeepsInv(s: System, steps: seq<Step>)
    requires Inv(s) && IsRun(s, steps)
    ensures AlwaysBehind(s, steps) <==> NeverExposes(s, steps)
    ensures NeverExposes(s, steps) ==> Inv(After(s, steps))
    decreases |steps|
  {
    if steps != [] {
      StepKeepsInv(s, steps[0]);
      if !Exposes(s, steps[0]) {
        RunKeepsInv(Next(s, steps[0]), steps[1..]);
      }
    }
  }

  /** In every run an active transaction has the barrier up in every state, if and only if no
      exposing step is taken. Then it is up in memory too. */
  lemma ActiveTransactionIsBehindTheBarrier(s: System, steps: seq<Step>)
    requires Init(s) && IsRun(s, steps)
    ensures AlwaysBehind(s, steps) <==> NeverExposes(s, steps)
    ensures var t := After(s, steps);
            NeverExposes(s, steps) && (t.Active() || t.helper.Working?) ==> t.disk.pending && t.memory.pending
  {
    InitFits(s);
    RunKeepsInv(s, steps);
  }

  ghost predicate DropsAreJustified(s: System, steps: seq<Step>)
    requires IsRun(s, steps)
    decreases |steps|
  {
    steps != [] ==> DropIsJustified(s, steps[0]) && DropsAreJustified(Next(s, steps[0]), steps[1..])
  }

  ghost predicate NeverTooLate(s: System, steps: seq<Step>)
    requires IsRun(s, steps)
    decreases |steps|
  {
    steps != [] ==> !ClearsTooLate(s, steps[0]) && NeverTooLate(Next(s, steps[0]), steps[1..])
  }

  lemma {:induction false} RunDropsAreJustified(s: System, steps: seq<Step>)
    requires Inv(s) && NothingCleared(s) && IsRun(s, steps)
    ensures DropsAreJustified(s, steps) <==> NeverTooLate(s, steps)
    ensures NeverTooLate(s, steps) ==> NeverExposes(s, steps)
    decreases |steps|
  {
    if steps != [] {
      BarrierDropsOnlyWhenCompleted(s, steps[0]);
      if !ClearsTooLate(s, steps[0]) {
        PromptStep(s, steps[0]);
        StepKeepsInv(s, steps[0]);
        RunDropsAreJustified(Next(s, steps[0]), steps[1..]);
      }
    }
  }

  /** In every run the durable barrier drops only after a completed transaction for the
      pending target, if and only if the helper never clears it after a newer release has
      been chosen. Without such a clear no step is exposing either. */
  lemma BarrierNeverDropsEarly(s: System, steps: seq<Step>)
    requires Init(s) && IsRun(s, steps)
    ensures DropsAreJustified(s, steps) <==> NeverTooLate(s, steps)
    ensures NeverTooLate(s, steps) ==> AlwaysBehind(s, steps)
  {
    InitFits(s);
    RunDropsAreJustified(s, steps);
    RunKeepsInv(s, steps);
  }

  ghost predicate ChoiceAlwaysKept(s: System, steps: seq<Step>)
    requires IsRun(s, steps)
    decreases |steps|
  {
    steps != [] ==>
      KeepsChoice(s.disk, Next(s, steps[0]).disk) && ChoiceAlwaysKept(Next(s, steps[0]), steps[1..])
  }

  ghost predicate NeverForgets(s: System, steps: seq<Step>)
    requires IsRun(s, steps)
    decreases |steps|
  {
    steps != [] ==> !Forgets(s, steps[0]) && NeverForgets(Next(s, steps[0]), steps[1..])
  }

  ghost predicate AlwaysPending(s: System, steps: seq<Step>)
    requires IsRun(s, steps)
    decreases |steps|
  {
    s.disk.pending && (steps != [] ==> AlwaysPending(Next(s, steps[0]), steps[1..]))
  }

  lemma PendingNow(s: System, steps: seq<Step>)
    requires IsRun(s, steps) && AlwaysPending(s, steps)
    ensures s.disk.pending
  {
  }

  lemma {:induction false} RunKeepsChoice(s: System, steps: seq<Step>)
    requires ChoiceFits(s) && IsRun(s, steps)
    ensures ChoiceFits(After(s, steps))
    ensures ChoiceAlwaysKept(s, steps) <==> NeverForgets(s, steps)
    ensures NeverForgets(s, steps) && AlwaysPending(s, steps) ==> KeepsChoice(s.disk, After(s, steps).disk)
    decreases |steps|
  {
    if steps != [] {
      var t := Next(s, steps[0]);
      StepKeepsChoice(s, steps[0]);
      RunKeepsChoice(t, steps[1..]);
      if AlwaysPending(s, steps) {
        PendingNow(t, steps[1..]);
      }
    }
  }

  /** In every run, late clears included: while the barrier is up the chosen version only
      increases, if and only if no forgetting step is taken. So between any two states of a
      run with the barrier up throughout, the later one has the same release or a newer. */
  lemma ChosenVersionOnlyIncreases(s: System, first: seq<Step>, second: seq<Step>)
    requires Init(s) && IsRun(s, first) && IsRun(After(s, first), second)
    ensures ChoiceAlwaysKept(s, first) <==> NeverForgets(s, first)
    ensures var t := After(s, first);
            NeverForgets(t, second) && AlwaysPending(t, second) ==> KeepsChoice(t.disk, After(t, second).disk)
  {
    InitFits(s);
    RunKeepsChoice(s, first);
    RunKeepsChoice(After(s, first), second);
  }

  ghost predicate StartedAlwaysGoesOn(s: System, steps: seq<Step>)
    requires IsRun(s, steps)
    decreases |steps|
  {
    steps != [] ==> StartedGoesOn(s, steps[0]) && StartedAlwaysGoesOn(Next(s, steps[0]), steps[1..])
  }

  ghost predicate NeverReplaces(s: System, steps: seq<Step>)
    requires IsRun(s, steps)
    decreases |steps|
  {
    steps != [] ==> !Replaces(s, steps[0]) && NeverReplaces(Next(s, steps[0]), steps[1..])
  }

  ghost predicate NeverOverlaps(s: System, steps: seq<Step>)
    requires IsRun(s, steps)
    decreases |steps|
  {
    steps != [] ==> !Overlaps(s, steps[0]) && NeverOverlaps(Next(s, steps[0]), steps[1..])
  }

  lemma {:induction false} RunKeepsStarted(s: System, steps: seq<Step>)
    requires OwnFits(s) && IsRun(s, steps)
    ensures StartedAlwaysGoesOn(s, steps) <==> NeverReplaces(s, steps)
    decreases |steps|
  {
    if steps != [] {
      StepKeepsStarted(s, steps[0]);
      RunKeepsStarted(Next(s, steps[0]), steps[1..]);
    }
  }

  lemma {:induction false} RunKeepsOrderly(s: System, steps: seq<Step>)
    requires Orderly(s) && IsRun(s, steps) && NeverOverlaps(s, steps)
    ensures Orderly(After(s, steps)) && NeverReplaces(s, steps)
    decreases |steps|
  {
    if steps != [] {
      StepKeepsOrderly(s, steps[0]);
      RunKeepsOrderly(Next(s, steps[0]), steps[1..]);
    }
  }

  /** In every run an installation that has started is given up only by the helper, which
      completes it or rolls it back, if and only if the manager never writes over it. Unless
      a late withdrawal overlaps with a helper the manager never does, and what is installed
      is the chosen release. */
  lemma StartedInstallationIsFinished(s: System, steps: seq<Step>)
    requires Init(s) && IsRun(s, steps)
    ensures StartedAlwaysGoesOn(s, steps) <==> NeverReplaces(s, steps)
    ensures NeverOverlaps(s, steps) ==> NeverReplaces(s, steps)
    ensures var t := After(s, steps);
            NeverOverlaps(s, steps) && t.Active() ==> Chosen(t.disk, t.journal.value.candidate)
  {
    InitFits(s);
    RunKeepsStarted(s, steps);
    if NeverOverlaps(s, steps) {
      RunKeepsOrderly(s, steps);
    }
  }

  lemma Extend(s: System, steps: seq<Step>, t: System, step: Step) returns (more: seq<Step>, u: System)
    requires IsRun(s, steps) && After(s, steps) == t && Enabled(t, step)
    ensures u == Next(t, step) && more == steps + [step]
    ensures IsRun(s, more) && After(s, more) == u
  {
    more, u := steps + [step], Next(t, step);
    Prepend(t, step, []);
    assert [step] + [] == [step];
    Join(s, steps, [step]);
  }

  function For(c: Candidate, stage: Stage): State {
    State(true, stage, Some(c.version), Some(c), 0)
  }

  /** An idle manager finds release `c`. */
  lemma Chooses(s: System, c: Candidate) returns (steps: seq<Step>)
    requires s.pc.Ready? && !s.Active() && !s.disk.pending && s.disk.Sound()
    requires s.disk.stage == Unset ==> !s.memory.pending && s.memory.Sound()
    requires c.version > s.installed
    ensures IsRun(s, steps)
    ensures After(s, steps) == s.(disk := For(c, Waiting), memory := For(c, Waiting), pc := Acting(For(c, Waiting)))
  {
    var t;
    steps, t := Extend(s, [], s, Load(true, true));
    steps, t := Extend(s, steps, t, ReadJournal(true, true, true));
    steps, t := Extend(s, steps, t, CheckDone(Some(c), true, true, true));
  }

  /** The transaction for the chosen release is placed and a helper starts to install it. */
  lemma Begins(s: System, c: Candidate, ok: bool) returns (steps: seq<Step>)
    requires s.pc == Acting(For(c, Waiting)) && s.helper.Free? && c.version > s.installed
    ensures IsRun(s, steps)
    ensures var own := Journal(MU.Installing, c);
            var x := For(c, Installing);
            After(s, steps) == System(x, x, Some(own), if ok then Ready else Withdrawing(x), Working(own), s.installed)
  {
    var t;
    steps, t := Extend(s, [], s, BeginInstall(true, true));
    steps, t := Extend(s, steps, t, Install(ok, true, true));
    assert t.journal == Some(Journal(MU.Prepared, c));
    steps, t := Extend(s, steps, t, HelperStarts);
    steps, t := Extend(s, steps, t, HelperAdvances(MU.Installing));
  }

  /** The chosen release is installed, up to the journal entry that completes it. */
  lemma Installs(s: System, c: Candidate) returns (steps: seq<Step>)
    requires s.pc == Acting(For(c, Waiting)) && s.helper.Free? && c.version > s.installed
    ensures IsRun(s, steps)
    ensures After(s, steps) ==
              System(For(c, Installing), For(c, Installing), Some(Journal(MU.Completed, c)), Ready,
                     Finishing(c), c.version)
  {
    steps := Begins(s, c, true);
    var t := After(s, steps);
    steps, t := Extend(s, steps, t, Restart(true, c.version));
    steps, t := Extend(s, steps, t, HelperCompletes);
  }

  /** The exception can happen: between the two last writes of the helper the restarted
      manager finishes the commit itself and chooses a newer release, whose barrier the
      helper then clears. */
  lemma LateClearCanDropANewerBarrier(s: System, c: Candidate, newer: Candidate) returns (steps: seq<Step>)
    requires Init(s) && s.installed < c.version < newer.version
    ensures IsRun(s, steps)
    ensures var t := After(s, steps);
            && t.disk == For(newer, Waiting) && t.pc == Acting(t.disk) && t.installed == c.version
            && !t.Active() && !t.CompletedFor(newer.version)
            && Enabled(t, HelperClears) && !Next(t, HelperClears).disk.pending
  {
    steps := Chooses(s, c);
    var t := After(s, steps);
    var more := Installs(t, c);
    Join(s, steps, more);
    steps := steps + more;
    t := After(s, steps);
    InterruptedCommitIsFinished(t, true);
    more := [Load(true, true), ReadJournal(true, true, true), Clear(true)];
    Join(s, steps, more);
    steps := steps + more;
    t := After(s, steps);
    more := Chooses(t, newer);
    Join(s, steps, more);
    steps := steps + more;
  }

  /** Then the newer release can be installed without the barrier, in both ways: the late
      clear comes after the next transaction is placed, or just before; and also when the
      installation fails and the manager still has to withdraw it. */
  lemma ActiveTransactionCanLoseTheBarrier(s: System, c: Candidate, newer: Candidate, before: bool, ok: bool)
    returns (steps: seq<Step>)
    requires Init(s) && s.installed < c.version < newer.version
    ensures IsRun(s, steps) && !NeverExposes(s, steps)
    ensures After(s, steps).Active() && !After(s, steps).disk.pending
    ensures After(s, steps).pc.Withdrawing? <==> !ok
  {
    steps := LateClearCanDropANewerBarrier(s, c, newer);
    var t := After(s, steps);
    steps, t := Extend(s, steps, t, BeginInstall(true, true));
    if before {
      steps, t := Extend(s, steps, t, HelperClears);
      steps, t := Extend(s, steps, t, Install(ok, true, true));
    } else {
      steps, t := Extend(s, steps, t, Install(ok, true, true));
      steps, t := Extend(s, steps, t, HelperClears);
    }
    ExposedAtTheEnd(s, steps);
  }

  lemma ExposedAtTheEnd(s: System, steps: seq<Step>)
    requires Init(s) && IsRun(s, steps) && !Behind(After(s, steps))
    ensures !NeverExposes(s, steps)
  {
    InitFits(s);
    RunKeepsInv(s, steps);
  }

  lemma {:induction false} RestNeverReplaces(s: System, first: seq<Step>, rest: seq<Step>)
    requires IsRun(s, first) && IsRun(After(s, first), rest)
    requires IsRun(s, first + rest) && NeverReplaces(s, first + rest)
    ensures NeverReplaces(After(s, first), rest)
    decreases |first|
  {
    if first == [] {
      assert first + rest == rest;
    } else {
      assert (first + rest)[1..] == first[1..] + rest;
      RestNeverReplaces(Next(s, first[0]), first[1..], rest);
    }
  }

  lemma StartsTooEarly(s: System, c: Candidate) returns (steps: seq<Step>)
    requires Init(s) && s.installed < c.version
    ensures IsRun(s, steps)
    ensures var t := After(s, steps); t.Started() && t.pc == Withdrawing(For(c, Installing))
  {
    steps := Chooses(s, c);
    var more := Begins(After(s, steps), c, false);
    Join(s, steps, more);
    steps := steps + more;
  }

  /** A started installation can be lost: a scheduled recovery that is still armed starts a
      helper as soon as the transaction is placed, the manager fails and withdraws the transaction,
      and the helper stops. No helper will look at it again. */
  lemma StartedInstallationCanBeLost(s: System, c: Candidate) returns (first: seq<Step>, rest: seq<Step>)
    requires Init(s) && s.installed < c.version
    ensures IsRun(s, first) && After(s, first).Started() && IsRun(After(s, first), rest)
    ensures IsRun(s, first + rest) && !NeverReplaces(s, first + rest)
    ensures var t := After(s, first + rest);
            t.journal == Some(Journal(MU.Retrying, c)) && t.helper.Free? && !Enabled(t, HelperStarts)
  {
    first := StartsTooEarly(s, c);
    rest := Loses(After(s, first));
    Join(s, first, rest);
    if NeverReplaces(s, first + rest) {
      RestNeverReplaces(s, first, rest);
    }
  }

  lemma Loses(t: System) returns (rest: seq<Step>)
    requires t.Started() && t.pc.Withdrawing? && t.pc.state.candidate.Some?
    ensures IsRun(t, rest) && !NeverReplaces(t, rest)
    ensures var u := After(t, rest);
            u.journal == Some(Journal(MU.Retrying, t.pc.state.candidate.value)) && u.helper.Free?
  {
    var u;
    rest, u := Extend(t, [], t, Withdraw(true));
    rest, u := Extend(t, rest, u, HelperStops);
  }

  /** The chosen release can be forgotten: the service restarts and twice cannot read the
      state file, which it then replaces. */
  lemma UnreadableStateForgets(s: System, c: Candidate) returns (steps: seq<Step>)
    requires Init(s) && s.installed < c.version
    ensures IsRun(s, steps)
    ensures After(s, steps).disk.pending && After(s, steps).disk.candidate == None
  {
    steps := Chooses(s, c);
    var t := After(s, steps);
    steps, t := Extend(s, steps, t, Restart(false, s.installed));
    steps, t := Extend(s, steps, t, Load(false, true));
  }

  /** And it can be replaced by an older one, once it no longer verifies. */
  lemma UnverifiedReleaseIsLowered(s: System, c: Candidate, older: Candidate) returns (steps: seq<Step>)
    requires Init(s) && s.installed < older.version < c.version
    ensures IsRun(s, steps)
    ensures After(s, steps).disk == For(older, Waiting)
  {
    steps := Chooses(s, c);
    var t := After(s, steps);
    steps, t := Extend(s, steps, t, ActWaits);
    steps, t := Extend(s, steps, t, Load(true, true));
    steps, t := Extend(s, steps, t, ReadJournal(true, false, true));
    steps, t := Extend(s, steps, t, CheckDone(Some(older), false, true, true));
  }

  // ---------------------------------------------------------------------------------
  // One step of the manager, as it runs.

  /** What the calls of one step answer. The journal, the stored release and the one to be
      installed each verify or not. `check` is missing when the release check fails, `drained`
      when the workers cannot be asked, and else says whether no work is left. `progress` counts the
      saves of the download progress, and `saves` answers the successive writes. */
  datatype Calls = Calls(state: bool, transaction: bool, journalVerifies: bool, storedVerifies: bool,
                         chosenVerifies: bool, due: bool, retryDue: bool,
                         check: Option<Option<Candidate>>, drain: bool, drained: Option<bool>, staged: bool,
                         downloaded: bool, install: bool, placed: bool, withdrawn: bool, clear: bool,
                         progress: nat, saves: nat -> bool)
  {
    /** The release stored in `x` is newer than what runs, and here. */
    predicate IsReady(x: State, installed: int) {
      && x.pending && retryDue
      && x.candidate.Some? && chosenVerifies && x.candidate.value.version > installed
      && drain && (staged || (saves(3) && downloaded))
    }

    /** What one step knows after the release check, if it comes to that. */
    function Checked(x: State): State {
      if due && check.Some? then x.Check(check.value, storedVerifies) else x
    }

    /** Both files can be read, and the journal leaves the step to the manager. */
    predicate GoesOn(journal: Option<Journal>, x: State, installed: int) {
      && state && transaction && !Engaged(journal, x, installed)
      && (journal.Some? && journal.value.phase == MU.Completed && x.pending ==> journalVerifies)
    }

    predicate CheckWorks() {
      due ==> check.Some? && saves(1)
    }
  }

  /** The journal asks the manager to leave the rest to the helper, or to finish its commit. */
  predicate Engaged(journal: Option<Journal>, x: State, installed: int) {
    && journal.Some?
    && (journal.value.phase.Active()
        || (&& journal.value.phase == MU.Completed && x.pending
            && journal.value.candidate.version == installed && x.target == Some(installed)
            && (x.candidate.None? || x.candidate.value == journal.value.candidate)))
  }

  class Manager {
    const installed: int
    var disk: State
    var memory: State
    var journal: Option<Journal>
    ghost var helper: Helper

    ghost function View(pc: Pc): System
      reads this
    {
      System(disk, memory, journal, pc, helper, installed)
    }

    /** What is left of a step whose release is ready. While work is left it waits; then it
        installs exactly that release, and a failure takes it back. */
    ghost predicate Proceeds(x: State, calls: Calls, before: Option<Journal>)
      requires x.candidate.Some?
      reads this
    {
      var c, y := x.candidate.value, x.(stage := Installing);
      match calls.drained
      case None => journal == before && memory.stage == Retrying && memory.attempts == x.attempts + 1
      case Some(false) =>
        journal == before && memory == x.(stage := Draining) && (calls.saves(5) ==> disk == memory)
      case Some(true) =>
        if !calls.saves(5) then journal == before && memory == y.Fail()
        else if calls.install then journal == Some(Journal(MU.Prepared, c)) && memory == y && disk == y
        else
          && memory == y.Fail() && disk == (if calls.saves(6) then y.Fail() else y)
          && journal == if !calls.placed then before
                        else Some(Journal(if calls.withdrawn then MU.Retrying else MU.Prepared, c))
    }

    constructor (disk: State, readable: bool, journal: Option<Journal>, ghost helper: Helper, installed: int)
      ensures View(Ready) == System(disk, if readable then disk else UNREADABLE, journal, Ready, helper, installed)
    {
      this.disk, this.journal, this.helper, this.installed := disk, journal, helper, installed;
      memory := if readable then disk else UNREADABLE;
    }

    method Set(x: State, landed: bool)
      modifies this`memory, this`disk
      ensures memory == x && disk == if landed then x else old(disk)
    {
      memory := x;
      if landed {
        disk := x;
      }
    }

    method Failure(x: State, landed: bool)
      modifies this`memory, this`disk
      ensures memory == x.Fail() && disk == if landed then x.Fail() else old(disk)
    {
      Set(x.Fail(), landed);
    }

    /** Reads both files. It goes on only without an active or half committed transaction. */
    method ReadFiles(calls: Calls) returns (next: Pc, ghost steps: seq<Step>)
      modifies this`memory, this`disk
      ensures next.Ready? || next.Deciding?
      ensures IsRun(old(View(Ready)), steps) && After(old(View(Ready)), steps) == View(next)
      ensures var x := if old(disk).stage == Unset then old(memory) else old(disk);
              && (next.Deciding? ==> next.state == x && memory == x && disk == old(disk))
              && (next.Deciding? <==> calls.GoesOn(journal, x, installed))
              && (calls.state && calls.transaction && Engaged(journal, x, installed) ==>
                    if journal.value.phase.Active() then
                      memory == x.(pending := true, stage := Helping(journal.value.phase)) && disk == old(disk)
                    else if !calls.journalVerifies then memory == x.Fail()
                    else disk == (if calls.clear then State(false, Updated, Some(installed), None, 0) else old(disk)))
      ensures !calls.state || !calls.transaction ==> memory.pending && memory.stage == Retrying
    {
      ghost var s, t := View(Ready), View(Ready);
      steps, t := Extend(s, [], t, Load(calls.state, calls.saves(0)));
      if !calls.state {
        Failure(memory.(pending := true), calls.saves(0));
        return Ready, steps;
      }
      if disk.stage != Unset {
        memory := disk;
      }
      var x := memory;
      steps, t := Extend(s, steps, t, ReadJournal(calls.transaction, calls.journalVerifies, calls.saves(0)));
      if !calls.transaction {
        Failure(x.(pending := true), calls.saves(0));
        return Ready, steps;
      }
      if journal.Some? && journal.value.phase.Active() {
        memory := x.(pending := true, stage := Helping(journal.value.phase));
        return Ready, steps;
      }
      if journal.Some? && journal.value.phase == MU.Completed && x.pending {
        if !calls.journalVerifies {
          Failure(x, calls.saves(0));
          return Ready, steps;
        }
        var c := journal.value.candidate;
        if installed == c.version && x.target == Some(c.version) && (x.candidate.None? || x.candidate.value == c) {
          steps, t := Extend(s, steps, t, Clear(calls.clear));
          if calls.clear {
            disk := disk.Clear(installed);
          }
          return Ready, steps;
        }
      }
      return Deciding(x), steps;
    }

    method CheckRelease(x: State, calls: Calls) returns (next: Pc, ghost step: Step)
      requires calls.check.Some? && calls.check.value.Some? ==> calls.check.value.value.version > installed
      modifies this`memory, this`disk
      ensures next.Ready? || next.Acting?
      ensures Enabled(old(View(Deciding(x))), step) && View(next) == Next(old(View(Deciding(x))), step)
      ensures next.Acting? <==> calls.CheckWorks()
      ensures next.Acting? ==> next.state == calls.Checked(x)
      ensures if calls.CheckWorks() then
                if calls.due then disk == memory == calls.Checked(x) else disk == old(disk) && memory == old(memory)
              else memory == calls.Checked(x).Fail()
    {
      if !calls.due {
        return Acting(x), CheckNotDue;
      }
      if calls.check.None? {
        Failure(x, calls.saves(1));
        return Ready, CheckFails(calls.saves(1));
      }
      step := CheckDone(calls.check.value, calls.storedVerifies, calls.saves(1), calls.saves(2));
      var y := x;
      if calls.check.value.Some? {
        var c := calls.check.value.value;
        var selectNew := x.candidate.None?;
        if x.candidate.Some? {
          selectNew := if !calls.storedVerifies then true else c.version > x.candidate.value.version;
        }
        if selectNew {
          y := State(true, Waiting, Some(c.version), Some(c), 0);
        }
      }
      if !y.pending {
        y := y.(stage := Current, attempts := 0);
      }
      if !calls.saves(1) {
        Failure(y, calls.saves(2));
        return Ready, step;
      }
      Set(y, true);
      return Acting(y), step;
    }

    /** Drains, downloads and starts the helper. The journal changes only when the release is
        ready and no work is left; then it gets exactly that release. */
    method Act(x: State, calls: Calls) returns (ghost steps: seq<Step>)
      modifies this`memory, this`disk, this`journal
      ensures IsRun(old(View(Acting(x))), steps) && After(old(View(Acting(x))), steps) == View(Ready)
      ensures !x.pending || !calls.retryDue ==>
                memory == old(memory) && disk == old(disk) && journal == old(journal)
      ensures calls.IsReady(x, installed) ==> Proceeds(x, calls, old(journal))
      ensures x.pending && calls.retryDue && !calls.IsReady(x, installed) ==>
                journal == old(journal) && memory.stage == Retrying && memory.attempts == x.attempts + 1
    {
      ghost var s, t := View(Acting(x)), View(Acting(x));
      if !x.pending || !calls.retryDue {
        steps, t := Extend(s, [], t, ActWaits);
        return;
      }
      if x.candidate.None? || !calls.chosenVerifies || x.candidate.value.version <= installed || !calls.drain {
        steps, t := Extend(s, [], t, ActFails(calls.saves(3)));
        Failure(x, calls.saves(3));
        return;
      }
      var here, y;
      here, y, steps := Download(x, calls);
      if here {
        ghost var more := StartHelper(y, calls);
        Join(s, steps, more);
        steps := steps + more;
      }
    }

    /** Brings the installer here, if it is not here already. */
    method Download(x: State, calls: Calls) returns (here: bool, y: State, ghost steps: seq<Step>)
      requires x.pending
      modifies this`memory, this`disk
      ensures IsRun(old(View(Acting(x))), steps)
      ensures After(old(View(Acting(x))), steps) == View(if here then Acting(y) else Ready)
      ensures here <==> calls.staged || (calls.saves(3) && calls.downloaded)
      ensures y == if calls.staged then x else x.(stage := Downloading)
      ensures !here ==> memory == y.Fail()
    {
      ghost var s, t := View(Acting(x)), View(Acting(x));
      if calls.staged {
        return true, x, [];
      }
      here, y := false, x.(stage := Downloading);
      steps, t := Extend(s, [], t, Report(Downloading, calls.saves(3), calls.saves(4)));
      if !calls.saves(3) {
        Failure(y, calls.saves(4));
        return;
      }
      Set(y, true);
      steps, t := SaveProgress(s, steps, y, calls);
      if !calls.downloaded {
        steps, t := Extend(s, steps, t, ActFails(calls.saves(4)));
        Failure(y, calls.saves(4));
        return;
      }
      here := true;
    }

    /** The download saves its progress now and then; a save that fails is ignored. */
    method SaveProgress(ghost s: System, ghost done: seq<Step>, y: State, calls: Calls)
      returns (ghost steps: seq<Step>, ghost t: System)
      requires y.pending && IsRun(s, done) && After(s, done) == View(Acting(y))
      modifies this`memory, this`disk
      ensures t == View(Acting(y)) && IsRun(s, steps) && After(s, steps) == t
    {
      steps, t := done, View(Acting(y));
      for i := 0 to calls.progress
        invariant t == View(Acting(y)) && IsRun(s, steps) && After(s, steps) == t
      {
        steps, t := Extend(s, steps, t, Progress(calls.saves(7 + i)));
        Set(y, calls.saves(7 + i));
      }
    }

    method StartHelper(y: State, calls: Calls) returns (ghost steps: seq<Step>)
      requires y.pending && y.candidate.Some? && y.candidate.value.version > installed
      modifies this`memory, this`disk, this`journal
      ensures IsRun(old(View(Acting(y))), steps) && After(old(View(Acting(y))), steps) == View(Ready)
      ensures Proceeds(y, calls, old(journal))
    {
      ghost var s, t := View(Acting(y)), View(Acting(y));
      if calls.drained.None? {
        steps, t := Extend(s, [], t, ActFails(calls.saves(5)));
        Failure(y, calls.saves(5));
        return;
      }
      if !calls.drained.value {
        steps, t := Extend(s, [], t, Report(Draining, calls.saves(5), calls.saves(6)));
        Set(y.(stage := Draining), calls.saves(5));
        return;
      }
      steps := Begin(y, calls);
    }

    /** With no work left: the barrier is saved again before the transaction is placed. */
    method Begin(y: State, calls: Calls) returns (ghost steps: seq<Step>)
      requires y.pending && y.candidate.Some? && y.candidate.value.version > installed
      modifies this`memory, this`disk, this`journal
      ensures IsRun(old(View(Acting(y))), steps) && After(old(View(Acting(y))), steps) == View(Ready)
      ensures calls.drained == Some(true) ==> Proceeds(y, calls, old(journal))
    {
      ghost var s, t := View(Acting(y)), View(Acting(y));
      var z := y.(stage := Installing);
      steps, t := Extend(s, [], t, BeginInstall(calls.saves(5), calls.saves(6)));
      if !calls.saves(5) {
        Failure(z, calls.saves(6));
        return;
      }
      Set(z, true);
      ghost var more := PrepareInstall(z, calls);
      Join(s, steps, more);
      steps := steps + more;
    }

    /** A failure after the transaction has been placed withdraws it again. */
    method PrepareInstall(z: State, calls: Calls) returns (ghost steps: seq<Step>)
      requires z.candidate.Some?
      modifies this`memory, this`disk, this`journal
      ensures IsRun(old(View(Starting(z))), steps) && After(old(View(Starting(z))), steps) == View(Ready)
      ensures calls.install ==>
                journal == Some(Journal(MU.Prepared, z.candidate.value)) && memory == old(memory) && disk == old(disk)
      ensures !calls.install ==>
                && memory == z.Fail() && disk == (if calls.saves(6) then z.Fail() else old(disk))
                && journal == if !calls.placed then old(journal)
                              else
                                Some(Journal(if calls.withdrawn then MU.Retrying else MU.Prepared, z.candidate.value))
    {
      ghost var s, t := View(Starting(z)), View(Starting(z));
      var placed := calls.install || calls.placed;
      steps, t := Extend(s, [], t, Install(calls.install, placed, calls.saves(6)));
      if placed {
        journal := Some(Journal(MU.Prepared, z.candidate.value));
        if calls.install {
          return;
        }
        steps, t := Extend(s, steps, t, Withdraw(calls.withdrawn));
        if calls.withdrawn {
          journal := Some(Journal(MU.Retrying, z.candidate.value));
        }
        steps, t := Extend(s, steps, t, FailNow(calls.saves(6)));
      }
      Failure(z, calls.saves(6));
    }

    /** One whole step. It is a run of the state machine above, so all that is proved of runs
        holds of it, however other steps are placed between its own. Only a release that is
        ready is installed, and only once no work is left. */
    method Step(calls: Calls) returns (ghost steps: seq<Step>)
      requires calls.check.Some? && calls.check.value.Some? ==> calls.check.value.value.version > installed
      modifies this`memory, this`disk, this`journal
      ensures IsRun(old(View(Ready)), steps) && After(old(View(Ready)), steps) == View(Ready)
      ensures var x := if old(disk).stage == Unset then old(memory) else old(disk);
              var y := calls.Checked(x);
              if calls.GoesOn(old(journal), x, installed) && calls.CheckWorks() && calls.IsReady(y, installed)
              then Proceeds(y, calls, old(journal))
              else journal == old(journal)
      ensures var x := if old(disk).stage == Unset then old(memory) else old(disk);
              var y := calls.Checked(x);
              calls.GoesOn(old(journal), x, installed) && calls.CheckWorks() ==>
                if y.pending && calls.retryDue then
                  !calls.IsReady(y, installed) ==> memory.stage == Retrying && memory.attempts == y.attempts + 1
                else memory == y && disk == (if calls.due then y else old(disk))
    {
      ghost var s := View(Ready);
      var next;
      next, steps := ReadFiles(calls);
      if next.Deciding? {
        ghost var step, t;
        next, step := CheckRelease(next.state, calls);
        steps, t := Extend(s, steps, After(s, steps), step);
      }
      if next.Acting? {
        ghost var more := Act(next.state, calls);
        Join(s, steps, more);
        steps := steps + more;
      }
    }
  }
}
