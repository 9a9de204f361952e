/** Completion as single disk and database steps that a stop can cut anywhere, interleaved
    with repeated uploads and with other programs that create and remove files. */
module OutputRecovery {
  import opened OutputNaming
  import opened OutputPublication

  datatype Phase =
    | Idle
    | Created(temp: Path)
    | Filled(temp: Path)
    | Moved(temp: Path)
    | Chosen(probe: Path)
    | Checked(probe: Path)
    | Linked(probe: Path, final: Path)
    | Permitted(probe: Path, final: Path)
    | Unsaved(probe: Path, final: Path, applied: bool)
    | Saved(final: Path)
    | StagingCleaned(final: Path)
    | Completed(final: Path)
    | Recorded(final: Path)

  /** `own` holds the inodes and `made` the names that the server made for this job; `stored`
      says that the completion event is in the log, `deleted` that the server deleted the
      source. */
  datatype State = State(names: Names, contents: map<Inode, Content>, target: Path, own: set<Inode>,
                         made: set<Path>, stored: bool, deleted: bool, phase: Phase)

  datatype Step =
    | Begin(temp: Path, inode: Inode)
    | Fill
    | Move
    | DropTemp
    | Check
    | Publish(k: nat)
    | Permit
    | Save(answer: SaveAnswer)
    | Undo(removed: bool)
    | CleanStaging(removed: bool)
    | CleanLegacy(removed: bool)
    | Record
    | DeleteSource
    | Stop                                     // a failed call, or the end of the process
    | UploadAgain(inode: Inode)
    | Appear(name: Path, inode: Inode, content: Content)
    | Vanish(name: Path)

  ghost predicate Enabled(l: Layout, s: State, step: Step) {
    match step
    case Begin(temp, inode) => s.phase.Idle? && temp !in s.names && EndsIn(temp, 'p') && inode !in s.contents
    case Fill => s.phase.Created?
    case Move => s.phase.Filled?
    case DropTemp => s.phase.Created? || s.phase.Filled? || s.phase.Moved?
    case Check => s.phase.Chosen?
    case Publish(k) =>
      && s.phase.Checked? && s.phase.probe in s.names
      && Fits(s.names, s.names[s.phase.probe], l.source, l.Final(k))
      && NotPast(l, s.phase.probe, k)
    case Permit => s.phase.Linked?
    case Save(_) => s.phase.Permitted?
    case Undo(_) => s.phase.Unsaved?
    case CleanStaging(_) => s.phase.Saved?
    case CleanLegacy(_) => s.phase.StagingCleaned?
    case Record => s.phase.Completed?
    case DeleteSource => s.phase.Recorded?
    case Stop => true
    case UploadAgain(inode) => inode !in s.contents
    case Appear(name, inode, _) => name !in s.names && inode !in s.contents && name != l.staging && name != l.legacy
    case Vanish(name) => Foreign(l, s, name)
  }

  /** The search stops at the probed file itself, unless that is the source. */
  ghost predicate NotPast(l: Layout, probe: Path, k: nat) {
    probe == l.source || forall j :: 0 <= j < k ==> l.Final(j) != probe
  }

  /** Names that the server did not make for this job. */
  ghost predicate Foreign(l: Layout, s: State, name: Path) {
    name in s.names && name !in s.made && name != l.staging && name != l.legacy
  }

  function Next(l: Layout, s: State, step: Step): State
    requires Enabled(l, s, step)
  {
    match step
    case Begin(temp, inode) =>
      if l.staging in s.names then s.(phase := Chosen(l.staging))
      else if l.legacy in s.names then
        s.(names := s.names[temp := inode], contents := s.contents[inode := ""], made := s.made + {temp},
           phase := Created(temp))
      else s.(phase := Chosen(s.target))
    case Fill =>
      var t := s.phase.temp;
      if t in s.names && l.legacy in s.names && s.names[l.legacy] in s.contents then
        s.(contents := s.contents[s.names[t] := s.contents[s.names[l.legacy]]], own := s.own + {s.names[t]},
           phase := Filled(t))
      else s.(phase := Idle)
    case Move =>
      var t := s.phase.temp;
      if t !in s.names then s.(phase := Idle)
      else if l.staging in s.names then s.(phase := Moved(t))
      else s.(names := s.names[l.staging := s.names[t]], made := s.made + {l.staging}, phase := Moved(t))
    case DropTemp =>
      s.(names := s.names - {s.phase.temp}, phase := if s.phase.Moved? then Chosen(l.staging) else Idle)
    case Check => s.(phase := Checked(s.phase.probe))
    case Publish(k) =>
      var p := s.phase.probe;
      s.(names := s.names[l.Final(k) := s.names[p]],
         made := if l.Final(k) in s.names then s.made else s.made + {l.Final(k)},
         phase := Phase.Linked(p, l.Final(k)))
    case Permit => s.(phase := Permitted(s.phase.probe, s.phase.final))
    case Save(answer) =>
      var p, f := s.phase.probe, s.phase.final;
      match answer {
        case Applied => s.(target := f, phase := Saved(f))
        case Refused => s.(phase := Unsaved(p, f, false))
        case AppliedButReportedFailed => s.(target := f, phase := Unsaved(p, f, true))
      }
    case Undo(removed) =>
      s.(names := if removed && s.phase.final != s.phase.probe then s.names - {s.phase.final} else s.names,
         phase := Idle)
    case CleanStaging(removed) =>
      s.(names := if removed then s.names - {l.staging} else s.names, phase := StagingCleaned(s.phase.final))
    case CleanLegacy(removed) =>
      s.(names := if removed then s.names - {l.legacy} else s.names, phase := Completed(s.phase.final))
    case Record => s.(stored := true, phase := Recorded(s.phase.final))
    case DeleteSource => s.(names := s.names - {l.source}, deleted := true, phase := Idle)
    case Stop => s.(phase := Idle)
    case UploadAgain(inode) =>
      if l.staging in s.names then s
      else
        s.(names := s.names[l.staging := inode], contents := s.contents[inode := l.content],
           own := s.own + {inode}, made := s.made + {l.staging})
    case Appear(name, inode, content) =>
      s.(names := s.names[name := inode], contents := s.contents[inode := content], made := s.made - {name})
    case Vanish(name) => s.(names := s.names - {name})
  }

  // ---------------------------------------------------------------------------------
  // The invariant.

  ghost predicate Owned(s: State, name: Path) {
    name in s.names && s.names[name] in s.own
  }

  /** A name bound to the uploaded content by the server itself. */
  ghost predicate Good(l: Layout, s: State, n: Path) {
    Owned(s, n) && s.names[n] in s.contents && s.contents[s.names[n]] == l.content
  }

  /** The chosen file: what is staged, or the saved output when nothing else is left. */
  ghost predicate Source(l: Layout, s: State, probe: Path, saved: bool) {
    && Good(l, s, probe) && probe != l.source
    && (probe == l.staging || ((l.legacy == l.staging || l.legacy !in s.names) && (!saved ==> probe == s.target)))
  }

  ghost predicate FinalName(l: Layout, s: State, final: Path) {
    final != l.staging && final != l.legacy && final != l.source && Good(l, s, final)
  }

  ghost predicate PhaseFits(l: Layout, s: State) {
    match s.phase
    case Idle => true
    case Created(t) =>
      && t in s.names && t in s.made && s.names[t] !in s.own && EndsIn(t, 'p')
      && Resolves(s.names, s.contents, l.legacy, l.content) && s.names[l.legacy] != s.names[t]
      && (forall n :: n in s.names && n != t ==> s.names[n] != s.names[t])
    case Filled(t) => Good(l, s, t) && EndsIn(t, 'p') && Resolves(s.names, s.contents, l.legacy, l.content)
    case Moved(t) => EndsIn(t, 'p') && l.staging in s.names
    case Chosen(p) => Source(l, s, p, false)
    case Checked(p) => Source(l, s, p, false)
    case Linked(p, f) => Source(l, s, p, false) && FinalName(l, s, f)
    case Permitted(p, f) => Source(l, s, p, false) && FinalName(l, s, f)
    case Unsaved(p, f, applied) => Source(l, s, p, applied) && FinalName(l, s, f) && (applied ==> s.target == f)
    case Saved(f) => FinalName(l, s, f) && s.target == f && (l.staging in s.names || l.legacy !in s.names)
    case StagingCleaned(f) => FinalName(l, s, f) && s.target == f
    case Completed(f) => FinalName(l, s, f) && s.target == f
    case Recorded(f) => FinalName(l, s, f) && s.target == f && s.stored
  }

  ghost predicate Files(l: Layout, s: State) {
    && (forall i :: i in s.own ==> i in s.contents)
    && (forall n :: n in s.names ==> s.names[n] in s.contents)
    && (forall n :: Owned(s, n) ==> n in s.made)
    && (l.staging in s.names ==> Good(l, s, l.staging))
    && (l.staging !in s.names && l.legacy !in s.names ==> Good(l, s, s.target) && s.target != l.source)
  }

  /** Between the two cleanups and the end, the record names the upload and nothing starts
      from what is staged. */
  predicate Finishing(phase: Phase) {
    phase.StagingCleaned? || phase.Completed? || phase.Recorded?
  }

  ghost predicate Inv(l: Layout, s: State) {
    && l.Valid() && Files(l, s) && PhaseFits(l, s)
    && (Finishing(s.phase) || Safe(l, s))
    && (s.deleted ==> s.stored)
  }

  /** What a completion that starts now would publish is the uploaded file. */
  predicate Safe(l: Layout, s: State) {
    Survives(l, s.names, s.contents, s.target)
  }

  /** The steps after which the next completion misses the upload: a reported failure takes
      back a name that the record already has, when it was linked from the old output and
      nothing is staged; or a completion ends, stopped or not, with the staged file removed
      and an older, different upload left under the legacy name. */
  predicate Misses(l: Layout, s: State, step: Step) {
    match step
    case Undo(removed) =>
      && removed && s.phase.Unsaved? && s.phase.applied
      && s.phase.final != s.phase.probe && l.staging !in s.names
    case Stop => Finishing(s.phase) && LegacyIsNext(l, s)
    case DeleteSource => Finishing(s.phase) && LegacyIsNext(l, s)
    case _ => false
  }

  predicate LegacyIsNext(l: Layout, s: State) {
    l.staging !in s.names && l.legacy in s.names && !Resolves(s.names, s.contents, l.legacy, l.content)
  }

  /** What each step does to the invariant. */
  ghost predicate Keeps(l: Layout, s: State, step: Step)
    requires Enabled(l, s, step)
  {
    && ((Next(l, s, step).phase.Idle? ==> Safe(l, Next(l, s, step))) <==> !Misses(l, s, step))
    && (!Misses(l, s, step) ==> Inv(l, Next(l, s, step)))
  }

  lemma BeginKeeps(l: Layout, s: State, temp: Path, inode: Inode)
    requires Inv(l, s) && Enabled(l, s, Begin(temp, inode))
    ensures Keeps(l, s, Begin(temp, inode))
  {
  }

  lemma FillKeeps(l: Layout, s: State)
    requires Inv(l, s) && Enabled(l, s, Fill)
    ensures Keeps(l, s, Fill)
  {
  }

  lemma MoveKeeps(l: Layout, s: State, step: Step)
    requires Inv(l, s) && Enabled(l, s, step) && (step.Move? || step.DropTemp?)
    ensures Keeps(l, s, step)
  {
  }

  lemma PublishKeeps(l: Layout, s: State, k: nat)
    requires Inv(l, s) && Enabled(l, s, Publish(k))
    ensures Keeps(l, s, Publish(k))
  {
    FinalIsNotStaging(l, k);
  }

  lemma SaveKeeps(l: Layout, s: State, answer: SaveAnswer)
    requires Inv(l, s) && Enabled(l, s, Save(answer))
    ensures Keeps(l, s, Save(answer))
  {
  }

  lemma CheckKeeps(l: Layout, s: State, step: Step)
    requires Inv(l, s) && Enabled(l, s, step) && (step.Check? || step.Permit?)
    ensures Keeps(l, s, step)
  {
  }

  lemma RecordKeeps(l: Layout, s: State)
    requires Inv(l, s) && Enabled(l, s, Record)
    ensures Keeps(l, s, Record)
  {
  }

  lemma StopKeeps(l: Layout, s: State)
    requires Inv(l, s)
    ensures Keeps(l, s, Stop)
  {
  }

  lemma UndoKeeps(l: Layout, s: State, removed: bool)
    requires Inv(l, s) && Enabled(l, s, Undo(removed))
    ensures Keeps(l, s, Undo(removed))
  {
  }

  lemma CleanKeeps(l: Layout, s: State, removed: bool)
    requires Inv(l, s) && Enabled(l, s, CleanStaging(removed))
    ensures Keeps(l, s, CleanStaging(removed))
  {
  }

  lemma RemovalKeeps(l: Layout, s: State, step: Step)
    requires Inv(l, s) && Enabled(l, s, step) && (step.CleanLegacy? || step.DeleteSource?)
    ensures Keeps(l, s, step)
  {
  }

  lemma OthersKeepFiles(l: Layout, s: State, step: Step)
    requires Inv(l, s) && Enabled(l, s, step) && (step.UploadAgain? || step.Appear? || step.Vanish?)
    ensures Files(l, Next(l, s, step))
  {
  }

  lemma UploadKeepsPhase(l: Layout, s: State, inode: Inode)
    requires Inv(l, s) && Enabled(l, s, UploadAgain(inode))
    ensures PhaseFits(l, Next(l, s, UploadAgain(inode)))
  {
  }

  lemma AppearKeepsPhase(l: Layout, s: State, name: Path, inode: Inode, content: Content)
    requires Inv(l, s) && Enabled(l, s, Appear(name, inode, content))
    ensures PhaseFits(l, Next(l, s, Appear(name, inode, content)))
  {
  }

  lemma VanishKeepsPhase(l: Layout, s: State, name: Path)
    requires Inv(l, s) && Enabled(l, s, Vanish(name))
    ensures PhaseFits(l, Next(l, s, Vanish(name)))
  {
  }

  lemma OthersKeep(l: Layout, s: State, step: Step)
    requires Inv(l, s) && Enabled(l, s, step) && (step.UploadAgain? || step.Appear? || step.Vanish?)
    ensures Keeps(l, s, step)
  {
    OthersKeepFiles(l, s, step);
    match step {
      case UploadAgain(inode) => UploadKeepsPhase(l, s, inode);
      case Appear(name, inode, content) => AppearKeepsPhase(l, s, name, inode, content);
      case Vanish(name) => VanishKeepsPhase(l, s, name);
      case _ =>
    }
  }

  /** Exactly these steps make the next completion miss the upload; every other step keeps
      the invariant. */
  lemma StepKeepsInv(l: Layout, s: State, step: Step)
    requires Inv(l, s) && Enabled(l, s, step)
    ensures Keeps(l, s, step)
  {
    match step
    case Publish(k) => PublishKeeps(l, s, k);
    case Undo(removed) => UndoKeeps(l, s, removed);
    case UploadAgain(_) => OthersKeep(l, s, step);
    case Appear(_, _, _) => OthersKeep(l, s, step);
    case Vanish(_) => OthersKeep(l, s, step);
    case Save(answer) => SaveKeeps(l, s, answer);
    case Begin(temp, inode) => BeginKeeps(l, s, temp, inode);
    case Fill => FillKeeps(l, s);
    case Move => MoveKeeps(l, s, step);
    case DropTemp => MoveKeeps(l, s, step);
    case CleanStaging(removed) => CleanKeeps(l, s, removed);
    case CleanLegacy(_) => RemovalKeeps(l, s, step);
    case DeleteSource => RemovalKeeps(l, s, step);
    case Check => CheckKeeps(l, s, step);
    case Permit => CheckKeeps(l, s, step);
    case Stop => StopKeeps(l, s);
    case Record => RecordKeeps(l, s);
  }

  // ---------------------------------------------------------------------------------
  // Whole runs.

  ghost predicate IsRun(l: Layout, s: State, steps: seq<Step>)
    decreases |steps|
  {
    steps != [] ==> Enabled(l, s, steps[0]) && IsRun(l, Next(l, s, steps[0]), steps[1..])
  }

  ghost function After(l: Layout, s: State, steps: seq<Step>): State
    requires IsRun(l, s, steps)
    decreases |steps|
  {
    if steps == [] then s else After(l, Next(l, s, steps[0]), steps[1..])
  }

  /** Whenever a completion could start, it would start from the upload. */
  ghost predicate AlwaysSafe(l: Layout, s: State, steps: seq<Step>)
    requires IsRun(l, s, steps)
    decreases |steps|
  {
    && (s.phase.Idle? ==> Safe(l, s))
    && (steps != [] ==> AlwaysSafe(l, Next(l, s, steps[0]), steps[1..]))
  }

  ghost predicate NeverMisses(l: Layout, s: State, steps: seq<Step>)
    requires IsRun(l, s, steps)
    decreases |steps|
  {
    steps != [] ==> !Misses(l, s, steps[0]) && NeverMisses(l, Next(l, s, steps[0]), steps[1..])
  }

  /** Right after the first commit of an upload: the planned target is neither a staging nor a
      temporary name, and only such names are made yet. */
  ghost predicate Start(l: Layout, s: State) {
    && l.Valid() && s.phase.Idle? && !s.deleted
    && Owned(s, l.staging) && s.target != l.staging && !EndsIn(s.target, 'p')
    && (forall i :: i in s.own ==> i in s.contents && s.contents[i] == l.content)
    && (forall n :: n in s.names ==> s.names[n] in s.contents)
    && (forall n :: Owned(s, n) ==> n in s.made && (n == l.staging || EndsIn(n, 'p')))
  }

  /** Over every run: each completion starts from the upload if and only if none of the missing
      steps is taken. */
  lemma {:induction false} RunIsSafe(l: Layout, s: State, steps: seq<Step>)
    requires Inv(l, s) && IsRun(l, s, steps)
    ensures AlwaysSafe(l, s, steps) <==> NeverMisses(l, s, steps)
    ensures NeverMisses(l, s, steps) ==> Inv(l, After(l, s, steps))
    decreases |steps|
  {
    if steps != [] {
      StepKeepsInv(l, s, steps[0]);
      if !Misses(l, s, steps[0]) {
        RunIsSafe(l, Next(l, s, steps[0]), steps[1..]);
      }
    }
  }

  /** From the first commit on, in every run without a missing step: nothing is staged any more
      only if the saved target is the upload. */
  lemma StagingGoesOnlyWhenSaved(l: Layout, s: State, steps: seq<Step>)
    requires Start(l, s) && IsRun(l, s, steps)
    ensures AlwaysSafe(l, s, steps) <==> NeverMisses(l, s, steps)
    ensures NeverMisses(l, s, steps) ==>
              var t := After(l, s, steps);
              l.staging !in t.names && l.legacy !in t.names ==> Resolves(t.names, t.contents, t.target, l.content)
  {
    RunIsSafe(l, s, steps);
  }

  function Rank(phase: Phase): nat {
    match phase
    case Unsaved(_, _, _) => 9
    case Idle => 8
    case Created(_) => 7
    case Filled(_) => 6
    case Moved(_) => 5
    case Chosen(_) => 4
    case Checked(_) => 3
    case Linked(_, _) => 2
    case Permitted(_, _) => 1
    case _ => 0
  }

  lemma Prepend(l: Layout, s: State, step: Step, rest: seq<Step>)
    requires Enabled(l, s, step) && IsRun(l, Next(l, s, step), rest)
    ensures IsRun(l, s, [step] + rest)
    ensures After(l, s, [step] + rest) == After(l, Next(l, s, step), rest)
    ensures NeverMisses(l, s, [step] + rest) <==> !Misses(l, s, step) && NeverMisses(l, Next(l, s, step), rest)
  {
    assert ([step] + rest)[1..] == rest;
  }

  lemma NextName(l: Layout, s: State) returns (k: nat)
    requires Inv(l, s) && s.phase.Checked?
    ensures Enabled(l, s, Publish(k))
  {
    var p := s.phase.probe;
    k := SomeCandidateFits(s.names, s.names[p], l.source, l.stem, ".mkv");
    assert Fits(s.names, s.names[p], l.source, p);
  }

  /** The step that a completion takes next when its calls work; one that is about to undo
      its work is given up first. */
  lemma WorkingStep(l: Layout, s: State, temp: Path, inode: Inode) returns (step: Step)
    requires Inv(l, s) && Rank(s.phase) > 0
    requires s.phase.Idle? ==> temp !in s.names && EndsIn(temp, 'p') && inode !in s.contents
    ensures Enabled(l, s, step) && !Misses(l, s, step)
    ensures Rank(Next(l, s, step).phase) < Rank(s.phase)
    ensures s.phase.Unsaved? ==> step == Stop
  {
    step := Stop;
    if s.phase.Checked? {
      var k := NextName(l, s);
      step := Publish(k);
    } else {
      step := match s.phase
        case Idle => Begin(temp, inode)
        case Created(_) => Fill
        case Filled(_) => Move
        case Moved(_) => DropTemp
        case Chosen(_) => Check
        case Linked(_, _) => Permit
        case Permitted(_, _) => Save(Applied)
        case _ => Stop;
    }
  }

  /** From every state that a run reaches without a missing step, a completion whose calls all
      work ends with the saved target on the upload. */
  lemma {:induction false} CompletionSucceeds(l: Layout, s: State, temp: Path, inode: Inode) returns (steps: seq<Step>)
    requires Inv(l, s) && temp !in s.names && EndsIn(temp, 'p') && inode !in s.contents
    ensures IsRun(l, s, steps) && NeverMisses(l, s, steps)
    ensures var t := After(l, s, steps); Resolves(t.names, t.contents, t.target, l.content)
    decreases Rank(s.phase)
  {
    steps := [];
    if s.phase.Unsaved? {
      StepKeepsInv(l, s, Stop);
      var rest := Completes(l, Next(l, s, Stop), temp, inode);
      Prepend(l, s, Stop, rest);
      steps := [Stop] + rest;
    } else if Rank(s.phase) > 0 {
      steps := Completes(l, s, temp, inode);
    }
  }

  lemma {:induction false} Completes(l: Layout, s: State, temp: Path, inode: Inode) returns (steps: seq<Step>)
    requires Inv(l, s) && 0 < Rank(s.phase) && !s.phase.Unsaved?
    requires s.phase.Idle? ==> temp !in s.names && EndsIn(temp, 'p') && inode !in s.contents
    ensures IsRun(l, s, steps) && NeverMisses(l, s, steps)
    ensures var t := After(l, s, steps); Resolves(t.names, t.contents, t.target, l.content)
    decreases Rank(s.phase)
  {
    var step := WorkingStep(l, s, temp, inode);
    StepKeepsInv(l, s, step);
    var t := Next(l, s, step);
    var rest := [];
    if Rank(t.phase) > 0 {
      rest := Completes(l, t, temp, inode);
    }
    Prepend(l, s, step, rest);
    steps := [step] + rest;
  }

  // ---------------------------------------------------------------------------------
  // Both missing steps can happen.

  lemma Append(l: Layout, s: State, steps: seq<Step>, t: State, step: Step) returns (more: seq<Step>, u: State)
    requires IsRun(l, s, steps) && After(l, s, steps) == t && Enabled(l, t, step)
    ensures u == Next(l, t, step) && more == steps + [step]
    ensures IsRun(l, s, more) && After(l, s, more) == u
    ensures NeverMisses(l, s, more) <==> NeverMisses(l, s, steps) && !Misses(l, t, step)
    decreases |steps|
  {
    more, u := steps + [step], Next(l, t, step);
    if steps == [] {
      Prepend(l, s, step, []);
      assert [step] + [] == more;
    } else {
      var rest, v := Append(l, Next(l, s, steps[0]), steps[1..], t, step);
      Prepend(l, s, steps[0], rest);
      assert [steps[0]] + rest == more;
    }
  }

  /** A completion without a copy up to its answer from the database. */
  lemma Attempt(l: Layout, s: State, temp: Path, inode: Inode, k: nat, answer: SaveAnswer)
    returns (steps: seq<Step>, t: State)
    requires Inv(l, s) && s.phase.Idle? && temp !in s.names && EndsIn(temp, 'p') && inode !in s.contents
    requires l.staging in s.names || l.legacy !in s.names
    requires var p := Upload(l, s.names, s.target);
             p in s.names && Fits(s.names, s.names[p], l.source, l.Final(k)) && NotPast(l, p, k)
    ensures IsRun(l, s, steps) && After(l, s, steps) == t && NeverMisses(l, s, steps)
    ensures var p, f := Upload(l, s.names, s.target), l.Final(k);
            && t.names == s.names[f := s.names[p]] && t.contents == s.contents
            && t.made <= s.made + {f} && t.target == (if answer.Refused? then s.target else f)
            && t.phase == if answer.Applied? then Saved(f) else Unsaved(p, f, !answer.Refused?)
  {
    steps, t := Append(l, s, [], s, Begin(temp, inode));
    steps, t := Append(l, s, steps, t, Check);
    steps, t := Append(l, s, steps, t, Publish(k));
    steps, t := Append(l, s, steps, t, Permit);
    steps, t := Append(l, s, steps, t, Save(answer));
  }

  /** A name for the first completion. */
  lemma FirstName(l: Layout, s: State) returns (k: nat)
    requires Start(l, s)
    ensures Fits(s.names, s.names[l.staging], l.source, l.Final(k)) && NotPast(l, l.staging, k)
  {
    k := SomeCandidateFits(s.names, s.names[l.staging], l.source, l.stem, ".mkv");
    assert Fits(s.names, s.names[l.staging], l.source, l.staging);
    forall i ensures l.Final(i) != l.staging {
      FinalIsNotStaging(l, i);
    }
  }

  /** An older, different upload is still under the legacy name when the first completion
      begins: if the server stops between the two cleanups, that one is published next. */
  lemma LegacyUploadCanWin(l: Layout, s: State, temp: Path, inode: Inode) returns (steps: seq<Step>)
    requires Start(l, s) && l.legacy != l.staging
    requires l.legacy in s.names && s.contents[s.names[l.legacy]] != l.content
    requires temp !in s.names && EndsIn(temp, 'p') && inode !in s.contents
    ensures IsRun(l, s, steps) && After(l, s, steps).phase.Idle? && !Safe(l, After(l, s, steps))
  {
    var k := FirstName(l, s);
    FinalIsNotStaging(l, k);
    var t;
    steps, t := Attempt(l, s, temp, inode, k, Applied);
    steps, t := Append(l, s, steps, t, CleanStaging(true));
    steps, t := Append(l, s, steps, t, Stop);
  }

  /** A completion that is saved under the name of candidate `j` and cleaned up, and then
      stopped before its event is stored. */
  lemma Finishes(l: Layout, s: State, temp: Path, inode: Inode, j: nat) returns (steps: seq<Step>, t: State)
    requires Start(l, s) && temp !in s.names && EndsIn(temp, 'p') && inode !in s.contents
    requires Fits(s.names, s.names[l.staging], l.source, l.Final(j)) && NotPast(l, l.staging, j)
    ensures IsRun(l, s, steps) && After(l, s, steps) == t && NeverMisses(l, s, steps)
    ensures t.phase.Idle? && t.contents == s.contents && t.made <= s.made + {l.Final(j)}
    ensures t.names == s.names[l.Final(j) := s.names[l.staging]] - {l.staging} - {l.legacy}
  {
    steps, t := Attempt(l, s, temp, inode, j, Applied);
    steps, t := Append(l, s, steps, t, CleanStaging(true));
    steps, t := Append(l, s, steps, t, CleanLegacy(true));
    steps, t := Append(l, s, steps, t, Stop);
  }

  /** A repeated completion that takes its new name back although the record has it. */
  lemma TakesBack(l: Layout, s: State, temp: Path, inode: Inode) returns (steps: seq<Step>)
    requires Inv(l, s) && s.phase.Idle? && l.staging !in s.names && l.legacy !in s.names
    requires l.Final(0) !in s.names && l.Final(0) != l.source
    requires temp !in s.names && EndsIn(temp, 'p') && inode !in s.contents
    ensures IsRun(l, s, steps) && After(l, s, steps).phase.Idle? && !Safe(l, After(l, s, steps))
  {
    FinalIsNotStaging(l, 0);
    var t;
    steps, t := Attempt(l, s, temp, inode, 0, AppliedButReportedFailed);
    steps, t := Append(l, s, steps, t, Undo(true));
  }

  /** The first final name is taken by a foreign file when the first completion begins, and
      free again when that one has been cleaned up and is repeated: if the database applies
      the update but reports a failure, the new name is taken back and the record points
      nowhere. */
  lemma ReportedFailureCanMiss(l: Layout, s: State, temp: Path, inode: Inode) returns (steps: seq<Step>)
    requires Start(l, s) && Foreign(l, s, l.Final(0)) && l.Final(0) != l.source
    requires temp !in s.names && EndsIn(temp, 'p') && inode !in s.contents
    ensures IsRun(l, s, steps) && After(l, s, steps).phase.Idle? && !Safe(l, After(l, s, steps))
  {
    var j := FirstName(l, s);
    assert !Owned(s, l.Final(0)) && j != 0;
    CandidatesDiffer(l.stem, ".mkv", 0, j);
    FinalIsNotStaging(l, j);
    FinalIsNotStaging(l, 0);
    var t;
    steps, t := Finishes(l, s, temp, inode, j);
    steps, t := Append(l, s, steps, t, Vanish(l.Final(0)));
    RunIsSafe(l, s, steps);
    var more := TakesBack(l, t, temp, inode);
    steps := Joined(l, s, steps, more);
  }

  lemma {:induction false} Joined(l: Layout, s: State, first: seq<Step>, second: seq<Step>) returns (steps: seq<Step>)
    requires IsRun(l, s, first) && IsRun(l, After(l, s, first), second)
    ensures steps == first + second && IsRun(l, s, steps) && After(l, s, steps) == After(l, After(l, s, first), second)
    decreases |first|
  {
    steps := first + second;
    if first == [] {
      assert steps == second;
    } else {
      var rest := Joined(l, Next(l, s, first[0]), first[1..], second);
      Prepend(l, s, first[0], rest);
      assert steps == [first[0]] + rest;
    }
  }
}
