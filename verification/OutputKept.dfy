/** What completion keeps in every run, also in one in which the next completion misses the
    upload: the uploaded bytes stay reachable, no name of another program is touched, and the
    source goes only after the completion event is stored. */
module OutputKept {
  import opened OutputNaming
  import opened OutputPublication
  import opened OutputRecovery

  /** Names that no cleanup removes. */
  ghost predicate Lasting(l: Layout, n: Path) {
    n != l.staging && n != l.legacy && n != l.source && !EndsIn(n, 'p')
  }

  ghost predicate Output(l: Layout, s: State, n: Path) {
    Good(l, s, n) && Lasting(l, n)
  }

  ghost predicate IsFinal(l: Layout, n: Path) {
    Lasting(l, n) && exists k :: n == l.Final(k)
  }

  /** No lower-numbered name of another program has the same inode. */
  ghost predicate Lowest(l: Layout, s: State, n: Path) {
    n in s.names ==> forall k, m :: n == l.Final(k) && Shares(l, s, n, m) ==> k <= m
  }

  ghost predicate Shares(l: Layout, s: State, n: Path, m: nat)
    requires n in s.names
  {
    l.Final(m) in s.names && s.names[l.Final(m)] == s.names[n] && l.Final(m) !in s.made
  }

  ghost predicate DiskFits(l: Layout, s: State) {
    && (forall i :: i in s.own ==> i in s.contents)
    && (forall n :: n in s.names ==> s.names[n] in s.contents)
    && (forall n :: Owned(s, n) ==> n in s.made && (n == l.staging || EndsIn(n, 'p') || Lasting(l, n)))
    && (l.staging in s.names ==> Owned(s, l.staging))
    && s.target != l.staging && !EndsIn(s.target, 'p')
    && (l.staging !in s.names ==> IsFinal(l, s.target) && Lowest(l, s, s.target))
  }

  /** The file that a completion works on: the staged one, or the saved output. */
  ghost predicate From(l: Layout, s: State, p: Path, w: Path) {
    if p == l.staging then l.staging in s.names && (Good(l, s, p) || Output(l, s, w))
    else p == s.target && IsFinal(l, p) && Lowest(l, s, p) && Output(l, s, w)
  }

  /** The final name is the server's or the probed file itself, and taking it back leaves the
      content somewhere. */
  ghost predicate To(l: Layout, s: State, p: Path, f: Path, w: Path) {
    && IsFinal(l, f) && Lowest(l, s, f) && (f == p || (f in s.made && f in s.names))
    && ((p == l.staging && Good(l, s, p) && Good(l, s, f)) || (Output(l, s, w) && (w != f || f == p)))
  }

  ghost predicate PhaseKeeps(l: Layout, s: State, w: Path) {
    match s.phase
    case Idle => Good(l, s, l.staging) || Output(l, s, w)
    case Created(t) =>
      && Output(l, s, w) && EndsIn(t, 'p') && t in s.names && t in s.made && s.names[t] !in s.own
      && (forall n :: n in s.names && n != t ==> s.names[n] != s.names[t])
    case Filled(t) => Output(l, s, w) && EndsIn(t, 'p') && Owned(s, t)
    case Moved(t) => Output(l, s, w) && EndsIn(t, 'p') && Owned(s, t) && l.staging in s.names
    case Chosen(p) => From(l, s, p, w)
    case Checked(p) => From(l, s, p, w)
    case Linked(p, f) => To(l, s, p, f, w)
    case Permitted(p, f) => To(l, s, p, f, w)
    case Unsaved(p, f, applied) => To(l, s, p, f, w)
    case Saved(f) => Output(l, s, w) && s.target == f && IsFinal(l, f) && Lowest(l, s, f)
    case StagingCleaned(f) => Output(l, s, w) && s.target == f && IsFinal(l, f) && Lowest(l, s, f)
    case Completed(f) => Output(l, s, w)
    case Recorded(f) => Output(l, s, w) && s.stored
  }

  /** The invariant of every run; `w` is where the content is once it has been published. */
  ghost predicate Kept(l: Layout, s: State, w: Path) {
    l.Valid() && DiskFits(l, s) && PhaseKeeps(l, s, w) && (s.deleted ==> s.stored)
  }

  lemma FinalLasts(l: Layout, k: nat)
    requires l.Valid() && l.Final(k) != l.source
    ensures IsFinal(l, l.Final(k))
  {
    FinalIsNotStaging(l, k);
  }

  lemma FinalsDiffer(l: Layout, k: nat, m: nat)
    requires l.Final(k) == l.Final(m)
    ensures k == m
  {
    if k != m {
      CandidatesDiffer(l.stem, ".mkv", k, m);
    }
  }

  /** No step but the appearance of a foreign name makes a name that is not the server's. */
  ghost predicate Shrinks(s: State, t: State) {
    forall x :: x in t.names && x !in t.made ==> x in s.names && x !in s.made && t.names[x] == s.names[x]
  }

  lemma LowestStays(l: Layout, s: State, t: State, n: Path)
    requires Lowest(l, s, n) && Shrinks(s, t) && (n in t.names ==> n in s.names && t.names[n] == s.names[n])
    ensures Lowest(l, t, n)
  {
    if n in t.names {
      forall k, m | n == l.Final(k) && Shares(l, t, n, m) ensures k <= m {
        assert Shares(l, s, n, m);
      }
    }
  }

  lemma BeginKeepsDisk(l: Layout, s: State, w: Path, temp: Path, inode: Inode)
    requires Kept(l, s, w) && Enabled(l, s, Begin(temp, inode))
    ensures DiskFits(l, Next(l, s, Begin(temp, inode)))
  {
    if l.staging !in s.names {
      LowestStays(l, s, Next(l, s, Begin(temp, inode)), s.target);
    }
  }

  lemma BeginKeepsPhase(l: Layout, s: State, w: Path, temp: Path, inode: Inode)
    requires Kept(l, s, w) && Enabled(l, s, Begin(temp, inode))
    ensures PhaseKeeps(l, Next(l, s, Begin(temp, inode)), w)
  {
    if l.staging !in s.names {
      LowestStays(l, s, Next(l, s, Begin(temp, inode)), s.target);
    }
  }

  lemma BeginIsKept(l: Layout, s: State, w: Path, temp: Path, inode: Inode)
    requires Kept(l, s, w) && Enabled(l, s, Begin(temp, inode))
    ensures Kept(l, Next(l, s, Begin(temp, inode)), w)
  {
    BeginKeepsDisk(l, s, w, temp, inode);
    BeginKeepsPhase(l, s, w, temp, inode);
  }

  lemma FillIsKept(l: Layout, s: State, w: Path)
    requires Kept(l, s, w) && Enabled(l, s, Fill)
    ensures Kept(l, Next(l, s, Fill), w)
  {
    if l.staging !in s.names {
      LowestStays(l, s, Next(l, s, Fill), s.target);
    }
  }

  lemma MoveIsKept(l: Layout, s: State, w: Path, step: Step)
    requires Kept(l, s, w) && Enabled(l, s, step) && (step.Move? || step.DropTemp?)
    ensures Kept(l, Next(l, s, step), w)
  {
    if l.staging !in s.names {
      LowestStays(l, s, Next(l, s, step), s.target);
    }
  }

  /** An existing name that publication finds is the server's own, or the probed file. */
  lemma FoundNameIsOurs(l: Layout, s: State, w: Path, k: nat)
    requires Kept(l, s, w) && Enabled(l, s, Publish(k)) && l.Final(k) in s.names
    ensures l.Final(k) == s.phase.probe || l.Final(k) in s.made
  {
    var p, f := s.phase.probe, l.Final(k);
    if p == l.staging {
      assert Owned(s, f);
    } else if f !in s.made {
      var j :| p == l.Final(j);
      assert Shares(l, s, p, k);
      assert k == j || l.Final(j) == p;
    }
  }

  lemma PublishedIsLowest(l: Layout, s: State, w: Path, k: nat)
    requires Kept(l, s, w) && Enabled(l, s, Publish(k))
    ensures Lowest(l, Next(l, s, Publish(k)), l.Final(k))
  {
    var p, f, t := s.phase.probe, l.Final(k), Next(l, s, Publish(k));
    forall i, m | f == l.Final(i) && Shares(l, t, f, m) ensures i <= m {
      assert l.Final(m) in s.names && l.Final(m) !in s.made && s.names[l.Final(m)] == s.names[p];
      FinalsDiffer(l, i, k);
      if p == l.staging {
        assert !Owned(s, l.Final(m));
      } else {
        var j :| p == l.Final(j);
        assert Shares(l, s, p, m);
      }
    }
  }

  lemma PublishKeepsDisk(l: Layout, s: State, w: Path, k: nat)
    requires Kept(l, s, w) && Enabled(l, s, Publish(k))
    ensures DiskFits(l, Next(l, s, Publish(k)))
  {
    FinalLasts(l, k);
    var t := Next(l, s, Publish(k));
    if l.Final(k) in s.names {
      FoundNameIsOurs(l, s, w, k);
    }
    if l.staging !in s.names {
      if s.target == l.Final(k) {
        PublishedIsLowest(l, s, w, k);
      } else {
        LowestStays(l, s, t, s.target);
      }
    }
  }

  lemma PublishKeepsGood(l: Layout, s: State, k: nat, n: Path)
    requires Enabled(l, s, Publish(k)) && Good(l, s, n)
    ensures Good(l, Next(l, s, Publish(k)), n)
    ensures n == s.phase.probe ==> Good(l, Next(l, s, Publish(k)), l.Final(k))
  {
  }

  /** Publishing may choose the witness itself as the new name; then the probed file is one. */
  lemma ContentIsBesides(l: Layout, s: State, w: Path, k: nat) returns (v: Path)
    requires Kept(l, s, w) && Enabled(l, s, Publish(k)) && IsFinal(l, l.Final(k))
    ensures var p, f, t := s.phase.probe, l.Final(k), Next(l, s, Publish(k));
            (p == l.staging && Good(l, t, p) && Good(l, t, f)) || (Output(l, t, v) && (v != f || f == p))
  {
    var p, f := s.phase.probe, l.Final(k);
    v := if w == f && p != l.staging then p else w;
    if p == l.staging && Good(l, s, p) {
      PublishKeepsGood(l, s, k, p);
    } else {
      assert Output(l, s, w) && (w == f ==> s.names[f] == s.names[p]);
      assert Output(l, s, v);
      PublishKeepsGood(l, s, k, v);
    }
  }

  lemma PublishLeadsTo(l: Layout, s: State, w: Path, k: nat) returns (v: Path)
    requires Kept(l, s, w) && Enabled(l, s, Publish(k))
    ensures To(l, Next(l, s, Publish(k)), s.phase.probe, l.Final(k), v)
  {
    FinalLasts(l, k);
    v := ContentIsBesides(l, s, w, k);
    PublishedIsLowest(l, s, w, k);
    if l.Final(k) in s.names {
      FoundNameIsOurs(l, s, w, k);
    }
  }

  lemma PublishIsKept(l: Layout, s: State, w: Path, k: nat) returns (v: Path)
    requires Kept(l, s, w) && Enabled(l, s, Publish(k))
    ensures Kept(l, Next(l, s, Publish(k)), v)
  {
    v := PublishLeadsTo(l, s, w, k);
    PublishKeepsDisk(l, s, w, k);
  }

  lemma LowestIsSame(l: Layout, s: State, t: State, n: Path)
    requires s.names == t.names && s.made == t.made
    ensures Lowest(l, s, n) <==> Lowest(l, t, n)
  {
    if Lowest(l, s, n) {
      LowestStays(l, s, t, n);
    }
    if Lowest(l, t, n) {
      LowestStays(l, t, s, n);
    }
  }

  lemma DiskIsSame(l: Layout, s: State, t: State)
    requires DiskFits(l, s) && t == s.(phase := t.phase, stored := t.stored)
    ensures DiskFits(l, t)
  {
    LowestIsSame(l, s, t, s.target);
  }

  lemma SaveIsKept(l: Layout, s: State, w: Path, answer: SaveAnswer) returns (v: Path)
    requires Kept(l, s, w) && Enabled(l, s, Save(answer))
    ensures Kept(l, Next(l, s, Save(answer)), v)
  {
    v := if answer.Applied? && !Output(l, s, w) then s.phase.final else w;
    LowestIsSame(l, s, Next(l, s, Save(answer)), s.phase.final);
    LowestIsSame(l, s, Next(l, s, Save(answer)), s.target);
  }

  lemma UndoKeepsDisk(l: Layout, s: State, w: Path, removed: bool)
    requires Kept(l, s, w) && Enabled(l, s, Undo(removed))
    ensures DiskFits(l, Next(l, s, Undo(removed)))
  {
    if l.staging !in s.names {
      LowestStays(l, s, Next(l, s, Undo(removed)), s.target);
    }
  }

  lemma UndoKeepsPhase(l: Layout, s: State, w: Path, removed: bool)
    requires Kept(l, s, w) && Enabled(l, s, Undo(removed))
    ensures PhaseKeeps(l, Next(l, s, Undo(removed)), w)
  {
  }

  lemma UndoIsKept(l: Layout, s: State, w: Path, removed: bool)
    requires Kept(l, s, w) && Enabled(l, s, Undo(removed))
    ensures Kept(l, Next(l, s, Undo(removed)), w)
  {
    UndoKeepsDisk(l, s, w, removed);
    UndoKeepsPhase(l, s, w, removed);
  }

  lemma CheckKeepsPhase(l: Layout, s: State, w: Path, step: Step)
    requires PhaseKeeps(l, s, w) && Enabled(l, s, step) && (step.Check? || step.Permit? || step.Record?)
    ensures PhaseKeeps(l, Next(l, s, step), w)
  {
    LowestIsSame(l, s, Next(l, s, step), s.target);
    if s.phase.Linked? {
      LowestIsSame(l, s, Next(l, s, step), s.phase.final);
    }
  }

  lemma CheckIsKept(l: Layout, s: State, w: Path, step: Step)
    requires Kept(l, s, w) && Enabled(l, s, step) && (step.Check? || step.Permit? || step.Record?)
    ensures Kept(l, Next(l, s, step), w)
  {
    DiskIsSame(l, s, Next(l, s, step));
    CheckKeepsPhase(l, s, w, step);
  }

  lemma StopKeepsPhase(l: Layout, s: State, w: Path)
    requires PhaseKeeps(l, s, w)
    ensures PhaseKeeps(l, Next(l, s, Stop), w)
  {
    assert Good(l, s, l.staging) || Output(l, s, w);
  }

  lemma StopIsKept(l: Layout, s: State, w: Path)
    requires Kept(l, s, w)
    ensures Kept(l, Next(l, s, Stop), w)
  {
    DiskIsSame(l, s, Next(l, s, Stop));
    StopKeepsPhase(l, s, w);
  }

  lemma CleanupKeepsDisk(l: Layout, s: State, w: Path, step: Step)
    requires Kept(l, s, w) && Enabled(l, s, step) && (step.CleanStaging? || step.CleanLegacy?)
    ensures DiskFits(l, Next(l, s, step))
  {
    LowestStays(l, s, Next(l, s, step), s.target);
  }

  lemma CleanupKeepsPhase(l: Layout, s: State, w: Path, step: Step)
    requires PhaseKeeps(l, s, w) && Enabled(l, s, step) && (step.CleanStaging? || step.CleanLegacy?)
    ensures PhaseKeeps(l, Next(l, s, step), w)
  {
    LowestStays(l, s, Next(l, s, step), s.target);
  }

  lemma CleanupIsKept(l: Layout, s: State, w: Path, step: Step)
    requires Kept(l, s, w) && Enabled(l, s, step) && (step.CleanStaging? || step.CleanLegacy?)
    ensures Kept(l, Next(l, s, step), w)
  {
    CleanupKeepsDisk(l, s, w, step);
    CleanupKeepsPhase(l, s, w, step);
  }

  lemma DeletionIsKept(l: Layout, s: State, w: Path)
    requires Kept(l, s, w) && Enabled(l, s, DeleteSource)
    ensures Kept(l, Next(l, s, DeleteSource), w)
  {
    if l.staging !in s.names {
      LowestStays(l, s, Next(l, s, DeleteSource), s.target);
    }
  }

  /** The name that a phase still needs to be the lowest. */
  function Current(s: State): Path {
    match s.phase
    case Chosen(p) => p
    case Checked(p) => p
    case Linked(_, f) => f
    case Permitted(_, f) => f
    case Unsaved(_, f, _) => f
    case _ => s.target
  }

  /** A foreign file has an inode of its own. */
  lemma LowestDespite(l: Layout, s: State, n: Path, name: Path, inode: Inode, content: Content)
    requires DiskFits(l, s) && Lowest(l, s, n) && Enabled(l, s, Appear(name, inode, content))
    ensures Lowest(l, Next(l, s, Appear(name, inode, content)), n)
  {
    var t := Next(l, s, Appear(name, inode, content));
    if n in t.names {
      forall k, m | n == l.Final(k) && Shares(l, t, n, m) ensures k <= m {
        if n == name || l.Final(m) == name {
          FinalsDiffer(l, k, m);
        } else {
          assert Shares(l, s, n, m);
        }
      }
    }
  }

  /** Steps of others and repeated uploads change nothing that the server owns. */
  ghost predicate Undisturbed(l: Layout, s: State, t: State) {
    && t.target == s.target && t.phase == s.phase && t.stored == s.stored && t.deleted == s.deleted
    && s.own <= t.own
    && (forall n :: n in s.names && n in s.made ==> n in t.names && n in t.made && t.names[n] == s.names[n])
    && (forall i :: i in s.contents ==> i in t.contents && t.contents[i] == s.contents[i])
    && (l.staging in s.names ==> l.staging in t.names)
    && (Lowest(l, s, s.target) ==> Lowest(l, t, s.target))
    && (Lowest(l, s, Current(s)) ==> Lowest(l, t, Current(s)))
  }

  lemma PhaseIsKept(l: Layout, s: State, t: State, w: Path)
    requires Kept(l, s, w) && Undisturbed(l, s, t)
    requires s.phase.Created? ==>
               var x := s.phase.temp;
               x in t.names && t.names[x] !in t.own && forall n :: n in t.names && n != x ==> t.names[n] != t.names[x]
    ensures PhaseKeeps(l, t, w)
  {
    assert forall n :: Owned(s, n) ==> Owned(t, n) && t.names[n] == s.names[n];
    assert forall n :: Good(l, s, n) ==> Good(l, t, n);
  }

  lemma UploadKeepsDisk(l: Layout, s: State, w: Path, inode: Inode)
    requires Kept(l, s, w) && Enabled(l, s, UploadAgain(inode))
    ensures DiskFits(l, Next(l, s, UploadAgain(inode)))
  {
  }

  lemma UploadIsUndisturbed(l: Layout, s: State, w: Path, inode: Inode)
    requires Kept(l, s, w) && Enabled(l, s, UploadAgain(inode)) && l.staging !in s.names
    ensures Undisturbed(l, s, Next(l, s, UploadAgain(inode)))
  {
    var t := Next(l, s, UploadAgain(inode));
    if Lowest(l, s, Current(s)) && Current(s) != l.staging {
      LowestStays(l, s, t, Current(s));
    }
    LowestStays(l, s, t, s.target);
  }

  lemma UploadIsKept(l: Layout, s: State, w: Path, inode: Inode)
    requires Kept(l, s, w) && Enabled(l, s, UploadAgain(inode))
    ensures Kept(l, Next(l, s, UploadAgain(inode)), w)
  {
    if l.staging !in s.names {
      UploadKeepsDisk(l, s, w, inode);
      UploadIsUndisturbed(l, s, w, inode);
      PhaseIsKept(l, s, Next(l, s, UploadAgain(inode)), w);
    }
  }

  lemma AppearKeepsDisk(l: Layout, s: State, w: Path, name: Path, inode: Inode, content: Content)
    requires Kept(l, s, w) && Enabled(l, s, Appear(name, inode, content))
    ensures DiskFits(l, Next(l, s, Appear(name, inode, content)))
  {
    if l.staging !in s.names {
      LowestDespite(l, s, s.target, name, inode, content);
    }
  }

  lemma AppearIsKept(l: Layout, s: State, w: Path, name: Path, inode: Inode, content: Content)
    requires Kept(l, s, w) && Enabled(l, s, Appear(name, inode, content))
    ensures Kept(l, Next(l, s, Appear(name, inode, content)), w)
  {
    if Lowest(l, s, s.target) {
      LowestDespite(l, s, s.target, name, inode, content);
    }
    if Lowest(l, s, Current(s)) {
      LowestDespite(l, s, Current(s), name, inode, content);
    }
    AppearKeepsDisk(l, s, w, name, inode, content);
    PhaseIsKept(l, s, Next(l, s, Appear(name, inode, content)), w);
  }

  lemma VanishIsKept(l: Layout, s: State, w: Path, name: Path)
    requires Kept(l, s, w) && Enabled(l, s, Vanish(name))
    ensures Kept(l, Next(l, s, Vanish(name)), w)
  {
    var t := Next(l, s, Vanish(name));
    if Lowest(l, s, s.target) {
      LowestStays(l, s, t, s.target);
    }
    if Lowest(l, s, Current(s)) {
      LowestStays(l, s, t, Current(s));
    }
    PhaseIsKept(l, s, t, w);
  }

  lemma OtherStepIsKept(l: Layout, s: State, w: Path, step: Step)
    requires Kept(l, s, w) && Enabled(l, s, step) && !step.Publish? && !step.Save?
    ensures Kept(l, Next(l, s, step), w)
  {
    match step
    case Begin(temp, inode) => BeginIsKept(l, s, w, temp, inode);
    case Fill => FillIsKept(l, s, w);
    case Move => MoveIsKept(l, s, w, step);
    case DropTemp => MoveIsKept(l, s, w, step);
    case Check => CheckIsKept(l, s, w, step);
    case Permit => CheckIsKept(l, s, w, step);
    case Undo(removed) => UndoIsKept(l, s, w, removed);
    case CleanStaging(_) => CleanupIsKept(l, s, w, step);
    case CleanLegacy(_) => CleanupIsKept(l, s, w, step);
    case Record => CheckIsKept(l, s, w, step);
    case DeleteSource => DeletionIsKept(l, s, w);
    case Stop => StopIsKept(l, s, w);
    case UploadAgain(inode) => UploadIsKept(l, s, w, inode);
    case Appear(name, inode, content) => AppearIsKept(l, s, w, name, inode, content);
    case Vanish(name) => VanishIsKept(l, s, w, name);
  }

  lemma StepIsKept(l: Layout, s: State, w: Path, step: Step) returns (v: Path)
    requires Kept(l, s, w) && Enabled(l, s, step)
    ensures Kept(l, Next(l, s, step), v)
  {
    v := w;
    match step
    case Publish(k) => v := PublishIsKept(l, s, w, k);
    case Save(answer) => v := SaveIsKept(l, s, w, answer);
    case _ => OtherStepIsKept(l, s, w, step);
  }

  lemma {:induction false} RunIsKept(l: Layout, s: State, w: Path, steps: seq<Step>) returns (v: Path)
    requires Kept(l, s, w) && IsRun(l, s, steps)
    ensures Kept(l, After(l, s, steps), v)
    decreases |steps|
  {
    v := w;
    if steps != [] {
      v := StepIsKept(l, s, w, steps[0]);
      v := RunIsKept(l, Next(l, s, steps[0]), v, steps[1..]);
    }
  }

  // ---------------------------------------------------------------------------------
  // What holds in every run after the first commit, whatever happens.

  /** Some name always resolves to the uploaded content, and the source is deleted only after
      the completion event is stored. */
  lemma UploadIsNeverLost(l: Layout, s: State, steps: seq<Step>)
    requires Start(l, s) && IsRun(l, s, steps)
    ensures var t := After(l, s, steps);
            && Reachable(l, t)
            && (t.deleted ==> t.stored)
  {
    var w := RunIsKept(l, s, l.staging, steps);
    SomewhereReachable(l, After(l, s, steps), w);
  }

  ghost predicate Reachable(l: Layout, s: State) {
    exists n :: Resolves(s.names, s.contents, n, l.content)
  }

  lemma SomewhereReachable(l: Layout, s: State, w: Path)
    requires Kept(l, s, w)
    ensures Reachable(l, s)
  {
    assert Resolves(s.names, s.contents, if Output(l, s, w) then w else l.staging, l.content);
  }

  ghost predicate Server(step: Step) {
    !step.Appear? && !step.Vanish?
  }

  lemma NothingIsRebound(l: Layout, s: State, w: Path, step: Step, name: Path)
    requires Kept(l, s, w) && Enabled(l, s, step) && Server(step) && name in s.names
    ensures var t := Next(l, s, step); name in t.names ==> t.names[name] == s.names[name]
  {
  }

  lemma RemovalIsOurs(l: Layout, s: State, w: Path, step: Step, name: Path)
    requires Kept(l, s, w) && Enabled(l, s, step) && Server(step) && name in s.names
    requires name !in Next(l, s, step).names
    ensures name in s.made || name == l.legacy || (name == l.source && s.stored)
  {
  }

  /** The server rebinds no name. What it removes is a name that it made itself, an upload
      that an older server staged, or the source after the completion event is stored. */
  lemma NothingIsOverwritten(l: Layout, s: State, steps: seq<Step>, step: Step, name: Path)
    requires Start(l, s) && IsRun(l, s, steps) && Enabled(l, After(l, s, steps), step) && Server(step)
    requires name in After(l, s, steps).names
    ensures var t := After(l, s, steps);
            var u := Next(l, t, step);
            if name in u.names then u.names[name] == t.names[name]
            else name in t.made || name == l.legacy || (name == l.source && t.stored)
  {
    var w := RunIsKept(l, s, l.staging, steps);
    NothingIsRebound(l, After(l, s, steps), w, step, name);
    if name !in Next(l, After(l, s, steps), step).names {
      RemovalIsOurs(l, After(l, s, steps), w, step, name);
    }
  }

  lemma ContentStays(l: Layout, s: State, w: Path, step: Step, inode: Inode)
    requires Kept(l, s, w) && Enabled(l, s, step) && inode in s.contents
    ensures var t := Next(l, s, step);
            || (inode in t.contents && t.contents[inode] == s.contents[inode])
            || (step.Fill? && inode !in s.own && s.names[s.phase.temp] == inode)
  {
  }

  /** The content of a file changes only while it is a temporary copy. */
  lemma FilesKeepTheirContent(l: Layout, s: State, steps: seq<Step>, step: Step, inode: Inode)
    requires Start(l, s) && IsRun(l, s, steps) && Enabled(l, After(l, s, steps), step)
    requires inode in After(l, s, steps).contents
    ensures var t := After(l, s, steps);
            var u := Next(l, t, step);
            || (inode in u.contents && u.contents[inode] == t.contents[inode])
            || (step.Fill? && inode !in t.own && t.names[t.phase.temp] == inode)
  {
    var w := RunIsKept(l, s, l.staging, steps);
    ContentStays(l, After(l, s, steps), w, step, inode);
  }

  lemma UploadRepairs(l: Layout, s: State, w: Path, inode: Inode)
    requires Kept(l, s, w) && inode !in s.contents
    ensures Safe(l, Next(l, s, UploadAgain(inode))) <==>
              l.staging in s.names ==> Resolves(s.names, s.contents, l.staging, l.content)
  {
  }

  /** After a miss, uploading again makes the next completion safe, if and only if no older
      upload has been staged in between. */
  lemma UploadAgainRepairs(l: Layout, s: State, steps: seq<Step>, inode: Inode)
    requires Start(l, s) && IsRun(l, s, steps) && inode !in After(l, s, steps).contents
    ensures var t := After(l, s, steps);
            Safe(l, Next(l, t, UploadAgain(inode))) <==>
              l.staging in t.names ==> Resolves(t.names, t.contents, l.staging, l.content)
  {
    var w := RunIsKept(l, s, l.staging, steps);
    UploadRepairs(l, After(l, s, steps), w, inode);
  }

  /** And then all that holds of runs without a miss holds again from there: that each
      completion starts from the upload until the next miss, and that one whose calls work
      saves it. */
  lemma SafeStatesAreRecovered(l: Layout, s: State, steps: seq<Step>)
    requires Start(l, s) && IsRun(l, s, steps)
    requires var t := After(l, s, steps);
             && t.phase.Idle? && Safe(l, t)
             && (l.staging !in t.names && l.legacy !in t.names ==> Owned(t, t.target))
    ensures Inv(l, After(l, s, steps))
  {
    var w := RunIsKept(l, s, l.staging, steps);
  }
}
