/** Suspending a set of encoder processes as one transaction. Every change of a process
    goes through the operating system and may fail; a failed transaction undoes what it
    did in reverse order, and undoing may fail as well. */
module PauseControl {

  /** One owned process. `suspends` is the operating system's own nesting count: suspending
      twice needs two resumes. A process that has exited ignores both and reports success. */
  datatype Process = Process(key: string, live: bool, paused: bool, individual: bool, suspends: int)
  {
    ghost predicate Faithful() {
      live ==> suspends == if paused then 1 else 0
    }

    /** The process after a successful system call. */
    function Switched(desired: bool): Process {
      this.(paused := desired,
            suspends := if !live then suspends else if desired then suspends + 1 else suspends - 1)
    }

    /** The process once it is where the goal wants it; no system call if it is there already. */
    function Reached(goal: Goal): Process {
      if paused == goal.Wants(this) then this else Switched(goal.Wants(this))
    }
  }

  type Id = nat
  type Table = map<Id, Process>

  /** The pause that each operation wants for a process. */
  datatype Goal = General(paused: bool) | Job(key: string, paused: bool, general: bool) | Nobody
  {
    function Wants(p: Process): bool {
      match this
      case General(b) => b || p.individual
      case Job(k, b, general) => if p.key == k then general || b else p.paused
      case Nobody => false
    }
  }

  /** The iteration order of a Go map: any order that visits each key once. */
  ghost predicate Covers(order: seq<Id>, keys: set<Id>) {
    && (forall i :: 0 <= i < |order| ==> order[i] in keys)
    && (forall id :: id in keys ==> id in order)
    && (forall i, j :: 0 <= i < j < |order| ==> order[i] != order[j])
  }

  datatype Outcome = Done | Failed(clean: bool)

  /** Every call of one kind works. */
  ghost predicate AllAnswer(answers: nat -> bool) {
    forall n: nat :: answers(n)
  }

  /** A job can be held or released on its own exactly while all its processes run. */
  ghost predicate Runs(t: Table, key: string) {
    && key != "" && (exists id :: id in t && t[id].key == key)
    && forall id :: id in t && t[id].key == key ==> t[id].live
  }

  /** `u` is `t` with the processes in `moved`, which all needed it, moved to the goal. */
  ghost predicate Moved(t: Table, u: Table, goal: Goal, moved: set<Id>) {
    && t.Keys == u.Keys && moved <= t.Keys
    && (forall id :: id in t && id in moved ==>
          t[id].paused != goal.Wants(t[id]) && u[id] == t[id].Switched(goal.Wants(t[id])))
    && (forall id :: id in t && id !in moved ==> u[id] == t[id])
  }

  /** What a transition promises, whatever the order and the failures: success reaches the
      goal for every process; a failure leaves each process as it was or at the goal, needs
      a live process that had to change, and if all was undone changes nothing. */
  ghost predicate Transitioned(t: Table, u: Table, goal: Goal, outcome: Outcome) {
    match outcome
    case Done => u == Reach(t, goal)
    case Failed(clean) =>
      && t.Keys == u.Keys && (clean ==> u == t)
      && (forall id :: id in t ==> u[id] == t[id] || u[id] == t[id].Reached(goal))
      && exists id :: id in t && t[id].live && t[id].paused != goal.Wants(t[id])
  }

  function Reach(t: Table, goal: Goal): Table {
    map id | id in t :: t[id].Reached(goal)
  }

  /** What the source remembers to undo one change. */
  datatype Change = Change(id: Id, before: bool)

  ghost function Ids(changed: seq<Change>): set<Id> {
    if changed == [] then {} else Ids(changed[..|changed| - 1]) + {changed[|changed| - 1].id}
  }

  ghost predicate Recorded(changed: seq<Change>, t: Table) {
    changed != [] ==>
      var last, rest := changed[|changed| - 1], changed[..|changed| - 1];
      && last.id in t && last.before == t[last.id].paused && last.id !in Ids(rest)
      && Recorded(rest, t)
  }

  lemma MoveOne(t: Table, u: Table, goal: Goal, moved: set<Id>, id: Id)
    requires Moved(t, u, goal, moved) && id in t && id !in moved && t[id].paused != goal.Wants(t[id])
    ensures Moved(t, u[id := u[id].Switched(goal.Wants(t[id]))], goal, moved + {id})
  {
  }

  lemma RecordMore(changed: seq<Change>, change: Change, t: Table)
    requires Recorded(changed, t) && change.id in t && change.id !in Ids(changed)
    requires change.before == t[change.id].paused
    ensures Recorded(changed + [change], t) && Ids(changed + [change]) == Ids(changed) + {change.id}
  {
    assert (changed + [change])[..|changed|] == changed;
  }

  lemma UndoOne(t: Table, u: Table, goal: Goal, left: seq<Change>, stuck: set<Id>)
    requires left != [] && Recorded(left, t) && Ids(left) !! stuck && Moved(t, u, goal, Ids(left) + stuck)
    ensures var last, rest := left[|left| - 1], left[..|left| - 1];
            && Recorded(rest, t) && last.id in t && Ids(rest) !! stuck + {last.id}
            && Moved(t, u[last.id := u[last.id].Switched(last.before)], goal, Ids(rest) + stuck)
            && Moved(t, u, goal, Ids(rest) + (stuck + {last.id}))
  {
    var last, rest := left[|left| - 1], left[..|left| - 1];
    assert Ids(left) + stuck == Ids(rest) + (stuck + {last.id});
    assert t[last.id].Switched(goal.Wants(t[last.id])).Switched(last.before) == t[last.id];
  }

  lemma MovedIsFailed(t: Table, u: Table, goal: Goal, moved: set<Id>, clean: bool, stopped: Id)
    requires Moved(t, u, goal, moved) && (clean ==> u == t)
    requires stopped in t && t[stopped].live && t[stopped].paused != goal.Wants(t[stopped])
    ensures Transitioned(t, u, goal, Failed(clean))
  {
    forall id | id in t ensures u[id] == t[id] || u[id] == t[id].Reached(goal) {
      if id in moved { } else { }
    }
  }

  lemma MovedIsDone(t: Table, u: Table, goal: Goal, moved: set<Id>)
    requires Moved(t, u, goal, moved) && forall id :: id in t ==> u[id].paused == goal.Wants(t[id])
    ensures Transitioned(t, u, goal, Done)
  {
    forall id | id in t ensures u[id] == t[id].Reached(goal) {
      if id in moved { } else { }
    }
  }

  // ---------------------------------------------------------------------------------
  // The controller as a value, and what each operation may do to it.

  datatype Controller = Controller(paused: bool, processes: Table)
  {
    /** Every process is paused exactly when the general pause or its own hold says so. */
    ghost predicate Settled() {
      forall id :: id in processes ==> processes[id].paused == (paused || processes[id].individual)
    }

    ghost predicate Faithful() {
      forall id :: id in processes ==> processes[id].Faithful()
    }

    /** No encode is suspended, and none that starts later will be. */
    ghost predicate Released() {
      !paused && forall id :: id in processes ==> !processes[id].paused && !processes[id].individual
    }
  }

  function WithHold(t: Table, key: string, held: bool): Table {
    map id | id in t :: if t[id].key == key then t[id].(individual := held) else t[id]
  }

  function WithoutHolds(t: Table): Table {
    map id | id in t :: t[id].(individual := false)
  }

  datatype JobResult = Changed(outcome: Outcome) | NotRunning | NotInspected

  datatype Event =
    | SetGeneral(paused: bool, outcome: Outcome)
    | SetJob(key: string, paused: bool, result: JobResult)
    | Resume(outcome: Outcome)
    | Started(id: Id, key: string)
    | Exited(id: Id)
    | Removed(id: Id)
  {
    /** The failures that could not be undone. */
    predicate LeavesTaint() {
      match this
      case SetGeneral(_, Failed(clean)) => !clean
      case Resume(Failed(clean)) => !clean
      case SetJob(_, _, Changed(Failed(clean))) => !clean
      case _ => false
    }

    /** The successes that bring every process to its goal. */
    predicate Settles() {
      (SetGeneral? || Resume?) && outcome.Done?
    }
  }

  ghost predicate Next(c: Controller, d: Controller, e: Event) {
    match e
    case SetGeneral(b, outcome) =>
      && Transitioned(c.processes, d.processes, General(b), outcome)
      && d.paused == if outcome.Done? then b else c.paused
    case SetJob(key, b, Changed(outcome)) =>
      && key != "" && (exists id :: id in c.processes && c.processes[id].key == key)
      && (forall id :: id in c.processes && c.processes[id].key == key ==> c.processes[id].live)
      && d.paused == c.paused
      && var goal := Job(key, b, c.paused);
         if outcome.Done? then d.processes == WithHold(Reach(c.processes, goal), key, b)
         else Transitioned(c.processes, d.processes, goal, outcome)
    case SetJob(key, _, NotRunning) =>
      && d == c
      && (key == "" || (forall id :: id in c.processes ==> c.processes[id].key != key)
          || exists id :: id in c.processes && c.processes[id].key == key && !c.processes[id].live)
    case SetJob(_, _, NotInspected) => d == c
    case Resume(outcome) =>
      && d.paused == (if outcome.Done? then false else c.paused)
      && if outcome.Done? then d.processes == WithoutHolds(Reach(c.processes, Nobody))
         else Transitioned(c.processes, d.processes, Nobody, outcome)
    case Started(id, key) =>
      !c.paused && id !in c.processes && d == c.(processes := c.processes[id := Process(key, true, false, false, 0)])
    case Exited(id) => id in c.processes && d == c.(processes := c.processes[id := c.processes[id].(live := false)])
    case Removed(id) => d == c.(processes := c.processes - {id})
  }

  /** True after a failure that could not be undone, until the next success that covers
      every process. */
  function Tainted(events: seq<Event>): bool {
    if events == [] then false
    else
      var last := events[|events| - 1];
      last.LeavesTaint() || (!last.Settles() && Tainted(events[..|events| - 1]))
  }

  /** Operation `k` was rolled back only in part, and since then no general pause, resume or
      release has succeeded. */
  ghost predicate Unrepaired(events: seq<Event>, k: nat)
    requires k < |events|
  {
    && (|| ((events[k].SetGeneral? || events[k].Resume?) && events[k].outcome == Failed(false))
        || (events[k].SetJob? && events[k].result == Changed(Failed(false))))
    && forall j :: k < j < |events| && (events[j].SetGeneral? || events[j].Resume?) ==> events[j].outcome.Failed?
  }

  lemma {:induction false} TaintedExactly(events: seq<Event>)
    ensures Tainted(events) <==> exists k: nat :: k < |events| && Unrepaired(events, k)
  {
    if events != [] {
      var rest, last := events[..|events| - 1], events[|events| - 1];
      TaintedExactly(rest);
      forall k: nat | k < |rest| ensures Unrepaired(events, k) <==> Unrepaired(rest, k) && !last.Settles() {
        assert events[|rest|] == last;
      }
      assert Unrepaired(events, |rest|) <==> last.LeavesTaint();
      if Tainted(rest) && !last.Settles() {
        var k: nat :| k < |rest| && Unrepaired(rest, k);
        assert Unrepaired(events, k);
      }
    }
  }

  ghost predicate IsHistory(run: seq<Controller>, events: seq<Event>) {
    && |run| == |events| + 1
    && run[0] == Controller(false, map[])
    && forall i :: 0 <= i < |events| ==> Next(run[i], run[i + 1], events[i])
  }

  lemma StepKeepsFaithful(c: Controller, d: Controller, e: Event)
    requires Next(c, d, e) && c.Faithful()
    ensures d.Faithful()
  {
  }

  /** A success of the general pause or of the release settles the controller from any
      state, also one that an earlier failure left half changed; everything else keeps it
      settled unless a failure could not be undone. */
  lemma StepSettles(c: Controller, d: Controller, e: Event)
    requires Next(c, d, e)
    ensures e.Settles() ==> d.Settled()
    ensures e.Resume? && e.outcome.Done? ==> d.Released()
    ensures c.Settled() && !e.LeavesTaint() ==> d.Settled()
  {
  }

  /** Every history: what is recorded is real, and while no failure is left unrepaired
      every process is paused exactly when it should be. */
  lemma {:induction false} HistoryIsFaithfulAndSettled(run: seq<Controller>, events: seq<Event>, i: nat)
    requires IsHistory(run, events) && i < |run|
    ensures run[i].Faithful()
    ensures !Tainted(events[..i]) ==> run[i].Settled()
  {
    if i > 0 {
      HistoryIsFaithfulAndSettled(run, events, i - 1);
      assert events[..i][..i - 1] == events[..i - 1];
      StepKeepsFaithful(run[i - 1], run[i], events[i - 1]);
      StepSettles(run[i - 1], run[i], events[i - 1]);
    }
  }

  /** A released controller stays released without a single system call: a general resume
      cannot fail when nothing is suspended, and only a pause request can suspend again. */
  lemma ReleasedStaysReleased(c: Controller, d: Controller, e: Event)
    requires Next(c, d, e) && c.Released()
    requires !(e.SetGeneral? && e.paused) && !(e.SetJob? && e.paused)
    ensures d.Released()
    ensures e.SetGeneral? || e.Resume? ==> e.outcome.Done?
  {
  }

  class PauseController {
    var paused: bool
    var processes: Table
    var wakeups: nat   // how often waiting starts were woken

    ghost function View(): Controller
      reads this
    {
      Controller(paused, processes)
    }

    constructor ()
      ensures !paused && processes == map[] && wakeups == 0
    {
      paused, processes, wakeups := false, map[], 0;
    }

    method SetPaused(paused: bool, order: seq<Id>, answers: nat -> bool) returns (outcome: Outcome)
      requires Covers(order, processes.Keys)
      modifies this
      ensures Next(old(View()), View(), SetGeneral(paused, outcome))
      ensures AllAnswer(answers) ==> outcome.Done?
      ensures wakeups == old(wakeups) + if outcome.Done? then 1 else 0
    {
      outcome := Transition(General(paused), order, answers);
      if outcome.Failed? {
        return;
      }
      this.paused := paused;
      wakeups := wakeups + 1;
    }

    /** `inspected` is the answer of the operating system when asked whether a process runs.
        Only one of the job itself that cannot be inspected ends the call that way. */
    method SetJobPaused(key: string, paused: bool, order: seq<Id>, inspected: nat -> bool, answers: nat -> bool)
      returns (result: JobResult)
      requires Covers(order, processes.Keys)
      modifies this`processes
      ensures Next(old(View()), View(), SetJob(key, paused, result))
      ensures result.NotInspected? ==>
                exists i :: 0 <= i < |order| && old(processes)[order[i]].key == key != "" && !inspected(i)
      ensures AllAnswer(inspected) && AllAnswer(answers) ==>
                result == if Runs(old(processes), key) then Changed(Done) else NotRunning
    {
      var found := false;
      for i := 0 to |order|
        invariant processes == old(processes)
        invariant found ==> key != "" && exists id :: id in processes && processes[id].key == key
        invariant !found ==> key == "" || forall j :: 0 <= j < i ==> processes[order[j]].key != key
        invariant key != "" ==> forall j :: 0 <= j < i && processes[order[j]].key == key ==> processes[order[j]].live
      {
        var p := processes[order[i]];
        if p.key != key || key == "" {
          continue;
        }
        if !inspected(i) {
          return NotInspected;
        }
        if !p.live {
          return NotRunning;
        }
        found := true;
      }
      if !found {
        return NotRunning;
      }
      var outcome := Transition(Job(key, paused, this.paused), order, answers);
      if outcome.Done? {
        processes := WithHold(processes, key, paused);
      }
      return Changed(outcome);
    }

    method ResumeAll(order: seq<Id>, answers: nat -> bool) returns (outcome: Outcome)
      requires Covers(order, processes.Keys)
      modifies this
      ensures Next(old(View()), View(), Resume(outcome))
      ensures AllAnswer(answers) ==> outcome.Done?
      ensures wakeups == old(wakeups) + if outcome.Done? then 1 else 0
    {
      outcome := Transition(Nobody, order, answers);
      if outcome.Failed? {
        return;
      }
      paused := false;
      processes := WithoutHolds(processes);
      wakeups := wakeups + 1;
    }

    /** One attempt to start a command; while the general pause holds it waits for the
        next wakeup instead. */
    method Start(id: Id, key: string) returns (started: bool)
      requires id !in processes
      modifies this`processes
      ensures started == !paused
      ensures if started then Next(old(View()), View(), Started(id, key)) else View() == old(View())
      ensures started ==>
                id in processes && processes[id].key == key && processes[id].live
                && !processes[id].paused && !processes[id].individual && processes[id].suspends == 0
    {
      if paused {
        return false;
      }
      processes := processes[id := Process(key, true, false, false, 0)];
      return true;
    }

    /** One system call: `ok` is the operating system's answer. */
    method Switch(id: Id, desired: bool, ok: bool) returns (done: bool)
      requires id in processes
      modifies this`processes
      ensures done == (ok || !old(processes)[id].live)
      ensures processes == if done then old(processes)[id := old(processes)[id].Switched(desired)] else old(processes)
    {
      done := ok || !processes[id].live;
      if done {
        processes := processes[id := processes[id].Switched(desired)];
      }
    }

    method Transition(goal: Goal, order: seq<Id>, answers: nat -> bool) returns (outcome: Outcome)
      requires Covers(order, processes.Keys)
      modifies this`processes
      ensures Transitioned(old(processes), processes, goal, outcome)
      ensures (forall n: nat :: answers(n)) ==> outcome.Done?
      ensures (forall m: nat, n: nat :: !answers(m) && !answers(n) ==> m == n) ==> outcome != Failed(false)
    {
      ghost var before := processes;
      var changed: seq<Change> := [];
      var calls: nat := 0;
      for i := 0 to |order|
        invariant Moved(before, processes, goal, Ids(changed)) && Recorded(changed, before)
        invariant forall j :: i <= j < |order| ==> order[j] !in Ids(changed)
        invariant forall j :: 0 <= j < i ==> processes[order[j]].paused == goal.Wants(before[order[j]])
      {
        var id := order[i];
        var current := processes[id].paused;
        var desired := goal.Wants(processes[id]);
        if current != desired {
          MoveOne(before, processes, goal, Ids(changed), id);
          var ok := Switch(id, desired, answers(calls));
          calls := calls + 1;
          if !ok {
            outcome := GiveUp(goal, changed, answers, calls, before, id);
            return;
          }
          RecordMore(changed, Change(id, current), before);
          changed := changed + [Change(id, current)];
        }
      }
      MovedIsDone(before, processes, goal, Ids(changed));
      return Done;
    }

    /** The process `stopped` could not be moved. */
    method GiveUp(goal: Goal, changed: seq<Change>, answers: nat -> bool, start: nat, ghost before: Table,
                  ghost stopped: Id)
      returns (outcome: Outcome)
      requires Moved(before, processes, goal, Ids(changed)) && Recorded(changed, before)
      requires stopped in before && before[stopped].live && before[stopped].paused != goal.Wants(before[stopped])
      modifies this`processes
      ensures Transitioned(before, processes, goal, outcome) && outcome.Failed?
      ensures (forall n: nat :: n >= start ==> answers(n)) ==> outcome.clean
    {
      var clean, stuck := RollBack(goal, changed, answers, start, before);
      MovedIsFailed(before, processes, goal, stuck, clean, stopped);
      return Failed(clean);
    }

    /** Undoes `changed` from its end; what cannot be undone stays moved. */
    method RollBack(goal: Goal, changed: seq<Change>, answers: nat -> bool, start: nat, ghost before: Table)
      returns (clean: bool, ghost stuck: set<Id>)
      requires Moved(before, processes, goal, Ids(changed)) && Recorded(changed, before)
      modifies this`processes
      ensures Moved(before, processes, goal, stuck)
      ensures clean ==> processes == before
      ensures (forall n: nat :: n >= start ==> answers(n)) ==> clean
    {
      clean, stuck := true, {};
      var calls, left := start, changed;
      while left != []
        invariant Recorded(left, before) && Ids(left) !! stuck && Moved(before, processes, goal, Ids(left) + stuck)
        invariant clean ==> stuck == {}
        invariant calls >= start && ((forall n: nat :: n >= start ==> answers(n)) ==> clean)
        decreases |left|
      {
        UndoOne(before, processes, goal, left, stuck);
        var last := left[|left| - 1];
        left := left[..|left| - 1];
        var ok := Switch(last.id, last.before, answers(calls));
        calls := calls + 1;
        if !ok {
          clean, stuck := false, stuck + {last.id};
        }
      }
      assert Ids(left) + stuck == stuck;
    }
  }
}
