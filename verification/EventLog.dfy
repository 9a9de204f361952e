/** The event log of a job. Appending is a compare-and-set on the next number, which makes
    the log a fencing token: a worker that lost its assignment can never append again. */
module EventLog {
  import opened Options

  /** `Job` events describe the job itself, `Step` events one phase of its pipeline. */
  datatype Topic = Job | Step(phase: nat)

  datatype Status = Queued | Assigned | Started | Completed | Canceled | Failed

  datatype Event = Event(id: int, topic: Topic, status: Status, worker: string)
  {
    predicate IsCompleted() {
      topic == Job && status == Completed
    }
  }

  type Log = seq<Event>

  predicate Numbered(log: Log) {
    forall k :: 0 <= k < |log| ==> log[k].id == k
  }

  /** An assignment directly follows a queued event. */
  predicate ExtendsQueued(log: Log, k: nat)
    requires k < |log|
  {
    log[k].topic == Job && log[k].status == Assigned ==> k > 0 && log[k - 1].topic == Job && log[k - 1].status == Queued
  }

  /** The latest event of a topic. */
  function Latest(log: Log, topic: Topic): Option<Event> {
    if log == [] then None
    else if log[|log| - 1].topic == topic then Some(log[|log| - 1])
    else Latest(log[..|log| - 1], topic)
  }

  function NextEvent(log: Log, status: Status, worker: string): Event {
    Event(|log|, Job, status, worker)
  }

  /** The stored rows of one job. */
  class Repository {
    var rows: Log

    constructor ()
      ensures rows == []
    {
      rows := [];
    }

    /** Appends only the event that carries the next number. */
    method AddNewTaskEvent(event: Event) returns (ok: bool)
      requires Numbered(rows)
      modifies this
      ensures ok <==> event.id == |old(rows)|
      ensures rows == if ok then old(rows) + [event] else old(rows)
      ensures Numbered(rows)
    {
      var latest := -1;
      for i := 0 to |rows|
        invariant latest == i - 1
      {
        if rows[i].id > latest {
          latest := rows[i].id;
        }
      }
      if latest + 1 != event.id {
        return false;
      }
      rows := rows + [event];
      return true;
    }

    method GetLatestPerNotificationType(topic: Topic) returns (event: Option<Event>)
      requires Numbered(rows)
      ensures event == Latest(rows, topic)
    {
      event := None;
      var eventId := -1;
      for i := 0 to |rows|
        invariant event == Latest(rows[..i], topic)
        invariant -1 <= eventId < i && (event.Some? ==> event.value.id == eventId)
      {
        assert rows[..i + 1][..i] == rows[..i];
        if rows[i].topic == topic && rows[i].id > eventId {
          eventId, event := rows[i].id, Some(rows[i]);
        }
      }
      assert rows[..|rows|] == rows;
    }

    /** Hands the job to a worker; the number given out is the one of the assignment.
        `between` is what others append between the lookup and the append: then the job is
        not assigned. */
    method RequestJob(worker: string, between: Log) returns (answer: Answer)
      requires Numbered(rows + between)
      modifies this
      ensures Numbered(rows)
      ensures var log := old(rows);
              && (answer.NoJob? <==> !IsQueued(log))
              && (answer.Conflict? <==> IsQueued(log) && between != [])
              && (answer.Given? ==> answer.id == |log|)
              && rows == log + between + if answer.Given? then [NextEvent(log, Assigned, worker)] else []
    {
      var snapshot := rows;
      assert forall k :: 0 <= k < |snapshot| ==> (snapshot + between)[k] == snapshot[k];
      rows := rows + between;
      if !IsQueued(snapshot) {
        return NoJob;
      }
      var event := NextEvent(snapshot, Assigned, worker);
      var ok := AddNewTaskEvent(event);
      return if ok then Given(event.id) else Conflict;
    }

    /** Cancelling never reports success: also after the event is stored, the call ends in
        the error for an unknown state. */
    method CancelJob(between: Log) returns (result: CancelResult)
      requires Numbered(rows) && Numbered(rows + between) && Latest(rows, Job).Some?
      modifies this
      ensures Numbered(rows)
      ensures var log := old(rows);
              var cancels := Latest(log, Job).value.status in {Assigned, Started};
              && rows == log + between + (if cancels && between == [] then [NextEvent(log, Canceled, "")] else [])
              && result == match Latest(log, Job).value.status
                           case Completed => AlreadyCompleted
                           case Failed => AlreadyFailed
                           case Canceled => AlreadyCanceled
                           case _ => if cancels && between != [] then NotStored else UnknownState
    {
      var latest := GetLatestPerNotificationType(Job);
      var event := NextEvent(rows, Canceled, "");
      rows := rows + between;
      match latest.value.status {
        case Completed => return AlreadyCompleted;
        case Failed => return AlreadyFailed;
        case Canceled => return AlreadyCanceled;
        case Queued => return UnknownState;
        case _ =>
          var ok := AddNewTaskEvent(event);
          return if ok then UnknownState else NotStored;
      }
    }

    /** A worker's event: a completion that is already stored under its number is accepted
        again without being stored twice, the next number is stored, all else is refused. */
    method ProcessEvent(event: Event) returns (ok: bool)
      requires Numbered(rows)
      modifies this
      ensures Numbered(rows)
      ensures (ok, rows) == Receive(old(rows), event)
      ensures event.topic == Job && event.status == Completed && 0 <= event.id < |old(rows)|
              && old(rows)[event.id].topic == Job && old(rows)[event.id].status == Completed ==>
                ok && rows == old(rows)
      ensures event.id == |old(rows)| ==> ok && rows == old(rows) + [event]
      ensures ok ==> 0 <= event.id < |rows| && (rows[event.id] == event || old(rows) == rows)
      ensures !ok ==> rows == old(rows)
    {
      if event.IsCompleted() {
        for i := 0 to |rows|
          invariant forall j :: 0 <= j < i ==> !(rows[j].id == event.id && rows[j].IsCompleted())
        {
          if rows[i].id == event.id && rows[i].IsCompleted() {
            return true;
          }
        }
      }
      ok := AddNewTaskEvent(event);
    }
  }

  datatype CancelResult = AlreadyCompleted | AlreadyFailed | AlreadyCanceled | NotStored | UnknownState

  datatype Answer = NoJob | Conflict | Given(id: int)

  predicate IsQueued(log: Log) {
    log != [] && log[|log| - 1].topic == Job && log[|log| - 1].status == Queued
  }

  function Receive(log: Log, event: Event): (bool, Log) {
    if event.IsCompleted() && 0 <= event.id < |log| && log[event.id].IsCompleted() then (true, log)
    else if event.id == |log| then (true, log + [event])
    else (false, log)
  }

  /** The worker's side: the next number follows the last event, or the assignment. */
  class WorkerContext {
    const eventId: int
    var lastEvent: Option<Event>

    constructor (eventId: int)
      ensures this.eventId == eventId && lastEvent == None
    {
      this.eventId, lastEvent := eventId, None;
    }

    ghost function LastNumber(): int
      reads this
    {
      if lastEvent.Some? then lastEvent.value.id else eventId
    }

    method UpdateEvent(topic: Topic, status: Status, worker: string)
      modifies this
      ensures LastNumber() == old(LastNumber()) + 1
      ensures lastEvent == Some(Event(old(LastNumber()) + 1, topic, status, worker))
    {
      var id := eventId + 1;
      if lastEvent.Some? {
        id := lastEvent.value.id + 1;
      }
      lastEvent := Some(Event(id, topic, status, worker));
    }
  }

  // ---------------------------------------------------------------------------------
  // All interleavings of the server's own operations with the workers of one job.

  /** What the server appends on its own, decided on a snapshot of the log. A requeue after
      a timeout appends two events in one transaction. */
  datatype Decision = Assign(worker: string) | Cancel | Requeue | Retry | SourceMissing | GiveUp
  {
    predicate Allowed(log: Log) {
      var latest := Latest(log, Job);
      && latest.Some?
      && match this
         case Assign(_) => IsQueued(log)
         case Cancel => latest.value.status == Assigned || latest.value.status == Started
         case Requeue => latest.value.status == Assigned || latest.value.status == Started
         case Retry => latest.value.status in {Completed, Failed, Canceled}
         case SourceMissing => latest.value.status == Queued
         case GiveUp => latest.value.status == Failed
    }

    function Events(log: Log): Log {
      match this
      case Assign(w) => [NextEvent(log, Assigned, w)]
      case Cancel => [NextEvent(log, Canceled, "")]
      case Requeue => [NextEvent(log, Canceled, ""), Event(|log| + 1, Job, Queued, "")]
      case Retry => [NextEvent(log, Queued, "")]
      case SourceMissing => [NextEvent(log, Failed, "")]
      case GiveUp => [NextEvent(log, Canceled, "")]
    }
  }

  datatype Author = Server | ByContext(i: nat)

  /** One assignment as its worker sees it: the number of the assignment, of the last event
      it knows to be stored, and of the last one it saved on its own disk. */
  datatype Context = Context(worker: string, base: nat, last: nat, saved: nat)

  datatype Snapshot = Snapshot(decision: Decision, log: Log)

  datatype System = System(log: Log, authors: seq<Author>, contexts: seq<Context>, snapshots: seq<Snapshot>)
  {
    /** Holding the next number. */
    predicate Holds(i: nat) {
      i < |contexts| && contexts[i].last + 1 == |log|
    }

    /** The server appended past what this context has stored. */
    ghost predicate Fenced(i: nat) {
      i < |contexts| && exists f :: contexts[i].last < f < |authors| && authors[f] == Server
    }

    predicate MayStream(worker: string) {
      var latest := Latest(log, Job);
      latest.Some? && latest.value.status == Started && latest.value.worker == worker
    }
  }

  datatype Action =
    | Read(decision: Decision)
    | Commit(r: nat, delivered: bool)           // the server's append and, for an assignment, its answer
    | Publish(i: nat, topic: Topic, status: Status, answered: bool)
    | Save(i: nat)
    | Restart(i: nat)

  /** What a worker publishes; it never queues, assigns or cancels a job. */
  predicate FromWorker(topic: Topic, status: Status) {
    status == Started || status == Completed || status == Failed
  }

  predicate Enabled(s: System, a: Action) {
    match a
    case Read(d) => d.Allowed(s.log)
    case Commit(r, _) => r < |s.snapshots|
    case Publish(i, topic, status, _) => i < |s.contexts| && FromWorker(topic, status)
    case Save(i) => i < |s.contexts|
    case Restart(i) => i < |s.contexts|
  }

  function Next(s: System, a: Action): System
    requires Enabled(s, a)
  {
    match a
    case Read(d) => s.(snapshots := s.snapshots + [Snapshot(d, s.log)])
    case Commit(r, delivered) =>
      var read := s.snapshots[r];
      var t := s.(snapshots := s.snapshots[..r] + s.snapshots[r + 1..]);
      if |read.log| != |s.log| then t
      else
        var events := read.decision.Events(read.log);
        t.(log := s.log + events,
           authors := s.authors + seq(|events|, _ => Server),
           contexts := s.contexts + if read.decision.Assign? && delivered
                                    then [Context(read.decision.worker, |s.log|, |s.log|, |s.log|)] else [])
    case Publish(i, topic, status, answered) =>
      var c := s.contexts[i];
      var event := Event(c.last + 1, topic, status, c.worker);
      var (ok, log) := Receive(s.log, event);
      s.(log := log,
         authors := if |log| > |s.log| then s.authors + [ByContext(i)] else s.authors,
         contexts := if ok && answered then s.contexts[i := c.(last := c.last + 1)] else s.contexts)
    case Save(i) => s.(contexts := s.contexts[i := s.contexts[i].(saved := s.contexts[i].last)])
    case Restart(i) => s.(contexts := s.contexts[i := s.contexts[i].(last := s.contexts[i].saved)])
  }

  ghost predicate ContextOk(s: System, i: nat)
    requires i < |s.contexts| && |s.authors| == |s.log|
  {
    var c := s.contexts[i];
    && c.base <= c.saved <= c.last < |s.log|
    && s.authors[c.base] == Server
    && (forall k :: c.base < k <= c.last ==> s.authors[k] == ByContext(i))
    && (forall k :: c.base < k < |s.log| && (k - 1 == c.base || s.authors[k - 1] == ByContext(i)) ==>
          s.authors[k] == Server || s.authors[k] == ByContext(i))
  }

  ghost predicate EventOk(s: System, k: nat)
    requires k < |s.log| == |s.authors|
  {
    && s.log[k].id == k
    && (s.authors[k] == Server ==> s.log[k].topic == Job && s.log[k].status != Completed && s.log[k].status != Started)
    && (s.authors[k].ByContext? ==>
          && s.authors[k].i < |s.contexts| && FromWorker(s.log[k].topic, s.log[k].status)
          && s.log[k].worker == s.contexts[s.authors[k].i].worker && s.contexts[s.authors[k].i].base < k)
    && ExtendsQueued(s.log, k)
  }

  ghost predicate Inv(s: System) {
    && |s.authors| == |s.log|
    && (forall k :: 0 <= k < |s.log| ==> EventOk(s, k))
    && (forall i :: 0 <= i < |s.contexts| ==> ContextOk(s, i))
    && (forall i, j :: 0 <= i < j < |s.contexts| ==> s.contexts[i].base != s.contexts[j].base)
    && (forall r :: 0 <= r < |s.snapshots| ==>
          s.snapshots[r].log <= s.log && s.snapshots[r].decision.Allowed(s.snapshots[r].log))
  }

  ghost predicate Init(s: System) {
    s == System([Event(0, Job, Queued, "")], [Server], [], [])
  }

  lemma ServerAppendKeepsInv(s: System, r: nat, delivered: bool)
    requires Inv(s) && r < |s.snapshots|
    ensures Inv(Next(s, Commit(r, delivered)))
  {
    var n := Next(s, Commit(r, delivered));
    var read := s.snapshots[r];
    if |read.log| == |s.log| {
      assert read.log == s.log;
      forall k | 0 <= k < |n.log| ensures EventOk(n, k) {
        if k < |s.log| { assert EventOk(s, k); }
      }
      forall i | 0 <= i < |n.contexts| ensures ContextOk(n, i) {
        if i < |s.contexts| { assert ContextOk(s, i); }
      }
      forall i, j | 0 <= i < j < |n.contexts| ensures n.contexts[i].base != n.contexts[j].base {
        if j == |s.contexts| { assert ContextOk(s, i); }
      }
    } else {
      AppendNothing(s, n);
    }
  }

  lemma AppendNothing(s: System, n: System)
    requires Inv(s) && n == s.(snapshots := n.snapshots)
    requires forall r :: 0 <= r < |n.snapshots| ==> n.snapshots[r] in s.snapshots
    ensures Inv(n)
  {
    forall k | 0 <= k < |n.log| ensures EventOk(n, k) { assert EventOk(s, k); }
    forall i | 0 <= i < |n.contexts| ensures ContextOk(n, i) { assert ContextOk(s, i); }
  }

  /** A positive answer is always about the context's own event: either it holds the next
      number, or it stored this completion itself and only missed the answer. */
  lemma AnswerIsForOwnEvent(s: System, i: nat, topic: Topic, status: Status)
    requires Inv(s) && i < |s.contexts| && FromWorker(topic, status)
    ensures var c := s.contexts[i]; var event := Event(c.last + 1, topic, status, c.worker);
            Receive(s.log, event).0 ==> s.Holds(i) || (c.last + 1 < |s.log| && s.authors[c.last + 1] == ByContext(i))
  {
    var c := s.contexts[i];
    assert ContextOk(s, i);
    if c.last + 1 < |s.log| {
      assert EventOk(s, c.last + 1);
      assert c.last == c.base || s.authors[c.last + 1 - 1] == ByContext(i);
    }
  }

  /** And it always comes when either is the case. */
  lemma OwnEventIsAnswered(s: System, i: nat, topic: Topic, status: Status, answered: bool)
    requires Inv(s) && Enabled(s, Publish(i, topic, status, answered))
    ensures var c, n := s.contexts[i], Next(s, Publish(i, topic, status, answered));
            var again := topic == Job && status == Completed && c.last + 1 < |s.log|
                         && s.log[c.last + 1].topic == Job && s.log[c.last + 1].status == Completed;
            && n.log == (if s.Holds(i) then s.log + [Event(c.last + 1, topic, status, c.worker)] else s.log)
            && n.contexts[i].last == c.last + (if (s.Holds(i) || again) && answered then 1 else 0)
  {
    assert ContextOk(s, i);
  }

  /** At most one context holds the next number. */
  lemma HolderIsUnique(s: System, i: nat, j: nat)
    requires Inv(s) && s.Holds(i) && s.Holds(j)
    ensures i == j
  {
    assert ContextOk(s, i) && ContextOk(s, j);
  }

  lemma PublishKeepsEvent(s: System, i: nat, topic: Topic, status: Status, answered: bool, k: nat)
    requires Inv(s) && Enabled(s, Publish(i, topic, status, answered))
    requires k < |Next(s, Publish(i, topic, status, answered)).log|
    ensures EventOk(Next(s, Publish(i, topic, status, answered)), k)
  {
    assert ContextOk(s, i);
    AnswerIsForOwnEvent(s, i, topic, status);
    if k < |s.log| { assert EventOk(s, k); }
  }

  lemma PublishKeepsContext(s: System, i: nat, topic: Topic, status: Status, answered: bool, j: nat)
    requires Inv(s) && Enabled(s, Publish(i, topic, status, answered)) && j < |s.contexts|
    ensures ContextOk(Next(s, Publish(i, topic, status, answered)), j)
  {
    assert ContextOk(s, i) && ContextOk(s, j);
    AnswerIsForOwnEvent(s, i, topic, status);
    if s.Holds(j) && |Next(s, Publish(i, topic, status, answered)).log| > |s.log| { HolderIsUnique(s, i, j); }
  }

  lemma PublishKeepsInv(s: System, i: nat, topic: Topic, status: Status, answered: bool)
    requires Inv(s) && Enabled(s, Publish(i, topic, status, answered))
    ensures Inv(Next(s, Publish(i, topic, status, answered)))
  {
    var n := Next(s, Publish(i, topic, status, answered));
    forall k | 0 <= k < |n.log| ensures EventOk(n, k) {
      PublishKeepsEvent(s, i, topic, status, answered, k);
    }
    forall j | 0 <= j < |n.contexts| ensures ContextOk(n, j) {
      PublishKeepsContext(s, i, topic, status, answered, j);
    }
  }

  lemma StepKeepsInv(s: System, a: Action)
    requires Inv(s) && Enabled(s, a)
    ensures Inv(Next(s, a))
    ensures s.log <= Next(s, a).log
  {
    match a {
      case Read(d) =>
        forall k | 0 <= k < |s.log| ensures EventOk(Next(s, a), k) { assert EventOk(s, k); }
        forall i | 0 <= i < |s.contexts| ensures ContextOk(Next(s, a), i) { assert ContextOk(s, i); }
      case Commit(r, delivered) => ServerAppendKeepsInv(s, r, delivered);
      case Publish(i, topic, status, answered) => PublishKeepsInv(s, i, topic, status, answered);
      case Save(i) => LocalStepKeepsInv(s, Next(s, a), i);
      case Restart(i) => LocalStepKeepsInv(s, Next(s, a), i);
    }
  }

  lemma LocalStepKeepsInv(s: System, n: System, i: nat)
    requires Inv(s) && i < |s.contexts| && n == s.(contexts := n.contexts)
    requires var c := s.contexts[i];
             || n.contexts == s.contexts[i := c.(saved := c.last)]
             || n.contexts == s.contexts[i := c.(last := c.saved)]
    ensures Inv(n)
  {
    forall k | 0 <= k < |n.log| ensures EventOk(n, k) { assert EventOk(s, k); }
    forall j | 0 <= j < |n.contexts| ensures ContextOk(n, j) { assert ContextOk(s, j); }
  }

  /** Fencing: once the server has appended past a context, it stays fenced, and no step it
      takes afterwards changes the log. */
  lemma FencedForever(s: System, a: Action, i: nat)
    requires Inv(s) && Enabled(s, a) && s.Fenced(i)
    ensures Next(s, a).Fenced(i)
    ensures a.Publish? && a.i == i ==> Next(s, a).log == s.log
  {
    var f :| s.contexts[i].last < f < |s.log| && s.authors[f] == Server;
    var n := Next(s, a);
    assert ContextOk(s, i) && EventOk(s, f);
    if a.Publish? && a.i == i { AnswerIsForOwnEvent(s, i, a.topic, a.status); }
    assert n.contexts[i].last < f && n.authors[f] == Server;
  }

  /** Every append of the server, a requeue or a cancel in particular, fences all contexts
      that exist at that moment. */
  lemma ServerAppendFencesEverybody(s: System, r: nat, delivered: bool, i: nat)
    requires Inv(s) && r < |s.snapshots| && Next(s, Commit(r, delivered)).log != s.log && i < |s.contexts|
    ensures Next(s, Commit(r, delivered)).Fenced(i)
  {
    assert ContextOk(s, i);
    assert Next(s, Commit(r, delivered)).authors[|s.log|] == Server;
  }

  lemma {:induction false} LatestIsLast(log: Log, topic: Topic)
    requires Latest(log, topic).Some?
    ensures exists k :: 0 <= k < |log| && log[k] == Latest(log, topic).value && log[k].topic == topic
                        && forall j :: k < j < |log| ==> log[j].topic != topic
  {
    if log[|log| - 1].topic != topic { LatestIsLast(log[..|log| - 1], topic); }
  }

  /** Only a worker whose assignment is still in force may stream: it wrote the latest job
      event, and nothing the server did since has fenced it. */
  lemma StreamingNeedsCurrentAssignment(s: System, worker: string)
    requires Inv(s) && s.MayStream(worker)
    ensures exists k :: 0 <= k < |s.log| && s.log[k] == Latest(s.log, Job).value
                        && s.authors[k].ByContext? && s.authors[k].i < |s.contexts|
                        && s.contexts[s.authors[k].i].worker == worker
                        && forall f :: k < f < |s.log| ==> s.authors[f].ByContext?
  {
    LatestIsLast(s.log, Job);
    var k :| 0 <= k < |s.log| && s.log[k] == Latest(s.log, Job).value
             && forall j :: k < j < |s.log| ==> s.log[j].topic != Job;
    assert EventOk(s, k);
    forall f | k < f < |s.log| ensures s.authors[f].ByContext? { assert EventOk(s, f); }
  }

  // ---------------------------------------------------------------------------------

  ghost predicate IsRun(run: seq<System>, actions: seq<Action>) {
    && |run| == |actions| + 1 && Init(run[0])
    && forall i :: 0 <= i < |actions| ==> Enabled(run[i], actions[i]) && run[i + 1] == Next(run[i], actions[i])
  }

  lemma {:induction false} RunKeepsInv(run: seq<System>, actions: seq<Action>, i: nat)
    requires IsRun(run, actions) && i < |run|
    ensures Inv(run[i])
  {
    if i > 0 {
      RunKeepsInv(run, actions, i - 1);
      StepKeepsInv(run[i - 1], actions[i - 1]);
    }
  }

  /** In every interleaving of assignment, worker events, lost answers, restarts, requeue
      and cancel: the log is numbered without gaps, at most one context can extend it, and
      every assignment directly follows a queued event. */
  lemma LogIsAFencingToken(run: seq<System>, actions: seq<Action>, i: nat)
    requires IsRun(run, actions) && i < |run|
    ensures Numbered(run[i].log)
    ensures forall c, d :: run[i].Holds(c) && run[i].Holds(d) ==> c == d
    ensures forall k :: 0 <= k < |run[i].log| ==> ExtendsQueued(run[i].log, k)
  {
    RunKeepsInv(run, actions, i);
    var s := run[i];
    forall k | 0 <= k < |s.log| ensures s.log[k].id == k && ExtendsQueued(s.log, k) {
      assert EventOk(s, k);
    }
    forall c, d | run[i].Holds(c) && run[i].Holds(d) ensures c == d {
      HolderIsUnique(run[i], c, d);
    }
  }

  /** What the server may write after the latest event of the job itself. */
  predicate Follows(before: Status, next: Status) {
    match next
    case Assigned => before == Queued
    case Queued => before in {Completed, Failed, Canceled}
    case Canceled => before in {Assigned, Started, Failed}
    case Failed => before == Queued
    case _ => false
  }

  ghost predicate LifeOk(s: System, k: nat)
    requires 0 < k < |s.log| == |s.authors|
  {
    s.authors[k] == Server ==>
      var latest := Latest(s.log[..k], Job);
      latest.Some? && s.log[k].topic == Job && Follows(latest.value.status, s.log[k].status)
  }

  lemma CommitFollows(s: System, r: nat, delivered: bool, k: nat)
    requires Inv(s) && r < |s.snapshots| && |s.log| <= k < |Next(s, Commit(r, delivered)).log|
    ensures |Next(s, Commit(r, delivered)).authors| == |Next(s, Commit(r, delivered)).log| && k > 0
    ensures LifeOk(Next(s, Commit(r, delivered)), k)
  {
    var n, read := Next(s, Commit(r, delivered)), s.snapshots[r];
    assert read.log == s.log && n.log[..|s.log|] == s.log;
    if k > |s.log| {
      assert n.log[..k][..|s.log|] == s.log && n.log[..k][|s.log|] == NextEvent(s.log, Canceled, "");
    }
  }

  /** In every run the server assigns and fails only queued jobs, queues only jobs that have
      ended, and cancels only jobs that are assigned, started or failed. */
  lemma {:induction false} ServerFollowsTheLifeOfTheJob(run: seq<System>, actions: seq<Action>, i: nat, k: nat)
    requires IsRun(run, actions) && i < |run| && 0 < k < |run[i].log|
    ensures |run[i].authors| == |run[i].log| && LifeOk(run[i], k)
  {
    RunKeepsInv(run, actions, i);
    if i > 0 {
      RunStep(run, actions, i - 1);
      StepKeepsInv(run[i - 1], actions[i - 1]);
      if k < |run[i - 1].log| {
        ServerFollowsTheLifeOfTheJob(run, actions, i - 1, k);
        assert run[i].log[..k] == run[i - 1].log[..k];
      } else if actions[i - 1].Commit? {
        CommitFollows(run[i - 1], actions[i - 1].r, actions[i - 1].delivered, k);
      }
    }
  }

  /** And a job is never stuck: unless it is queued already, one decision of the server makes it
      ready to be assigned. */
  lemma JobCanBeQueuedAgain(log: Log)
    requires Latest(log, Job).Some? && Latest(log, Job).value.status != Queued
    ensures var d := if Latest(log, Job).value.status in {Assigned, Started} then Requeue else Retry;
            d.Allowed(log) && IsQueued(log + d.Events(log)) && Assign("").Allowed(log + d.Events(log))
  {
    var d := if Latest(log, Job).value.status in {Assigned, Started} then Requeue else Retry;
    var after := log + d.Events(log);
    assert after[|after| - 1].status == Queued;
  }

  /** Nor is one that nobody can finish: it can be cancelled while it is assigned or started,
      and fails while it is queued without its source. */
  lemma JobCanBeEnded(log: Log)
    requires Latest(log, Job).Some?
    ensures Latest(log, Job).value.status in {Assigned, Started} ==>
              Cancel.Allowed(log) && Latest(log + Cancel.Events(log), Job).value.status == Canceled
    ensures Latest(log, Job).value.status == Queued ==>
              SourceMissing.Allowed(log) && Latest(log + SourceMissing.Events(log), Job).value.status == Failed
  {
  }

  /** A job is never assigned twice without having been queued again in between. */
  lemma NoDoubleAssignment(run: seq<System>, actions: seq<Action>, i: nat, k: nat, m: nat)
    requires IsRun(run, actions) && i < |run| && k < m < |run[i].log|
    requires run[i].log[k].topic == Job && run[i].log[k].status == Assigned
    requires run[i].log[m].topic == Job && run[i].log[m].status == Assigned
    ensures exists q :: k < q < m && run[i].log[q].topic == Job && run[i].log[q].status == Queued
  {
    LogIsAFencingToken(run, actions, i);
    assert ExtendsQueued(run[i].log, m);
    assert k < m - 1;
  }

  lemma RunStep(run: seq<System>, actions: seq<Action>, i: nat)
    requires IsRun(run, actions) && i < |actions|
    ensures Inv(run[i]) && Enabled(run[i], actions[i]) && run[i + 1] == Next(run[i], actions[i])
  {
    RunKeepsInv(run, actions, i);
  }

  lemma {:induction false} StaysFenced(run: seq<System>, actions: seq<Action>, i: nat, m: nat, c: nat)
    requires IsRun(run, actions) && i <= m < |run| && run[i].Fenced(c)
    ensures run[m].Fenced(c)
    decreases m
  {
    if m > i {
      StaysFenced(run, actions, i, m - 1, c);
      RunStep(run, actions, m - 1);
      FencedForever(run[m - 1], actions[m - 1], c);
    }
  }

  lemma {:induction false} LogOnlyGrows(run: seq<System>, actions: seq<Action>, i: nat, m: nat)
    requires IsRun(run, actions) && i <= m < |run|
    ensures run[i].log <= run[m].log && |run[i].contexts| <= |run[m].contexts|
    decreases m
  {
    if m > i {
      LogOnlyGrows(run, actions, i, m - 1);
      RunStep(run, actions, m - 1);
      StepKeepsInv(run[m - 1], actions[m - 1]);
    }
  }

  /** A worker whose completion was stored, but whose answer was lost, can repeat it at any
      later time, whatever was appended since: it is answered, and nothing is stored twice. */
  lemma RepeatedCompletionIsAnswered(run: seq<System>, actions: seq<Action>, i: nat, m: nat, c: nat)
    requires IsRun(run, actions) && i < m < |actions|
    requires actions[i] == Publish(c, Job, Completed, false) && run[i].Holds(c)
    requires actions[m] == Publish(c, Job, Completed, true) && run[m].contexts[c].last == run[i].contexts[c].last
    ensures run[i + 1].log[|run[i].log|].IsCompleted() && run[i + 1].contexts == run[i].contexts
    ensures run[m + 1].log == run[m].log
    ensures run[m + 1].contexts[c].last == run[m].contexts[c].last + 1
  {
    RunStep(run, actions, i);
    OwnEventIsAnswered(run[i], c, Job, Completed, false);
    LogOnlyGrows(run, actions, i + 1, m);
    RunStep(run, actions, m);
    OwnEventIsAnswered(run[m], c, Job, Completed, true);
  }

  /** A context older than a server append never changes the log again, for the rest of the
      run. */
  lemma StaleContextNeverAppends(run: seq<System>, actions: seq<Action>, i: nat, m: nat, c: nat)
    requires IsRun(run, actions) && i <= m < |actions| && run[i].Fenced(c)
    ensures run[m].Fenced(c)
    ensures actions[m].Publish? && actions[m].i == c ==> run[m + 1].log == run[m].log
  {
    StaysFenced(run, actions, i, m, c);
    RunStep(run, actions, m);
    FencedForever(run[m], actions[m], c);
  }
}
