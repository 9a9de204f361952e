/** What the server does with the completion event of a worker: it completes the job first and
    asks the event log afterwards, so a completion that the log rejects has been published. */
module Completion {
  import opened Options
  import opened OutputNaming
  import OP = OutputPublication
  import EL = EventLog

  class RuntimeScheduler {
    const repository: EL.Repository
    const publisher: OP.Publisher

    constructor (repository: EL.Repository, publisher: OP.Publisher)
      ensures this.repository == repository && this.publisher == publisher
    {
      this.repository, this.publisher := repository, publisher;
    }

    /** `published` says that the job was completed, `ok` that the worker is told so. The
        event is stored only for a published job. With the cleanups working, a rejected
        completion changes nothing if and only if nothing was staged and the record has the
        name already that a search from it settles on. */
    method ProcessCompletion(event: EL.Event, temp: Path, inode: Inode, calls: OP.Calls)
      returns (published: bool, ok: bool)
      requires event.IsCompleted() && EL.Numbered(repository.rows) && publisher.Ready()
      requires temp !in publisher.files.names && OP.EndsIn(temp, 'p') && inode !in publisher.files.contents
      modifies repository, publisher`target, publisher.files
      ensures EL.Numbered(repository.rows)
      ensures (ok, repository.rows) ==
              if published then EL.Receive(old(repository.rows), event) else (false, old(repository.rows))
      ensures calls.AllWork() ==> published
      ensures var log := old(repository.rows);
              && (published && 0 <= event.id < |log|
                  && log[event.id].topic == EL.Job && log[event.id].status == EL.Completed ==>
                    ok && repository.rows == log)
              && (published && event.id == |log| ==> ok && repository.rows == log + [event])
      ensures published ==>
                OP.Resolves(publisher.files.names, publisher.files.contents, publisher.target, publisher.layout.content)
      ensures ok ==> published && 0 <= event.id < |repository.rows| && repository.rows[event.id].IsCompleted()
      ensures published && !ok && calls.cleanStaging && calls.cleanLegacy ==>
                (publisher.files.names == old(publisher.files.names) && publisher.target == old(publisher.target) <==>
                   && publisher.layout.staging !in old(publisher.files.names)
                   && publisher.layout.legacy !in old(publisher.files.names)
                   && OP.AlreadyChosen(publisher.layout, old(publisher.files.names), old(publisher.target)))
    {
      published := publisher.CompleteJob(temp, inode, calls);
      ok := false;
      if published {
        ok := repository.ProcessEvent(event);
      }
    }
  }

  /** A worker that the server has fenced off never gets its completion stored; whether it was
      published all the same is what the method above says. */
  lemma FencedCompletionIsNotStored(s: EL.System, i: nat)
    requires EL.Inv(s) && s.Fenced(i)
    ensures var event := EL.Event(s.contexts[i].last + 1, EL.Job, EL.Completed, s.contexts[i].worker);
            EL.Receive(s.log, event).1 == s.log
  {
    EL.FencedForever(s, EL.Publish(i, EL.Job, EL.Completed, true), i);
  }
}
