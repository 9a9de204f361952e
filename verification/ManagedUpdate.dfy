/** The elevated helper that replaces the whole installation directory. The transaction file
    is its journal; every call may fail, and the machine may stop at any of them. */
module ManagedUpdate {
  import opened Options

  /** File names with their contents. A listing of sizes and hashes stands for the contents. */
  type Tree = map<string, string>

  datatype Phase = Prepared | Installing | Verifying | Recovering | RestartRequired | Completed | Retrying {
    predicate Active() {
      !Completed? && !Retrying?
    }
  }

  /** `files` is the listing in the verified manifest of the candidate. */
  datatype Transaction = Transaction(phase: Phase, files: Tree, backupFiles: Tree)

  predicate Active(t: Option<Transaction>) {
    t.Some? && t.value.phase.Active()
  }

  /** Every listed file is there with its content. Other files may be there too. */
  predicate VerifyInstallation(root: Tree, files: Tree) {
    forall f :: f in files ==> f in root && root[f] == files[f]
  }

  /** A rollback can work: the backup is not needed yet, or nobody has changed it. */
  predicate UsableBackup(t: Option<Transaction>, intact: bool) {
    Active(t) && (t.value.phase == Prepared || intact)
  }

  /** `Stopped` is a crash: no code of this run comes after it. */
  datatype Outcome = Fine | Error | Stopped {
    predicate IsFailure() {
      !Fine?
    }

    function PropagateFailure(): Outcome {
      this
    }
  }

  /** How the installer ends; `NotRun` when its log cannot be opened. */
  datatype Exit = Success | RebootRequired | Failure | NotRun

  class Directory {
    var files: Tree

    constructor (files: Tree)
      ensures this.files == files
    {
      this.files := files;
    }
  }

  /** The part of the disk that an update touches. `faults` bounds how many calls still fail;
      it is arbitrary, so it limits nothing that can happen in a finite time. */
  class Disk {
    const install: Directory
    const backup: Directory
    var transaction: Option<Transaction>
    /** The admission barrier in the manager's state file. */
    var pending: bool
    /** The installed service has answered with the version of its tree, and runs. */
    var healthy: bool
    var running: bool
    var faults: nat
    /** The manager could not start the helper and still has to withdraw the transaction. */
    var late: bool
    /** It has withdrawn it after a helper had started to install, and no helper has written
        the journal since. */
    ghost var covered: bool
    /** The installation when the transaction was prepared. */
    ghost var before: Tree
    /** Nobody but the helper has changed the backup. */
    ghost var intact: bool

    constructor (tree: Tree, faults: nat)
      ensures Inv() && fresh(install) && fresh(backup)
      ensures install.files == tree && transaction == None && this.faults == faults && !pending && healthy
      ensures !late && !covered && intact
    {
      install := new Directory(tree);
      backup := new Directory(map[]);
      transaction, pending, healthy, running, this.faults := None, false, true, true, faults;
      before, intact, late, covered := tree, true, false, false;
    }

    ghost predicate Separate()
      reads this
    {
      install != backup
    }

    ghost predicate BackedUp(t: Transaction)
      reads this, backup
    {
      t.backupFiles == before && before != map[] && (intact ==> backup.files == before)
    }

    /** What a phase of the journal promises. */
    ghost predicate JournalHolds(t: Transaction)
      reads this, install, backup
    {
      match t.phase
      case Prepared => install.files == before && before != map[]
      case Retrying => VerifyInstallation(install.files, before) && (intact ==> install.files == before)
      case Completed => VerifyInstallation(install.files, t.files)
      case _ => BackedUp(t)
    }

    /** What holds at every point of every run, and so after a crash at any point. */
    ghost predicate Inv()
      reads this, install, backup
    {
      && Separate()
      && (transaction.Some? && !transaction.value.phase.Completed? ==> pending)
      && (late ==> transaction.Some? && transaction.value.phase in {Prepared, Installing, Recovering, Retrying})
      && if covered then transaction.Some? && transaction.value.phase == Retrying
         else
           && (!Active(transaction) || transaction.value.phase == Prepared ==> healthy)
           && (transaction.Some? ==> JournalHolds(transaction.value))
    }

    /** The helper has started to install `t`, and may be the only one to know it. */
    ghost predicate InProgress(t: Transaction)
      reads this, backup
    {
      && BackedUp(t) && transaction.Some? && transaction.value.files == t.files
      && (covered || (Active(transaction) && transaction.value.phase != Prepared))
    }

    /** The helper has read the prepared `t` and has not touched the installation. */
    ghost predicate Untouched(t: Transaction)
      reads this, install
    {
      && install.files == before && before != map[] && healthy && !covered
      && transaction.Some? && transaction.value.files == t.files && transaction.value.phase in {Prepared, Retrying}
    }

    // -------------------------------------------------------------------------------
    // Single calls.

    /** A call that changes nothing on this part of the disk. */
    method Call() returns (r: Outcome)
      modifies this`faults
      ensures if r.Fine? then faults == old(faults) else faults == old(faults) - 1
    {
      r := Fine;
      if faults > 0 {
        if * {
          r, faults := Error, faults - 1;
        } else if * {
          r, faults := Stopped, faults - 1;
        }
      }
    }

    /** The manager runs inside the service, and ends with it. */
    method StopService() returns (r: Outcome)
      modifies this`faults, this`healthy, this`running, this`late
      ensures !healthy
      ensures if r.Fine? then faults == old(faults) && !late && !running
              else faults < old(faults) && late == old(late) && running == old(running)
    {
      healthy := false;
      r := Call();
      if r.Fine? {
        late, running := false, false;
      }
    }

    method StartService() returns (r: Outcome)
      modifies this`faults, this`running
      ensures if r.Fine? then faults == old(faults) && running else faults < old(faults)
    {
      r := Call();
      if r.Fine? {
        running := true;
      }
    }

    /** Only a service that runs answers. */
    method CheckHealth() returns (r: Outcome)
      modifies this`faults, this`healthy
      ensures if r.Fine? then faults == old(faults) && running && healthy
              else healthy == old(healthy) && faults <= old(faults) && (faults == old(faults) ==> r.Error? && !running)
    {
      if !running {
        return Error;
      }
      r := Call();
      if r.Fine? {
        healthy := true;
      }
    }

    /** Replaces the transaction file atomically. */
    method SaveTransaction(t: Transaction) returns (r: Outcome)
      modifies this`transaction, this`covered, this`faults
      ensures if r.Fine? then faults == old(faults) else faults == old(faults) - 1
      ensures r.Fine? ==> transaction == Some(t) && !covered
      ensures r.Error? ==> transaction == old(transaction) && covered == old(covered)
      ensures r.Stopped? ==>
                (transaction == old(transaction) && covered == old(covered)) || (transaction == Some(t) && !covered)
    {
      r := Call();
      var landed: bool := *;
      if r.Fine? || (r.Stopped? && landed) {
        transaction, covered := Some(t), false;
      }
    }

    /** The manager writes "retrying" over its transaction, whatever has become of it. What the
        journal promises is kept exactly when no helper has started to install. */
    method Withdraw(written: bool)
      requires Inv() && late
      modifies this`transaction, this`covered, this`late
      ensures Inv() && !late
      ensures if written then transaction == Some(Transaction(Retrying, old(transaction).value.files, map[]))
              else transaction == old(transaction)
      ensures covered == (old(covered) || (written && old(transaction).value.phase in {Installing, Recovering}))
    {
      late := false;
      if written {
        covered := covered || transaction.value.phase in {Installing, Recovering};
        transaction := Some(Transaction(Retrying, transaction.value.files, map[]));
      }
    }

    /** The manager may come to that write between any two calls of the helper. */
    method Meanwhile()
      requires Inv()
      modifies this`transaction, this`covered, this`late
      ensures Inv() && (late ==> old(late))
      ensures transaction == old(transaction) ==> covered == old(covered)
      ensures transaction != old(transaction) ==>
                && old(late) && !late && transaction == Some(Transaction(Retrying, old(transaction).value.files, map[]))
                && covered == (old(covered) || old(transaction).value.phase in {Installing, Recovering})
    {
      if late {
        if * {
          var written: bool := *;
          Withdraw(written);
        }
      }
    }

    /** Replaces the state file atomically. */
    method SavePending(value: bool) returns (r: Outcome)
      modifies this`pending, this`faults
      ensures if r.Fine? then faults == old(faults) && pending == value else faults == old(faults) - 1
      ensures pending == old(pending) || (pending == value && !r.Error?)
    {
      r := Call();
      var landed: bool := *;
      if r.Fine? || (r.Stopped? && landed) {
        pending := value;
      }
    }

    method RemoveAll(d: Directory) returns (r: Outcome)
      modifies this`faults, d
      ensures if r.Fine? then faults == old(faults) && d.files == map[] else faults == old(faults) - 1
    {
      r := Call();
      var removed: set<string> := *;
      d.files := if r.Fine? then map[] else d.files - removed;
    }

    method CopyTree(source: Directory, dest: Directory) returns (r: Outcome)
      requires source != dest
      modifies this`faults, dest
      ensures if r.Fine? then faults == old(faults) && dest.files == old(dest.files) + source.files
              else faults == old(faults) - 1
    {
      var todo := source.files.Keys;
      while todo != {}
        invariant todo <= source.files.Keys && faults == old(faults)
        invariant dest.files.Keys == old(dest.files).Keys + (source.files.Keys - todo)
        invariant forall n :: n in dest.files ==>
          dest.files[n] == if n in source.files && n !in todo then source.files[n] else old(dest.files)[n]
        invariant source.files == old(source.files)
      {
        var name :| name in todo;
        :- Call();
        dest.files := dest.files[name := source.files[name]];
        todo := todo - {name};
      }
      assert dest.files == old(dest.files) + source.files;
      return Fine;
    }

    /** The installer does what it likes to the installation directory: it leaves `tree`. It
        may have started the service. */
    method RunInstaller(tree: Tree) returns (r: Outcome)
      modifies this`faults, this`healthy, this`running, install
      ensures install.files == tree && !healthy
      ensures if r.Fine? then faults == old(faults) else faults < old(faults)
    {
      r := Call();
      healthy, running := false, *;
      install.files := tree;
    }

    // -------------------------------------------------------------------------------
    // Rollback.

    /** Nothing of the installation is removed before the backup has been verified. */
    method RestoreTree(files: Tree) returns (r: Outcome)
      requires Separate()
      modifies this`faults, install
      ensures r.Fine? ==>
                faults == old(faults) && VerifyInstallation(install.files, files) && install.files == backup.files
      ensures !VerifyInstallation(backup.files, files) ==> r.Error? && install.files == old(install.files)
      ensures VerifyInstallation(backup.files, files) ==> r.Fine? || faults < old(faults)
      ensures faults <= old(faults) && (r.Stopped? ==> faults < old(faults))
    {
      if !VerifyInstallation(backup.files, files) {
        return Error;
      }
      :- RemoveAll(install);
      :- CopyTree(backup, install);
      assert install.files == backup.files;
      if !VerifyInstallation(install.files, files) {
        return Error;
      }
      return Fine;
    }

    method Rollback(t: Transaction) returns (r: Outcome)
      requires Separate()
      modifies this`faults, this`healthy, this`running, this`late, install
      ensures r.Fine? ==>
                && healthy && !late
                && VerifyInstallation(install.files, t.backupFiles) && install.files == backup.files
      ensures late ==> old(late)
      ensures t.backupFiles != map[] && VerifyInstallation(backup.files, t.backupFiles) ==>
                r.Fine? || faults < old(faults)
      ensures faults <= old(faults) && (r.Stopped? ==> faults < old(faults))
    {
      if t.backupFiles == map[] {
        return Error;
      }
      :- StopService();
      :- RestoreTree(t.backupFiles);
      :- StartService();
      r := CheckHealth();
    }

    /** One attempt: `finished` says that nothing is left to repeat in this run. An attempt
        that only the damaged backup spoils leaves the transaction to be recovered. */
    method AttemptRecovery(t: Transaction) returns (r: Outcome, finished: bool)
      requires Inv() && InProgress(t)
      modifies this`transaction, this`covered, this`late, this`pending, this`healthy, this`running, this`faults, install
      ensures Inv() && faults <= old(faults) && (late ==> old(late)) && (covered ==> old(covered))
      ensures finished && r.Fine? ==> transaction == Some(t.(phase := Retrying)) && !covered && !late
      ensures transaction.Some? && transaction.value.files == t.files
      ensures transaction == old(transaction) || transaction.value.phase in {Recovering, Retrying}
      ensures !finished ==> InProgress(t)
      ensures intact && !(finished && r.Fine?) ==> faults < old(faults)
      ensures faults == old(faults) && !finished ==> transaction == Some(t.(phase := Recovering)) && !covered
      ensures faults == old(faults) && finished ==> r.Fine?
    {
      r := Rollback(t);
      if r.Fine? {
        r := SavePending(true);
        if r.Fine? {
          r := SaveTransaction(t.(phase := Retrying));
        }
        return r, true;
      }
      if r.Error? {
        r := SaveTransaction(t.(phase := Recovering));
      }
      if !r.Stopped? {
        r := SavePending(true);
      }
      return r, r.Stopped?;
    }

    /** Rolls back until it works. `patience` is the number of attempts before the run is
        cancelled. With the backup intact only a fault makes an attempt fail. */
    method RecoverInstallation(t: Transaction, patience: nat) returns (r: Outcome)
      requires Inv() && InProgress(t)
      modifies this`transaction, this`covered, this`late, this`pending, this`healthy, this`running, this`faults, install
      ensures Inv() && faults <= old(faults) && (late ==> old(late)) && (covered ==> old(covered || late))
      ensures r.Fine? ==> transaction == Some(t.(phase := Retrying)) && !covered && !late
      ensures transaction.Some? && transaction.value.files == t.files
      ensures transaction == old(transaction) || transaction.value.phase in {Recovering, Retrying}
      ensures !r.Fine? && intact && patience > old(faults) ==> faults < old(faults)
    {
      r := SaveTransaction(t.(phase := Recovering));
      if r.Stopped? {
        return;
      }
      var attempt := 0;
      while attempt < patience
        invariant Inv() && InProgress(t) && (late ==> old(late)) && (covered ==> old(covered || late))
        invariant transaction == old(transaction) || transaction.value.phase in {Recovering, Retrying}
        invariant faults <= old(faults)
        invariant intact ==> faults + attempt <= old(faults)
      {
        Meanwhile();
        var finished;
        r, finished := AttemptRecovery(t);
        if finished {
          return;
        }
        attempt := attempt + 1;
      }
      return Error;
    }

    method RecoverAfterError(t: Transaction, patience: nat) returns (r: Outcome)
      requires Inv() && InProgress(t)
      modifies this`transaction, this`covered, this`late, this`pending, this`healthy, this`running, this`faults, install
      ensures Inv() && faults <= old(faults) && (late ==> old(late)) && (covered ==> old(covered || late))
      ensures transaction.Some? && transaction.value.files == t.files
      ensures transaction == old(transaction) || transaction.value.phase in {Recovering, Retrying}
      ensures r.Fine? ==> transaction == Some(t.(phase := Retrying)) && !covered && !late
      ensures !r.Fine? && intact && patience > old(faults) ==> faults < old(faults)
    {
      var recovering := t.(phase := Recovering);
      :- SaveTransaction(recovering);
      r := RecoverInstallation(t, patience);
    }

    // -------------------------------------------------------------------------------
    // Installation.

    method CompleteInstallation(t: Transaction) returns (r: Outcome)
      requires Inv() && Active(transaction) && transaction.value.phase != Prepared && !late
      requires VerifyInstallation(install.files, t.files) && healthy
      modifies this`transaction, this`covered, this`pending, this`faults
      ensures Inv() && !covered
      ensures if r.Fine? then faults == old(faults) && transaction == Some(t.(phase := Completed)) && !pending
              else faults < old(faults)
      ensures transaction == old(transaction) || transaction == Some(t.(phase := Completed))
    {
      var completed := t.(phase := Completed);
      :- SaveTransaction(completed);
      r := SavePending(false);
    }

    /** Checks the new installation; anything wrong with it starts the rollback. */
    method VerifyAndComplete(t: Transaction, patience: nat) returns (r: Outcome)
      requires Inv() && Active(transaction) && InProgress(t) && !late
      modifies this`transaction, this`covered, this`late, this`pending, this`healthy, this`running, this`faults, install
      ensures Inv() && faults <= old(faults) && !covered && !late
      ensures transaction.Some? && transaction.value.files == t.files
      ensures r.Fine? ==> transaction in {Some(t.(phase := Completed)), Some(t.(phase := Retrying))}
      ensures r.Fine? && transaction.value.phase == Completed ==>
                VerifyInstallation(install.files, t.files) && install.files == old(install.files) && healthy && !pending
      ensures faults == old(faults) && r.Fine? ==>
                (transaction.value.phase == Completed <==> VerifyInstallation(old(install.files), t.files))
      ensures !r.Fine? && intact && patience > old(faults) ==> faults < old(faults)
    {
      r := if VerifyInstallation(install.files, t.files) then Fine else Error;
      if r.Fine? {
        r := StartService();
      }
      if r.Fine? {
        r := CheckHealth();
      }
      match r
      case Fine => r := CompleteInstallation(t);
      case Error => r := RecoverAfterError(t, patience);
      case Stopped =>
    }

    /** Everything before the journal says `Installing`. It leaves the installation alone. */
    method BackUp(ghost t: Transaction) returns (r: Outcome)
      requires Inv() && Untouched(t)
      modifies this`faults, this`intact, backup
      ensures Inv() && Untouched(t)
      ensures if r.Fine? then faults == old(faults) && intact && backup.files == install.files
              else faults == old(faults) - 1
    {
      intact := false;
      :- Call();
      :- RemoveAll(backup);
      :- CopyTree(install, backup);
      intact := true;
      assert backup.files == install.files;
      return Fine;
    }

    /** The backup, or the report that it failed: a prepared transaction that cannot go on has
        changed nothing, and is left for the manager to repeat. */
    method BackUpOrReport(t: Transaction) returns (r: Outcome)
      requires Inv() && Untouched(t) && t.phase == Prepared
      modifies this`transaction, this`covered, this`pending, this`faults, this`intact, backup
      ensures Inv() && Untouched(t) && faults <= old(faults)
      ensures r.Fine? ==>
                faults == old(faults) && transaction == old(transaction) && intact && backup.files == install.files
      ensures !r.Fine? ==> faults < old(faults)
      ensures r.Error? && faults == old(faults) - 1 ==> transaction == Some(t.(phase := Retrying)) && pending
      ensures r.Stopped? ==> transaction == old(transaction)
    {
      r := BackUp(t);
      if r.Error? {
        var saved := SavePending(true);
        if !saved.Stopped? {
          saved := SaveTransaction(t.(phase := Retrying));
        }
      }
    }

    /** After the installer has answered. */
    method FollowExit(t: Transaction, patience: nat, exit: Exit) returns (r: Outcome)
      requires Inv() && InProgress(t) && intact && !late && t.phase == Installing && !exit.NotRun?
      modifies this`transaction, this`covered, this`late, this`pending, this`healthy, this`running, this`faults, install
      ensures Inv() && faults <= old(faults) && !late && (covered ==> old(covered))
      ensures transaction.Some? && transaction.value.files == t.files
      ensures r.Fine? ==> !covered && (!Active(transaction) || transaction.value.phase == RestartRequired)
      ensures !r.Fine? && patience > old(faults) ==> faults < old(faults)
      ensures r.Fine? && faults == old(faults) ==>
                && (exit.RebootRequired? ==>
                      transaction == Some(t.(phase := RestartRequired)) && install.files == old(install.files))
                && (!exit.RebootRequired? ==>
                      transaction in {Some(t.(phase := Completed)), Some(t.(phase := Retrying))})
                && (transaction.value.phase == Completed <==>
                      exit.Success? && VerifyInstallation(old(install.files), t.files))
      ensures r.Fine? && transaction.value.phase == Completed ==>
                install.files == old(install.files) && healthy && !pending
    {
      if exit.Failure? {
        r := RecoverAfterError(t, patience);
        return;
      }
      if exit.RebootRequired? {
        r := SaveTransaction(t.(phase := RestartRequired));
        return;
      }
      :- SaveTransaction(t.(phase := Verifying));
      r := VerifyAndComplete(t, patience);
    }

    /** Stops the service and runs the installer, if its log can be opened. */
    method Replace(t: Transaction, tree: Tree, exit: Exit) returns (r: Outcome)
      requires Inv() && InProgress(t)
      modifies this`late, this`healthy, this`running, this`faults, install
      ensures Inv() && InProgress(t) && (late ==> old(late)) && faults <= old(faults)
      ensures r.Fine? ==> faults == old(faults) && !late && !exit.NotRun? && install.files == tree
      ensures !r.Fine? ==> faults < old(faults) || (r.Error? && exit.NotRun?)
    {
      r := StopService();
      if !r.Fine? {
        return;
      }
      if exit.NotRun? {
        return Error;
      }
      r := RunInstaller(tree);
    }

    /** From the journal saying `Installing` on. `tree` and `exit` are what the installer leaves
        and answers. Without a fault they alone decide how it ends: an installer that succeeds
        and leaves what was listed is kept, one that asks for a restart is verified after it,
        and anything else brings the old installation back. */
    method Install(t: Transaction, patience: nat, tree: Tree, exit: Exit) returns (r: Outcome)
      requires Inv() && InProgress(t) && intact && t.phase == Installing
      modifies this`transaction, this`covered, this`late, this`pending, this`healthy, this`running, this`faults, install
      ensures Inv() && faults <= old(faults) && (late ==> old(late)) && (covered ==> old(covered || late))
      ensures transaction.Some? && transaction.value.files == t.files
      ensures r.Fine? ==> !covered && !late && (!Active(transaction) || transaction.value.phase == RestartRequired)
      ensures !r.Fine? && patience > old(faults) ==> faults < old(faults)
      ensures faults == old(faults) < patience && exit.Success? && VerifyInstallation(tree, t.files) ==>
                transaction == Some(t.(phase := Completed)) && install.files == tree && healthy && !pending
      ensures faults == old(faults) < patience && exit.RebootRequired? ==>
                transaction == Some(t.(phase := RestartRequired)) && install.files == tree && pending
      ensures faults == old(faults) < patience && !exit.RebootRequired?
              && !(exit.Success? && VerifyInstallation(tree, t.files)) ==>
                transaction == Some(t.(phase := Retrying)) && install.files == before && healthy && pending
    {
      Meanwhile();
      r := Replace(t, tree, exit);
      if r.Stopped? {
        return;
      }
      if r.Error? {
        r := RecoverAfterError(t, patience);
        return;
      }
      r := FollowExit(t, patience, exit);
    }

    /** How a fresh installation over `root` ends when no call fails. */
    ghost predicate EndsAsInstalled(root: Tree, files: Tree, tree: Tree, exit: Exit)
      reads this, install
    {
      && transaction.Some? && transaction.value.files == files && transaction.value.backupFiles == root
      && if exit.RebootRequired? then
           transaction.value.phase == RestartRequired && install.files == tree && pending
         else if exit.Success? && VerifyInstallation(tree, files) then
           transaction.value.phase == Completed && install.files == tree && healthy && !pending
         else
           transaction.value.phase == Retrying && install.files == root && healthy && pending
    }

    /** A run on a prepared transaction. The journal is covered afterwards only if the manager
        was about to withdraw the transaction. */
    method InstallPrepared(t: Transaction, patience: nat, tree: Tree, exit: Exit) returns (r: Outcome)
      requires Inv() && Untouched(t) && t.phase == Prepared
      modifies this`transaction, this`covered, this`late, this`pending, this`healthy, this`running
      modifies this`faults, this`intact, install, backup
      ensures Inv() && faults <= old(faults) && (late ==> old(late)) && (covered ==> old(late))
      ensures transaction.Some? && transaction.value.files == t.files
      ensures r.Fine? ==> !covered && (!Active(transaction) || transaction.value.phase == RestartRequired)
      ensures !r.Fine? && patience > old(faults) ==> faults < old(faults)
      ensures Active(transaction) && transaction.value.phase != Prepared ==> intact
      ensures faults == old(faults) < patience ==> EndsAsInstalled(old(install.files), t.files, tree, exit)
    {
      r := BackUpOrReport(t);
      if !r.Fine? {
        return;
      }
      Meanwhile();
      var installing := t.(phase := Installing, backupFiles := backup.files);
      :- SaveTransaction(installing);
      r := Install(installing, patience, tree, exit);
    }

    /** One run of the helper. Without a fault it ends in one way only. It never completes an
        installation that was interrupted, but only a fresh one or one that waited for its
        restart. `restarted` says that the machine
        has done so since the installer asked for it; until then nothing is done. */
    method RunHelper(patience: nat, tree: Tree, exit: Exit, restarted: bool) returns (r: Outcome)
      requires Inv()
      modifies this`transaction, this`covered, this`late, this`pending, this`healthy, this`running
      modifies this`faults, this`intact, install, backup
      ensures Inv() && faults <= old(faults) && (late ==> old(late)) && (covered ==> old(covered || late))
      ensures !Active(old(transaction)) ==>
                && r.Fine? && transaction == old(transaction)
                && install.files == old(install.files) && pending == old(pending) && covered == old(covered)
      ensures Active(old(transaction)) ==> transaction.Some? && transaction.value.files == old(transaction).value.files
      ensures r.Fine? ==> !Active(transaction) || transaction.value.phase == RestartRequired
      ensures r.Fine? && Active(old(transaction)) ==> !covered
      ensures Active(old(transaction)) && transaction.value.phase == Completed ==>
                old(transaction).value.phase == Prepared || old(transaction).value.phase == RestartRequired
      ensures faults == old(faults) < patience && Active(old(transaction))
              && old(transaction).value.phase == Prepared ==>
                EndsAsInstalled(old(install.files), old(transaction).value.files, tree, exit)
      ensures faults == old(faults) < patience && Active(old(transaction)) && old(intact)
              && old(transaction).value.phase != Prepared
              && (old(transaction).value.phase == RestartRequired ==> restarted) ==>
                if old(transaction).value.phase == RestartRequired
                   && VerifyInstallation(old(install.files), old(transaction).value.files)
                then transaction.value.phase == Completed && install.files == old(install.files) && healthy && !pending
                else transaction.value.phase == Retrying && install.files == before && healthy && pending
      ensures Active(old(transaction)) && old(transaction).value.phase == RestartRequired && !restarted ==>
                && transaction == old(transaction) && install.files == old(install.files) && pending == old(pending)
                && (faults == old(faults) ==> r.Fine?)
      ensures UsableBackup(old(transaction), old(intact)) && Active(transaction) ==>
                && UsableBackup(transaction, intact)
                && (|| faults < old(faults) || patience <= old(faults)
                    || (old(transaction).value.phase == RestartRequired && !restarted)
                    || (old(transaction).value.phase == Prepared && transaction.value.phase == RestartRequired))
    {
      if !Active(transaction) {
        return Fine;
      }
      var t := transaction.value;
      if t.phase == Prepared {
        Meanwhile();
        r := InstallPrepared(t, patience, tree, exit);
      } else {
        :- Call();
        if t.phase == RestartRequired {
          if !restarted {
            return Fine;
          }
          r := VerifyAndComplete(t, patience);
        } else {
          r := RecoverInstallation(t, patience);
        }
      }
    }

    // -------------------------------------------------------------------------------
    // Whole lives.

    /** Only the manager places a transaction, only while the barrier is up, and never over
        an active one; it runs inside the service, which is up. Fails unless the updater can
        be copied out of the installation.
        `started` is the answer of the system to registering and starting the helper. */
    method PlaceTransaction(files: Tree, started: Outcome) returns (r: Outcome)
      requires Inv() && !Active(transaction) && pending && healthy && !late
      modifies this`transaction, this`covered, this`late, this`faults, this`before
      ensures Inv() && install.files == old(install.files) && (covered ==> old(covered))
      ensures r.Fine? || late ==>
                !covered && transaction == Some(Transaction(Prepared, files, map[])) && before == install.files
      ensures late ==> r.Error? && started.Error?
      ensures r.Error? && !late ==> transaction == old(transaction)
      ensures faults <= old(faults) && (r.Fine? ==> started.Fine?)
      ensures !r.Fine? ==>
                late || faults < old(faults) || started.Stopped? || "transcoderd-updater.exe" !in install.files
    {
      if "transcoderd-updater.exe" !in install.files {
        return Error;
      }
      :- Call();
      before := install.files;
      :- SaveTransaction(Transaction(Prepared, files, map[]));
      r, late := started, started.Error?;
    }

    /** The whole of it, when no helper runs in between: a failure leaves nothing behind. */
    method PrepareInstall(files: Tree, started: Outcome, written: bool) returns (r: Outcome)
      requires Inv() && !Active(transaction) && pending && healthy && !late
      modifies this`transaction, this`covered, this`late, this`faults, this`before
      ensures Inv() && install.files == old(install.files) && !late && (covered ==> old(covered))
      ensures r.Fine? ==> Active(transaction) && transaction.value.files == files && before == install.files
      ensures r.Error? && written ==> !Active(transaction)
    {
      r := PlaceTransaction(files, started);
      if late {
        Withdraw(written);
      }
    }

    /** Runs the helper again and again. However its calls fail and wherever it stops, it ends
        with the verified new tree or with the verified old one, unless the manager withdraws
        the transaction of an installation that has started. A restart that has not happened
        yet counts as a fault. */
    method Supervise()
      requires Inv() && Active(transaction) && UsableBackup(transaction, intact)
      modifies this`transaction, this`covered, this`late, this`pending, this`healthy, this`running
      modifies this`faults, this`intact, install, backup
      ensures Inv() && transaction.Some? && (covered ==> old(late))
      ensures !covered ==>
                && healthy && (transaction.value.phase == Completed || transaction.value.phase == Retrying)
                && (transaction.value.phase == Completed ==>
                      VerifyInstallation(install.files, old(transaction).value.files))
                && (transaction.value.phase == Retrying ==> VerifyInstallation(install.files, before) && pending)
    {
      while Active(transaction)
        invariant Inv() && transaction.Some? && transaction.value.files == old(transaction).value.files
        invariant (late ==> old(late)) && (covered ==> old(late))
        invariant Active(transaction) ==> UsableBackup(transaction, intact)
        decreases faults, if !Active(transaction) then 0 else if transaction.value.phase == Prepared then 2 else 1
      {
        var tree: Tree, exit: Exit := *, *;
        var wait := Call();
        var r := RunHelper(faults + 1, tree, exit, wait.Fine?);
        Meanwhile();
      }
    }

    /** A helper starts to install a transaction that the manager is about to withdraw. */
    method StartsTooEarly(files: Tree)
      requires Inv() && !Active(transaction) && pending && healthy && !late
      requires faults == 0 && "transcoderd-updater.exe" in install.files
      modifies this`transaction, this`covered, this`late, this`faults, this`intact, this`before, backup
      ensures Inv() && late && faults == 0 && before == install.files == old(install.files)
      ensures transaction.Some? && transaction.value.phase == Installing
    {
      var r := PlaceTransaction(files, Error);
      var t := transaction.value;
      r := BackUp(t);
      r := SaveTransaction(t.(phase := Installing, backupFiles := backup.files));
    }

    /** That can happen, without any other fault: a scheduled recovery that is still armed
        starts a helper on the placed transaction, the manager withdraws it after the helper has
        written "installing", and the helper stops in the installer. The installation is then
        anything, and no later run of the helper looks at it. */
    method WithdrawnInstallation(files: Tree, tree: Tree, patience: nat)
      requires Inv() && !Active(transaction) && pending && healthy && !late
      requires faults == 0 && "transcoderd-updater.exe" in install.files
      modifies this`transaction, this`covered, this`late, this`healthy, this`faults, this`intact, this`before
      modifies this`pending, this`running, install, backup
      ensures Inv() && covered && !Active(transaction) && transaction.value.backupFiles == map[]
      ensures install.files == tree && before == old(install.files)
    {
      StartsTooEarly(files);
      Withdraw(true);
      var r := StopService();
      r := RunInstaller(tree);
      r := RunHelper(patience, tree, Success, false);
    }

    /** Anything else may damage the backup at any time. The invariant survives that. */
    method DamageBackup(tree: Tree)
      requires Inv()
      modifies this`intact, backup
      ensures Inv() && backup.files == tree
    {
      intact := false;
      backup.files := tree;
    }
  }
}
