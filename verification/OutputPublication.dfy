/** Publication of a finished upload: attempt file, staging name, final name, job record,
    cleanup, completion event and deletion of the source. The server can stop between any
    two disk or database steps; a stopped completion is simply started again. */
module OutputPublication {
  import opened Options
  import opened OutputNaming

  /** Where one job keeps its files. `content` is what the worker uploaded. The legacy name
      is where older servers staged uploads; it equals `staging` for a source in the root. */
  datatype Layout = Layout(staging: Path, legacy: Path, source: Path, stem: string, content: Content) {
    ghost predicate Valid() {
      && EndsIn(staging, 'd') && EndsIn(legacy, 'd')
      && source != staging && source != legacy
    }

    function Final(k: nat): Path {
      Candidate(stem, ".mkv", k)
    }
  }

  /** Staging names end in `.upload`, temporary names in `.tmp`, final names in `.mkv`. */
  predicate EndsIn(p: Path, c: char) {
    p != [] && p[|p| - 1] == c
  }

  lemma FinalIsNotStaging(l: Layout, k: nat)
    requires l.Valid()
    ensures EndsIn(l.Final(k), 'v') && l.Final(k) != l.staging && l.Final(k) != l.legacy
  {
    var p := l.Final(k);
    assert p[|p| - 1] == ".mkv"[3];
  }

  /** The name that a fresh completion starts from. */
  function Upload(l: Layout, names: Names, target: Path): Path {
    if l.staging in names then l.staging else if l.legacy in names then l.legacy else target
  }

  predicate Resolves(names: Names, contents: map<Inode, Content>, name: Path, content: Content) {
    name in names && names[name] in contents && contents[names[name]] == content
  }

  /** The upload is not lost: a fresh completion finds exactly what the worker sent. */
  predicate Survives(l: Layout, names: Names, contents: map<Inode, Content>, target: Path) {
    Resolves(names, contents, Upload(l, names, target), l.content)
  }

  // ---------------------------------------------------------------------------------
  // Receiving the upload.

  class UploadJobStream {
    const root: FileSystem
    const attempt: Path
    const staging: Path

    constructor (root: FileSystem, attempt: Path, staging: Path)
      ensures this.root == root && this.attempt == attempt && this.staging == staging
    {
      this.root, this.attempt, this.staging := root, attempt, staging;
    }

    /** Publishes the received file at the staging name. A file that is already staged stays;
        the commit succeeds then only if it has the received content. */
    method Commit(received: Content, works: bool) returns (ok: bool)
      requires root.Valid() && attempt in root.names && root.contents[root.names[attempt]] == received
      modifies root`names
      ensures root.Valid()
      ensures ok == (works && (staging in old(root.names) ==> root.contents[old(root.names)[staging]] == received))
      ensures root.names == if ok && staging !in old(root.names)
                            then old(root.names)[staging := old(root.names)[attempt]] else old(root.names)
      ensures ok ==> staging in root.names && root.contents[root.names[staging]] == received
    {
      var answer := root.Link(attempt, staging, works);
      return match answer
        case Linked => true
        case Broken => false
        case Exists => root.contents[root.names[staging]] == received;
    }

    /** Cleaning up one attempt leaves whatever another attempt staged. */
    method Clean()
      requires root.Valid() && attempt != staging
      modifies root`names
      ensures root.Valid() && root.names == old(root.names) - {attempt}
      ensures staging in old(root.names) ==> staging in root.names && root.names[staging] == old(root.names)[staging]
    {
      root.Remove(attempt);
    }
  }

  // ---------------------------------------------------------------------------------
  // One completion, run to its end.

  datatype SaveAnswer = Applied | Refused | AppliedButReportedFailed

  /** What the operating system and the database do during one completion. */
  datatype Calls = Calls(copy: bool, probe: bool, link: nat -> bool, permit: bool, save: SaveAnswer,
                         cleanStaging: bool, cleanLegacy: bool)
  {
    ghost predicate AllWork() {
      copy && probe && (forall n :: link(n)) && permit && save == Applied
    }
  }

  /** `probe` is the file to publish: the staged upload, or the saved output if neither
      staging name exists any more. */
  ghost predicate Probed(l: Layout, names: Names, contents: map<Inode, Content>, target: Path, probe: Path) {
    && l.Valid()
    && Resolves(names, contents, probe, l.content)
    && probe == Upload(l, names, target)
    && (l.staging !in names ==> l.legacy !in names)
  }

  /** The names and the saved target after `probe` has been linked to `final`. A reported
      failure takes the new name back, except when it is the probed name itself. */
  function AfterSave(names: Names, target: Path, probe: Path, final: Path, calls: Calls): (Names, Path)
    requires probe in names
  {
    var linked := names[final := names[probe]];
    if !calls.permit then (linked, target)
    else if calls.save == Applied then (linked, final)
    else (if final == probe then linked else linked - {final}, if calls.save == Refused then target else final)
  }

  /** The upload survives the save exactly unless the database applies the update, reports
      it as failed, and the new name was made from the old output with nothing staged: then
      the only name that the record knows is taken back. */
  lemma SaveSurvives(l: Layout, names: Names, contents: map<Inode, Content>, target: Path, probe: Path,
                     k: nat, calls: Calls)
    requires Probed(l, names, contents, target, probe) && Fits(names, names[probe], l.source, l.Final(k))
    ensures var (names', target') := AfterSave(names, target, probe, l.Final(k), calls);
            Survives(l, names', contents, target') <==>
              !(calls.permit && calls.save == AppliedButReportedFailed && l.staging !in names && probe != l.Final(k))
  {
    FinalIsNotStaging(l, k);
  }

  function AfterClean(l: Layout, names: Names, calls: Calls): Names {
    names - (if calls.cleanStaging then {l.staging} else {}) - (if calls.cleanLegacy then {l.legacy} else {})
  }

  /** The upload survives the cleanup exactly unless the staged file goes and a different
      legacy file stays: the next completion would take that one. */
  lemma CleanSurvives(l: Layout, names: Names, contents: map<Inode, Content>, k: nat, calls: Calls)
    requires l.Valid() && Survives(l, names, contents, l.Final(k)) && (l.staging !in names ==> l.legacy !in names)
    requires Resolves(names, contents, l.Final(k), l.content)
    ensures Survives(l, AfterClean(l, names, calls), contents, l.Final(k)) <==>
              !(&& calls.cleanStaging && !calls.cleanLegacy && l.legacy in names && l.legacy != l.staging
                && !Resolves(names, contents, l.legacy, l.content))
  {
    FinalIsNotStaging(l, k);
  }

  /** A completion that works and cleans up leaves everything as it was if and only if nothing
      was staged and the record has the name already. */
  lemma CompletionChangesNothing(l: Layout, names: Names, contents: map<Inode, Content>, target: Path, probe: Path,
                                 k: nat, calls: Calls)
    requires Probed(l, names, contents, target, probe) && Fits(names, names[probe], l.source, l.Final(k))
    requires calls.permit && calls.save == Applied && calls.cleanStaging && calls.cleanLegacy
    ensures var (names', target') := AfterSave(names, target, probe, l.Final(k), calls);
            AfterClean(l, names', calls) == names && target' == target <==>
              l.staging !in names && target == l.Final(k)
  {
    FinalIsNotStaging(l, k);
    var (names', target') := AfterSave(names, target, probe, l.Final(k), calls);
    if l.staging in names {
      assert l.staging !in AfterClean(l, names', calls);
    }
  }

  /** The saved target is the name that a search from it would settle on. */
  ghost predicate AlreadyChosen(l: Layout, names: Names, target: Path) {
    target in names && exists k :: target == l.Final(k) && IsFirstFit(names, names[target], l.source, l.stem, ".mkv", k)
  }

  class Publisher {
    const files: FileSystem
    const layout: Layout
    var target: Path

    constructor (files: FileSystem, layout: Layout, target: Path)
      ensures this.files == files && this.layout == layout && this.target == target
    {
      this.files, this.layout, this.target := files, layout, target;
    }

    ghost predicate Ready()
      reads this, files
    {
      layout.Valid() && files.Valid() && Survives(layout, files.names, files.contents, target)
    }

    /** Moves an upload of an older server to the staging name through a temporary file that
        is linked only when it is complete. */
    method CopyUploadToDestinationFilesystem(temp: Path, inode: Inode, works: bool) returns (ok: bool)
      requires Ready() && layout.staging !in files.names && layout.legacy in files.names
      requires temp !in files.names && EndsIn(temp, 'p') && inode !in files.contents
      modifies files
      ensures Ready() && ok == works
      ensures forall i :: i in old(files.contents) ==>
                i in files.contents && files.contents[i] == old(files.contents)[i]
      ensures files.names == if ok then old(files.names)[layout.staging := inode] else old(files.names)
    {
      ghost var before := files.names;
      files.names := files.names[temp := inode];
      files.contents := files.contents[inode := ""];
      if works {
        files.contents := files.contents[inode := files.contents[files.names[layout.legacy]]];
        var answer := files.Link(temp, layout.staging, true);
        assert answer.Linked?;
      }
      files.Remove(temp);
      assert files.names == if works then before[layout.staging := inode] else before;
      return works;
    }

    /** Publishes the probed file under final name number `final`, then saves that name. */
    method PublishAndSave(probe: Path, calls: Calls) returns (saved: bool, ghost final: Option<nat>)
      requires Probed(layout, files.names, files.contents, target, probe)
      modifies this`target, files`names
      ensures calls.AllWork() ==> saved
      ensures final.None? ==> !saved && files.names == old(files.names) && target == old(target)
      ensures final.Some? ==>
                && IsFirstFit(old(files.names), old(files.names)[probe], layout.source,
                              layout.stem, ".mkv", final.value)
                && (files.names, target)
                   == AfterSave(old(files.names), old(target), probe, layout.Final(final.value), calls)
                && saved == (calls.permit && calls.save == Applied)
    {
      var published;
      ghost var k;
      published, k := files.LinkOutputWithoutOverwrite(probe, layout.stem, ".mkv", layout.source, calls.link);
      if published.None? {
        return false, None;
      }
      final := Some(k);
      saved := false;
      if calls.permit {
        if calls.save != Refused {
          target := published.value;
        }
        saved := calls.save == Applied;
        if !saved && published.value != probe {
          files.Remove(published.value);
        }
      }
    }

    /** The probed file: the staged upload, moved first if only the legacy name has it. */
    method Stage(temp: Path, inode: Inode, calls: Calls) returns (probe: Option<Path>)
      requires Ready()
      requires temp !in files.names && EndsIn(temp, 'p') && inode !in files.contents
      modifies files
      ensures Ready()
      ensures forall i :: i in old(files.contents) ==>
                i in files.contents && files.contents[i] == old(files.contents)[i]
      ensures layout.staging in old(files.names) || layout.legacy !in old(files.names) ==>
                files.names == old(files.names)
      ensures files.names == old(files.names) || files.names == old(files.names)[layout.staging := inode]
      ensures calls.copy && calls.probe ==> probe.Some?
      ensures probe.Some? ==> Probed(layout, files.names, files.contents, target, probe.value)
    {
      if layout.staging !in files.names && layout.legacy in files.names {
        var copied := CopyUploadToDestinationFilesystem(temp, inode, calls.copy);
        if !copied {
          return None;
        }
      }
      return if calls.probe then Some(Upload(layout, files.names, target)) else None;
    }

    method RemoveStaging(calls: Calls)
      modifies files`names
      ensures files.names == AfterClean(layout, old(files.names), calls)
    {
      if calls.cleanStaging {
        files.Remove(layout.staging);
      }
      if calls.cleanLegacy {
        files.Remove(layout.legacy);
      }
    }

    /** One completion. It succeeds when every call works, and then the saved target is the
        upload. What it keeps in the other cases is exact in the two lemmas above. */
    method CompleteJob(temp: Path, inode: Inode, calls: Calls) returns (ok: bool)
      requires Ready()
      requires temp !in files.names && EndsIn(temp, 'p') && inode !in files.contents
      modifies this`target, files
      ensures calls.AllWork() ==> ok
      ensures ok ==> target != layout.source && Resolves(files.names, files.contents, target, layout.content)
      ensures ok && calls.cleanStaging ==> layout.staging !in files.names
      ensures ok && calls.cleanLegacy ==> layout.legacy !in files.names
      ensures !ok && (calls.save == AppliedButReportedFailed ==> layout.staging in old(files.names)) ==> Ready()
      ensures ok && (calls.cleanStaging ==> calls.cleanLegacy) ==> Ready()
      ensures ok && calls.cleanStaging && calls.cleanLegacy ==>
                (files.names == old(files.names) && target == old(target) <==>
                   && layout.staging !in old(files.names) && layout.legacy !in old(files.names)
                   && AlreadyChosen(layout, old(files.names), old(target)))
    {
      var probe := Stage(temp, inode, calls);
      if probe.None? {
        return false;
      }
      ok := FinishJob(probe.value, calls);
    }

    method FinishJob(probe: Path, calls: Calls) returns (ok: bool)
      requires Probed(layout, files.names, files.contents, target, probe) && files.Valid()
      modifies this`target, files`names
      ensures calls.AllWork() ==> ok
      ensures ok ==> target != layout.source && Resolves(files.names, files.contents, target, layout.content)
      ensures ok && calls.cleanStaging ==> layout.staging !in files.names
      ensures ok && calls.cleanLegacy ==> layout.legacy !in files.names
      ensures !ok && (calls.save == AppliedButReportedFailed ==> layout.staging in old(files.names)) ==> Ready()
      ensures ok && (calls.cleanStaging ==> calls.cleanLegacy) ==> Ready()
      ensures ok && calls.cleanStaging && calls.cleanLegacy ==>
                (files.names == old(files.names) && target == old(target) <==>
                   layout.staging !in old(files.names) && AlreadyChosen(layout, old(files.names), old(target)))
    {
      ghost var names, saved := files.names, target;
      ghost var final;
      ok, final := PublishAndSave(probe, calls);
      if final.Some? {
        FinalIsNotStaging(layout, final.value);
        SaveSurvives(layout, names, files.contents, saved, probe, final.value, calls);
      }
      if ok {
        if calls.cleanStaging && calls.cleanLegacy {
          CompletionChangesNothing(layout, names, files.contents, saved, probe, final.value, calls);
          assert AlreadyChosen(layout, names, saved) && probe == saved ==> layout.Final(final.value) == saved;
        }
        CleanSurvives(layout, files.names, files.contents, final.value, calls);
        RemoveStaging(calls);
      }
    }
  }
}
