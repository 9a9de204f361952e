/** The saved limits of a worker: one row of the SQL repository with its CASE updates, the
    maps of the in-memory repository, and the snapshot that a resume command restores. */
module WorkerSettings {
  import opened Options
  import EncoderPool

  /** Either one maximum or one pair; all other combinations are refused. */
  datatype Settings = Settings(hasControl: bool, max: Option<int>, cpu: Option<int>, gpu: Option<int>)
  {
    predicate Independent() {
      cpu.Some? && gpu.Some?
    }

    function Total(): Option<int> {
      if !Independent() || cpu.value < 0 || gpu.value < 0 || cpu.value > EncoderPool.MAX_INT - gpu.value then None
      else Some(cpu.value + gpu.value)
    }

    predicate ValidWrite() {
      if hasControl then false
      else if cpu.Some? || gpu.Some? then Independent() && max.None? && Total().Some?
      else max.Some? && max.value >= 0
    }

    /** The limit that a valid write puts in force. */
    function Limit(): int
      requires ValidWrite()
    {
      if Independent() then Total().value else max.value
    }
  }

  const NOTHING := Settings(false, None, None, None)

  function Pair(cpu: int, gpu: int): Settings {
    Settings(false, None, Some(cpu), Some(gpu))
  }

  function Maximum(max: int): Settings {
    Settings(false, Some(max), None, None)
  }

  lemma ValidWrites(s: Settings)
    ensures s.ValidWrite() <==>
              (exists m :: 0 <= m && s == Maximum(m))
              || exists c, g :: 0 <= c && 0 <= g && c + g <= EncoderPool.MAX_INT && s == Pair(c, g)
  {
    if s.ValidWrite() {
      if s.Independent() { assert s == Pair(s.cpu.value, s.gpu.value); } else { assert s == Maximum(s.max.value); }
    }
  }

  // ---------------------------------------------------------------------------------
  // The SQL row.

  datatype Row = Row(max: int, cpu: Option<int>, gpu: Option<int>,
                     resumeMax: Option<int>, resumeCpu: Option<int>, resumeGpu: Option<int>)

  function When<T>(c: bool, a: Option<T>, b: Option<T>): Option<T> {
    if c then a else b
  }

  class SqlRepository {
    var rows: map<string, Row>

    constructor ()
      ensures rows == map[]
    {
      rows := map[];
    }

    method SetWorkerMaxActiveJobs(name: string, max: int) returns (ok: bool)
      modifies this
      ensures ok <==> name != "" && max >= 0
      ensures rows == if ok then old(rows)[name := RowAfter(old(rows), name, Maximum(max))] else old(rows)
    {
      if name == "" || max < 0 {
        return false;
      }
      var positive := max > 0;
      if name !in rows {
        rows := rows[name := Row(max, None, None, When(positive, Some(max), None), None, None)];
      } else {
        var r := rows[name];
        rows := rows[name := Row(max, None, None, When(positive, Some(max), r.resumeMax),
                                 When(positive, None, r.resumeCpu), When(positive, None, r.resumeGpu))];
      }
      return true;
    }

    method SetWorkerSettings(name: string, s: Settings) returns (ok: bool)
      modifies this
      ensures ok <==> name != "" && s.ValidWrite()
      ensures rows == if ok then old(rows)[name := RowAfter(old(rows), name, s)] else old(rows)
    {
      if name == "" || !s.ValidWrite() {
        return false;
      }
      if !s.Independent() {
        ok := SetWorkerMaxActiveJobs(name, s.max.value);
        return;
      }
      var total := s.Total().value;
      var positive := total > 0;
      if name !in rows {
        rows := rows[name := Row(total, s.cpu, s.gpu, When(positive, Some(total), None),
                                 When(positive, s.cpu, None), When(positive, s.gpu, None))];
      } else {
        var r := rows[name];
        rows := rows[name := Row(total, s.cpu, s.gpu, When(positive, Some(total), r.resumeMax),
                                 When(positive, s.cpu, r.resumeCpu), When(positive, s.gpu, r.resumeGpu))];
      }
      return true;
    }
  }

  function Blank(): Row {
    Row(0, None, None, None, None, None)
  }

  /** The row after a valid write: the limits of the write, and the resume columns of the
      write exactly when its limit is positive. */
  function RowAfter(rows: map<string, Row>, name: string, s: Settings): Row
    requires s.ValidWrite()
  {
    var r := if name in rows then rows[name] else Blank();
    var limit := s.Limit();
    if limit > 0 then Row(limit, s.cpu, s.gpu, Some(limit), s.cpu, s.gpu)
    else Row(limit, s.cpu, s.gpu, r.resumeMax, r.resumeCpu, r.resumeGpu)
  }

  // ---------------------------------------------------------------------------------
  // The in-memory maps.

  datatype Memory = Memory(maxJobs: map<string, int>, pairs: map<string, Settings>, resume: map<string, Settings>)

  class InMemoryRepository {
    var maxJobs: map<string, int>
    var pairs: map<string, Settings>
    var resume: map<string, Settings>

    constructor ()
      ensures View() == Memory(map[], map[], map[])
    {
      maxJobs, pairs, resume := map[], map[], map[];
    }

    ghost function View(): Memory
      reads this
    {
      Memory(maxJobs, pairs, resume)
    }

    method SetWorkerMaxActiveJobs(name: string, max: int) returns (ok: bool)
      modifies this
      ensures ok <==> name != "" && max >= 0
      ensures View() == if ok then MemoryAfter(old(View()), name, Maximum(max)) else old(View())
    {
      if name == "" || max < 0 {
        return false;
      }
      if max > 0 {
        resume := resume[name := Maximum(max)];
      }
      maxJobs := maxJobs[name := max];
      pairs := pairs - {name};
      return true;
    }

    method SetWorkerSettings(name: string, s: Settings) returns (ok: bool)
      modifies this
      ensures ok <==> name != "" && s.ValidWrite()
      ensures View() == if ok then MemoryAfter(old(View()), name, s) else old(View())
    {
      if name == "" || !s.ValidWrite() {
        return false;
      }
      if !s.Independent() {
        ok := SetWorkerMaxActiveJobs(name, s.max.value);
        return;
      }
      var total := s.Total().value;
      var clone := s.(max := Some(total));
      if total > 0 {
        resume := resume[name := clone];
      }
      pairs := pairs[name := clone];
      maxJobs := maxJobs[name := total];
      return true;
    }
  }

  function MemoryAfter(m: Memory, name: string, s: Settings): Memory
    requires s.ValidWrite()
  {
    var saved := s.(max := Some(s.Limit()));
    Memory(m.maxJobs[name := s.Limit()],
           if s.Independent() then m.pairs[name := saved] else m.pairs - {name},
           if s.Limit() > 0 then m.resume[name := saved] else m.resume)
  }

  // What the readers of either repository see.

  function SqlSettings(rows: map<string, Row>, name: string): Settings {
    if name in rows then Settings(false, Some(rows[name].max), rows[name].cpu, rows[name].gpu) else NOTHING
  }

  function MemorySettings(m: Memory, name: string): Settings {
    if name in m.pairs then m.pairs[name] else if name in m.maxJobs then Maximum(m.maxJobs[name]) else NOTHING
  }

  function SqlResume(rows: map<string, Row>, name: string): Settings {
    if name in rows then Settings(false, rows[name].resumeMax, rows[name].resumeCpu, rows[name].resumeGpu) else NOTHING
  }

  function MemoryResume(m: Memory, name: string): Settings {
    if name in m.resume then m.resume[name] else NOTHING
  }

  ghost predicate Agree(rows: map<string, Row>, m: Memory) {
    && rows.Keys == m.maxJobs.Keys && m.pairs.Keys <= rows.Keys
    && (forall name :: name in rows ==> rows[name].max == m.maxJobs[name])
    && (forall name :: SqlSettings(rows, name) == MemorySettings(m, name))
    && (forall name :: SqlResume(rows, name) == MemoryResume(m, name))
  }

  datatype Write = Write(name: string, settings: Settings)

  ghost predicate Valid(writes: seq<Write>) {
    forall i :: 0 <= i < |writes| ==> writes[i].name != "" && writes[i].settings.ValidWrite()
  }

  ghost function SqlReplay(writes: seq<Write>): map<string, Row>
    requires Valid(writes)
  {
    if writes == [] then map[]
    else
      var before, w := SqlReplay(writes[..|writes| - 1]), writes[|writes| - 1];
      before[w.name := RowAfter(before, w.name, w.settings)]
  }

  ghost function MemoryReplay(writes: seq<Write>): Memory
    requires Valid(writes)
  {
    if writes == [] then Memory(map[], map[], map[])
    else
      var w := writes[|writes| - 1];
      MemoryAfter(MemoryReplay(writes[..|writes| - 1]), w.name, w.settings)
  }

  lemma WritesAgree(rows: map<string, Row>, m: Memory, name: string, s: Settings)
    requires Agree(rows, m) && s.ValidWrite()
    ensures Agree(rows[name := RowAfter(rows, name, s)], MemoryAfter(m, name, s))
  {
    var rows', m' := rows[name := RowAfter(rows, name, s)], MemoryAfter(m, name, s);
    forall n
      ensures SqlSettings(rows', n) == MemorySettings(m', n)
      ensures SqlResume(rows', n) == MemoryResume(m', n)
    {
      assert SqlSettings(rows, n) == MemorySettings(m, n) && SqlResume(rows, n) == MemoryResume(m, n);
    }
  }

  /** What was written last is what is read, zero limits included: the pair itself, and its sum
      or the maximum as the limit. Other workers are left alone. */
  lemma LastWriteIsRead(writes: seq<Write>, w: Write, other: string)
    requires Valid(writes) && Valid([w]) && other != w.name
    ensures Valid(writes + [w])
    ensures var now := SqlSettings(SqlReplay(writes + [w]), w.name);
            && !now.hasControl && now.cpu == w.settings.cpu && now.gpu == w.settings.gpu
            && now.max == if now.cpu.Some? && now.gpu.Some? then Some(now.cpu.value + now.gpu.value) else w.settings.max
    ensures SqlSettings(SqlReplay(writes + [w]), other) == SqlSettings(SqlReplay(writes), other)
    ensures SqlResume(SqlReplay(writes + [w]), other) == SqlResume(SqlReplay(writes), other)
  {
    assert (writes + [w])[..|writes|] == writes && [w][0] == w;
  }

  /** The two repositories cannot be told apart after any sequence of writes to any workers. */
  lemma {:induction false} RepositoriesAgree(writes: seq<Write>)
    requires Valid(writes)
    ensures Agree(SqlReplay(writes), MemoryReplay(writes))
  {
    if writes != [] {
      var w := writes[|writes| - 1];
      RepositoriesAgree(writes[..|writes| - 1]);
      WritesAgree(SqlReplay(writes[..|writes| - 1]), MemoryReplay(writes[..|writes| - 1]), w.name, w.settings);
    }
  }

  // ---------------------------------------------------------------------------------
  // Stop and resume.

  /** The last limits of a worker that were not zero. */
  function LastPositive(writes: seq<Write>, name: string): (r: Option<Settings>)
    ensures r.Some? ==> r.value.ValidWrite() && r.value.Limit() > 0
  {
    if writes == [] then None
    else
      var w := writes[|writes| - 1];
      if w.name == name && w.settings.ValidWrite() && w.settings.Limit() > 0 then Some(w.settings)
      else LastPositive(writes[..|writes| - 1], name)
  }

  /** The snapshot that a control command carries: the saved resume limits, else those of the
      previous command, else the pair the worker reports. */
  function Snapshot(resume: Settings, previous: Option<Settings>, cpuJobs: int, gpuJobs: int): Settings {
    var a := if resume.max.None? && !resume.Independent() && previous.Some? then previous.value else resume;
    var b := if a.Independent() then a.(max := None) else a;
    if b.max.None? && !b.Independent() && cpuJobs + gpuJobs > 0 then Pair(cpuJobs, gpuJobs) else b
  }

  /** The first of them that there is: saved limits are taken as they were written, without
      them those of the previous command, without both what the worker reports; and without
      any there is nothing that a resume could write back. */
  lemma SnapshotTakesTheFirst(limits: Settings, previous: Option<Settings>, cpuJobs: int, gpuJobs: int)
    requires limits.ValidWrite()
    ensures Snapshot(limits.(max := Some(limits.Limit())), previous, cpuJobs, gpuJobs) == limits
    ensures Snapshot(NOTHING, Some(limits), cpuJobs, gpuJobs) == limits
    ensures previous in {None, Some(NOTHING)} && cpuJobs + gpuJobs > 0 ==>
              Snapshot(NOTHING, previous, cpuJobs, gpuJobs) == Pair(cpuJobs, gpuJobs)
    ensures previous in {None, Some(NOTHING)} && cpuJobs + gpuJobs <= 0 ==>
              !Snapshot(NOTHING, previous, cpuJobs, gpuJobs).ValidWrite()
  {
  }

  lemma {:induction false} ResumeIsLastPositive(writes: seq<Write>, name: string)
    requires Valid(writes)
    ensures SqlResume(SqlReplay(writes), name) ==
            match LastPositive(writes, name)
            case None => NOTHING
            case Some(s) => s.(max := Some(s.Limit()))
  {
    if writes != [] {
      ResumeIsLastPositive(writes[..|writes| - 1], name);
    }
  }

  /** Later positive limits replace earlier ones; stops and other workers do not. */
  lemma {:induction false} LastPositiveOf(before: seq<Write>, between: seq<Write>, name: string)
    ensures LastPositive(before + between, name) ==
            if LastPositive(between, name).Some? then LastPositive(between, name) else LastPositive(before, name)
    decreases |between|
  {
    if between == [] {
      assert before + between == before;
    } else {
      assert (before + between)[..|before + between| - 1] == before + between[..|between| - 1];
      LastPositiveOf(before, between[..|between| - 1], name);
    }
  }

  /** Stop and resume round trip. The command takes its limits when it is issued, after
      `before`; it is applied later, after `between`. Whatever the previous command or the
      report of the worker says, it puts back in force exactly the last positive limits at
      the time of issue, and a later resume restores them again. Those are the last positive
      limits of all if and only if none, or the same ones, were saved in between. */
  lemma StopResumeRoundTrip(before: seq<Write>, between: seq<Write>, name: string, limits: Settings,
                            previous: Option<Settings>, cpuJobs: int, gpuJobs: int)
    requires Valid(before) && Valid(between) && LastPositive(before, name) == Some(limits)
    ensures Valid(before + between)
    ensures var restored := Snapshot(SqlResume(SqlReplay(before), name), previous, cpuJobs, gpuJobs);
            var rows := SqlReplay(before + between);
            && restored == limits && restored.ValidWrite()
            && var after := rows[name := RowAfter(rows, name, restored)];
               && SqlSettings(after, name) == limits.(max := Some(limits.Limit()))
               && Snapshot(SqlResume(after, name), previous, cpuJobs, gpuJobs) == limits
    ensures LastPositive(before + between, name) == Some(limits) <==>
              LastPositive(between, name).None? || LastPositive(between, name) == Some(limits)
  {
    ResumeIsLastPositive(before, name);
    LastPositiveOf(before, between, name);
  }
}
