/**
 The conversion job store and the workers that drive it.

 Every created job has one worker, which marks it converting and later marks it complete or
 failed. `Step` is one locked call, so `Run` over an arbitrary sequence of operations is an
 arbitrary interleaving of requests and workers. `JobStore` holds the code. Instants are in
 nanoseconds.
 */
module Jobs {
  import opened Options

  datatype Status = Pending | Converting | Complete | Error

  datatype Job = Job(
    status: Status,
    filePath: string,
    resolution: string,
    createdAt: int,
    completedAt: int,
    outputPath: string,
    fileSize: int,
    error: string,
    detail: string,
    returnCode: int)

  type Table = map<string, Job>

  /** How a worker ends its job, with the fields it fills in. */
  datatype Ending = Done(outputPath: string, fileSize: int) | Failed(error: string, detail: string, returnCode: int)

  datatype Change = ToConverting | End(ending: Ending)

  function NewJob(filePath: string, resolution: string, now: int): Job {
    Job(Pending, filePath, resolution, now, 0, "", 0, "", "", 0)
  }

  predicate Active(j: Job) {
    j.status == Pending || j.status == Converting
  }

  predicate Terminal(j: Job) {
    j.status == Complete || j.status == Error
  }

  predicate Expired(j: Job, expiry: int, now: int) {
    expiry > 0 && j.completedAt != 0 && j.completedAt < now - expiry
  }

  function Kept(jobs: Table, expiry: int, now: int): Table {
    map id | id in jobs && !Expired(jobs[id], expiry, now) :: jobs[id]
  }

  function ActiveIds(jobs: Table): set<string> {
    set id | id in jobs && Active(jobs[id])
  }

  function Changed(j: Job, change: Change, now: int): Job {
    match change
    case ToConverting => j.(status := Converting)
    case End(Done(outputPath, fileSize)) =>
      j.(status := Complete, outputPath := outputPath, fileSize := fileSize, completedAt := now)
    case End(Failed(error, detail, returnCode)) =>
      j.(status := Error, error := error, detail := detail, returnCode := returnCode, completedAt := now)
  }

  function Updated(jobs: Table, id: string, change: Change, now: int): Table {
    if id in jobs then jobs[id := Changed(jobs[id], change, now)] else jobs
  }

  // ---------------------------------------------------------------- the store

  datatype CreateResult = Created(job: Job) | TooManyActive(active: nat)

  class JobStore {
    var jobs: Table
    var totalProcessed: int
    const expiry: int
    const maxConcurrent: int

    constructor (expiry: int, maxConcurrent: int)
      ensures jobs == map[] && totalProcessed == 0
      ensures this.expiry == expiry && this.maxConcurrent == maxConcurrent
    {
      jobs, totalProcessed := map[], 0;
      this.expiry, this.maxConcurrent := expiry, maxConcurrent;
    }

    method CleanupExpired(now: int)
      modifies this`jobs
      ensures jobs == Kept(old(jobs), expiry, now)
    {
      if expiry <= 0 {
        assert jobs == Kept(jobs, expiry, now);
        return;
      }
      var cutoff := now - expiry;
      var todo := jobs.Keys;
      ghost var was := jobs;
      while todo != {}
        invariant todo <= was.Keys
        invariant forall id :: id in jobs <==> id in was && (id in todo || !Expired(was[id], expiry, now))
        invariant forall id :: id in jobs ==> jobs[id] == was[id]
        decreases |todo|
      {
        var id :| id in todo;
        todo := todo - {id};
        if jobs[id].completedAt == 0 {
          continue;
        }
        if jobs[id].completedAt < cutoff {
          jobs := jobs - {id};
        }
      }
      assert jobs == Kept(was, expiry, now);
    }

    method ActiveCount() returns (active: nat)
      ensures active == |ActiveIds(jobs)|
    {
      active := 0;
      var todo := jobs.Keys;
      ghost var counted: set<string> := {};
      while todo != {}
        invariant todo <= jobs.Keys
        invariant counted == set id | id in jobs && id !in todo && Active(jobs[id])
        invariant active == |counted|
        decreases |todo|
      {
        var id :| id in todo;
        todo := todo - {id};
        if jobs[id].status == Pending || jobs[id].status == Converting {
          counted := counted + {id};
          active := active + 1;
        }
      }
      assert counted == ActiveIds(jobs);
    }

    /** `newId` is fresh. */
    method Create(newId: string, filePath: string, resolution: string, now: int) returns (r: CreateResult)
      modifies this
      ensures var kept := Kept(old(jobs), expiry, now);
              if |ActiveIds(kept)| >= maxConcurrent then
                r == TooManyActive(|ActiveIds(kept)|) && jobs == kept && totalProcessed == old(totalProcessed)
              else
                r == Created(NewJob(filePath, resolution, now))
                && jobs == kept[newId := NewJob(filePath, resolution, now)]
                && totalProcessed == old(totalProcessed) + 1
    {
      CleanupExpired(now);
      var active := ActiveCount();
      if active >= maxConcurrent {
        return TooManyActive(active);
      }
      var j := Job(Pending, filePath, resolution, now, 0, "", 0, "", "", 0);
      jobs := jobs[newId := j];
      totalProcessed := totalProcessed + 1;
      r := Created(j);
    }

    method Get(id: string) returns (j: Option<Job>)
      ensures j == if id in jobs then Some(jobs[id]) else None
    {
      j := if id in jobs then Some(jobs[id]) else None;
    }

    method Update(id: string, change: Change, now: int)
      modifies this`jobs
      ensures jobs == Updated(old(jobs), id, change, now)
    {
      if id !in jobs {
        return;
      }
      var j := jobs[id];
      var status := if change.ToConverting? then Converting else if change.ending.Done? then Complete else Error;
      j := j.(status := status);
      if change.End? {
        match change.ending
        case Done(outputPath, fileSize) => j := j.(outputPath := outputPath, fileSize := fileSize);
        case Failed(error, detail, returnCode) => j := j.(error := error, detail := detail, returnCode := returnCode);
      }
      if status == Complete || status == Error {
        j := j.(completedAt := now);
      }
      jobs := jobs[id := j];
    }

    /** Every kept job once; `ids` names them. */
    method List(now: int) returns (out: seq<Job>, count: nat, ghost ids: seq<string>)
      modifies this`jobs
      ensures jobs == Kept(old(jobs), expiry, now)
      ensures count == |out| == |ids|
      ensures forall i :: 0 <= i < |ids| ==> ids[i] in jobs && out[i] == jobs[ids[i]]
      ensures forall i, j :: 0 <= i < j < |ids| ==> ids[i] != ids[j]
      ensures forall id :: id in jobs ==> id in ids
    {
      hide Kept;
      CleanupExpired(now);
      out, ids := [], [];
      var todo := jobs.Keys;
      while todo != {}
        invariant todo <= jobs.Keys && |out| == |ids|
        invariant forall i :: 0 <= i < |ids| ==> ids[i] in jobs && ids[i] !in todo && out[i] == jobs[ids[i]]
        invariant forall i, j :: 0 <= i < j < |ids| ==> ids[i] != ids[j]
        invariant forall id :: id in jobs ==> id in todo || id in ids
        decreases |todo|
      {
        var id :| id in todo;
        todo := todo - {id};
        out, ids := out + [jobs[id]], ids + [id];
      }
      count := |out|;
    }
  }

  // ---------------------------------------------------------------- the workers

  /** How an external command went; `exitCode` is None if it succeeded. */
  datatype Command = Command(timedOut: bool, exitCode: Option<int>, output: string)

  function ExitCode(c: Command): int {
    if c.exitCode.None? then 0 else c.exitCode.value
  }

  /** What is at the output path afterwards: nothing, a file whose status cannot be read, or a file. */
  datatype OutputFile = Missing | Unreadable(error: string) | File(size: int)

  function CommandEnding(c: Command, outputThere: bool, timeoutMessage: string, failureMessage: string)
    : Option<Ending>
  {
    if c.timedOut then Some(Failed(timeoutMessage, "", -1))
    else if c.exitCode.Some? || !outputThere then Some(Failed(failureMessage, c.output, ExitCode(c)))
    else None
  }

  function OutputEnding(path: string, file: OutputFile): Ending {
    match file
    case Missing => Failed("unexpected error", "", -1)
    case Unreadable(error) => Failed("unexpected error", error, -1)
    case File(size) => Done(path, size)
  }

  function GuacEnding(filePath: string, timeoutMessage: string, c: Command, file: OutputFile): Ending {
    match CommandEnding(c, !file.Missing?, timeoutMessage, "guacenc conversion failed")
    case Some(e) => e
    case None => OutputEnding(filePath + ".m4v", file)
  }

  function AsciicastEnding(
    filePath: string, timeoutMessage: string, agg: Command, gif: bool, ffmpeg: Command, file: OutputFile)
    : Ending
  {
    match CommandEnding(agg, gif, timeoutMessage, "agg rendering failed")
    case Some(e) => e
    case None =>
      match CommandEnding(ffmpeg, !file.Missing?, timeoutMessage, "ffmpeg conversion failed")
      case Some(e) => e
      case None => OutputEnding(filePath + ".mp4", file)
  }

  /** The table after a whole worker that nothing interrupts. */
  function Worked(jobs: Table, id: string, ending: Ending, start: int, end: int): Table {
    Updated(Updated(jobs, id, ToConverting, start), id, End(ending), end)
  }

  class Server {
    const jobs: JobStore
    const timeoutMessage: string

    constructor (jobs: JobStore, timeoutMessage: string)
      ensures this.jobs == jobs && this.timeoutMessage == timeoutMessage
    {
      this.jobs, this.timeoutMessage := jobs, timeoutMessage;
    }

    method RunGuacConversion(id: string, filePath: string, c: Command, file: OutputFile, start: int, end: int)
      modifies jobs
      ensures jobs.jobs == Worked(old(jobs.jobs), id, GuacEnding(filePath, timeoutMessage, c, file), start, end)
      ensures jobs.totalProcessed == old(jobs.totalProcessed)
    {
      hide Updated;
      jobs.Update(id, ToConverting, start);
      var outputPath := filePath + ".m4v";
      if c.timedOut {
        jobs.Update(id, End(Failed(timeoutMessage, "", -1)), end);
        return;
      }
      if c.exitCode.Some? || file.Missing? {
        jobs.Update(id, End(Failed("guacenc conversion failed", c.output, ExitCode(c))), end);
        return;
      }
      if file.Unreadable? {
        jobs.Update(id, End(Failed("unexpected error", file.error, -1)), end);
        return;
      }
      jobs.Update(id, End(Done(outputPath, file.size)), end);
    }

    method RunAsciicastConversion(id: string, filePath: string, agg: Command, gif: bool, ffmpeg: Command,
                                  file: OutputFile, start: int, end: int)
      modifies jobs
      ensures jobs.jobs ==
              Worked(old(jobs.jobs), id, AsciicastEnding(filePath, timeoutMessage, agg, gif, ffmpeg, file), start, end)
      ensures jobs.totalProcessed == old(jobs.totalProcessed)
    {
      hide Updated;
      jobs.Update(id, ToConverting, start);
      var outputPath := filePath + ".mp4";
      if agg.timedOut {
        jobs.Update(id, End(Failed(timeoutMessage, "", -1)), end);
        return;
      }
      if agg.exitCode.Some? || !gif {
        jobs.Update(id, End(Failed("agg rendering failed", agg.output, ExitCode(agg))), end);
        return;
      }
      if ffmpeg.timedOut {
        jobs.Update(id, End(Failed(timeoutMessage, "", -1)), end);
        return;
      }
      if ffmpeg.exitCode.Some? || file.Missing? {
        jobs.Update(id, End(Failed("ffmpeg conversion failed", ffmpeg.output, ExitCode(ffmpeg))), end);
        return;
      }
      if file.Unreadable? {
        jobs.Update(id, End(Failed("unexpected error", file.error, -1)), end);
        return;
      }
      jobs.Update(id, End(Done(outputPath, file.size)), end);
    }
  }

  // ---------------------------------------------------------------- interleavings

  datatype Worker = Ready | Busy

  /** `workers` holds the workers that have not returned. */
  datatype State = State(jobs: Table, total: int, workers: map<string, Worker>)

  const EMPTY := State(map[], 0, map[])

  datatype Op =
    | Create(id: string, filePath: string, resolution: string, now: int)
    | Start(id: string)
    | Finish(id: string, ending: Ending, now: int)
    | List(now: int)

  predicate Admits(s: State, expiry: int, maxConcurrent: int, op: Op) {
    op.Create? && op.id !in s.jobs && op.id !in s.workers && |ActiveIds(Kept(s.jobs, expiry, op.now))| < maxConcurrent
  }

  function Step(s: State, expiry: int, maxConcurrent: int, op: Op): State {
    match op
    case Create(id, filePath, resolution, now) =>
      var kept := Kept(s.jobs, expiry, now);
      if !Admits(s, expiry, maxConcurrent, op) then s.(jobs := kept)
      else State(kept[id := NewJob(filePath, resolution, now)], s.total + 1, s.workers[id := Ready])
    case Start(id) =>
      if id !in s.workers || s.workers[id] != Ready then s
      else s.(jobs := Updated(s.jobs, id, ToConverting, 0), workers := s.workers[id := Busy])
    case Finish(id, ending, now) =>
      if id !in s.workers || s.workers[id] != Busy then s
      else s.(jobs := Updated(s.jobs, id, End(ending), now), workers := s.workers - {id})
    case List(now) => s.(jobs := Kept(s.jobs, expiry, now))
  }

  function Run(s: State, expiry: int, maxConcurrent: int, ops: seq<Op>): State
    decreases |ops|
  {
    if ops == [] then s else Run(Step(s, expiry, maxConcurrent, ops[0]), expiry, maxConcurrent, ops[1..])
  }

  /** The creates of a run that were admitted. */
  function Admitted(s: State, expiry: int, maxConcurrent: int, ops: seq<Op>): nat
    decreases |ops|
  {
    if ops == [] then 0
    else (if Admits(s, expiry, maxConcurrent, ops[0]) then 1 else 0)
         + Admitted(Step(s, expiry, maxConcurrent, ops[0]), expiry, maxConcurrent, ops[1..])
  }

  /** The clock is past the epoch whenever a job ends. */
  ghost predicate PastEpoch(ops: seq<Op>) {
    forall i :: 0 <= i < |ops| && ops[i].Finish? ==> ops[i].now > 0
  }

  ghost predicate JobOk(j: Job) {
    j.completedAt != 0 <==> Terminal(j)
  }

  /** A job's worker is at the step that the job's status says, and has returned exactly if the job ended. */
  ghost predicate WorkerOk(s: State, id: string) {
    && (id in s.workers <==> id in s.jobs && Active(s.jobs[id]))
    && (id in s.workers ==> (s.workers[id] == Ready <==> s.jobs[id].status == Pending))
  }

  ghost predicate Inv(s: State, maxConcurrent: int) {
    && (forall id :: id in s.jobs ==> JobOk(s.jobs[id]))
    && (forall id :: id in s.jobs || id in s.workers ==> WorkerOk(s, id))
    && (|ActiveIds(s.jobs)| <= maxConcurrent || ActiveIds(s.jobs) == {})
  }

  // ---------------------------------------------------------------- steps keep it

  /** Cleaning up removes no active job, and removes a finished one exactly if it ended more than the expiry ago. */
  lemma CleanupKeepsActive(s: State, maxConcurrent: int, expiry: int, now: int, id: string)
    requires Inv(s, maxConcurrent) && id in s.jobs
    ensures Active(s.jobs[id]) ==> id in Kept(s.jobs, expiry, now)
    ensures Terminal(s.jobs[id]) ==>
              (id !in Kept(s.jobs, expiry, now) <==> expiry > 0 && s.jobs[id].completedAt < now - expiry)
  {
    hide WorkerOk, ActiveIds;
    assert JobOk(s.jobs[id]);
  }

  lemma KeptActive(jobs: Table, expiry: int, now: int)
    requires forall id :: id in jobs ==> JobOk(jobs[id])
    ensures ActiveIds(Kept(jobs, expiry, now)) == ActiveIds(jobs)
  {
    assert forall id :: id in jobs && Active(jobs[id]) ==> JobOk(jobs[id]);
  }

  lemma CleanupKeepsInv(s: State, maxConcurrent: int, expiry: int, now: int)
    requires Inv(s, maxConcurrent)
    ensures Inv(s.(jobs := Kept(s.jobs, expiry, now)), maxConcurrent)
  {
    hide ActiveIds;
    var s' := s.(jobs := Kept(s.jobs, expiry, now));
    KeptActive(s.jobs, expiry, now);
    forall id | id in s'.jobs || id in s'.workers
      ensures WorkerOk(s', id)
    {
      assert WorkerOk(s, id);
      assert id in s.jobs && Active(s.jobs[id]) ==> JobOk(s.jobs[id]);
    }
  }

  lemma ActiveAfterInsert(jobs: Table, id: string, j: Job)
    requires id !in jobs && Active(j)
    ensures ActiveIds(jobs[id := j]) == ActiveIds(jobs) + {id}
    ensures |ActiveIds(jobs[id := j])| == |ActiveIds(jobs)| + 1
  {
    assert ActiveIds(jobs[id := j]) == ActiveIds(jobs) + {id};
  }

  lemma ActiveAfterUpdate(jobs: Table, id: string, change: Change, now: int)
    requires id in jobs && Active(jobs[id])
    ensures ActiveIds(Updated(jobs, id, change, now)) ==
            if change.ToConverting? then ActiveIds(jobs) else ActiveIds(jobs) - {id}
  {
  }

  lemma CreateKeepsInv(s: State, maxConcurrent: int, id: string, j: Job)
    requires Inv(s, maxConcurrent) && id !in s.jobs && id !in s.workers
    requires j.status == Pending && j.completedAt == 0 && |ActiveIds(s.jobs)| < maxConcurrent
    ensures Inv(State(s.jobs[id := j], s.total + 1, s.workers[id := Ready]), maxConcurrent)
  {
    hide ActiveIds;
    var s' := State(s.jobs[id := j], s.total + 1, s.workers[id := Ready]);
    ActiveAfterInsert(s.jobs, id, j);
    forall k | k in s'.jobs || k in s'.workers
      ensures WorkerOk(s', k)
    {
      assert k != id ==> WorkerOk(s, k);
    }
  }

  lemma WorkKeepsInv(s: State, maxConcurrent: int, id: string, change: Change, now: int)
    requires Inv(s, maxConcurrent) && id in s.workers && (change.End? ==> now > 0)
    ensures Inv(State(Updated(s.jobs, id, change, now), s.total,
                      if change.ToConverting? then s.workers[id := Busy] else s.workers - {id}), maxConcurrent)
  {
    hide ActiveIds;
    var s' := State(Updated(s.jobs, id, change, now), s.total,
                    if change.ToConverting? then s.workers[id := Busy] else s.workers - {id});
    assert WorkerOk(s, id);
    ActiveAfterUpdate(s.jobs, id, change, now);
    FewerActive(ActiveIds(s.jobs), id);
    forall k | k in s'.jobs || k in s'.workers
      ensures WorkerOk(s', k)
    {
      assert k != id ==> WorkerOk(s, k);
    }
    forall k | k in s'.jobs
      ensures JobOk(s'.jobs[k])
    {
      assert JobOk(s.jobs[k]);
    }
  }

  lemma FewerActive(ids: set<string>, id: string)
    ensures |ids - {id}| <= |ids|
    ensures ids == {} ==> ids - {id} == {}
  {
    if id in ids {
      assert |ids - {id}| == |ids| - 1;
    } else {
      assert ids - {id} == ids;
    }
  }

  lemma StepKeepsInv(s: State, expiry: int, maxConcurrent: int, op: Op)
    requires Inv(s, maxConcurrent) && (op.Finish? ==> op.now > 0)
    ensures Inv(Step(s, expiry, maxConcurrent, op), maxConcurrent)
  {
    hide Inv, Kept, Updated, ActiveIds;
    match op
    case Create(id, filePath, resolution, now) =>
      CleanupKeepsInv(s, maxConcurrent, expiry, now);
      KeptHasNoMore(s.jobs, expiry, now, id);
      if Admits(s, expiry, maxConcurrent, op) {
        CreateKeepsInv(s.(jobs := Kept(s.jobs, expiry, now)), maxConcurrent, id, NewJob(filePath, resolution, now));
      }
    case Start(id) =>
      if id in s.workers && s.workers[id] == Ready {
        WorkKeepsInv(s, maxConcurrent, id, ToConverting, 0);
      }
    case Finish(id, ending, now) =>
      if id in s.workers && s.workers[id] == Busy {
        WorkKeepsInv(s, maxConcurrent, id, End(ending), now);
      }
    case List(now) => CleanupKeepsInv(s, maxConcurrent, expiry, now);
  }

  lemma KeptHasNoMore(jobs: Table, expiry: int, now: int, id: string)
    ensures id !in jobs ==> id !in Kept(jobs, expiry, now)
  {
  }

  lemma {:induction false} RunKeepsInv(s: State, expiry: int, maxConcurrent: int, ops: seq<Op>)
    requires Inv(s, maxConcurrent) && PastEpoch(ops)
    ensures Inv(Run(s, expiry, maxConcurrent, ops), maxConcurrent)
    decreases |ops|
  {
    hide Inv, Step;
    if ops != [] {
      StepKeepsInv(s, expiry, maxConcurrent, ops[0]);
      assert forall i :: 0 <= i < |ops[1..]| ==> ops[1..][i] == ops[i + 1];
      RunKeepsInv(Step(s, expiry, maxConcurrent, ops[0]), expiry, maxConcurrent, ops[1..]);
    }
  }

  lemma {:induction false} TotalCountsCreates(s: State, expiry: int, maxConcurrent: int, ops: seq<Op>)
    ensures Run(s, expiry, maxConcurrent, ops).total == s.total + Admitted(s, expiry, maxConcurrent, ops)
    decreases |ops|
  {
    hide Kept, ActiveIds, Updated;
    if ops != [] {
      TotalCountsCreates(Step(s, expiry, maxConcurrent, ops[0]), expiry, maxConcurrent, ops[1..]);
    }
  }

  // ---------------------------------------------------------------- results

  /** In every interleaving: at most maxConcurrent jobs are active (none under a cap below one), a job has a
      completion time exactly if it ended, every active job has its worker, and the total is the number of
      admitted creates. */
  lemma StoreInvariant(expiry: int, maxConcurrent: int, ops: seq<Op>)
    requires PastEpoch(ops)
    ensures var s := Run(EMPTY, expiry, maxConcurrent, ops);
            && |ActiveIds(s.jobs)| <= (if maxConcurrent > 0 then maxConcurrent else 0)
            && (forall id :: id in s.jobs ==> (s.jobs[id].completedAt != 0 <==> Terminal(s.jobs[id])))
            && (forall id :: id in s.workers <==> id in s.jobs && Active(s.jobs[id]))
            && s.total == Admitted(EMPTY, expiry, maxConcurrent, ops)
  {
    hide Run, Admitted, ActiveIds;
    EmptyInv(maxConcurrent);
    RunKeepsInv(EMPTY, expiry, maxConcurrent, ops);
    TotalCountsCreates(EMPTY, expiry, maxConcurrent, ops);
    var s := Run(EMPTY, expiry, maxConcurrent, ops);
    forall id
      ensures id in s.jobs ==> (s.jobs[id].completedAt != 0 <==> Terminal(s.jobs[id]))
      ensures id in s.workers <==> id in s.jobs && Active(s.jobs[id])
    {
      assert id in s.jobs ==> JobOk(s.jobs[id]);
      assert id in s.jobs || id in s.workers ==> WorkerOk(s, id);
    }
  }

  lemma EmptyInv(maxConcurrent: int)
    ensures Inv(EMPTY, maxConcurrent)
  {
    assert ActiveIds(map[]) == {};
  }

  /** A finished job never changes again: a step leaves it as it is, or removes it because it expired. */
  lemma FinishedIsFinal(s: State, expiry: int, maxConcurrent: int, op: Op, id: string)
    requires Inv(s, maxConcurrent) && id in s.jobs && Terminal(s.jobs[id])
    ensures var s' := Step(s, expiry, maxConcurrent, op);
            if id in s'.jobs then s'.jobs[id] == s.jobs[id]
            else (op.Create? || op.List?) && Expired(s.jobs[id], expiry, op.now)
  {
    hide ActiveIds;
    assert WorkerOk(s, id);
  }

  /** A create is refused, for a fresh id, exactly if maxConcurrent jobs are active: expired jobs never count. */
  lemma RefusedIff(s: State, expiry: int, maxConcurrent: int, op: Op)
    requires Inv(s, maxConcurrent) && op.Create? && op.id !in s.jobs && op.id !in s.workers
    ensures Admits(s, expiry, maxConcurrent, op) <==> |ActiveIds(s.jobs)| < maxConcurrent
  {
    hide ActiveIds, Kept;
    KeptActive(s.jobs, expiry, op.now);
  }

  /** An uninterrupted request followed by its uninterrupted worker is one interleaving of the store's operations. */
  lemma WholeJobIsARun(s: State, expiry: int, maxConcurrent: int, create: Op, ending: Ending, end: int)
    requires create.Create? && Admits(s, expiry, maxConcurrent, create)
    ensures var id := create.id;
            var job := NewJob(create.filePath, create.resolution, create.now);
            var inserted := Kept(s.jobs, expiry, create.now)[id := job];
            var after := Run(s, expiry, maxConcurrent, [create, Start(id), Finish(id, ending, end)]);
            && after.jobs == Worked(inserted, id, ending, 0, end)
            && after.total == s.total + 1
            && after.workers == s.workers
            && id in after.jobs && Terminal(after.jobs[id])
  {
    hide Kept, ActiveIds;
    var id := create.id;
    var s1 := Step(s, expiry, maxConcurrent, create);
    var s2 := Step(s1, expiry, maxConcurrent, Start(id));
    var s3 := Step(s2, expiry, maxConcurrent, Finish(id, ending, end));
    RunCons(s3, expiry, maxConcurrent, create, []);
    RunCons(s, expiry, maxConcurrent, create, [Start(id), Finish(id, ending, end)]);
    assert [create] + [Start(id), Finish(id, ending, end)] == [create, Start(id), Finish(id, ending, end)];
    RunCons(s1, expiry, maxConcurrent, Start(id), [Finish(id, ending, end)]);
    assert [Start(id)] + [Finish(id, ending, end)] == [Start(id), Finish(id, ending, end)];
    RunCons(s2, expiry, maxConcurrent, Finish(id, ending, end), []);
    assert [Finish(id, ending, end)] + [] == [Finish(id, ending, end)];
    assert s.workers[id := Ready][id := Busy] - {id} == s.workers;
  }

  lemma RunCons(s: State, expiry: int, maxConcurrent: int, op: Op, rest: seq<Op>)
    ensures Run(s, expiry, maxConcurrent, [op] + rest) ==
            Run(Step(s, expiry, maxConcurrent, op), expiry, maxConcurrent, rest)
    ensures Run(s, expiry, maxConcurrent, []) == s
  {
    hide Step;
    assert ([op] + rest)[1..] == rest;
  }

  // ---------------------------------------------------------------- when a conversion is complete

  predicate Succeeds(c: Command) {
    !c.timedOut && c.exitCode == None
  }

  /** A recording is converted exactly if guacenc succeeds and its output can be read; the answer then names the
      output and its size. A timeout counts before anything else, and a failed command before its output. */
  lemma GuacCompleteIff(filePath: string, timeoutMessage: string, c: Command, file: OutputFile)
    ensures var ending := GuacEnding(filePath, timeoutMessage, c, file);
            && (ending.Done? <==> Succeeds(c) && file.File?)
            && (ending.Done? ==> ending == Done(filePath + ".m4v", file.size))
            && (c.timedOut ==> ending == Failed(timeoutMessage, "", -1))
            && (!c.timedOut && c.exitCode.Some? ==>
                 ending == Failed("guacenc conversion failed", c.output, c.exitCode.value))
            && (Succeeds(c) && file.Missing? ==> ending == Failed("guacenc conversion failed", c.output, 0))
            && (Succeeds(c) && file.Unreadable? ==> ending == Failed("unexpected error", file.error, -1))
  {
  }

  /** A terminal recording is converted exactly if both commands succeed, the first leaves its picture and the output
      can be read; the first failure on the way is the one reported. */
  lemma AsciicastCompleteIff(
    filePath: string, timeoutMessage: string, agg: Command, gif: bool, ffmpeg: Command, file: OutputFile)
    ensures var ending := AsciicastEnding(filePath, timeoutMessage, agg, gif, ffmpeg, file);
            && (ending.Done? <==> Succeeds(agg) && gif && Succeeds(ffmpeg) && file.File?)
            && (ending.Done? ==> ending == Done(filePath + ".mp4", file.size))
            && (agg.timedOut ==> ending == Failed(timeoutMessage, "", -1))
            && (!agg.timedOut && (agg.exitCode.Some? || !gif) ==>
                 ending == Failed("agg rendering failed", agg.output, GetOr(agg.exitCode, 0)))
            && (Succeeds(agg) && gif ==>
                 && (ffmpeg.timedOut ==> ending == Failed(timeoutMessage, "", -1))
                 && (!ffmpeg.timedOut && (ffmpeg.exitCode.Some? || file.Missing?) ==>
                      ending == Failed("ffmpeg conversion failed", ffmpeg.output, GetOr(ffmpeg.exitCode, 0)))
                 && (Succeeds(ffmpeg) && file.Unreadable? ==> ending == Failed("unexpected error", file.error, -1)))
  {
  }

  /** What a finished worker leaves of its job: the status says how it ended, the fields are the ending's, the time is
      the end's, and nothing else of the job and of the table has changed. */
  lemma WorkedJob(jobs: Table, id: string, ending: Ending, start: int, end: int)
    requires id in jobs
    ensures var after := Worked(jobs, id, ending, start, end);
            && after.Keys == jobs.Keys
            && (forall k :: k in jobs && k != id ==> after[k] == jobs[k])
            && after[id].filePath == jobs[id].filePath && after[id].resolution == jobs[id].resolution
            && after[id].createdAt == jobs[id].createdAt && after[id].completedAt == end
            && (match ending
                case Done(outputPath, fileSize) =>
                  && after[id].status == Complete
                  && after[id].outputPath == outputPath && after[id].fileSize == fileSize
                  && after[id].error == jobs[id].error && after[id].detail == jobs[id].detail
                  && after[id].returnCode == jobs[id].returnCode
                case Failed(error, detail, returnCode) =>
                  && after[id].status == Error
                  && after[id].error == error && after[id].detail == detail && after[id].returnCode == returnCode
                  && after[id].outputPath == jobs[id].outputPath && after[id].fileSize == jobs[id].fileSize)
    ensures Updated(jobs, id, ToConverting, start) == jobs[id := jobs[id].(status := Converting)]
  {
  }

  /** The worker of a job that is gone has no effect. */
  lemma WorkWithoutJob(jobs: Table, id: string, ending: Ending, start: int, end: int)
    requires id !in jobs
    ensures Worked(jobs, id, ending, start, end) == jobs
  {
  }
}
