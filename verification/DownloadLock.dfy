/**
 coordinateDownload for one NAR key: callers on any number of instances, the job map of each instance,
 and one exclusive lock that does not expire. Jobs run their own steps in between.
 */
module DownloadLock {
  import opened Collections
  import opened DownloadJob

  /** Where a call of coordinateDownload is; the job is the download state it works with. */
  datatype Pc =
    | CheckingMap
    | Locking
    | HasLock
    | Choosing
    | Waiting(job: nat)
    | Unlocking(job: nat)
    | Joined(job: nat)
    | Polling
    | Returned

  datatype Caller = Caller(instance: nat, pc: Pc)

  datatype Placed = Placed(instance: nat, job: Job)

  datatype World = World(
    callers: map<nat, Caller>,
    jobs: map<nat, Placed>,
    active: map<nat, nat>,
    lock: Option<nat>,
    nextJob: nat)

  datatype Step =
    | Arrive(caller: nat, instance: nat)
    | LookUp(caller: nat)
    | Acquire(caller: nat)
    | LockFails(caller: nat)
    | AssetFound(caller: nat)
    | AssetMissing(caller: nat)
    | Choose(caller: nat)
    | Proceed(caller: nat)
    | Unlock(caller: nat)
    | JobStep(job: nat, move: Move)

  const EMPTY: World := World(map[], map[], map[], None, 0)

  predicate At(w: World, c: nat, pc: Pc) { c in w.callers && w.callers[c].pc == pc }

  predicate StepEnabled(w: World, s: Step) {
    match s
    case Arrive(c, _) => c !in w.callers
    case LookUp(c) => At(w, c, CheckingMap)
    case Acquire(c) => At(w, c, Locking) && w.lock.None?
    case LockFails(c) => At(w, c, Locking)
    case AssetFound(c) => At(w, c, HasLock)
    case AssetMissing(c) => At(w, c, HasLock)
    case Choose(c) => At(w, c, Choosing)
    case Proceed(c) => c in w.callers && w.callers[c].pc.Waiting?
    case Unlock(c) =>
      && c in w.callers && w.callers[c].pc.Unlocking? && w.callers[c].pc.job in w.jobs
      && (w.jobs[w.callers[c].pc.job].job.stored || w.jobs[w.callers[c].pc.job].job.done)
    case JobStep(j, m) => j in w.jobs && CanMove(w.jobs[j].job, m)
  }

  function Goto(w: World, c: nat, pc: Pc): World
    requires c in w.callers
  {
    w.(callers := w.callers[c := w.callers[c].(pc := pc)])
  }

  function Next(w: World, s: Step): World
    requires StepEnabled(w, s)
  {
    match s
    case Arrive(c, i) => w.(callers := w.callers[c := Caller(i, CheckingMap)])
    case LookUp(c) =>
      var i := w.callers[c].instance;
      Goto(w, c, if i in w.active then Joined(w.active[i]) else Locking)
    case Acquire(c) => Goto(w, c, HasLock).(lock := Some(c))
    case LockFails(c) => Goto(w, c, Polling)
    case AssetFound(c) => Goto(w, c, Returned).(lock := None)
    case AssetMissing(c) => Goto(w, c, Choosing)
    case Choose(c) =>
      var i := w.callers[c].instance;
      if i in w.active then Goto(w, c, Waiting(w.active[i])) else
        Goto(w, c, Waiting(w.nextJob)).(
          jobs := w.jobs[w.nextJob := Placed(i, NEW_JOB)],
          active := w.active[i := w.nextJob],
          nextJob := w.nextJob + 1)
    case Proceed(c) => Goto(w, c, Unlocking(w.callers[c].pc.job))
    case Unlock(c) => Goto(w, c, Returned).(lock := None)
    case JobStep(j, m) =>
      var p := w.jobs[j];
      w.(jobs := w.jobs[j := p.(job := Moved(p.job, m))],
         active := if RemovesKey(m) then w.active - {p.instance} else w.active)
  }

  // ---------------------------------------------------------------- invariant

  predicate Holding(pc: Pc) { pc.HasLock? || pc.Choosing? || pc.Waiting? || pc.Unlocking? }

  predicate Live(j: Job) { !j.stored && !j.done }

  /** The lock is held by exactly the caller that is between acquiring and releasing it. */
  ghost predicate LockInv(w: World) {
    && (w.lock.Some? ==> w.lock.value in w.callers && Holding(w.callers[w.lock.value].pc))
    && (forall c :: c in w.callers && Holding(w.callers[c].pc) ==> w.lock == Some(c))
  }

  ghost predicate JobsInv(w: World) {
    forall j :: j in w.jobs ==> j < w.nextJob && JobInv(w.jobs[j].job)
  }

  /** The job map of an instance has exactly its one job that has not removed itself. */
  ghost predicate MapInv(w: World) {
    && (forall i :: i in w.active ==>
          w.active[i] in w.jobs && w.jobs[w.active[i]].instance == i && w.jobs[w.active[i]].job.keyed)
    && (forall j :: j in w.jobs && w.jobs[j].job.keyed ==>
          w.jobs[j].instance in w.active && w.active[w.jobs[j].instance] == j)
  }

  ghost predicate CallerInv(w: World) {
    forall c :: c in w.callers && (w.callers[c].pc.Waiting? || w.callers[c].pc.Unlocking?) ==>
      w.callers[c].pc.job in w.jobs && w.jobs[w.callers[c].pc.job].instance == w.callers[c].instance
  }

  /** The caller that holds the lock holds it for this job. */
  ghost predicate LockedFor(w: World, j: nat) {
    && w.lock.Some? && w.lock.value in w.callers
    && (w.callers[w.lock.value].pc == Waiting(j) || w.callers[w.lock.value].pc == Unlocking(j))
  }

  ghost predicate LiveInv(w: World) {
    forall j :: j in w.jobs && Live(w.jobs[j].job) ==> LockedFor(w, j)
  }

  ghost predicate WorldInv(w: World) { LockInv(w) && JobsInv(w) && MapInv(w) && CallerInv(w) && LiveInv(w) }

  lemma StepKeepsLock(w: World, s: Step)
    requires LockInv(w) && StepEnabled(w, s)
    ensures LockInv(Next(w, s))
  {}

  lemma StepKeepsJobs(w: World, s: Step)
    requires JobsInv(w) && StepEnabled(w, s)
    ensures JobsInv(Next(w, s))
  {
    NewJobIsGood();
    if s.JobStep? {
      MoveOutcome(w.jobs[s.job].job, s.move);
    }
  }

  lemma JobStepKeepsMap(w: World, j: nat, m: Move)
    requires MapInv(w) && StepEnabled(w, JobStep(j, m)) && JobInv(w.jobs[j].job)
    ensures MapInv(Next(w, JobStep(j, m)))
  {
    var w', p := Next(w, JobStep(j, m)), w.jobs[j];
    MoveOutcome(p.job, m);
    assert w'.jobs[j] == Placed(p.instance, Moved(p.job, m));
  }

  lemma StepKeepsMap(w: World, s: Step)
    requires JobsInv(w) && MapInv(w) && StepEnabled(w, s)
    ensures MapInv(Next(w, s))
  {
    if s.JobStep? {
      JobStepKeepsMap(w, s.job, s.move);
    } else if s.Choose? {
      ChooseKeepsMap(w, s.caller);
    }
  }

  lemma ChooseKeepsMap(w: World, c: nat)
    requires JobsInv(w) && MapInv(w) && StepEnabled(w, Choose(c))
    ensures MapInv(Next(w, Choose(c)))
  {
    assert w.nextJob !in w.jobs;
  }

  lemma StepKeepsCallers(w: World, s: Step)
    requires JobsInv(w) && MapInv(w) && CallerInv(w) && StepEnabled(w, s)
    ensures CallerInv(Next(w, s))
  {}

  lemma JobStepKeepsLive(w: World, j: nat, m: Move)
    requires LiveInv(w) && StepEnabled(w, JobStep(j, m)) && JobInv(w.jobs[j].job)
    ensures LiveInv(Next(w, JobStep(j, m)))
  {
    MoveOutcome(w.jobs[j].job, m);
    assert Live(Moved(w.jobs[j].job, m)) ==> Live(w.jobs[j].job);
  }

  lemma StepKeepsLive(w: World, s: Step)
    requires WorldInv(w) && StepEnabled(w, s)
    ensures LiveInv(Next(w, s))
  {
    var w' := Next(w, s);
    if s.JobStep? {
      JobStepKeepsLive(w, s.job, s.move);
      return;
    }
    forall j | j in w'.jobs && Live(w'.jobs[j].job)
      ensures LockedFor(w', j)
    {
      if j in w.jobs {
        assert Live(w.jobs[j].job) && LockedFor(w, j);
      }
    }
  }

  lemma StepKeepsInv(w: World, s: Step)
    requires WorldInv(w) && StepEnabled(w, s)
    ensures WorldInv(Next(w, s))
  {
    StepKeepsLock(w, s);
    StepKeepsJobs(w, s);
    StepKeepsMap(w, s);
    StepKeepsCallers(w, s);
    StepKeepsLive(w, s);
  }

  // ---------------------------------------------------------------- every run

  datatype Run = Start | Then(past: Run, step: Step)

  predicate Valid(run: Run)
    decreases run, 0
  {
    run.Then? ==> Valid(run.past) && StepEnabled(Last(run.past), run.step)
  }

  function Last(run: Run): World
    requires Valid(run)
    decreases run, 1
  {
    if run.Start? then EMPTY else Next(Last(run.past), run.step)
  }

  lemma {:induction false} RunKeepsInv(run: Run)
    requires Valid(run)
    ensures WorldInv(Last(run))
  {
    if run.Then? {
      RunKeepsInv(run.past);
      StepKeepsInv(Last(run.past), run.step);
    }
  }

  /** A job that is neither stored nor done has its instance holding the lock. */
  lemma LiveJobHoldsLock(run: Run, j: nat)
    requires Valid(run) && j in Last(run).jobs && Live(Last(run).jobs[j].job)
    ensures var w := Last(run);
      && w.lock.Some? && w.lock.value in w.callers
      && w.callers[w.lock.value].instance == w.jobs[j].instance
  {
    RunKeepsInv(run);
    assert LockedFor(Last(run), j);
  }

  /** So across all instances at most one download of the key is under way. */
  lemma AtMostOneLiveJob(run: Run, j: nat, k: nat)
    requires Valid(run) && j in Last(run).jobs && k in Last(run).jobs
    requires Live(Last(run).jobs[j].job) && Live(Last(run).jobs[k].job)
    ensures j == k
  {
    RunKeepsInv(run);
    assert LockedFor(Last(run), j) && LockedFor(Last(run), k);
  }

  /** A caller joins without the lock, or starts no job, exactly if its instance has one that has not removed its key. */
  lemma JoinsIff(run: Run, c: nat)
    requires Valid(run) && c in Last(run).callers
    ensures var w := Last(run);
      var busy := exists j :: j in w.jobs && w.jobs[j].instance == w.callers[c].instance && w.jobs[j].job.keyed;
      && (w.callers[c].pc.CheckingMap? ==>
            if busy then Next(w, LookUp(c)).callers[c].pc.Joined? else Next(w, LookUp(c)).callers[c].pc.Locking?)
      && (w.callers[c].pc.Choosing? ==> (Next(w, Choose(c)).jobs == w.jobs <==> busy))
  {
    RunKeepsInv(run);
    var w := Last(run);
    assert MapInv(w) && JobsInv(w);
    if w.callers[c].pc.Choosing? {
      var w' := Next(w, Choose(c));
      assert w.nextJob !in w.jobs;
      assert w.callers[c].instance !in w.active ==> w.nextJob in w'.jobs;
    }
  }

  // ---------------------------------------------------------------- the lock can always be given back

  predicate Extends(more: Run, run: Run) { more == run || (more.Then? && Extends(more.past, run)) }

  lemma {:induction false} ExtendsPast(c: Run, b: Run, a: Run)
    requires Extends(c, b) && b.Then? && b.past == a
    ensures Extends(c, a)
  {
    if c != b {
      ExtendsPast(c.past, b, a);
    }
  }

  function WorkLeft(j: Job): nat { DownloaderWork(j.downloader) + ChunkerWork(j.chunker) }

  /** The next move towards the end of the job. */
  function Onward(j: Job): Move
    requires !j.downloader.Ended? || (!j.chunker.Absent? && !j.chunker.Over?)
  {
    if j.downloader.Ended? then ChunkerNext(j.chunker) else DownloaderNext(j.downloader)
  }

  lemma GoesOnward(j: Job)
    requires JobInv(j) && !j.done
    ensures !j.downloader.Ended? || (!j.chunker.Absent? && !j.chunker.Over?)
    ensures CanMove(j, Onward(j)) && WorkLeft(Moved(j, Onward(j))) < WorkLeft(j)
  {
    if !j.downloader.Ended? {
      DownloaderWorks(j);
    } else {
      ChunkerWorks(j);
    }
  }

  /** Whatever readers do, a job can come to the point where it is done; nobody else has to move. */
  lemma {:induction false} JobCanBeDone(run: Run, j: nat) returns (more: Run)
    requires Valid(run) && j in Last(run).jobs
    ensures Valid(more) && Extends(more, run) && j in Last(more).jobs && Last(more).jobs[j].job.done
    ensures Last(more).callers == Last(run).callers && Last(more).lock == Last(run).lock
    decreases if j in Last(run).jobs then WorkLeft(Last(run).jobs[j].job) else 0
  {
    RunKeepsInv(run);
    var job := Last(run).jobs[j].job;
    more := run;
    if !job.done {
      assert JobsInv(Last(run));
      GoesOnward(job);
      var next := Run.Then(run, JobStep(j, Onward(job)));
      more := JobCanBeDone(next, j);
      ExtendsPast(more, next, run);
    }
  }

  /** So in every run, whoever holds the lock can go on until it is free, with nobody else but its job moving. */
  lemma {:induction false} LockCanBeFreed(run: Run) returns (more: Run)
    requires Valid(run)
    ensures Valid(more) && Extends(more, run) && Last(more).lock.None?
    decreases StepsToUnlock(Last(run))
  {
    var w := Last(run);
    RunKeepsInv(run);
    more := run;
    if w.lock.Some? {
      var c := w.lock.value;
      var next: Run;
      match w.callers[c].pc {
        case HasLock => next := Run.Then(run, AssetFound(c));
        case Choosing => next := Run.Then(run, Choose(c));
        case Waiting(_) => next := Run.Then(run, Proceed(c));
        case Unlocking(j) =>
          var done := JobCanBeDone(run, j);
          more := Run.Then(done, Unlock(c));
          return;
      }
      more := LockCanBeFreed(next);
      ExtendsPast(more, next, run);
    }
  }

  function StepsToUnlock(w: World): nat {
    if w.lock.None? || w.lock.value !in w.callers then 0 else
      match w.callers[w.lock.value].pc
      case HasLock => 4
      case Choosing => 3
      case Waiting(_) => 2
      case _ => 1
  }

  /** And in every run, each job keeps what DownloadJob proves, and the job map lists those not yet ended. */
  lemma JobMapListsUnfinishedJobs(run: Run, j: nat)
    requires Valid(run) && j in Last(run).jobs
    ensures var w := Last(run);
      && JobInv(w.jobs[j].job)
      && (w.jobs[j].job.keyed <==> w.jobs[j].instance in w.active && w.active[w.jobs[j].instance] == j)
  {
    RunKeepsInv(run);
  }
}
