/**
 * The timed-job scheduler: a priority queue of jobs by next execution time. Whether a job's callback
 * wants to be run again is decided outside; each call of a job gets its own answer.
 */
module JobDispatcher {
  import opened Arithmetic
  import opened Wrappers
  import opened MapTotals

  type JobId = nat

  /** Runs per second; a job that is ever due has a positive frequency. */
  type Frequency = r: real | 0.0 < r witness 1.0

  datatype Job = Job(time: real, freq: Frequency, catchUp: bool, calls: nat)

  /** The answer of the n-th call of a job: true to be scheduled again. */
  type Callback = (JobId, nat) -> bool

  function Period(j: Job): real {
    1000.0 / j.freq
  }

  lemma PeriodIsPositive(j: Job)
    ensures 0.0 < Period(j)
  {
    var p := Period(j);
    assert p * j.freq == 1000.0;
    SignOfProduct(p, j.freq);
  }

  function UpdateTime(j: Job, now: real): Job {
    j.(time := (if j.catchUp then j.time else now) + Period(j), calls := j.calls + 1)
  }

  // ------------------------------------------------------------------------ one job by itself

  /** How many runs a job is owed up to `now`. */
  function Owed(j: Job, now: real): nat {
    if now < j.time then 0
    else if !j.catchUp then 1
    else
      PeriodIsPositive(j);
      QuotientBound(now - j.time, Period(j), 0.0);
      ((now - j.time) / Period(j)).Floor + 1
  }

  /** Each run pays off exactly one owed run. */
  lemma RunPaysOne(j: Job, now: real)
    requires j.time <= now
    ensures Owed(j, now) > 0
    ensures Owed(UpdateTime(j, now), now) == Owed(j, now) - 1
    ensures j.time < UpdateTime(j, now).time
  {
    PeriodIsPositive(j);
    if j.catchUp {
      var p, q := Period(j), (now - j.time) / Period(j);
      QuotientBound(now - j.time, p, 0.0);
      QuotientBound(now - j.time, p, 1.0);
      QuotientMinusOne(now - j.time, p);
      assert now - UpdateTime(j, now).time == now - j.time - p;
    }
  }

  /** The due times of the runs of a job when it is alone in the queue. */
  function Runs(id: JobId, j: Job, now: real, f: Callback): seq<real>
    decreases Owed(j, now)
  {
    if now < j.time then []
    else if !f(id, j.calls) then [j.time]
    else
      RunPaysOne(j, now);
      [j.time] + Runs(id, UpdateTime(j, now), now, f)
  }

  /** What is left of it afterwards. */
  function Left(id: JobId, j: Job, now: real, f: Callback): Option<Job>
    decreases Owed(j, now)
  {
    if now < j.time then Some(j)
    else if !f(id, j.calls) then None
    else
      RunPaysOne(j, now);
      Left(id, UpdateTime(j, now), now, f)
  }

  /** A job is lost exactly if one of the calls it is owed answers false; otherwise it gets them all. */
  lemma {:induction false} OwedRunsAreMade(id: JobId, j: Job, now: real, f: Callback)
    ensures Left(id, j, now, f).None? <==> exists n :: j.calls <= n < j.calls + Owed(j, now) && !f(id, n)
    ensures Left(id, j, now, f).Some? ==>
              |Runs(id, j, now, f)| == Owed(j, now)
              && now < Left(id, j, now, f).value.time
              && Left(id, j, now, f).value.calls == j.calls + Owed(j, now)
    decreases Owed(j, now)
  {
    if j.time <= now {
      RunPaysOne(j, now);
      if f(id, j.calls) {
        OwedRunsAreMade(id, UpdateTime(j, now), now, f);
      }
    }
  }

  /** A job that catches up runs at every missed period; any other due job runs once. */
  lemma {:induction false} CatchUpRunsEveryPeriod(id: JobId, j: Job, now: real, f: Callback, i: nat)
    requires j.catchUp && i < |Runs(id, j, now, f)|
    ensures Runs(id, j, now, f)[i] == j.time + i as real * Period(j)
    decreases i
  {
    if i > 0 {
      RunPaysOne(j, now);
      CatchUpRunsEveryPeriod(id, UpdateTime(j, now), now, f, i - 1);
      assert j.time + Period(j) + (i - 1) as real * Period(j) == j.time + i as real * Period(j);
    }
  }

  /**
   * What running a job until it is no longer due makes of it: untouched if it was not due; else as often
   * run as it has missed periods, or once, and due a number of whole periods later.
   */
  ghost predicate Rescheduled(before: Job, after: Job, runs: nat, now: real) {
    && after.freq == before.freq && after.catchUp == before.catchUp && after.calls == before.calls + runs
    && now < after.time
    && if now < before.time then runs == 0 && after.time == before.time
       else if before.catchUp then
         && (after.time - before.time) * after.freq == 1000.0 * runs as real
         && (now - before.time) * after.freq < 1000.0 * runs as real
         && 1000.0 * (runs - 1) as real <= (now - before.time) * after.freq
       else runs == 1 && (after.time - now) * after.freq == 1000.0
  }

  lemma PeriodTimes(j: Job, n: int)
    ensures n as real * Period(j) * j.freq == 1000.0 * n as real
  {
    assert Period(j) * j.freq == 1000.0;
    assert n as real * Period(j) * j.freq == n as real * (Period(j) * j.freq);
  }

  /** A catching-up job is moved by one period for each of its runs. */
  lemma {:induction false} LeftIsLater(id: JobId, j: Job, now: real, f: Callback)
    requires j.catchUp && Left(id, j, now, f).Some?
    ensures var left := Left(id, j, now, f).value;
            left.time == j.time + |Runs(id, j, now, f)| as real * Period(j)
            && left.freq == j.freq && left.catchUp
    decreases Owed(j, now)
  {
    if j.time <= now {
      RunPaysOne(j, now);
      LeftIsLater(id, UpdateTime(j, now), now, f);
    }
  }

  lemma LeftIsRescheduled(id: JobId, j: Job, now: real, f: Callback)
    requires Left(id, j, now, f).Some?
    ensures Rescheduled(j, Left(id, j, now, f).value, |Runs(id, j, now, f)|, now)
  {
    OwedRunsAreMade(id, j, now, f);
    var left, n := Left(id, j, now, f).value, |Runs(id, j, now, f)|;
    if j.time <= now {
      RunPaysOne(j, now);
      PeriodTimes(j, 1);
      if j.catchUp {
        LeftIsLater(id, j, now, f);
        PeriodTimes(j, n);
        SignOfProduct(left.time - now, j.freq);
        LastRunWasDue(id, j, now, f);
        PeriodTimes(j, n - 1);
        SignOfProduct(now - j.time - (n - 1) as real * Period(j), j.freq);
      }
    }
  }

  lemma LastRunWasDue(id: JobId, j: Job, now: real, f: Callback)
    requires j.catchUp && j.time <= now && Left(id, j, now, f).Some?
    ensures var n := |Runs(id, j, now, f)|; 1 <= n && j.time + (n - 1) as real * Period(j) <= now
  {
    OwedRunsAreMade(id, j, now, f);
    PeriodIsPositive(j);
    QuotientBound(now - j.time, Period(j), (Owed(j, now) - 1) as real);
  }

  // ------------------------------------------------------------------------------ the queue

  datatype Run = Run(id: JobId, due: real)

  function RunsOf(runs: seq<Run>, id: JobId): seq<real> {
    if runs == [] then []
    else
      var last := runs[|runs| - 1];
      RunsOf(runs[..|runs| - 1], id) + if last.id == id then [last.due] else []
  }

  lemma RunsOfAppend(runs: seq<Run>, next: Run, id: JobId)
    ensures RunsOf(runs + [next], id) == RunsOf(runs, id) + if next.id == id then [next.due] else []
  {
    assert (runs + [next])[..|runs|] == runs;
  }

  type Queue = map<JobId, Job>

  ghost function Work(jobs: Queue, now: real): map<JobId, nat> {
    map id | id in jobs :: Owed(jobs[id], now)
  }

  lemma WorkWithout(jobs: Queue, id: JobId, now: real)
    requires id in jobs
    ensures Total(Work(jobs, now)) == Owed(jobs[id], now) + Total(Work(jobs - {id}, now))
  {
    TotalWithout(Work(jobs, now), id);
    assert Work(jobs, now) - {id} == Work(jobs - {id}, now);
  }

  /** Running a due job lowers the total owed, whether or not it is put back. */
  lemma WorkShrinks(jobs: Queue, id: JobId, now: real)
    requires id in jobs && jobs[id].time <= now
    ensures Total(Work(jobs - {id}, now)) < Total(Work(jobs, now))
    ensures Total(Work(jobs[id := UpdateTime(jobs[id], now)], now)) < Total(Work(jobs, now))
  {
    var again := jobs[id := UpdateTime(jobs[id], now)];
    RunPaysOne(jobs[id], now);
    WorkWithout(jobs, id, now);
    WorkWithout(again, id, now);
    assert again - {id} == jobs - {id};
  }

  /** What a queued or departed job still has in front of it. */
  ghost function RunsAhead(jobs: Queue, id: JobId, now: real, f: Callback): seq<real> {
    if id in jobs then Runs(id, jobs[id], now, f) else []
  }

  ghost function LeftOf(jobs: Queue, id: JobId, now: real, f: Callback): Option<Job> {
    if id in jobs then Left(id, jobs[id], now, f) else None
  }

  predicate InDueOrder(runs: seq<Run>) {
    forall i, j :: 0 <= i < j < |runs| ==> runs[i].due <= runs[j].due
  }

  /** Nothing still queued is due before anything already run. */
  predicate QueueIsLater(runs: seq<Run>, jobs: Queue) {
    forall i, id :: 0 <= i < |runs| && id in jobs ==> runs[i].due <= jobs[id].time
  }

  /** The job's runs so far and runs ahead are the runs it would make alone, and it ends up the same. */
  ghost predicate OnTrackAt(start: Queue, runs: seq<Run>, jobs: Queue, now: real, f: Callback, id: JobId) {
    RunsOf(runs, id) + RunsAhead(jobs, id, now, f) == RunsAhead(start, id, now, f)
    && LeftOf(jobs, id, now, f) == LeftOf(start, id, now, f)
  }

  ghost predicate OnTrack(start: Queue, runs: seq<Run>, jobs: Queue, now: real, f: Callback) {
    forall id :: OnTrackAt(start, runs, jobs, now, f, id)
  }

  /** The next state of the queue when the top job is run. */
  function AfterRun(jobs: Queue, id: JobId, now: real, f: Callback): Queue
    requires id in jobs
  {
    if f(id, jobs[id].calls) then jobs[id := UpdateTime(jobs[id], now)] else jobs - {id}
  }

  lemma RunUnfolds(jobs: Queue, now: real, f: Callback, top: JobId)
    requires top in jobs && jobs[top].time <= now
    ensures RunsAhead(jobs, top, now, f) == [jobs[top].time] + RunsAhead(AfterRun(jobs, top, now, f), top, now, f)
    ensures LeftOf(jobs, top, now, f) == LeftOf(AfterRun(jobs, top, now, f), top, now, f)
  {
    RunPaysOne(jobs[top], now);
  }

  lemma OthersStay(jobs: Queue, now: real, f: Callback, top: JobId, id: JobId)
    requires top in jobs && id != top
    ensures RunsAhead(jobs, id, now, f) == RunsAhead(AfterRun(jobs, top, now, f), id, now, f)
    ensures LeftOf(jobs, id, now, f) == LeftOf(AfterRun(jobs, top, now, f), id, now, f)
  {
  }

  lemma TopStaysOnTrack(start: Queue, runs: seq<Run>, jobs: Queue, next: Queue, now: real, f: Callback, run: Run)
    requires OnTrackAt(start, runs, jobs, now, f, run.id)
    requires RunsAhead(jobs, run.id, now, f) == [run.due] + RunsAhead(next, run.id, now, f)
    requires LeftOf(jobs, run.id, now, f) == LeftOf(next, run.id, now, f)
    ensures OnTrackAt(start, runs + [run], next, now, f, run.id)
  {
    RunsOfAppend(runs, run, run.id);
    var done, ahead := RunsOf(runs, run.id), RunsAhead(next, run.id, now, f);
    assert done + ([run.due] + ahead) == done + [run.due] + ahead;
  }

  lemma OtherStaysOnTrack(
    start: Queue, runs: seq<Run>, jobs: Queue, next: Queue, now: real, f: Callback, run: Run, id: JobId)
    requires OnTrackAt(start, runs, jobs, now, f, id) && id != run.id
    requires RunsAhead(jobs, id, now, f) == RunsAhead(next, id, now, f)
    requires LeftOf(jobs, id, now, f) == LeftOf(next, id, now, f)
    ensures OnTrackAt(start, runs + [run], next, now, f, id)
  {
    RunsOfAppend(runs, run, id);
    assert RunsOf(runs, id) + [] == RunsOf(runs, id);
  }

  lemma StepKeepsTrack(start: Queue, runs: seq<Run>, jobs: Queue, now: real, f: Callback, top: JobId)
    requires OnTrack(start, runs, jobs, now, f)
    requires top in jobs && jobs[top].time <= now
    ensures OnTrack(start, runs + [Run(top, jobs[top].time)], AfterRun(jobs, top, now, f), now, f)
  {
    var next, run := AfterRun(jobs, top, now, f), Run(top, jobs[top].time);
    forall id ensures OnTrackAt(start, runs + [run], next, now, f, id) {
      assert OnTrackAt(start, runs, jobs, now, f, id);
      if id == top {
        RunUnfolds(jobs, now, f, top);
        TopStaysOnTrack(start, runs, jobs, next, now, f, run);
      } else {
        OthersStay(jobs, now, f, top, id);
        OtherStaysOnTrack(start, runs, jobs, next, now, f, run, id);
      }
    }
  }

  lemma StepKeepsOrder(runs: seq<Run>, jobs: Queue, now: real, f: Callback, top: JobId)
    requires InDueOrder(runs) && QueueIsLater(runs, jobs)
    requires top in jobs && jobs[top].time <= now && forall k :: k in jobs ==> jobs[top].time <= jobs[k].time
    ensures InDueOrder(runs + [Run(top, jobs[top].time)])
    ensures QueueIsLater(runs + [Run(top, jobs[top].time)], AfterRun(jobs, top, now, f))
  {
    RunPaysOne(jobs[top], now);
    var due, next := jobs[top].time, AfterRun(jobs, top, now, f);
    assert forall k :: k in next ==> due <= next[k].time;
    assert forall i :: 0 <= i < |runs| ==> runs[i].due <= due;
  }

  lemma StepShrinks(jobs: Queue, now: real, f: Callback, top: JobId)
    requires top in jobs && jobs[top].time <= now
    ensures Total(Work(AfterRun(jobs, top, now, f), now)) < Total(Work(jobs, now))
  {
    WorkShrinks(jobs, top, now);
  }

  /**
   * Every job has made exactly the runs it would make alone in the queue, and what is left of it is
   * queued, due only later.
   */
  ghost predicate AsIfAlone(start: Queue, runs: seq<Run>, jobs: Queue, now: real, f: Callback) {
    forall id :: RunsOf(runs, id) == RunsAhead(start, id, now, f)
              && LeftOf(start, id, now, f) == (if id in jobs then Some(jobs[id]) else None)
              && (id in jobs ==> now < jobs[id].time)
  }

  lemma NothingDueIsDone(start: Queue, runs: seq<Run>, jobs: Queue, now: real, f: Callback)
    requires OnTrack(start, runs, jobs, now, f)
    requires forall id :: id in jobs ==> now < jobs[id].time
    ensures AsIfAlone(start, runs, jobs, now, f)
  {
    forall id ensures RunsOf(runs, id) == RunsAhead(start, id, now, f)
                   && LeftOf(start, id, now, f) == (if id in jobs then Some(jobs[id]) else None)
    {
      assert OnTrackAt(start, runs, jobs, now, f, id);
      assert RunsAhead(jobs, id, now, f) == [];
      assert RunsOf(runs, id) + [] == RunsOf(runs, id);
      assert LeftOf(jobs, id, now, f) == LeftOf(start, id, now, f);
    }
  }

  lemma AloneIsRescheduled(start: Queue, runs: seq<Run>, jobs: Queue, now: real, f: Callback)
    requires AsIfAlone(start, runs, jobs, now, f)
    ensures jobs.Keys <= start.Keys
    ensures forall id :: id in jobs ==> Rescheduled(start[id], jobs[id], |RunsOf(runs, id)|, now)
    ensures forall id :: id in start ==>
              (id in jobs <==> forall n :: 0 <= n - start[id].calls < |RunsOf(runs, id)| ==> f(id, n))
  {
    forall id | id in jobs ensures id in start && Rescheduled(start[id], jobs[id], |RunsOf(runs, id)|, now) {
      assert LeftOf(start, id, now, f) == Some(jobs[id]);
      LeftIsRescheduled(id, start[id], now, f);
    }
    forall id | id in start
      ensures id in jobs <==> forall n :: 0 <= n - start[id].calls < |RunsOf(runs, id)| ==> f(id, n)
    {
      assert LeftOf(start, id, now, f) == if id in jobs then Some(jobs[id]) else None;
      StaysIfAllAgree(id, start[id], now, f);
    }
  }

  /** A job stays exactly if each call it gets answers true; if not, it is the last one that does not. */
  lemma {:induction false} StaysIfAllAgree(id: JobId, j: Job, now: real, f: Callback)
    ensures Left(id, j, now, f).Some? <==> forall n :: 0 <= n - j.calls < |Runs(id, j, now, f)| ==> f(id, n)
    ensures forall n :: 0 <= n - j.calls < |Runs(id, j, now, f)| - 1 ==> f(id, n)
    decreases Owed(j, now)
  {
    if j.time <= now {
      RunPaysOne(j, now);
      if f(id, j.calls) {
        StaysIfAllAgree(id, UpdateTime(j, now), now, f);
      }
    }
  }

  class JobDispatcher {
    var jobs: Queue

    constructor ()
      ensures jobs == map[]
    {
      jobs := map[];
    }

    method AddTimedJob(id: JobId, j: Job)
      requires id !in jobs
      modifies this
      ensures jobs == old(jobs)[id := j]
    {
      jobs := jobs[id := j];
    }

    /** The top of the queue: a job with the smallest time; which one of several is not specified. */
    method Top() returns (id: JobId)
      requires jobs != map[]
      ensures id in jobs && forall k :: k in jobs ==> jobs[id].time <= jobs[k].time
    {
      id :| id in jobs;
      var rest := jobs.Keys - {id};
      while rest != {}
        invariant id in jobs && rest <= jobs.Keys
        invariant forall k :: k in jobs && k !in rest ==> jobs[id].time <= jobs[k].time
        decreases rest
      {
        var k :| k in rest;
        if jobs[k].time < jobs[id].time {
          id := k;
        }
        rest := rest - {k};
      }
    }

    /** Takes the top job off the queue and puts it back, updated, if its callback wants to go on. */
    method RunTop(id: JobId, now: real, f: Callback)
      requires id in jobs
      modifies this
      ensures jobs == AfterRun(old(jobs), id, now, f)
    {
      var j := jobs[id];
      jobs := jobs - {id};
      if !f(id, j.calls) {
        return;
      }
      j := UpdateTime(j, now);
      AddTimedJob(id, j);
    }

    /** Runs what is due. It terminates, and jobs run in order of their due times, each as if it were alone. */
    method Update(now: real, f: Callback) returns (runs: seq<Run>)
      modifies this
      ensures InDueOrder(runs)
      ensures AsIfAlone(old(jobs), runs, jobs, now, f)
      ensures jobs.Keys <= old(jobs).Keys
      ensures forall id :: id in jobs ==> Rescheduled(old(jobs)[id], jobs[id], |RunsOf(runs, id)|, now)
      ensures forall id :: id in old(jobs) ==>
                (id in jobs <==> forall n :: 0 <= n - old(jobs)[id].calls < |RunsOf(runs, id)| ==> f(id, n))
    {
      runs := [];
      while jobs != map[]
        invariant InDueOrder(runs) && QueueIsLater(runs, jobs)
        invariant OnTrack(old(jobs), runs, jobs, now, f)
        decreases Total(Work(jobs, now))
      {
        var id := Top();
        if jobs[id].time > now {
          break;
        }
        StepKeepsTrack(old(jobs), runs, jobs, now, f, id);
        StepKeepsOrder(runs, jobs, now, f, id);
        StepShrinks(jobs, now, f, id);
        runs := runs + [Run(id, jobs[id].time)];
        RunTop(id, now, f);
      }
      NothingDueIsDone(old(jobs), runs, jobs, now, f);
      AloneIsRescheduled(old(jobs), runs, jobs, now, f);
    }
  }
}
