/**
 * The state the publishing operations act on, and the scheduler-level steps
 * they are built from: persisting a job record (updateJob), pausing and
 * resuming a Quartz trigger (pauseJob, resumeJob) and the two loops over a job
 * list (stopTimeTask, startTimeTask). Everything here is a pure function of
 * the state; the class in module Service performs these steps in place.
 */
module Schedule {
  import opened Base
  import opened Domain

  /** A scheduler job key: job id and group. */
  type Key = (JobId, string)

  /** The group resumeJob always uses. */
  const DefaultGroup: string := "DEFAULT"

  /** The state of a scheduled trigger. */
  datatype Trigger = Running | Suspended

  /** An asynchronous task handed to the dispatcher; its effects live outside the service. */
  datatype Task =
    | ExecuteOne(target: string, jobName: string, jobId: JobId)
    | RemoveRegistry(keys: seq<string>)
    | RecordZabbix(jobIds: seq<JobId>, sourceId: SourceId)
    | RecordNagios(jobIds: seq<JobId>, sourceId: SourceId)
    | ExecuteNagios(jobIds: seq<JobId>)
    | RemoveJobId(jobId: JobId)

  /**
   * The service's mutable state: the stored job records by id, the published
   * job ids of each data source, the scheduler's triggers, and the tasks
   * dispatched so far.
   */
  datatype World = World(
    jobs: map<JobId, Job>,
    bindings: map<SourceId, seq<JobId>>,
    triggers: map<Key, Trigger>,
    log: seq<Task>)

  function KeyOf(job: Job): Key {
    (job.jobId, job.jobGroup)
  }

  /** updateJob: the stored record with the job's id, if any, is overwritten with `job`. */
  function Persist(w: World, job: Job): (r: World)
    ensures r.bindings == w.bindings && r.triggers == w.triggers && r.log == w.log
    ensures r.jobs.Keys == w.jobs.Keys
    ensures job.jobId in w.jobs ==> r.jobs[job.jobId] == job
    ensures forall id :: id in w.jobs && id != job.jobId ==> r.jobs[id] == w.jobs[id]
  {
    if job.jobId in w.jobs then w.(jobs := w.jobs[job.jobId := job]) else w
  }

  /**
   * createMonitorJob (whose body is not part of this model): the job is
   * scheduled under (id, its group), suspended when its status is PAUSE.
   */
  function Register(w: World, job: Job): (r: World)
    ensures r.jobs == w.jobs && r.bindings == w.bindings && r.log == w.log
    ensures r.triggers == w.triggers[KeyOf(job) := if job.status == Paused then Suspended else Running]
  {
    w.(triggers := w.triggers[KeyOf(job) := if job.status == Paused then Suspended else Running])
  }

  /**
   * updateSchedulerJob: removes the scheduler job (id, group) if it exists and
   * the calls do not throw, then registers the job under (id, its own group).
   */
  function UpdateScheduler(failing: set<Key>, w: World, job: Job, group: string): (r: World)
    ensures r.jobs == w.jobs && r.bindings == w.bindings && r.log == w.log
  {
    var key := (job.jobId, group);
    var w1 := if key in w.triggers && key !in failing then w.(triggers := w.triggers - {key}) else w;
    Register(w1, job)
  }

  /**
   * Re-registering a job under its own group leaves exactly one trigger for
   * its key, suspended iff the job is paused, and no other trigger changes.
   */
  lemma UpdateSchedulerReplaces(failing: set<Key>, w: World, job: Job)
    ensures KeyOf(job) in UpdateScheduler(failing, w, job, job.jobGroup).triggers
    ensures UpdateScheduler(failing, w, job, job.jobGroup).triggers[KeyOf(job)] == Suspended <==> job.status == Paused
    ensures forall k :: k != KeyOf(job) ==>
              (k in UpdateScheduler(failing, w, job, job.jobGroup).triggers <==> k in w.triggers)
    ensures forall k :: k != KeyOf(job) && k in w.triggers ==> UpdateScheduler(failing, w, job, job.jobGroup).triggers[k] == w.triggers[k]
  {
  }

  /**
   * Under another group, the old key (id, group) is gone unless its removal
   * threw, and the job's own key is registered as well.
   */
  lemma UpdateSchedulerMoves(failing: set<Key>, w: World, job: Job, group: string)
    requires group != job.jobGroup
    ensures (job.jobId, group) in UpdateScheduler(failing, w, job, group).triggers <==>
              (job.jobId, group) in w.triggers && (job.jobId, group) in failing
    ensures KeyOf(job) in UpdateScheduler(failing, w, job, group).triggers
  {
  }

  /** Quartz pauseJob on a key: an existing trigger is suspended, an absent key is ignored. */
  function PauseKey(w: World, key: Key): World {
    if key in w.triggers then w.(triggers := w.triggers[key := Suspended]) else w
  }

  /** Quartz resumeJob on a key: an existing trigger runs again, an absent key is ignored. */
  function ResumeKey(w: World, key: Key): World {
    if key in w.triggers then w.(triggers := w.triggers[key := Running]) else w
  }

  /**
   * pauseJob: stores the job as paused, then pauses its key (id, job group).
   * When the scheduler call fails (`key in failing`) the stored record has
   * already changed and the trigger has not.
   */
  function PauseOne(failing: set<Key>, w: World, job: Job): (r: World)
    ensures r.bindings == w.bindings && r.log == w.log
    ensures r.jobs.Keys == w.jobs.Keys && r.triggers.Keys == w.triggers.Keys
    ensures job.jobId in w.jobs ==> r.jobs[job.jobId].status == Paused
  {
    var w1 := Persist(w, job.(status := Paused));
    if KeyOf(job) in failing then w1 else PauseKey(w1, KeyOf(job))
  }

  /** resumeJob: stores the job as given, then resumes the key (id, "DEFAULT") whatever the job's group. */
  function ResumeOne(failing: set<Key>, w: World, job: Job): (r: World)
    ensures r.bindings == w.bindings && r.log == w.log
    ensures r.jobs.Keys == w.jobs.Keys && r.triggers.Keys == w.triggers.Keys
    ensures forall k :: k in w.triggers && k != (job.jobId, DefaultGroup) ==> r.triggers[k] == w.triggers[k]
  {
    var w1 := Persist(w, job);
    var key := (job.jobId, DefaultGroup);
    if key in failing then w1 else ResumeKey(w1, key)
  }

  /**
   * stopTimeTask: pauses the jobs in order; the first scheduler exception ends
   * the loop, because the catch is outside it.
   */
  function StopAll(failing: set<Key>, w: World, list: seq<Job>): (r: World)
    ensures r.bindings == w.bindings && r.log == w.log
    ensures r.jobs.Keys == w.jobs.Keys && r.triggers.Keys == w.triggers.Keys
    decreases |list|
  {
    if list == [] then w
    else
      var w1 := PauseOne(failing, w, list[0]);
      if KeyOf(list[0]) in failing then w1 else StopAll(failing, w1, list[1..])
  }

  /** One step of startTimeTask: dispatch an executeOne task, store the job as running, resume it. */
  function StartOne(failing: set<Key>, w: World, job: Job): World {
    var w1 := w.(log := w.log + [ExecuteOne(job.target, job.jobName, job.jobId)]);
    ResumeOne(failing, w1, job.(status := Normal))
  }

  /** startTimeTask: starts the jobs in order; the first scheduler exception ends the loop. */
  function StartAll(failing: set<Key>, w: World, list: seq<Job>): (r: World)
    ensures r.bindings == w.bindings
    ensures r.jobs.Keys == w.jobs.Keys && r.triggers.Keys == w.triggers.Keys
    ensures |w.log| <= |r.log| <= |w.log| + |list|
    decreases |list|
  {
    if list == [] then w
    else
      var w1 := StartOne(failing, w, list[0]);
      if (list[0].jobId, DefaultGroup) in failing then w1 else StartAll(failing, w1, list[1..])
  }

  /** The executeOne tasks of a list of jobs, in order. */
  function ExecuteTasks(list: seq<Job>): (r: seq<Task>)
    ensures |r| == |list|
    ensures forall i :: 0 <= i < |list| ==> r[i] == ExecuteOne(list[i].target, list[i].jobName, list[i].jobId)
  {
    if list == [] then [] else [ExecuteOne(list[0].target, list[0].jobName, list[0].jobId)] + ExecuteTasks(list[1..])
  }

  // ---------------------------------------------------------------------------
  // What stopTimeTask does
  // ---------------------------------------------------------------------------

  /** No key of the list makes the scheduler fail. */
  predicate NoneFail(failing: set<Key>, list: seq<Job>) {
    forall i :: 0 <= i < |list| ==> KeyOf(list[i]) !in failing
  }

  /**
   * Stopping touches nothing outside the list: records of other ids, triggers
   * of other keys, the bindings and the task log stay as they were, and no
   * record or trigger appears or disappears.
   */
  lemma {:induction false} StopAllFrame(failing: set<Key>, w: World, list: seq<Job>)
    ensures StopAll(failing, w, list).bindings == w.bindings
    ensures StopAll(failing, w, list).log == w.log
    ensures StopAll(failing, w, list).jobs.Keys == w.jobs.Keys
    ensures StopAll(failing, w, list).triggers.Keys == w.triggers.Keys
    ensures forall id :: id in w.jobs && id !in Ids(list) ==> StopAll(failing, w, list).jobs[id] == w.jobs[id]
    ensures forall k :: k in w.triggers && (forall i :: 0 <= i < |list| ==> k != KeyOf(list[i])) ==>
              StopAll(failing, w, list).triggers[k] == w.triggers[k]
    decreases |list|
  {
    if list != [] && KeyOf(list[0]) !in failing {
      var w1 := PauseOne(failing, w, list[0]);
      StopAllFrame(failing, w1, list[1..]);
      assert forall i :: 0 <= i < |list| - 1 ==> list[1..][i] == list[i + 1];
      assert forall id :: id in Ids(list[1..]) ==> id in Ids(list);
    }
  }

  /**
   * When no scheduler call fails, every stored job of the list ends paused and
   * every existing trigger of the list is suspended.
   */
  lemma StopAllPauses(failing: set<Key>, w: World, list: seq<Job>)
    requires NoneFail(failing, list)
    ensures forall i :: 0 <= i < |list| && list[i].jobId in w.jobs ==>
              list[i].jobId in StopAll(failing, w, list).jobs && StopAll(failing, w, list).jobs[list[i].jobId].status == Paused
    ensures forall i :: 0 <= i < |list| && KeyOf(list[i]) in w.triggers ==>
              KeyOf(list[i]) in StopAll(failing, w, list).triggers && StopAll(failing, w, list).triggers[KeyOf(list[i])] == Suspended
  {
    StopAllPausesJobs(failing, w, list);
    StopAllSuspends(failing, w, list);
  }

  lemma {:induction false} StopAllPausesJobs(failing: set<Key>, w: World, list: seq<Job>)
    requires NoneFail(failing, list)
    ensures forall i :: 0 <= i < |list| && list[i].jobId in w.jobs ==>
              list[i].jobId in StopAll(failing, w, list).jobs && StopAll(failing, w, list).jobs[list[i].jobId].status == Paused
    decreases |list|
  {
    if list != [] {
      var w1 := PauseOne(failing, w, list[0]);
      var rest := list[1..];
      assert NoneFail(failing, rest) by {
        assert forall i :: 0 <= i < |rest| ==> rest[i] == list[i + 1];
      }
      assert StopAll(failing, w, list) == StopAll(failing, w1, rest);
      StopAllPausesJobs(failing, w1, rest);
      StopAllFrame(failing, w1, rest);
      forall i | 0 <= i < |list| && list[i].jobId in w.jobs
        ensures list[i].jobId in StopAll(failing, w, list).jobs && StopAll(failing, w, list).jobs[list[i].jobId].status == Paused
      {
        if i > 0 {
          assert rest[i - 1] == list[i];
        } else if list[0].jobId in Ids(rest) {
          var k :| 0 <= k < |rest| && rest[k].jobId == list[0].jobId;
        }
      }
    }
  }

  lemma {:induction false} StopAllSuspends(failing: set<Key>, w: World, list: seq<Job>)
    requires NoneFail(failing, list)
    ensures forall i :: 0 <= i < |list| && KeyOf(list[i]) in w.triggers ==>
              KeyOf(list[i]) in StopAll(failing, w, list).triggers && StopAll(failing, w, list).triggers[KeyOf(list[i])] == Suspended
    decreases |list|
  {
    if list != [] {
      var w1 := PauseOne(failing, w, list[0]);
      var rest := list[1..];
      assert NoneFail(failing, rest) by {
        assert forall i :: 0 <= i < |rest| ==> rest[i] == list[i + 1];
      }
      assert StopAll(failing, w, list) == StopAll(failing, w1, rest);
      StopAllSuspends(failing, w1, rest);
      StopAllFrame(failing, w1, rest);
      forall i | 0 <= i < |list| && KeyOf(list[i]) in w.triggers
        ensures KeyOf(list[i]) in StopAll(failing, w, list).triggers && StopAll(failing, w, list).triggers[KeyOf(list[i])] == Suspended
      {
        if i > 0 {
          assert rest[i - 1] == list[i];
        } else if exists k :: 0 <= k < |rest| && KeyOf(rest[k]) == KeyOf(list[0]) {
          var k :| 0 <= k < |rest| && KeyOf(rest[k]) == KeyOf(list[0]);
        }
      }
    }
  }

  /** The loop ends at the first failing key: the jobs after it are not touched. */
  lemma {:induction false} StopAllHalts(failing: set<Key>, w: World, list: seq<Job>, k: nat)
    requires k < |list| && KeyOf(list[k]) in failing
    requires NoneFail(failing, list[..k])
    ensures StopAll(failing, w, list) == StopAll(failing, w, list[..k + 1])
    decreases k
  {
    var w1 := PauseOne(failing, w, list[0]);
    if k > 0 {
      assert KeyOf(list[..k][0]) !in failing;
      assert list[1..][..k - 1] == list[..k][1..];
      assert NoneFail(failing, list[1..][..k - 1]);
      StopAllHalts(failing, w1, list[1..], k - 1);
      assert list[..k + 1][1..] == list[1..][..k];
    }
  }

  // ---------------------------------------------------------------------------
  // What startTimeTask does
  // ---------------------------------------------------------------------------

  predicate NoneFailResume(failing: set<Key>, list: seq<Job>) {
    forall i :: 0 <= i < |list| ==> (list[i].jobId, DefaultGroup) !in failing
  }

  /** One start touches only its own record and the trigger (id, "DEFAULT"), and logs one task. */
  lemma StartOneFrame(failing: set<Key>, w: World, job: Job)
    ensures StartOne(failing, w, job).log == w.log + [ExecuteOne(job.target, job.jobName, job.jobId)]
    ensures StartOne(failing, w, job).bindings == w.bindings
    ensures StartOne(failing, w, job).jobs.Keys == w.jobs.Keys
    ensures StartOne(failing, w, job).triggers.Keys == w.triggers.Keys
    ensures forall id :: id in w.jobs && id != job.jobId ==> StartOne(failing, w, job).jobs[id] == w.jobs[id]
    ensures forall k :: k in w.triggers && k.1 != DefaultGroup ==> StartOne(failing, w, job).triggers[k] == w.triggers[k]
  {
  }

  lemma ConcatAssoc<T>(a: seq<T>, b: seq<T>, c: seq<T>)
    ensures a + b + c == a + (b + c)
  {
  }

  /** Starting appends one executeOne task per job, in order, when no resume fails. */
  lemma {:induction false} StartAllLog(failing: set<Key>, w: World, list: seq<Job>)
    requires NoneFailResume(failing, list)
    ensures StartAll(failing, w, list).log == w.log + ExecuteTasks(list)
    decreases |list|
  {
    if list != [] {
      var rest := list[1..];
      assert NoneFailResume(failing, rest) by {
        assert forall i :: 0 <= i < |rest| ==> rest[i] == list[i + 1];
      }
      var e := ExecuteOne(list[0].target, list[0].jobName, list[0].jobId);
      var w1 := StartOne(failing, w, list[0]);
      assert StartAll(failing, w, list).log == StartAll(failing, w1, rest).log by {
        assert (list[0].jobId, DefaultGroup) !in failing;
      }
      assert w1.log == w.log + [e];
      StartAllLog(failing, w1, rest);
      assert ExecuteTasks(list) == [e] + ExecuteTasks(rest);
      ConcatAssoc(w.log, [e], ExecuteTasks(rest));
    }
  }

  /** The loop ends at the first failing resume: the jobs after it are not touched. */
  lemma {:induction false} StartAllHalts(failing: set<Key>, w: World, list: seq<Job>, k: nat)
    requires k < |list| && (list[k].jobId, DefaultGroup) in failing
    requires NoneFailResume(failing, list[..k])
    ensures StartAll(failing, w, list) == StartAll(failing, w, list[..k + 1])
    decreases k
  {
    var w1 := StartOne(failing, w, list[0]);
    if k > 0 {
      assert (list[..k][0].jobId, DefaultGroup) !in failing;
      assert list[1..][..k - 1] == list[..k][1..];
      assert NoneFailResume(failing, list[1..][..k - 1]);
      StartAllHalts(failing, w1, list[1..], k - 1);
      assert list[..k + 1][1..] == list[1..][..k];
    }
  }

  /**
   * Starting touches only the records of the list and triggers in group
   * "DEFAULT": a job's own group is never resumed.
   */
  lemma {:induction false} StartAllFrame(failing: set<Key>, w: World, list: seq<Job>)
    ensures StartAll(failing, w, list).bindings == w.bindings
    ensures StartAll(failing, w, list).jobs.Keys == w.jobs.Keys
    ensures StartAll(failing, w, list).triggers.Keys == w.triggers.Keys
    ensures forall id :: id in w.jobs && id !in Ids(list) ==> StartAll(failing, w, list).jobs[id] == w.jobs[id]
    ensures forall k :: k in w.triggers && k.1 != DefaultGroup ==> StartAll(failing, w, list).triggers[k] == w.triggers[k]
    decreases |list|
  {
    if list != [] {
      StartOneFrame(failing, w, list[0]);
      if (list[0].jobId, DefaultGroup) !in failing {
        var rest := list[1..];
        StartAllFrame(failing, StartOne(failing, w, list[0]), rest);
        assert forall id :: id in Ids(rest) ==> id in Ids(list) by {
          assert forall i :: 0 <= i < |rest| ==> rest[i] == list[i + 1];
        }
      }
    }
  }

  /** When no resume fails, every stored job of the list ends running, and so does every existing (id, "DEFAULT") trigger. */
  lemma {:induction false} StartAllStarts(failing: set<Key>, w: World, list: seq<Job>)
    requires NoneFailResume(failing, list)
    ensures forall i :: 0 <= i < |list| && list[i].jobId in w.jobs ==>
              list[i].jobId in StartAll(failing, w, list).jobs && StartAll(failing, w, list).jobs[list[i].jobId].status == Normal
    ensures forall i :: 0 <= i < |list| && (list[i].jobId, DefaultGroup) in w.triggers ==>
              (list[i].jobId, DefaultGroup) in StartAll(failing, w, list).triggers
              && StartAll(failing, w, list).triggers[(list[i].jobId, DefaultGroup)] == Running
    decreases |list|
  {
    if list != [] {
      var w1 := StartOne(failing, w, list[0]);
      var rest := list[1..];
      assert NoneFailResume(failing, rest) by {
        assert forall i :: 0 <= i < |rest| ==> rest[i] == list[i + 1];
      }
      StartAllStarts(failing, w1, rest);
      forall i | 0 <= i < |list| && list[i].jobId in w.jobs
        ensures list[i].jobId in StartAll(failing, w, list).jobs && StartAll(failing, w, list).jobs[list[i].jobId].status == Normal
      {
        if i > 0 {
          assert rest[i - 1] == list[i];
        } else {
          StartAllKeeps(failing, w1, rest, list[0].jobId);
        }
      }
      forall i | 0 <= i < |list| && (list[i].jobId, DefaultGroup) in w.triggers
        ensures (list[i].jobId, DefaultGroup) in StartAll(failing, w, list).triggers
                && StartAll(failing, w, list).triggers[(list[i].jobId, DefaultGroup)] == Running
      {
        if i > 0 {
          assert rest[i - 1] == list[i];
        } else {
          StartAllKeepsRunning(failing, w1, rest, (list[0].jobId, DefaultGroup));
        }
      }
    }
  }

  /** A record stored as running stays running while more jobs are started. */
  lemma {:induction false} StartAllKeeps(failing: set<Key>, w: World, list: seq<Job>, id: JobId)
    requires id in w.jobs && w.jobs[id].status == Normal
    ensures id in StartAll(failing, w, list).jobs && StartAll(failing, w, list).jobs[id].status == Normal
    decreases |list|
  {
    if list != [] {
      StartAllKeeps(failing, StartOne(failing, w, list[0]), list[1..], id);
    }
  }

  /** A running trigger stays running while more jobs are started. */
  lemma {:induction false} StartAllKeepsRunning(failing: set<Key>, w: World, list: seq<Job>, k: Key)
    requires k in w.triggers && w.triggers[k] == Running
    ensures k in StartAll(failing, w, list).triggers && StartAll(failing, w, list).triggers[k] == Running
    decreases |list|
  {
    if list != [] {
      StartAllKeepsRunning(failing, StartOne(failing, w, list[0]), list[1..], k);
    }
  }

  /**
   * pauseJob and resumeJob are not inverse for a job outside group "DEFAULT":
   * the paused trigger (id, group) stays suspended after the resume.
   */
  lemma ResumeMissesOwnGroup(failing: set<Key>, w: World, job: Job)
    requires job.jobGroup != DefaultGroup
    requires KeyOf(job) in w.triggers && KeyOf(job) !in failing
    ensures ResumeOne(failing, PauseOne(failing, w, job), job).triggers[KeyOf(job)] == Suspended
  {
  }

  // ---------------------------------------------------------------------------
  // The job table stays keyed by id
  // ---------------------------------------------------------------------------

  lemma {:induction false} StopAllKeyed(failing: set<Key>, w: World, list: seq<Job>)
    requires WellKeyed(w.jobs)
    ensures WellKeyed(StopAll(failing, w, list).jobs)
    decreases |list|
  {
    if list != [] {
      StopAllKeyed(failing, PauseOne(failing, w, list[0]), list[1..]);
    }
  }

  lemma {:induction false} StartAllKeyed(failing: set<Key>, w: World, list: seq<Job>)
    requires WellKeyed(w.jobs)
    ensures WellKeyed(StartAll(failing, w, list).jobs)
    decreases |list|
  {
    if list != [] {
      StartAllKeyed(failing, StartOne(failing, w, list[0]), list[1..]);
    }
  }
}
