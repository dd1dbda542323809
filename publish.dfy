/**
 * Publishing jobs to data sources and withdrawing them (singlePublish,
 * batchPublish, singlePublishPause, batchPublishPause) and deleting jobs
 * (deleteTask, deleteTaskByIds).
 * Each operation is a pure function of the service state; class
 * Service.JobService performs it step by step on its fields.
 */
module Publish {
  import opened Base
  import opened Domain
  import opened Selection
  import opened Schedule
  import Columns

  /**
   * The reply of an operation: success, error, the "target" reply insertTask
   * gives for a probe without metrics, or an exception that leaves the call.
   */
  datatype Reply = Success(message: string) | Failure(message: string) | Target(message: string) | Thrown

  /**
   * What the service reads but never changes: the configuration table, the
   * Zabbix and Nagios configurations, the scheduler keys whose calls throw,
   * and the query getMoreThanOneSource (the jobs of a list that other data
   * sources still use), as a function of the job table, the bindings and the list.
   */
  datatype Env = Env(
    configs: seq<Config>,
    zabbixConfig: Option<Config>,
    nagiosConfig: Option<Config>,
    failing: set<Key>,
    shared: (map<JobId, Job>, map<SourceId, seq<JobId>>, seq<Job>) -> seq<Job>)

  /** getJobIdBySourceId: the ids published to a data source (none when it has no binding). */
  function BoundIds(w: World, sid: SourceId): seq<JobId> {
    if sid in w.bindings then w.bindings[sid] else []
  }

  // ---------------------------------------------------------------------------
  // singlePublish and batchPublish
  // ---------------------------------------------------------------------------

  /** The jobs published to `sid` so far that the new request no longer lists. */
  function Withdrawn(w: World, sid: SourceId, jobIds: seq<JobId>): seq<Job>
    requires WellKeyed(w.jobs)
  {
    RemoveAllById(SelectBatch(w.jobs, BoundIds(w, sid)), Ids(SelectBatch(w.jobs, jobIds)))
  }

  /** The jobs started: the caller's list plus the shared jobs, without the list's Nagios jobs. */
  function Started(items: seq<Job>, other: seq<Job>): seq<Job> {
    RemoveAllById(items + other, Ids(OfPlatform(items, Nagios)))
  }

  /** The Zabbix and Nagios tasks of a publication, taken from the caller's list. */
  function PlatformTasks(items: seq<Job>, sid: SourceId): seq<Task> {
    var zabbix := OfPlatform(items, Zabbix);
    var nagios := OfPlatform(items, Nagios);
    (if zabbix != [] then [RecordZabbix(Ids(zabbix), sid)] else [])
    + (if nagios != [] then [RecordNagios(Ids(nagios), sid), ExecuteNagios(Ids(nagios))] else [])
  }

  /**
   * The first half of singlePublish: stop the withdrawn jobs, bind exactly
   * the requested ids and dispatch the removal of the withdrawn registry keys.
   */
  function Withdraw(env: Env, w: World, sid: SourceId, jobIds: seq<JobId>, conn: string): (r: World)
    requires WellKeyed(w.jobs)
    ensures WellKeyed(r.jobs)
  {
    var stopped := Withdrawn(w, sid, jobIds);
    var w1 := StopAll(env.failing, w, stopped);
    StopAllKeyed(env.failing, w, stopped);
    w1.(bindings := w1.bindings[sid := jobIds], log := w1.log + [RemoveRegistry(Columns.RegistryKeys(stopped, conn))])
  }

  /**
   * singlePublish for a configured data source with connection name `conn`:
   * withdraw, start the caller's list together with the shared jobs (without
   * the list's Nagios jobs), then dispatch the Zabbix and Nagios tasks.
   * Returns the new state and the caller's list as the call leaves it.
   */
  function PublishStep(env: Env, w: World, items: seq<Job>, sid: SourceId, jobIds: seq<JobId>, conn: string): (r: (World, seq<Job>))
    requires WellKeyed(w.jobs)
    ensures WellKeyed(r.0.jobs)
  {
    var w1 := Withdraw(env, w, sid, jobIds, conn);
    var started := Started(items, env.shared(w1.jobs, w1.bindings, Withdrawn(w, sid, jobIds)));
    var w2 := StartAll(env.failing, w1, started);
    StartAllKeyed(env.failing, w1, started);
    (w2.(log := w2.log + PlatformTasks(items, sid)), started)
  }

  /** singlePublish: an unknown data source is an error that changes nothing. */
  function PublishOnce(env: Env, w: World, items: seq<Job>, sid: SourceId, jobIds: seq<JobId>): (r: (World, seq<Job>, Reply))
    requires WellKeyed(w.jobs)
    ensures WellKeyed(r.0.jobs)
    ensures ConfigById(env.configs, sid).None? ==> r == (w, items, Failure("没有该主机信息"))
    ensures ConfigById(env.configs, sid).Some? ==>
              r.2 == Success("发布成功") && r.0.bindings == w.bindings[sid := jobIds] && r.0.jobs.Keys == w.jobs.Keys
  {
    match ConfigById(env.configs, sid)
    case None => (w, items, Failure("没有该主机信息"))
    case Some(cfg) =>
      var s := PublishStep(env, w, items, sid, jobIds, cfg.connectName);
      PublishRebinds(env, w, items, sid, jobIds, cfg.connectName);
      (s.0, s.1, Success("发布成功"))
  }

  /** The loop of batchPublish: every data source in turn, sharing one job list, replies ignored. */
  function PublishEach(env: Env, w: World, items: seq<Job>, sids: seq<SourceId>, jobIds: seq<JobId>): (r: (World, seq<Job>))
    requires WellKeyed(w.jobs)
    ensures WellKeyed(r.0.jobs) && r.0.jobs.Keys == w.jobs.Keys
    decreases |sids|
  {
    if sids == [] then (w, items)
    else
      var s := PublishOnce(env, w, items, sids[0], jobIds);
      PublishEach(env, s.0, s.1, sids[1..], jobIds)
  }

  /**
   * batchPublish: both lists must be non-empty, and a Zabbix or Nagios job
   * needs that platform configured; then every data source is published with
   * the same requested ids and always reports success.
   */
  function BatchPublishSpec(env: Env, w: World, sids: seq<SourceId>, jobIds: seq<JobId>): (r: (World, Reply))
    requires WellKeyed(w.jobs)
    ensures WellKeyed(r.0.jobs)
    ensures r.1 != Success("批量发布成功") ==> r.0 == w
    ensures sids == [] || jobIds == [] ==> r.1.Failure?
  {
    if sids == [] || jobIds == [] then (w, Failure("发布信息不能为空"))
    else
      var items := SelectBatch(w.jobs, jobIds);
      if env.zabbixConfig.None? && OfPlatform(items, Zabbix) != [] then (w, Failure("请先配置Zabbix数据源信息"))
      else if env.nagiosConfig.None? && OfPlatform(items, Nagios) != [] then (w, Failure("请先配置Nagios配置信息"))
      else (PublishEach(env, w, items, sids, jobIds).0, Success("批量发布成功"))
  }

  // ---------------------------------------------------------------------------
  // singlePublishPause and batchPublishPause
  // ---------------------------------------------------------------------------

  /** The stored binding of `sid` loses the given ids, when it exists and is not empty. */
  function Unbind(bindings: map<SourceId, seq<JobId>>, sid: SourceId, jobIds: seq<JobId>): map<SourceId, seq<JobId>> {
    if sid in bindings && bindings[sid] != [] then bindings[sid := RemoveIds(bindings[sid], jobIds)] else bindings
  }

  /**
   * singlePublishPause for a configured data source with connection name
   * `conn`: stop the requested jobs, dispatch the removal of their registry
   * keys, unbind them, and start again the jobs other data sources still use.
   */
  function Unpublish(env: Env, w: World, sid: SourceId, jobIds: seq<JobId>, conn: string): (r: World)
    requires WellKeyed(w.jobs)
    ensures WellKeyed(r.jobs)
  {
    var list := SelectBatch(w.jobs, jobIds);
    var w1 := StopAll(env.failing, w, list);
    StopAllKeyed(env.failing, w, list);
    w1.(log := w1.log + [RemoveRegistry(Columns.RegistryKeys(list, conn))], bindings := Unbind(w1.bindings, sid, jobIds))
  }

  /** The withdrawn jobs that other data sources still use, as getMoreThanOneSource reports them. */
  function StillShared(env: Env, w: World, sid: SourceId, jobIds: seq<JobId>, conn: string): seq<Job>
    requires WellKeyed(w.jobs)
  {
    var w1 := Unpublish(env, w, sid, jobIds, conn);
    env.shared(w1.jobs, w1.bindings, SelectBatch(w.jobs, jobIds))
  }

  function PauseStep(env: Env, w: World, sid: SourceId, jobIds: seq<JobId>, conn: string): (r: World)
    requires WellKeyed(w.jobs)
    ensures WellKeyed(r.jobs)
  {
    var w1 := Unpublish(env, w, sid, jobIds, conn);
    StartAllKeyed(env.failing, w1, StillShared(env, w, sid, jobIds, conn));
    StartAll(env.failing, w1, StillShared(env, w, sid, jobIds, conn))
  }

  function PausePublishOnce(env: Env, w: World, sid: SourceId, jobIds: seq<JobId>): (r: (World, Reply))
    requires WellKeyed(w.jobs)
    ensures WellKeyed(r.0.jobs) && r.0.jobs.Keys == w.jobs.Keys
    ensures r.1.Success? <==> ConfigById(env.configs, sid).Some?
    ensures r.1.Failure? ==> r.0 == w
  {
    match ConfigById(env.configs, sid)
    case None => (w, Failure("没有该主机信息"))
    case Some(cfg) => (PauseStep(env, w, sid, jobIds, cfg.connectName), Success("停止发布成功"))
  }

  function PauseEach(env: Env, w: World, sids: seq<SourceId>, jobIds: seq<JobId>): (r: World)
    requires WellKeyed(w.jobs)
    ensures WellKeyed(r.jobs) && r.jobs.Keys == w.jobs.Keys
    decreases |sids|
  {
    if sids == [] then w else PauseEach(env, PausePublishOnce(env, w, sids[0], jobIds).0, sids[1..], jobIds)
  }

  /** batchPublishPause: both lists must be non-empty; every data source is withdrawn in turn. */
  function BatchPauseSpec(env: Env, w: World, sids: seq<SourceId>, jobIds: seq<JobId>): (r: (World, Reply))
    requires WellKeyed(w.jobs)
    ensures WellKeyed(r.0.jobs)
    ensures r.1.Success? <==> sids != [] && jobIds != []
    ensures r.1.Failure? ==> r.0 == w
  {
    if sids == [] || jobIds == [] then (w, Failure("发布信息不能为空"))
    else (PauseEach(env, w, sids, jobIds), Success("批量发布停止成功"))
  }

  // ---------------------------------------------------------------------------
  // deleteTask, deleteTaskByIds, updateSchedulerJob
  // ---------------------------------------------------------------------------

  /**
   * deleteTask: deletes the stored record; when there was one, also the
   * scheduler job (id, group), unless that call throws (then it is kept).
   */
  function DeleteOne(env: Env, w: World, task: Job): (r: (World, bool))
    ensures r.1 <==> task.jobId in w.jobs
    ensures r.0.jobs == w.jobs - {task.jobId}
    ensures r.0.bindings == w.bindings && r.0.log == w.log && r.0.triggers.Keys <= w.triggers.Keys
  {
    if task.jobId in w.jobs then
      var triggers := if KeyOf(task) in env.failing then w.triggers else w.triggers - {KeyOf(task)};
      (w.(jobs := w.jobs - {task.jobId}, triggers := triggers), true)
    else (w, false)
  }

  /** dealExec: one registry removal per configuration that has a connection name. */
  function RegistryTasks(job: Job, configs: seq<Config>): seq<Task> {
    if configs == [] then []
    else
      (if configs[0].connectName != "" then [RemoveRegistry(Columns.RegistryKeys([job], configs[0].connectName))] else [])
      + RegistryTasks(job, configs[1..])
  }

  /**
   * deleteTaskByIds: for each id in turn, delete the job, dispatch removeJobId
   * and, unless it is a Nagios job, the registry removals for the data sources
   * it is bound to. An id without a stored job ends the loop with a null
   * dereference (the second result is false). The bindings are left as they were.
   */
  function DeleteEach(env: Env, w: World, ids: seq<JobId>): (r: (World, bool))
    ensures r.0.bindings == w.bindings
    ensures r.0.jobs.Keys <= w.jobs.Keys && r.0.triggers.Keys <= w.triggers.Keys
    decreases |ids|
  {
    if ids == [] then (w, true)
    else if ids[0] !in w.jobs then (w, false)
    else
      var job := w.jobs[ids[0]];
      var w1 := DeleteOne(env, w, job).0;
      var w2 := w1.(log := w1.log + [RemoveJobId(ids[0])]);
      var w3 := if job.platform != Nagios
                then w2.(log := w2.log + RegistryTasks(job, ConfigsOf(env.configs, SourcesOf(w2.bindings, ids[0]))))
                else w2;
      DeleteEach(env, w3, ids[1..])
  }

  // ---------------------------------------------------------------------------
  // Properties of the operations
  // ---------------------------------------------------------------------------

  /** The withdrawn jobs are exactly the stored jobs bound before and not requested now. */
  lemma WithdrawnIds(w: World, sid: SourceId, jobIds: seq<JobId>, x: JobId)
    requires WellKeyed(w.jobs)
    ensures x in Ids(Withdrawn(w, sid, jobIds)) <==> x in BoundIds(w, sid) && x in w.jobs && x !in jobIds
  {
    var before := SelectBatch(w.jobs, BoundIds(w, sid));
    var requested := SelectBatch(w.jobs, jobIds);
    IdsMembership(Withdrawn(w, sid, jobIds), x);
    IdsMembership(before, x);
    if x in BoundIds(w, sid) && x in w.jobs && x !in jobIds {
      assert x in Ids(before);
      var j :| j in before && j.jobId == x;
      assert j.jobId !in Ids(requested);
      assert j in Withdrawn(w, sid, jobIds);
    }
  }

  /**
   * The started jobs are those of the list or the shared jobs whose id is not
   * a Nagios job's of the list; a Nagios job is started only if it is shared.
   */
  lemma StartedJobs(items: seq<Job>, other: seq<Job>)
    ensures forall j :: j in Started(items, other) <==> (j in items || j in other) && j.jobId !in Ids(OfPlatform(items, Nagios))
    ensures forall j :: j in Started(items, other) && j.platform == Nagios ==> j in other
  {
    forall j | j in Started(items, other) && j.platform == Nagios
      ensures j in other
    {
      IdsMembership(OfPlatform(items, Nagios), j.jobId);
    }
  }

  /**
   * With shared jobs never on Nagios, the list left after one publication
   * holds no Nagios job: in a batch, only the first configured data source
   * records and runs the Nagios jobs.
   */
  lemma NoNagiosAfterFirstSource(env: Env, w: World, items: seq<Job>, sid: SourceId, jobIds: seq<JobId>, conn: string)
    requires WellKeyed(w.jobs)
    requires forall a, b, c :: forall j :: j in env.shared(a, b, c) ==> j.platform != Nagios
    ensures OfPlatform(PublishStep(env, w, items, sid, jobIds, conn).1, Nagios) == []
    ensures forall t :: t in PlatformTasks(PublishStep(env, w, items, sid, jobIds, conn).1, sid) ==> !t.RecordNagios? && !t.ExecuteNagios?
  {
    var w1 := Withdraw(env, w, sid, jobIds, conn);
    var other := env.shared(w1.jobs, w1.bindings, Withdrawn(w, sid, jobIds));
    StartedJobs(items, other);
    var left := PublishStep(env, w, items, sid, jobIds, conn).1;
    assert left == Started(items, other);
  }

  /** Publishing replaces the data source's binding by the requested ids and leaves the others. */
  lemma PublishRebinds(env: Env, w: World, items: seq<Job>, sid: SourceId, jobIds: seq<JobId>, conn: string)
    requires WellKeyed(w.jobs)
    ensures PublishStep(env, w, items, sid, jobIds, conn).0.bindings == w.bindings[sid := jobIds]
    ensures PublishStep(env, w, items, sid, jobIds, conn).0.jobs.Keys == w.jobs.Keys
  {
    var stopped := Withdrawn(w, sid, jobIds);
    StopAllFrame(env.failing, w, stopped);
    var w1 := Withdraw(env, w, sid, jobIds, conn);
    StartAllFrame(env.failing, w1, Started(items, env.shared(w1.jobs, w1.bindings, stopped)));
  }

  /**
   * A withdrawn job that is not started again ends paused, when no scheduler
   * call fails along the way.
   */
  lemma WithdrawnStayPaused(env: Env, w: World, items: seq<Job>, sid: SourceId, jobIds: seq<JobId>, conn: string, x: JobId)
    requires WellKeyed(w.jobs)
    requires NoneFail(env.failing, Withdrawn(w, sid, jobIds))
    requires x in BoundIds(w, sid) && x in w.jobs && x !in jobIds
    requires x !in Ids(PublishStep(env, w, items, sid, jobIds, conn).1)
    ensures x in PublishStep(env, w, items, sid, jobIds, conn).0.jobs
    ensures PublishStep(env, w, items, sid, jobIds, conn).0.jobs[x].status == Paused
  {
    var stopped := Withdrawn(w, sid, jobIds);
    WithdrawnIds(w, sid, jobIds, x);
    var i :| 0 <= i < |stopped| && Ids(stopped)[i] == x;
    StopAllPauses(env.failing, w, stopped);
    var w1 := Withdraw(env, w, sid, jobIds, conn);
    assert w1.jobs[x].status == Paused;
    StartAllFrame(env.failing, w1, Started(items, env.shared(w1.jobs, w1.bindings, stopped)));
  }

  /** Withdrawing removes the requested ids from the data source's binding and changes no other binding. */
  lemma PauseUnbinds(env: Env, w: World, sid: SourceId, jobIds: seq<JobId>, conn: string)
    requires WellKeyed(w.jobs)
    ensures PauseStep(env, w, sid, jobIds, conn).bindings == Unbind(w.bindings, sid, jobIds)
    ensures sid in w.bindings ==> sid in PauseStep(env, w, sid, jobIds, conn).bindings
    ensures sid in w.bindings ==> forall x :: x in PauseStep(env, w, sid, jobIds, conn).bindings[sid] <==> x in w.bindings[sid] && x !in jobIds
  {
    StopAllFrame(env.failing, w, SelectBatch(w.jobs, jobIds));
    StartAllFrame(env.failing, Unpublish(env, w, sid, jobIds, conn), StillShared(env, w, sid, jobIds, conn));
  }

  /** One withdrawal changes the bindings only when the data source is configured, and then by Unbind. */
  lemma PauseOnceBindings(env: Env, w: World, sid: SourceId, jobIds: seq<JobId>)
    requires WellKeyed(w.jobs)
    ensures PausePublishOnce(env, w, sid, jobIds).0.bindings ==
              (if ConfigById(env.configs, sid).Some? then Unbind(w.bindings, sid, jobIds) else w.bindings)
  {
    match ConfigById(env.configs, sid)
    case None =>
    case Some(cfg) => PauseUnbinds(env, w, sid, jobIds, cfg.connectName);
  }

  /** Data source `sid` is bound and none of `jobIds` is bound to it. */
  predicate Unbound(bindings: map<SourceId, seq<JobId>>, sid: SourceId, jobIds: seq<JobId>) {
    sid in bindings && forall x :: x in jobIds ==> x !in bindings[sid]
  }

  /**
   * The withdrawal loop: every listed, configured and bound data source ends
   * bound to none of the ids; a source stays unbound of them once it is;
   * sources outside the list keep their bindings; no source gains or loses
   * its entry.
   */
  lemma {:induction false} PauseEachBindings(env: Env, w: World, sids: seq<SourceId>, jobIds: seq<JobId>)
    requires WellKeyed(w.jobs)
    ensures forall s :: s in sids && ConfigById(env.configs, s).Some? && s in w.bindings ==>
              Unbound(PauseEach(env, w, sids, jobIds).bindings, s, jobIds)
    ensures forall s :: Unbound(w.bindings, s, jobIds) ==> Unbound(PauseEach(env, w, sids, jobIds).bindings, s, jobIds)
    ensures PauseEach(env, w, sids, jobIds).bindings.Keys == w.bindings.Keys
    ensures forall s :: s !in sids && s in w.bindings ==> PauseEach(env, w, sids, jobIds).bindings[s] == w.bindings[s]
    decreases |sids|
  {
    if sids != [] {
      var w1 := PausePublishOnce(env, w, sids[0], jobIds).0;
      PauseOnceBindings(env, w, sids[0], jobIds);
      assert ConfigById(env.configs, sids[0]).Some? && sids[0] in w.bindings ==> Unbound(w1.bindings, sids[0], jobIds);
      assert forall s :: Unbound(w.bindings, s, jobIds) ==> Unbound(w1.bindings, s, jobIds);
      PauseEachBindings(env, w1, sids[1..], jobIds);
      assert forall s :: s in sids ==> s == sids[0] || s in sids[1..];
    }
  }

  /**
   * batchPublishPause: afterwards every listed data source that is configured
   * and bound is bound to none of the ids, and the bindings of other sources
   * are as they were.
   */
  lemma BatchPauseUnbinds(env: Env, w: World, sids: seq<SourceId>, jobIds: seq<JobId>)
    requires WellKeyed(w.jobs)
    ensures forall s :: s in sids && ConfigById(env.configs, s).Some? && s in w.bindings ==>
              Unbound(BatchPauseSpec(env, w, sids, jobIds).0.bindings, s, jobIds)
    ensures BatchPauseSpec(env, w, sids, jobIds).0.bindings.Keys == w.bindings.Keys
    ensures forall s :: s !in sids && s in w.bindings ==> BatchPauseSpec(env, w, sids, jobIds).0.bindings[s] == w.bindings[s]
  {
    PauseEachBindings(env, w, sids, jobIds);
    if jobIds == [] {
      assert forall s :: s in w.bindings ==> Unbound(w.bindings, s, jobIds);
    }
  }

  lemma UnbindRebound(bindings: map<SourceId, seq<JobId>>, sid: SourceId, jobIds: seq<JobId>)
    requires jobIds != []
    ensures Unbind(bindings[sid := jobIds], sid, jobIds) == bindings[sid := []]
  {
    assert RemoveIds(jobIds, jobIds) == [];
  }

  /**
   * With no failing resume, a publication's task log is the registry removal
   * of the withdrawn jobs, one executeOne per started job, then the Zabbix and
   * Nagios tasks of the caller's list, whatever the shared jobs are.
   */
  lemma PublishLog(env: Env, w: World, items: seq<Job>, sid: SourceId, jobIds: seq<JobId>, conn: string)
    requires WellKeyed(w.jobs)
    requires NoneFailResume(env.failing, PublishStep(env, w, items, sid, jobIds, conn).1)
    ensures PublishStep(env, w, items, sid, jobIds, conn).0.log ==
              w.log + [RemoveRegistry(Columns.RegistryKeys(Withdrawn(w, sid, jobIds), conn))]
              + ExecuteTasks(PublishStep(env, w, items, sid, jobIds, conn).1) + PlatformTasks(items, sid)
  {
    var stopped := Withdrawn(w, sid, jobIds);
    StopAllFrame(env.failing, w, stopped);
    var w1 := Withdraw(env, w, sid, jobIds, conn);
    StartAllLog(env.failing, w1, Started(items, env.shared(w1.jobs, w1.bindings, stopped)));
  }

  /** A stored job that is neither withdrawn nor started keeps its record. */
  lemma PublishKeepsOthers(env: Env, w: World, items: seq<Job>, sid: SourceId, jobIds: seq<JobId>, conn: string, x: JobId)
    requires WellKeyed(w.jobs)
    requires x in w.jobs && !(x in BoundIds(w, sid) && x !in jobIds)
    requires x !in Ids(PublishStep(env, w, items, sid, jobIds, conn).1)
    ensures x in PublishStep(env, w, items, sid, jobIds, conn).0.jobs
    ensures PublishStep(env, w, items, sid, jobIds, conn).0.jobs[x] == w.jobs[x]
  {
    var stopped := Withdrawn(w, sid, jobIds);
    WithdrawnIds(w, sid, jobIds, x);
    StopAllFrame(env.failing, w, stopped);
    var w1 := Withdraw(env, w, sid, jobIds, conn);
    StartAllFrame(env.failing, w1, Started(items, env.shared(w1.jobs, w1.bindings, stopped)));
  }

  /**
   * Withdrawing pauses every requested stored job, unless another data source
   * still uses it (then it is started again), when no pause call fails.
   */
  lemma PauseStepPauses(env: Env, w: World, sid: SourceId, jobIds: seq<JobId>, conn: string, x: JobId)
    requires WellKeyed(w.jobs)
    requires NoneFail(env.failing, SelectBatch(w.jobs, jobIds))
    requires x in jobIds && x in w.jobs
    requires x !in Ids(StillShared(env, w, sid, jobIds, conn))
    ensures x in PauseStep(env, w, sid, jobIds, conn).jobs
    ensures PauseStep(env, w, sid, jobIds, conn).jobs[x].status == Paused
  {
    var list := SelectBatch(w.jobs, jobIds);
    assert x in Ids(list);
    var i :| 0 <= i < |list| && Ids(list)[i] == x;
    StopAllPauses(env.failing, w, list);
    StopAllFrame(env.failing, w, list);
    StartAllFrame(env.failing, Unpublish(env, w, sid, jobIds, conn), StillShared(env, w, sid, jobIds, conn));
  }

  /**
   * With no failing resume, withdrawing logs the registry removal of the
   * requested jobs, then one executeOne per job other data sources still use,
   * each of which ends NORMAL.
   */
  lemma PauseRestartsShared(env: Env, w: World, sid: SourceId, jobIds: seq<JobId>, conn: string)
    requires WellKeyed(w.jobs)
    requires NoneFailResume(env.failing, StillShared(env, w, sid, jobIds, conn))
    ensures PauseStep(env, w, sid, jobIds, conn).log ==
              w.log + [RemoveRegistry(Columns.RegistryKeys(SelectBatch(w.jobs, jobIds), conn))]
              + ExecuteTasks(StillShared(env, w, sid, jobIds, conn))
    ensures var shared := StillShared(env, w, sid, jobIds, conn);
            forall i :: 0 <= i < |shared| && shared[i].jobId in w.jobs ==>
              shared[i].jobId in PauseStep(env, w, sid, jobIds, conn).jobs &&
              PauseStep(env, w, sid, jobIds, conn).jobs[shared[i].jobId].status == Normal
  {
    StopAllFrame(env.failing, w, SelectBatch(w.jobs, jobIds));
    var w1 := Unpublish(env, w, sid, jobIds, conn);
    StartAllLog(env.failing, w1, StillShared(env, w, sid, jobIds, conn));
    StartAllStarts(env.failing, w1, StillShared(env, w, sid, jobIds, conn));
  }

  /**
   * batchPublish reports success even when no data source is configured, and
   * then changes nothing.
   */
  lemma {:induction false} PublishEachUnknown(env: Env, w: World, items: seq<Job>, sids: seq<SourceId>, jobIds: seq<JobId>)
    requires WellKeyed(w.jobs)
    requires forall i :: 0 <= i < |sids| ==> ConfigById(env.configs, sids[i]).None?
    ensures PublishEach(env, w, items, sids, jobIds) == (w, items)
    decreases |sids|
  {
    if sids != [] {
      PublishEachUnknown(env, w, items, sids[1..], jobIds);
    }
  }

  lemma BatchPublishIgnoresUnknown(env: Env, w: World, sids: seq<SourceId>, jobIds: seq<JobId>)
    requires WellKeyed(w.jobs)
    requires sids != [] && jobIds != [] && env.zabbixConfig.Some? && env.nagiosConfig.Some?
    requires forall i :: 0 <= i < |sids| ==> ConfigById(env.configs, sids[i]).None?
    ensures BatchPublishSpec(env, w, sids, jobIds) == (w, Success("批量发布成功"))
  {
    PublishEachUnknown(env, w, SelectBatch(w.jobs, jobIds), sids, jobIds);
  }

  /** Publishing ids to a data source and then withdrawing the same ids leaves its binding empty. */
  lemma PublishThenPauseUnbinds(env: Env, w: World, items: seq<Job>, sid: SourceId, jobIds: seq<JobId>, conn: string, conn2: string)
    requires WellKeyed(w.jobs)
    requires jobIds != []
    ensures PauseStep(env, PublishStep(env, w, items, sid, jobIds, conn).0, sid, jobIds, conn2).bindings
            == w.bindings[sid := []]
  {
    var p := PublishStep(env, w, items, sid, jobIds, conn).0;
    PublishRebinds(env, w, items, sid, jobIds, conn);
    PauseUnbinds(env, p, sid, jobIds, conn2);
    UnbindRebound(w.bindings, sid, jobIds);
  }

  /**
   * deleteTaskByIds never touches the bindings; when it completes, none of
   * the ids is stored any more, and records of other ids are untouched.
   */
  lemma {:induction false} DeleteEachEffects(env: Env, w: World, ids: seq<JobId>)
    requires WellKeyed(w.jobs)
    ensures DeleteEach(env, w, ids).0.bindings == w.bindings
    ensures DeleteEach(env, w, ids).1 ==> forall i :: 0 <= i < |ids| ==> ids[i] !in DeleteEach(env, w, ids).0.jobs
    ensures forall id :: id in w.jobs && id !in ids ==> id in DeleteEach(env, w, ids).0.jobs && DeleteEach(env, w, ids).0.jobs[id] == w.jobs[id]
    ensures forall id :: id !in w.jobs ==> id !in DeleteEach(env, w, ids).0.jobs
    decreases |ids|
  {
    if ids != [] && ids[0] in w.jobs {
      var job := w.jobs[ids[0]];
      var w1 := DeleteOne(env, w, job).0;
      var w2 := w1.(log := w1.log + [RemoveJobId(ids[0])]);
      var w3 := if job.platform != Nagios
                then w2.(log := w2.log + RegistryTasks(job, ConfigsOf(env.configs, SourcesOf(w2.bindings, ids[0]))))
                else w2;
      assert w3.jobs == w.jobs - {ids[0]};
      DeleteEachEffects(env, w3, ids[1..]);
      assert forall id :: id in ids[1..] ==> id in ids;
      assert forall i :: 1 <= i < |ids| ==> ids[i] == ids[1..][i - 1];
    }
  }

  /** The same id listed twice makes deleteTaskByIds stop at its second occurrence. */
  lemma DuplicateIdAborts(env: Env, w: World, x: JobId)
    requires x in w.jobs
    requires WellKeyed(w.jobs)
    ensures !DeleteEach(env, w, [x, x]).1
  {
    var job := w.jobs[x];
    var w1 := DeleteOne(env, w, job).0;
    assert x !in w1.jobs;
    var w2 := w1.(log := w1.log + [RemoveJobId(x)]);
    var w3 := if job.platform != Nagios
              then w2.(log := w2.log + RegistryTasks(job, ConfigsOf(env.configs, SourcesOf(w2.bindings, x))))
              else w2;
    assert [x, x][1..] == [x];
    assert DeleteEach(env, w, [x, x]) == DeleteEach(env, w3, [x]);
  }
}
