/**
 * SysJobServiceImpl as a class: the job table, the bindings of data sources
 * to jobs, the scheduler's triggers and the dispatched tasks are its fields,
 * and each method changes them as the matching function of modules Schedule,
 * Publish and Insert describes.
 */
module Service {
  import opened Base
  import opened Domain
  import opened Selection
  import opened Schedule
  import opened Publish
  import opened Insert
  import Columns
  import Cron
  import Naming

  /** A job list that several calls share and change (the `List<SysJob>` batchPublish passes on). */
  class JobList {
    var items: seq<Job>

    constructor (items: seq<Job>)
      ensures this.items == items
    {
      this.items := items;
    }
  }

  /** SysJobServiceImpl: the job table, the bindings, the scheduler's triggers and the dispatched tasks. */
  class JobService {
    var jobs: map<JobId, Job>
    var bindings: map<SourceId, seq<JobId>>
    var triggers: map<Key, Trigger>
    var log: seq<Task>
    const env: Env

    predicate Valid()
      reads this
    {
      WellKeyed(jobs)
    }

    function State(): World
      reads this
    {
      World(jobs, bindings, triggers, log)
    }

    constructor (w: World, env: Env)
      requires WellKeyed(w.jobs)
      ensures Valid() && State() == w && this.env == env
    {
      jobs := w.jobs;
      bindings := w.bindings;
      triggers := w.triggers;
      log := w.log;
      this.env := env;
    }

    /** pauseJob: returns the updated row count and whether the scheduler call threw. */
    method PauseJob(job: Job) returns (rows: int, failed: bool)
      requires Valid()
      modifies this
      ensures Valid()
      ensures State() == PauseOne(env.failing, old(State()), job)
      ensures rows == (if job.jobId in old(jobs) then 1 else 0)
      ensures failed <==> KeyOf(job) in env.failing
    {
      var paused := job.(status := Paused);
      rows := 0;
      if paused.jobId in jobs {
        jobs := jobs[paused.jobId := paused];
        rows := 1;
      }
      failed := KeyOf(job) in env.failing;
      if !failed && KeyOf(job) in triggers {
        triggers := triggers[KeyOf(job) := Suspended];
      }
    }

    /** resumeJob: stores the job and resumes (id, "DEFAULT"). */
    method ResumeJob(job: Job) returns (rows: int, failed: bool)
      requires Valid()
      modifies this
      ensures Valid()
      ensures State() == ResumeOne(env.failing, old(State()), job)
      ensures rows == (if job.jobId in old(jobs) then 1 else 0)
      ensures failed <==> (job.jobId, DefaultGroup) in env.failing
    {
      rows := 0;
      if job.jobId in jobs {
        jobs := jobs[job.jobId := job];
        rows := 1;
      }
      var key := (job.jobId, DefaultGroup);
      failed := key in env.failing;
      if !failed && key in triggers {
        triggers := triggers[key := Running];
      }
    }

    /** stopTimeTask */
    method StopTimeTask(list: seq<Job>)
      requires Valid()
      modifies this
      ensures Valid()
      ensures State() == StopAll(env.failing, old(State()), list)
    {
      var i := 0;
      while i < |list|
        invariant 0 <= i <= |list|
        invariant Valid()
        invariant StopAll(env.failing, State(), list[i..]) == StopAll(env.failing, old(State()), list)
      {
        ghost var before := State();
        assert list[i..][0] == list[i] && list[i..][1..] == list[i + 1..];
        var rows, failed := PauseJob(list[i]);
        if failed {
          return;
        }
        i := i + 1;
      }
    }

    /** startTimeTask */
    method StartTimeTask(list: seq<Job>)
      requires Valid()
      modifies this
      ensures Valid()
      ensures State() == StartAll(env.failing, old(State()), list)
    {
      var i := 0;
      while i < |list|
        invariant 0 <= i <= |list|
        invariant Valid()
        invariant StartAll(env.failing, State(), list[i..]) == StartAll(env.failing, old(State()), list)
      {
        var job := list[i];
        assert list[i..][0] == job && list[i..][1..] == list[i + 1..];
        log := log + [ExecuteOne(job.target, job.jobName, job.jobId)];
        var rows, failed := ResumeJob(job.(status := Normal));
        if failed {
          return;
        }
        i := i + 1;
      }
    }

    /**
     * singlePublish: `list` is the caller's job list, which this call
     * extends with the shared jobs and strips of its Nagios jobs.
     */
    method SinglePublish(sid: SourceId, jobIds: seq<JobId>, list: JobList) returns (reply: Reply)
      requires Valid()
      modifies this, list
      ensures Valid()
      ensures var r := PublishOnce(env, old(State()), old(list.items), sid, jobIds);
              State() == r.0 && list.items == r.1 && reply == r.2
    {
      var sysConfig := ConfigById(env.configs, sid);
      if sysConfig.None? {
        return Failure("没有该主机信息");
      }
      ghost var w0 := State();
      var items := list.items;
      var oldSysJob := WithdrawJobs(sid, jobIds, sysConfig.value.connectName);
      ghost var w1 := State();
      var otherSysJob := env.shared(jobs, bindings, oldSysJob);
      var nagios := OfPlatform(items, Nagios);
      list.items := items + otherSysJob;
      list.items := RemoveAllById(list.items, Ids(nagios));
      StartTimeTask(list.items);
      DispatchPlatformTasks(items, sid);
      assert PublishStep(env, w0, items, sid, jobIds, sysConfig.value.connectName).0 == State();
      return Success("发布成功");
    }

    /** The first half of singlePublish: returns the withdrawn jobs. */
    method WithdrawJobs(sid: SourceId, jobIds: seq<JobId>, conn: string) returns (oldSysJob: seq<Job>)
      requires Valid()
      modifies this
      ensures Valid()
      ensures oldSysJob == Withdrawn(old(State()), sid, jobIds)
      ensures State() == Withdraw(env, old(State()), sid, jobIds, conn)
    {
      var oldJobIds := if sid in bindings then bindings[sid] else [];
      oldSysJob := SelectBatch(jobs, oldJobIds);
      var newSysJob := SelectBatch(jobs, jobIds);
      oldSysJob := RemoveAllById(oldSysJob, Ids(newSysJob));
      StopTimeTask(oldSysJob);
      bindings := bindings[sid := jobIds];
      var remove := Columns.DealOldSysJob(oldSysJob, conn);
      log := log + [RemoveRegistry(remove)];
    }

    /** The end of singlePublish: the Zabbix and Nagios tasks for the caller's list. */
    method DispatchPlatformTasks(items: seq<Job>, sid: SourceId)
      modifies this
      ensures State() == old(State()).(log := old(log) + PlatformTasks(items, sid))
    {
      var zabbix := OfPlatform(items, Zabbix);
      var nagios := OfPlatform(items, Nagios);
      var tasks := [];
      if zabbix != [] {
        tasks := tasks + [RecordZabbix(Ids(zabbix), sid)];
      }
      if nagios != [] {
        tasks := tasks + [RecordNagios(Ids(nagios), sid), ExecuteNagios(Ids(nagios))];
      }
      assert tasks == PlatformTasks(items, sid);
      log := log + tasks;
    }

    /** batchPublish */
    method BatchPublish(sids: seq<SourceId>, jobIds: seq<JobId>) returns (reply: Reply)
      requires Valid()
      modifies this
      ensures Valid()
      ensures (State(), reply) == BatchPublishSpec(env, old(State()), sids, jobIds)
    {
      if sids == [] || jobIds == [] {
        return Failure("发布信息不能为空");
      }
      var sysJobs := SelectBatch(jobs, jobIds);
      var zabbix := OfPlatform(sysJobs, Zabbix);
      var nagios := OfPlatform(sysJobs, Nagios);
      if env.zabbixConfig.None? && zabbix != [] {
        return Failure("请先配置Zabbix数据源信息");
      }
      if env.nagiosConfig.None? && nagios != [] {
        return Failure("请先配置Nagios配置信息");
      }
      var list := new JobList(sysJobs);
      PublishSources(sids, jobIds, list);
      return Success("批量发布成功");
    }

    /** The loop of batchPublish over the data sources, sharing one job list. */
    method PublishSources(sids: seq<SourceId>, jobIds: seq<JobId>, list: JobList)
      requires Valid()
      modifies this, list
      ensures Valid()
      ensures (State(), list.items) == PublishEach(env, old(State()), old(list.items), sids, jobIds)
    {
      var i := 0;
      while i < |sids|
        invariant 0 <= i <= |sids|
        invariant Valid()
        invariant PublishEach(env, State(), list.items, sids[i..], jobIds) == PublishEach(env, old(State()), old(list.items), sids, jobIds)
      {
        assert sids[i..][0] == sids[i] && sids[i..][1..] == sids[i + 1..];
        var ignored := SinglePublish(sids[i], jobIds, list);
        i := i + 1;
      }
    }

    /** singlePublishPause */
    method SinglePublishPause(sid: SourceId, jobIds: seq<JobId>) returns (reply: Reply)
      requires Valid()
      modifies this
      ensures Valid()
      ensures (State(), reply) == PausePublishOnce(env, old(State()), sid, jobIds)
    {
      var sysConfig := ConfigById(env.configs, sid);
      if sysConfig.None? {
        return Failure("没有该主机信息");
      }
      ghost var w0 := State();
      var sysJobs := SelectBatch(jobs, jobIds);
      StopTimeTask(sysJobs);
      var remove := Columns.DealOldSysJob(sysJobs, sysConfig.value.connectName);
      log := log + [RemoveRegistry(remove)];
      if sid in bindings {
        var oldIds := bindings[sid];
        if oldIds != [] {
          bindings := bindings[sid := RemoveIds(oldIds, jobIds)];
        }
      }
      assert State() == Unpublish(env, w0, sid, jobIds, sysConfig.value.connectName);
      var otherSysJob := env.shared(jobs, bindings, sysJobs);
      StartTimeTask(otherSysJob);
      return Success("停止发布成功");
    }

    /** batchPublishPause */
    method BatchPublishPause(sids: seq<SourceId>, jobIds: seq<JobId>) returns (reply: Reply)
      requires Valid()
      modifies this
      ensures Valid()
      ensures (State(), reply) == BatchPauseSpec(env, old(State()), sids, jobIds)
    {
      if sids == [] || jobIds == [] {
        return Failure("发布信息不能为空");
      }
      var i := 0;
      while i < |sids|
        invariant 0 <= i <= |sids|
        invariant Valid()
        invariant PauseEach(env, State(), sids[i..], jobIds) == PauseEach(env, old(State()), sids, jobIds)
      {
        assert sids[i..][0] == sids[i] && sids[i..][1..] == sids[i + 1..];
        var ignored := SinglePublishPause(sids[i], jobIds);
        i := i + 1;
      }
      return Success("批量发布停止成功");
    }

    /** deleteTask: whether a stored record was deleted. */
    method DeleteTask(task: Job) returns (isDelete: bool)
      requires Valid()
      modifies this
      ensures Valid()
      ensures (State(), isDelete) == DeleteOne(env, old(State()), task)
    {
      isDelete := task.jobId in jobs;
      if isDelete {
        jobs := jobs - {task.jobId};
        if KeyOf(task) !in env.failing {
          triggers := triggers - {KeyOf(task)};
        }
      }
    }

    /** dealExec */
    method DealExec(configs: seq<Config>, job: Job)
      modifies this
      ensures State() == old(State()).(log := old(log) + RegistryTasks(job, configs))
    {
      var i := 0;
      while i < |configs|
        invariant 0 <= i <= |configs|
        invariant State() == old(State()).(log := log)
        invariant log + RegistryTasks(job, configs[i..]) == old(log) + RegistryTasks(job, configs)
      {
        assert configs[i..][0] == configs[i] && configs[i..][1..] == configs[i + 1..];
        var sysConfig := configs[i];
        if sysConfig.connectName != "" {
          var remove := Columns.DealOldSysJob([job], sysConfig.connectName);
          log := log + [RemoveRegistry(remove)];
        }
        i := i + 1;
      }
    }

    /** deleteTaskByIds: false when an id without a stored job stopped the loop. */
    method DeleteTaskByIds(jobIds: seq<JobId>) returns (completed: bool)
      requires Valid()
      modifies this
      ensures Valid()
      ensures (State(), completed) == DeleteEach(env, old(State()), jobIds)
    {
      var i := 0;
      while i < |jobIds|
        invariant 0 <= i <= |jobIds|
        invariant Valid()
        invariant DeleteEach(env, State(), jobIds[i..]) == DeleteEach(env, old(State()), jobIds)
      {
        var jobId := jobIds[i];
        assert jobIds[i..][0] == jobId && jobIds[i..][1..] == jobIds[i + 1..];
        if jobId !in jobs {
          return false;
        }
        var job := jobs[jobId];
        var deleted := DeleteTask(job);
        log := log + [RemoveJobId(jobId)];
        if job.platform != Nagios {
          var sourceId := SourcesOf(bindings, jobId);
          var sysConfigs := ConfigsOf(env.configs, sourceId);
          DealExec(sysConfigs, job);
        }
        i := i + 1;
      }
      return true;
    }

    /** updateSchedulerJob */
    method UpdateSchedulerJob(job: Job, jobGroup: string)
      requires Valid()
      modifies this
      ensures Valid()
      ensures State() == UpdateScheduler(env.failing, old(State()), job, jobGroup)
    {
      var jobKey := (job.jobId, jobGroup);
      if jobKey in triggers && jobKey !in env.failing {
        triggers := triggers - {jobKey};
      }
      CreateMonitorJob(job);
    }

    /** createMonitorJob, as Schedule.Register describes it. */
    method CreateMonitorJob(job: Job)
      modifies this
      ensures State() == Register(old(State()), job)
    {
      triggers := triggers[KeyOf(job) := if job.status == Paused then Suspended else Running];
    }

    /** modifyDefault: an inadmissible interval is the error it raises. */
    method ModifyDefault(job: Job) returns (reply: Reply)
      requires Valid()
      modifies this
      ensures Valid()
      ensures (State(), reply) == Insert.ModifyDefault(env, old(State()), job)
    {
      var error := Cron.CheckNum(job.num, job.timeUnit);
      if error.Some? {
        return Failure(error.value);
      }
      var j := job.(cronExpression := Cron.GetCron(job.num, job.timeUnit));
      jobs := jobs[j.jobId := j];
      UpdateSchedulerJob(j, j.jobGroup);
      reply := Success("修改成功");
    }

    /**
     * insertTask: `table` is the job table as selectJobAll reads it; the
     * checks are those of Insert.Decide, and the effects those of
     * Insert.InsertSpec.
     */
    method InsertTask(table: seq<Job>, systemGroup: string, job: Job, isCreate: bool, isFalse: Option<bool>, out: Outside)
      returns (reply: Reply)
      requires Valid()
      modifies this
      ensures Valid()
      ensures (State(), reply) == InsertSpec(env, old(State()), table, systemGroup, job, isCreate, isFalse, out)
    {
      var decision := Decide(env, State(), table, systemGroup, job, isCreate, isFalse, out);
      match decision
      case Modify =>
        reply := ModifyDefault(job);
      case Reject(m) =>
        reply := Failure(m);
      case Throw =>
        reply := Thrown;
      case NoMetric =>
        reply := Target("无法生成指标");
      case Save(j) =>
        jobs := jobs[j.jobId := j];
        CreateMonitorJob(j);
        reply := Success("保存成功");
    }
  }
}
