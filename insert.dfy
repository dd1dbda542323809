/**
 * Creating or editing a job (insertTask): the order of its checks, the job
 * record it saves (dealSysJob), and modifyDefault for jobs of the system group.
 */
module Insert {
  import opened Base
  import opened Text
  import opened Domain
  import opened Schedule
  import opened Publish
  import Dedup
  import Cron
  import Naming
  import Columns

  /** What executing the job's query returned: the driver's error message, or the rows. */
  datatype Probe = ProbeError(message: string) | ProbeRows(rows: seq<Row>)

  /**
   * The values an insert reads from outside the service: what the query
   * checker `SqlUtil.checkDql` said, the probe, the id the id generator hands
   * out, and the current time as a parsed creation date and in milliseconds.
   */
  datatype Outside = Outside(dqlMessage: string, probe: Probe, newId: JobId, createTime: int, now: int)

  /** The way insertTask ends; `Throw` is dealMax's exception on a stored name it cannot parse. */
  datatype Decision = Modify | Reject(message: string) | Throw | NoMetric | Save(job: Job)

  /** checkConfig: a Zabbix or Nagios job outside the system group needs that platform configured. */
  function CheckConfig(env: Env, job: Job, systemGroup: string): (r: string)
    ensures r != "" <==> !EqualsIgnoreCase(job.targetGroup, systemGroup) &&
                         ((env.zabbixConfig.None? && job.platform == Zabbix) || (env.nagiosConfig.None? && job.platform == Nagios))
  {
    if env.zabbixConfig.None? && job.platform == Zabbix && !EqualsIgnoreCase(job.targetGroup, systemGroup) then "请先配置Zabbix数据源信息"
    else if env.nagiosConfig.None? && job.platform == Nagios && !EqualsIgnoreCase(job.targetGroup, systemGroup) then "请先配置Nagios配置信息"
    else ""
  }

  /** getCheckConfig: the first PROM configuration of the job's data source. */
  function PromConfig(configs: seq<Config>, sid: Option<SourceId>): (r: Option<Config>)
    ensures r.Some? <==> sid.Some? && exists c :: c in configs && c.platform == Prom && c.dataSourceId == sid.value
    ensures r.Some? ==> r.value in configs && r.value.platform == Prom && Some(r.value.dataSourceId) == sid
  {
    if configs == [] || sid.None? then None
    else if configs[0].platform == Prom && configs[0].dataSourceId == sid.value then Some(configs[0])
    else
      assert forall c :: c in configs[1..] ==> c in configs;
      PromConfig(configs[1..], sid)
  }

  /** The text dealSysJob gives the scheduler as the job's invocation. */
  function InvokeTarget(target: string, jobName: string, jobId: JobId): string {
    "monitorTask.targetParams('" + target + "'#'" + jobName + "'#" + IntToString(jobId) + "L$"
  }

  /**
   * dealSysJob: a new id on create, the configuration's data source, status
   * PAUSE, the query without ';', its invocation text and cron expression, the
   * creation times outside the system group, and the column ids of the probe rows.
   */
  function DealSysJob(job: Job, isCreate: bool, rows: seq<Row>, cfg: Config, systemGroup: string, out: Outside): (r: Job)
    ensures r.jobId == (if isCreate then out.newId else job.jobId)
    ensures r.jobName == job.jobName && r.jobGroup == job.jobGroup && r.targetGroup == job.targetGroup
    ensures r.platform == job.platform && r.num == job.num && r.timeUnit == job.timeUnit
    ensures r.dataSourceId == Some(cfg.dataSourceId) && r.status == Paused
    ensures ';' !in r.target && forall c :: c != ';' ==> (c in r.target <==> c in job.target)
    ensures r.invokeTarget == InvokeTarget(r.target, job.jobName, r.jobId)
    ensures r.cronExpression == Cron.GetCron(job.num, job.timeUnit)
    ensures r.columns == Columns.ColumnIds(Columns.NormalizeRows(rows), job.jobName)
    ensures job.targetGroup != systemGroup ==> r.createTime == out.createTime && r.time == out.now
    ensures job.targetGroup == systemGroup ==> r.createTime == job.createTime && r.time == job.time
  {
    var id := if isCreate then out.newId else job.jobId;
    var target := Remove(job.target, ';');
    var j := job.(jobId := id, dataSourceId := Some(cfg.dataSourceId), status := Paused, target := target,
                  invokeTarget := InvokeTarget(target, job.jobName, id),
                  cronExpression := Cron.GetCron(job.num, job.timeUnit));
    var stamped := if job.targetGroup != systemGroup then j.(createTime := out.createTime, time := out.now) else j;
    stamped.(columns := Columns.ColumnIds(Columns.NormalizeRows(rows), job.jobName))
  }

  /** The job's name once insertTask has renamed it (on create only). */
  function Named(job: Job, isCreate: bool, table: seq<Job>): Job
    requires Naming.AllValidNames(table)
  {
    if isCreate then job.(jobName := Naming.NewName(job.jobName, table)) else job
  }

  /** Target of the stored job with the same id, read by checkTarget on edits. */
  function StoredTarget(w: World, job: Job): Option<string> {
    if job.jobId in w.jobs then Some(w.jobs[job.jobId].target) else None
  }

  /**
   * insertTask's checks, in order. `table` is the job table as read by
   * selectJobAll, which only the steps after checkConfig look at; `isFalse`
   * is the request's flag for an empty probe.
   */
  function Decide(env: Env, w: World, table: seq<Job>, systemGroup: string, job: Job, isCreate: bool,
                  isFalse: Option<bool>, out: Outside): (r: Decision)
    ensures r.Modify? <==> EqualsIgnoreCase(job.targetGroup, systemGroup) && !isCreate
    ensures r.Save? ==> job.dataSourceId.Some? && r.job.status == Paused && r.job.dataSourceId == job.dataSourceId
  {
    var system := EqualsIgnoreCase(job.targetGroup, systemGroup);
    if system && !isCreate then Modify
    else if job.dataSourceId.None? then Reject("验证主机信息不能为空")
    else if isCreate && system then Reject("自定义分组不能是系统默认分组,请更换分组名称")
    else if CheckConfig(env, job, systemGroup) != "" then Reject(CheckConfig(env, job, systemGroup))
    else if !Naming.AllValidNames(table) then Throw
    else
      var named := Named(job, isCreate, table);
      var message := Dedup.CheckTarget(named, isCreate, table, StoredTarget(w, named), out.dqlMessage);
      if !IsBlank(message) then Reject(message)
      else if Cron.CheckNum(named.num, named.timeUnit).Some? then Reject(Cron.CheckNum(named.num, named.timeUnit).value)
      else
        match PromConfig(env.configs, named.dataSourceId)
        case None => Reject("请先配置数据源")
        case Some(cfg) =>
          match out.probe
          case ProbeError(m) => Reject(m)
          case ProbeRows(rows) =>
            if rows == [] && isFalse == Some(false) then NoMetric
            else Save(DealSysJob(named, isCreate, rows, cfg, systemGroup, out))
  }

  /**
   * modifyDefault: checks the interval (its error is the reply), sets the
   * cron expression, stores the job and re-registers it under its own group.
   */
  function ModifyDefault(env: Env, w: World, job: Job): (r: (World, Reply))
    ensures Cron.CheckNum(job.num, job.timeUnit).Some? ==> r == (w, Failure(Cron.CheckNum(job.num, job.timeUnit).value))
    ensures Cron.CheckNum(job.num, job.timeUnit).None? ==>
              r.1 == Success("修改成功") && job.jobId in r.0.jobs &&
              r.0.jobs[job.jobId] == job.(cronExpression := Cron.GetCron(job.num, job.timeUnit)) &&
              KeyOf(job) in r.0.triggers
  {
    if Cron.CheckNum(job.num, job.timeUnit).Some? then (w, Failure(Cron.CheckNum(job.num, job.timeUnit).value))
    else
      var j := job.(cronExpression := Cron.GetCron(job.num, job.timeUnit));
      (UpdateScheduler(env.failing, w.(jobs := w.jobs[j.jobId := j]), j, j.jobGroup), Success("修改成功"))
  }

  /**
   * insertTask on the state: modifyDefault for an edit in the system group,
   * a saved job is stored and registered; every other ending changes nothing.
   */
  function InsertSpec(env: Env, w: World, table: seq<Job>, systemGroup: string, job: Job, isCreate: bool,
                      isFalse: Option<bool>, out: Outside): (r: (World, Reply))
    ensures r.0.bindings == w.bindings
  {
    match Decide(env, w, table, systemGroup, job, isCreate, isFalse, out)
    case Modify => ModifyDefault(env, w, job)
    case Reject(m) => (w, Failure(m))
    case Throw => (w, Thrown)
    case NoMetric => (w, Target("无法生成指标"))
    case Save(j) => (Register(w.(jobs := w.jobs[j.jobId := j]), j), Success("保存成功"))
  }

  // ---------------------------------------------------------------------------
  // The order of the checks
  // ---------------------------------------------------------------------------

  /** An edit in the system group goes to modifyDefault before any other check. */
  lemma SystemEditModifies(env: Env, w: World, table: seq<Job>, systemGroup: string, job: Job, isFalse: Option<bool>, out: Outside)
    requires EqualsIgnoreCase(job.targetGroup, systemGroup)
    ensures Decide(env, w, table, systemGroup, job, false, isFalse, out) == Modify
  {
  }

  /**
   * dealMax's exception: the insert ends with it exactly when the checks that
   * come before selectJobAll pass and a stored name cannot be parsed.
   */
  lemma InvalidTableThrows(env: Env, w: World, table: seq<Job>, systemGroup: string, job: Job, isCreate: bool,
                           isFalse: Option<bool>, out: Outside)
    ensures Decide(env, w, table, systemGroup, job, isCreate, isFalse, out).Throw? <==>
              !(EqualsIgnoreCase(job.targetGroup, systemGroup) && !isCreate) &&
              job.dataSourceId.Some? &&
              !(isCreate && EqualsIgnoreCase(job.targetGroup, systemGroup)) &&
              CheckConfig(env, job, systemGroup) == "" &&
              !Naming.AllValidNames(table)
  {
  }

  /**
   * A job is saved exactly when every check passes, in order: a data source,
   * not a create in the system group, the platform configured, a table whose
   * names dealMax can read, no duplicate, an admissible interval, a PROM
   * configuration, a probe that worked and that is not an empty probe the
   * request refuses.
   */
  lemma SavedIffChecksPass(env: Env, w: World, table: seq<Job>, systemGroup: string, job: Job, isCreate: bool,
                           isFalse: Option<bool>, out: Outside)
    ensures Decide(env, w, table, systemGroup, job, isCreate, isFalse, out).Save? <==>
              !(EqualsIgnoreCase(job.targetGroup, systemGroup) && !isCreate) &&
              job.dataSourceId.Some? &&
              !(isCreate && EqualsIgnoreCase(job.targetGroup, systemGroup)) &&
              CheckConfig(env, job, systemGroup) == "" &&
              Naming.AllValidNames(table) &&
              (var named := Named(job, isCreate, table);
               IsBlank(Dedup.CheckTarget(named, isCreate, table, StoredTarget(w, named), out.dqlMessage)) &&
               Cron.CheckNum(named.num, named.timeUnit).None?) &&
              PromConfig(env.configs, job.dataSourceId).Some? &&
              out.probe.ProbeRows? &&
              !(out.probe.rows == [] && isFalse == Some(false))
  {
  }

  /** A probe without rows is refused only when the request's flag is present and false. */
  lemma EmptyProbe(env: Env, w: World, table: seq<Job>, systemGroup: string, job: Job, isCreate: bool,
                   isFalse: Option<bool>, out: Outside)
    requires out.probe == ProbeRows([])
    ensures Decide(env, w, table, systemGroup, job, isCreate, isFalse, out).NoMetric? ==> isFalse == Some(false)
    ensures isFalse != Some(false) ==> !Decide(env, w, table, systemGroup, job, isCreate, isFalse, out).NoMetric?
  {
  }

  /**
   * The saved job: renamed with the next suffix on create, under the new id,
   * paused, with its query, data source, cron expression and column ids as
   * dealSysJob derives them; and its query is no duplicate.
   */
  lemma SavedJob(env: Env, w: World, table: seq<Job>, systemGroup: string, job: Job, isCreate: bool,
                 isFalse: Option<bool>, out: Outside)
    requires Decide(env, w, table, systemGroup, job, isCreate, isFalse, out).Save?
    ensures Naming.AllValidNames(table)
    ensures var j := Decide(env, w, table, systemGroup, job, isCreate, isFalse, out).job;
            && j.jobName == (if isCreate then Naming.NewName(job.jobName, table) else job.jobName)
            && j.jobId == (if isCreate then out.newId else job.jobId)
            && j.status == Paused
            && j.dataSourceId == job.dataSourceId
            && j.cronExpression == Cron.GetCron(job.num, job.timeUnit)
            && ';' !in j.target
            && j.columns == Columns.ColumnIds(Columns.NormalizeRows(out.probe.rows), j.jobName)
    ensures IsBlank(Dedup.CheckTarget(Named(job, isCreate, table), isCreate, table, StoredTarget(w, Named(job, isCreate, table)), out.dqlMessage))
  {
    var named := Named(job, isCreate, table);
    var cfg := PromConfig(env.configs, named.dataSourceId).value;
    assert Some(cfg.dataSourceId) == job.dataSourceId;
  }

  /**
   * A created job saved under a three-letter name prefix, with no overflow of
   * the suffix, gets a name that no job of the table has. Neither condition is
   * checked by insertTask: see Naming.ShortPrefixCollides and
   * Naming.LongPrefixBreaksTable for what happens without them.
   */
  lemma CreatedNameIsNew(env: Env, w: World, table: seq<Job>, systemGroup: string, job: Job,
                         isFalse: Option<bool>, out: Outside)
    requires Decide(env, w, table, systemGroup, job, true, isFalse, out).Save?
    requires Naming.AllValidNames(table)
    requires |job.jobName| == 3 && Naming.DealMax(table) < IntMax
    ensures forall i :: 0 <= i < |table| ==> table[i].jobName != Decide(env, w, table, systemGroup, job, true, isFalse, out).job.jobName
  {
    SavedJob(env, w, table, systemGroup, job, true, isFalse, out);
    Naming.NewNameIsFresh(job.jobName, table);
  }

  /**
   * Only modifyDefault and a save change the state; a saved job is stored and
   * scheduled suspended. Rejections, dealMax's exception and the empty probe
   * leave everything as it was.
   */
  lemma InsertEffects(env: Env, w: World, table: seq<Job>, systemGroup: string, job: Job, isCreate: bool,
                      isFalse: Option<bool>, out: Outside)
    ensures var d := Decide(env, w, table, systemGroup, job, isCreate, isFalse, out);
            (d.Reject? || d.Throw? || d.NoMetric?) ==> InsertSpec(env, w, table, systemGroup, job, isCreate, isFalse, out).0 == w
    ensures var d := Decide(env, w, table, systemGroup, job, isCreate, isFalse, out);
            d.Throw? <==> InsertSpec(env, w, table, systemGroup, job, isCreate, isFalse, out).1 == Thrown
    ensures var d := Decide(env, w, table, systemGroup, job, isCreate, isFalse, out);
            var r := InsertSpec(env, w, table, systemGroup, job, isCreate, isFalse, out);
            d.Save? ==> r.1 == Success("保存成功") && d.job.jobId in r.0.jobs && r.0.jobs[d.job.jobId] == d.job &&
                        KeyOf(d.job) in r.0.triggers && r.0.triggers[KeyOf(d.job)] == Suspended &&
                        r.0.bindings == w.bindings && r.0.log == w.log
  {
    var d := Decide(env, w, table, systemGroup, job, isCreate, isFalse, out);
    if d.Save? {
      SavedJob(env, w, table, systemGroup, job, isCreate, isFalse, out);
    }
  }
}
