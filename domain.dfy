/**
 * The entities of the monitor-job service: jobs, their platforms and schedule
 * units, data-source configurations, and the cells of a probe result.
 */
module Domain {
  import opened Base

  type JobId = int
  type SourceId = int

  /**
   * The monitoring back-end a job publishes to (PROM, ZABBIX, NAGIOS or anything
   * else). An `OtherPlatform` name is never the text of one of the three
   * constants: a job whose platform text is one of them has that constructor.
   */
  datatype Platform = Prom | Zabbix | Nagios | OtherPlatform(name: string)

  /** Persisted job status: NORMAL or PAUSE. */
  datatype Status = Normal | Paused

  /**
   * The `timeType` of a job: the unit of its collection interval. As with
   * platforms, an `OtherUnit` name is never the text of a named unit.
   */
  datatype TimeUnit = Second | Minute | Hour | Day | Week | Month | Year | OtherUnit(name: string)

  /**
   * A monitor job (SysJob). `columns` is the list of column identities derived
   * from a probe; `dataSourceId` is null for templates; `createTime` and `time`
   * stand for the parsed creation date and the millisecond stamp, as ordered
   * numbers; `canUpdate` and `published` are the listing flags.
   */
  datatype Job = Job(
    jobId: JobId,
    jobName: string,
    jobGroup: string,
    targetGroup: string,
    platform: Platform,
    target: string,
    num: int,
    timeUnit: TimeUnit,
    cronExpression: string,
    invokeTarget: string,
    status: Status,
    columns: seq<string>,
    dataSourceId: Option<SourceId>,
    createTime: int,
    time: int,
    canUpdate: Option<bool>,
    published: Option<bool>)

  /**
   * A data-source configuration (SysConfig): the parts the job service reads.
   * An empty `connectName` stands for a null or empty name.
   */
  datatype Config = Config(dataSourceId: SourceId, connectName: string, platform: Platform)

  /** One column of one probe-result row: the column name and its value as text, or null. */
  datatype Cell = Cell(key: string, value: Option<string>)

  /** A probe-result row, its columns in result order. */
  type Row = seq<Cell>

  /** Every stored record carries the id it is stored under (the job table's key). */
  predicate WellKeyed(store: map<JobId, Job>) {
    forall id :: id in store ==> store[id].jobId == id
  }

  /** The ids of a list of jobs, in order. */
  function Ids(jobs: seq<Job>): (r: seq<JobId>)
    ensures |r| == |jobs|
    ensures forall i :: 0 <= i < |jobs| ==> r[i] == jobs[i].jobId
  {
    if jobs == [] then [] else [jobs[0].jobId] + Ids(jobs[1..])
  }
}
