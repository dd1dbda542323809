/**
 * Per-platform duplicate detection of job query texts (checkTarget and its
 * helpers getProm, getZabbix, getNagios).
 */
module Dedup {
  import opened Base
  import opened Text
  import opened Domain

  /** The normalised query texts of the jobs of platform `p`, in job order. */
  function PlatformTargets(jobs: seq<Job>, p: Platform): (r: seq<string>)
    ensures |r| <= |jobs|
    ensures forall t :: t in r <==> exists j :: j in jobs && j.platform == p && Normalize(j.target) == t
  {
    if jobs == [] then []
    else
      var rest := PlatformTargets(jobs[1..], p);
      assert forall j :: j in jobs[1..] ==> j in jobs;
      (if jobs[0].platform == p then [Normalize(jobs[0].target)] else []) + rest
  }

  /**
   * The platform whose jobs a candidate is compared with: PROM and ZABBIX with
   * their own, every other platform with the NAGIOS jobs.
   */
  function ComparedPlatform(p: Platform): Platform {
    match p
    case Prom => Prom
    case Zabbix => Zabbix
    case _ => Nagios
  }

  /** The platform's "duplicate metric" message. */
  function DuplicateMessage(p: Platform): string {
    match p
    case Prom => "Prometheus指标重复"
    case Zabbix => "Zabbix指标重复"
    case _ => "Nagios指标重复"
  }

  /** Normalised stored text of the job being edited, or "" when there is none. */
  function StoredText(stored: Option<string>): string {
    if stored.Some? then Normalize(stored.value) else ""
  }

  /**
   * checkTarget: the query checker's message wins; otherwise a duplicate
   * message when the normalised text is already used on the compared platform,
   * and, on an edit, differs from the job's stored text.
   * `stored` is the target of the stored job with the same id (absent for a
   * job without id or without a stored row); `dqlMessage` is what the query
   * checker `SqlUtil.checkDql` returned.
   */
  function CheckTarget(job: Job, isCreate: bool, jobs: seq<Job>, stored: Option<string>, dqlMessage: string): (r: string)
    ensures dqlMessage != "" ==> r == dqlMessage
    ensures dqlMessage == "" ==> r == "" || r == DuplicateMessage(job.platform)
  {
    if dqlMessage != "" then dqlMessage
    else
      var sql := Normalize(job.target);
      var used := PlatformTargets(jobs, ComparedPlatform(job.platform));
      if sql in used && isCreate then DuplicateMessage(job.platform)
      else if sql in used && !isCreate && StoredText(stored) != sql then DuplicateMessage(job.platform)
      else ""
  }

  /** Some job of the compared platform has the same normalised text as `job`. */
  predicate Clashes(job: Job, jobs: seq<Job>) {
    exists j :: j in jobs && j.platform == ComparedPlatform(job.platform) && Normalize(j.target) == Normalize(job.target)
  }

  /**
   * With the query accepted, the duplicate message is returned exactly when the
   * text clashes and the job is new or its text changed.
   */
  lemma CheckTargetDuplicate(job: Job, isCreate: bool, jobs: seq<Job>, stored: Option<string>)
    ensures CheckTarget(job, isCreate, jobs, stored, "") == DuplicateMessage(job.platform)
            <==> Clashes(job, jobs) && (isCreate || StoredText(stored) != Normalize(job.target))
    ensures CheckTarget(job, isCreate, jobs, stored, "") == ""
            <==> !(Clashes(job, jobs) && (isCreate || StoredText(stored) != Normalize(job.target)))
  {
    var used := PlatformTargets(jobs, ComparedPlatform(job.platform));
    assert Normalize(job.target) in used <==> Clashes(job, jobs);
    assert DuplicateMessage(job.platform) != "";
  }

  /** Creating a job whose text clashes with a same-platform job is always refused. */
  lemma CreateDuplicateRefused(job: Job, other: Job, jobs: seq<Job>, stored: Option<string>)
    requires other in jobs
    requires other.platform == ComparedPlatform(job.platform)
    requires Normalize(other.target) == Normalize(job.target)
    ensures CheckTarget(job, true, jobs, stored, "") == DuplicateMessage(job.platform)
  {
    CheckTargetDuplicate(job, true, jobs, stored);
  }

  /** Editing a job without changing its normalised text is never refused. */
  lemma UnchangedEditAccepted(job: Job, jobs: seq<Job>, storedTarget: string)
    requires Normalize(storedTarget) == Normalize(job.target)
    ensures CheckTarget(job, false, jobs, Some(storedTarget), "") == ""
  {
    CheckTargetDuplicate(job, false, jobs, Some(storedTarget));
  }

  /** Spaces, line feeds and semicolons never make two texts different for the check. */
  lemma CheckTargetRespectsNormalization(a: Job, b: Job, isCreate: bool, jobs: seq<Job>, stored: Option<string>)
    requires a.platform == b.platform
    requires Normalize(a.target) == Normalize(b.target)
    ensures CheckTarget(a, isCreate, jobs, stored, "") == CheckTarget(b, isCreate, jobs, stored, "")
  {
  }
}
