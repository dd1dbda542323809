/**
 * The job listing (selectAllJob): the publish flag, the sort by time, the
 * query filters, the page and the update flag.
 */
module Listing {
  import opened Base
  import opened Domain

  // ---------------------------------------------------------------------------
  // Splitting a filter text at commas (String.split(","))
  // ---------------------------------------------------------------------------

  /** The comma-separated parts of a text, empty parts included. */
  function Parts(s: string): (r: seq<string>)
    ensures |r| >= 1
    ensures forall p :: p in r ==> ',' !in p
    decreases |s|
  {
    if s == [] then [""]
    else
      var rest := Parts(s[1..]);
      if s[0] == ',' then [""] + rest
      else
        assert rest[0] in rest;
        [[s[0]] + rest[0]] + rest[1..]
  }

  /** The parts joined back with commas. */
  function Join(parts: seq<string>): string
    requires |parts| >= 1
    decreases |parts|
  {
    if |parts| == 1 then parts[0] else parts[0] + "," + Join(parts[1..])
  }

  /** Splitting loses nothing: joining the parts gives the text back. */
  lemma {:induction false} JoinParts(s: string)
    ensures Join(Parts(s)) == s
    decreases |s|
  {
    if s != [] {
      JoinParts(s[1..]);
      var rest := Parts(s[1..]);
      if s[0] == ',' {
        assert ([""] + rest)[1..] == rest;
      } else {
        if |rest| > 1 {
          assert ([[s[0]] + rest[0]] + rest[1..])[1..] == rest[1..];
        }
      }
    }
  }

  /** Java's split drops the empty parts at the end. */
  function DropTrailingEmpty(parts: seq<string>): (r: seq<string>)
    ensures |r| <= |parts| && r == parts[..|r|]
    ensures r != [] ==> r[|r| - 1] != ""
    ensures forall i :: |r| <= i < |parts| ==> parts[i] == ""
  {
    if parts == [] then []
    else if parts[|parts| - 1] == "" then DropTrailingEmpty(parts[..|parts| - 1])
    else parts
  }

  /** `s.split(",")` for a non-empty text. */
  function SplitComma(s: string): seq<string> {
    DropTrailingEmpty(Parts(s))
  }

  // ---------------------------------------------------------------------------
  // filter
  // ---------------------------------------------------------------------------

  /**
   * The creation-time window of a query: none (absent, or not two entries),
   * one whose dates do not parse, or the parsed bounds as ordered timestamps.
   */
  datatype Window = NoWindow | Unparsable | Window(start: int, end: int)

  /**
   * The listing query (the SysJob passed to selectAllJob): an empty text
   * stands for a null or empty filter.
   */
  datatype JobQuery = JobQuery(
    platform: string,
    targetGroup: string,
    window: Window,
    dataSourceId: Option<SourceId>,
    isManagement: Option<bool>)

  /** The jobs that satisfy `keep`, in order. */
  function Where(jobs: seq<Job>, keep: Job -> bool): (r: seq<Job>)
    ensures |r| <= |jobs|
    ensures forall j :: j in r <==> j in jobs && keep(j)
  {
    if jobs == [] then []
    else
      var rest := Where(jobs[1..], keep);
      assert forall j :: j in jobs <==> j == jobs[0] || j in jobs[1..];
      (if keep(jobs[0]) then [jobs[0]] else []) + rest
  }

  predicate OfPlatforms(j: Job, q: JobQuery, platformName: Platform -> string) {
    platformName(j.platform) in SplitComma(q.platform)
  }

  predicate OfGroups(j: Job, q: JobQuery) {
    j.targetGroup in SplitComma(q.targetGroup)
  }

  predicate InWindow(j: Job, w: Window)
    requires w.Window?
  {
    w.start <= j.createTime <= w.end
  }

  /**
   * filter: with no query every job is kept; otherwise each active filter
   * (platform names, target groups, creation window) re-filters the whole
   * list, so the last active one decides. `platformName` is the text of each
   * platform constant.
   */
  function Filter(jobs: seq<Job>, query: Option<JobQuery>, platformName: Platform -> string): (r: seq<Job>)
    ensures |r| <= |jobs|
    ensures forall j :: j in r ==> j in jobs
  {
    match query
    case None => jobs
    case Some(q) =>
      var byPlatform := if q.platform != "" then Where(jobs, j => OfPlatforms(j, q, platformName)) else jobs;
      var byGroup := if q.targetGroup != "" then Where(jobs, j => OfGroups(j, q)) else byPlatform;
      var w := q.window;
      if w.Window? then Where(jobs, j => InWindow(j, w)) else byGroup
  }

  /** A job is listed iff it satisfies the last active filter of the query. */
  lemma FilterLastWins(jobs: seq<Job>, q: JobQuery, platformName: Platform -> string, j: Job)
    ensures j in Filter(jobs, Some(q), platformName) <==>
              j in jobs &&
              (if q.window.Window? then InWindow(j, q.window)
               else if q.targetGroup != "" then OfGroups(j, q)
               else if q.platform != "" then OfPlatforms(j, q, platformName)
               else true)
  {
  }

  /** With a parsed window, the platform and group filters have no effect at all. */
  lemma WindowOverrides(jobs: seq<Job>, q: JobQuery, platformName: Platform -> string, platform: string, group: string)
    requires q.window.Window?
    ensures Filter(jobs, Some(q), platformName) == Filter(jobs, Some(q.(platform := platform, targetGroup := group)), platformName)
  {
  }

  // ---------------------------------------------------------------------------
  // sortJob
  // ---------------------------------------------------------------------------

  predicate SortedByTimeDesc(s: seq<Job>) {
    forall i, k :: 0 <= i < k < |s| ==> s[i].time >= s[k].time
  }

  /** Places a job before the first one that is not later than it. */
  function InsertByTime(x: Job, s: seq<Job>): (r: seq<Job>)
    requires SortedByTimeDesc(s)
    ensures SortedByTimeDesc(r)
    ensures multiset(r) == multiset(s) + multiset{x}
    ensures |r| == |s| + 1 && (r[0] == x || (s != [] && r[0] == s[0]))
  {
    if s == [] || s[0].time <= x.time then
      ConsSorted(x, s);
      [x] + s
    else
      var t := s[1..];
      var rest := InsertByTime(x, t);
      assert s == [s[0]] + t;
      assert s[0].time >= rest[0].time;
      ConsSorted(s[0], rest);
      [s[0]] + rest
  }

  lemma ConsSorted(a: Job, s: seq<Job>)
    requires SortedByTimeDesc(s)
    requires s != [] ==> a.time >= s[0].time
    ensures SortedByTimeDesc([a] + s)
  {
    var r := [a] + s;
    forall i, k | 0 <= i < k < |r|
      ensures r[i].time >= r[k].time
    {
      if i == 0 && k > 1 {
        assert r[k] == s[k - 1];
        assert s[0].time >= s[k - 1].time;
      }
    }
  }

  /** `sysJobs.sort(comparing(getTime).reversed())`: the latest first, a permutation of the list. */
  function SortByTimeDesc(s: seq<Job>): (r: seq<Job>)
    ensures SortedByTimeDesc(r)
    ensures |r| == |s|
    ensures multiset(r) == multiset(s)
  {
    if s == [] then []
    else
      assert s == [s[0]] + s[1..];
      InsertByTime(s[0], SortByTimeDesc(s[1..]))
  }

  // ---------------------------------------------------------------------------
  // Page (selectAllJob)
  // ---------------------------------------------------------------------------

  /**
   * `stream().skip((page - 1) * size).limit(size)` with `int` arithmetic; a
   * negative skip or limit throws (None).
   */
  function Paginate(list: seq<Job>, page: int, size: int): (r: Option<seq<Job>>)
    ensures r.None? <==> Wrap(Wrap(page - 1) * size) < 0 || size < 0
    ensures r.Some? ==> |r.value| <= |list| && |r.value| <= size
  {
    var skip := Wrap(Wrap(page - 1) * size);
    if skip < 0 || size < 0 then None
    else
      var from := if skip <= |list| then skip else |list|;
      var to := if size <= |list| - from then from + size else |list|;
      Some(list[from..to])
  }

  /**
   * Without overflow, page `page` holds the `size` jobs from position
   * `(page - 1) * size` on, or those that are left.
   */
  lemma PageContents(list: seq<Job>, page: int, size: int)
    requires InInt(page) && InInt(size)
    requires page >= 1 && size >= 0 && (page - 1) * size <= IntMax
    ensures Paginate(list, page, size).Some?
    ensures var r := Paginate(list, page, size).value;
            |r| == (if (page - 1) * size + size <= |list| then size
                    else if (page - 1) * size <= |list| then |list| - (page - 1) * size
                    else 0)
    ensures var r := Paginate(list, page, size).value;
            forall i :: 0 <= i < |r| ==> r[i] == list[(page - 1) * size + i]
  {
    var skip := (page - 1) * size;
    assert Wrap(page - 1) == page - 1;
    MulNonnegative(page - 1, size);
    assert Wrap(skip) == skip;
  }

  lemma MulNonnegative(a: int, b: int)
    requires a >= 0 && b >= 0
    ensures a * b >= 0
  {
  }

  /** Every job appears on page `k / size + 1`, at position `k % size`. */
  lemma PagesCover(list: seq<Job>, size: int, k: int)
    requires 0 < size <= IntMax && 0 <= k < |list| && |list| <= IntMax
    ensures var page := k / size + 1;
            Paginate(list, page, size).Some? &&
            k % size < |Paginate(list, page, size).value| &&
            Paginate(list, page, size).value[k % size] == list[k]
  {
    var page := k / size + 1;
    assert (page - 1) * size == k - k % size;
    PageContents(list, page, size);
  }

  // ---------------------------------------------------------------------------
  // addPublish and addIsCanUpdate
  // ---------------------------------------------------------------------------

  /** addPublish for one job: published iff the queried data source's binding lists it. */
  function MarkPublished(job: Job, bound: seq<JobId>): (r: Job)
    ensures r.published == Some(job.jobId in bound)
    ensures r.(published := job.published) == job
  {
    job.(published := Some(job.jobId in bound))
  }

  /** The whole of addPublish: only a query with a data source marks the jobs. */
  function PublishFlags(jobs: seq<Job>, query: Option<JobQuery>, bindings: map<SourceId, seq<JobId>>): (r: seq<Job>)
    ensures |r| == |jobs|
    ensures forall i :: 0 <= i < |jobs| ==> r[i].(published := jobs[i].published) == jobs[i]
    ensures query.None? || query.value.dataSourceId.None? ==> r == jobs
    ensures query.Some? && query.value.dataSourceId.Some? ==>
              var sid := query.value.dataSourceId.value;
              forall i :: 0 <= i < |jobs| ==> r[i].published == Some(sid in bindings && jobs[i].jobId in bindings[sid])
  {
    if query.Some? && query.value.dataSourceId.Some? then
      var sid := query.value.dataSourceId.value;
      var bound := if sid in bindings then bindings[sid] else [];
      seq(|jobs|, i requires 0 <= i < |jobs| => MarkPublished(jobs[i], bound))
    else jobs
  }

  method AddPublish(a: array<Job>, query: Option<JobQuery>, bindings: map<SourceId, seq<JobId>>)
    modifies a
    ensures a[..] == PublishFlags(old(a[..]), query, bindings)
  {
    if query.Some? && query.value.dataSourceId.Some? {
      var jobIds := if query.value.dataSourceId.value in bindings then bindings[query.value.dataSourceId.value] else [];
      var i := 0;
      while i < a.Length
        invariant 0 <= i <= a.Length
        invariant forall k :: 0 <= k < i ==> a[k] == MarkPublished(old(a[k]), jobIds)
        invariant forall k :: i <= k < a.Length ==> a[k] == old(a[k])
      {
        a[i] := a[i].(published := Some(a[i].jobId in jobIds));
        i := i + 1;
      }
    }
  }

  /**
   * addIsCanUpdate for one job: a data source missing from the configurations
   * is cleared, and the job can be updated iff it is published nowhere.
   */
  function MarkCanUpdate(job: Job, publishIds: seq<JobId>, configIds: seq<SourceId>): (r: Job)
    ensures r.canUpdate == Some(job.jobId !in publishIds)
    ensures r.dataSourceId == (if job.dataSourceId.Some? && job.dataSourceId.value !in configIds then None else job.dataSourceId)
    ensures r.(canUpdate := job.canUpdate, dataSourceId := job.dataSourceId) == job
  {
    var j := if job.dataSourceId.Some? && job.dataSourceId.value !in configIds then job.(dataSourceId := None) else job;
    j.(canUpdate := Some(job.jobId !in publishIds))
  }

  /** The whole of addIsCanUpdate. */
  function UpdateFlags(jobs: seq<Job>, publishIds: seq<JobId>, configIds: seq<SourceId>): (r: seq<Job>)
    ensures |r| == |jobs|
    ensures forall i :: 0 <= i < |jobs| ==> r[i].canUpdate == Some(jobs[i].jobId !in publishIds)
    ensures forall i :: 0 <= i < |jobs| ==> r[i].dataSourceId.Some? ==> r[i].dataSourceId.value in configIds
    ensures forall i :: 0 <= i < |jobs| ==> r[i].(canUpdate := jobs[i].canUpdate, dataSourceId := jobs[i].dataSourceId) == jobs[i]
  {
    seq(|jobs|, i requires 0 <= i < |jobs| => MarkCanUpdate(jobs[i], publishIds, configIds))
  }

  method AddIsCanUpdate(a: array<Job>, publishIds: seq<JobId>, configIds: seq<SourceId>)
    modifies a
    ensures a[..] == UpdateFlags(old(a[..]), publishIds, configIds)
  {
    var i := 0;
    while i < a.Length
      invariant 0 <= i <= a.Length
      invariant forall k :: 0 <= k < i ==> a[k] == MarkCanUpdate(old(a[k]), publishIds, configIds)
      invariant forall k :: i <= k < a.Length ==> a[k] == old(a[k])
    {
      if a[i].dataSourceId.Some? && a[i].dataSourceId.value !in configIds {
        a[i] := a[i].(dataSourceId := None);
      }
      if publishIds != [] {
        var published := a[i].jobId in publishIds;
        a[i] := a[i].(canUpdate := Some(!published));
      } else {
        a[i] := a[i].(canUpdate := Some(true));
      }
      i := i + 1;
    }
  }

  // ---------------------------------------------------------------------------
  // selectAllJob
  // ---------------------------------------------------------------------------

  /** Management listings are not paged. */
  predicate Unpaged(query: Option<JobQuery>) {
    query.Some? && query.value.isManagement == Some(true)
  }

  /**
   * selectAllJob: the total after filtering and the shown jobs, or None when
   * the page arithmetic throws.
   */
  function SelectAll(jobs: seq<Job>, query: Option<JobQuery>, bindings: map<SourceId, seq<JobId>>,
                     publishIds: seq<JobId>, configIds: seq<SourceId>, page: int, size: int,
                     platformName: Platform -> string): (r: Option<(int, seq<Job>)>)
    ensures r.None? <==> !Unpaged(query) && (Wrap(Wrap(page - 1) * size) < 0 || size < 0)
    ensures r.Some? ==> r.value.0 <= |jobs| && |r.value.1| <= r.value.0
    ensures r.Some? && Unpaged(query) ==> |r.value.1| == r.value.0
  {
    var filtered := Filter(SortByTimeDesc(PublishFlags(jobs, query, bindings)), query, platformName);
    var shown := if Unpaged(query) then Some(filtered) else Paginate(filtered, page, size);
    match shown
    case None => None
    case Some(s) => Some((|filtered|, UpdateFlags(s, publishIds, configIds)))
  }

  method SelectAllJob(jobs: seq<Job>, query: Option<JobQuery>, bindings: map<SourceId, seq<JobId>>,
                      publishIds: seq<JobId>, configIds: seq<SourceId>, page: int, size: int,
                      platformName: Platform -> string)
    returns (total: int, shown: Option<seq<Job>>)
    ensures shown.Some? <==> SelectAll(jobs, query, bindings, publishIds, configIds, page, size, platformName).Some?
    ensures shown.Some? ==> (total, shown.value) == SelectAll(jobs, query, bindings, publishIds, configIds, page, size, platformName).value
  {
    var sysJobs := new Job[|jobs|](i requires 0 <= i < |jobs| => jobs[i]);
    assert sysJobs[..] == jobs;
    AddPublish(sysJobs, query, bindings);
    var sorted := SortByTimeDesc(sysJobs[..]);
    var filtered := Filter(sorted, query, platformName);
    total := |filtered|;
    var paged := if Unpaged(query) then Some(filtered) else Paginate(filtered, page, size);
    if paged.None? {
      return total, None;
    }
    var result := new Job[|paged.value|](i requires 0 <= i < |paged.value| => paged.value[i]);
    assert result[..] == paged.value;
    AddIsCanUpdate(result, publishIds, configIds);
    shown := Some(result[..]);
  }
}
