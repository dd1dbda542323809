/**
 * The list and query operations the service applies to job lists:
 * selectBatchJobByIds, `removeAll`, the per-platform stream filters, the
 * configuration lookups, and removal of ids from a binding.
 */
module Selection {
  import opened Base
  import opened Domain

  /** A job is the stored record with its id. */
  predicate Stored(store: map<JobId, Job>, j: Job) {
    j.jobId in store && store[j.jobId] == j
  }

  lemma IdsMembership(list: seq<Job>, x: JobId)
    ensures x in Ids(list) <==> exists j :: j in list && j.jobId == x
  {
    if x in Ids(list) {
      var i :| 0 <= i < |list| && Ids(list)[i] == x;
      assert list[i] in list;
    }
  }

  lemma IdsConcat(a: seq<Job>, b: seq<Job>)
    ensures Ids(a + b) == Ids(a) + Ids(b)
  {
    var l, r := Ids(a + b), Ids(a) + Ids(b);
    assert |l| == |r|;
    forall i | 0 <= i < |l|
      ensures l[i] == r[i]
    {
      if i < |a| {
        assert (a + b)[i] == a[i];
      } else {
        assert (a + b)[i] == b[i - |a|];
      }
    }
  }

  /**
   * selectBatchJobByIds: the stored jobs whose ids are listed, each once, in
   * the order their ids first occur; ids without a stored job are skipped.
   */
  function SelectBatch(store: map<JobId, Job>, ids: seq<JobId>): (r: seq<Job>)
    requires WellKeyed(store)
    ensures |r| <= |ids|
    ensures forall j :: j in r ==> Stored(store, j)
    ensures forall x :: x in Ids(r) <==> x in ids && x in store
  {
    if ids == [] then []
    else
      var front := SelectBatch(store, ids[..|ids| - 1]);
      var x := ids[|ids| - 1];
      assert forall y :: y in ids[..|ids| - 1] ==> y in ids;
      assert forall y :: y in ids ==> y in ids[..|ids| - 1] || y == x;
      if x in store && x !in Ids(front) then
        var r := front + [store[x]];
        IdsConcat(front, [store[x]]);
        assert Ids([store[x]]) == [x];
        assert forall j :: j in r <==> j in front || j == store[x];
        r
      else front
  }

  /** `List.removeAll` with jobs identified by id: the jobs whose id is not listed, in order. */
  function RemoveAllById(list: seq<Job>, ids: seq<JobId>): (r: seq<Job>)
    ensures |r| <= |list|
    ensures forall j :: j in r <==> j in list && j.jobId !in ids
  {
    if list == [] then []
    else
      var rest := RemoveAllById(list[1..], ids);
      assert forall j :: j in list <==> j == list[0] || j in list[1..];
      (if list[0].jobId in ids then [] else [list[0]]) + rest
  }

  /** The jobs of one platform, in order. */
  function OfPlatform(list: seq<Job>, p: Platform): (r: seq<Job>)
    ensures |r| <= |list|
    ensures forall j :: j in r <==> j in list && j.platform == p
    ensures (forall j :: j in list ==> j.platform != p) ==> r == []
  {
    if list == [] then []
    else
      var rest := OfPlatform(list[1..], p);
      assert forall j :: j in list <==> j == list[0] || j in list[1..];
      (if list[0].platform == p then [list[0]] else []) + rest
  }

  /** `List<Long>.removeAll`: the ids not listed in `del`, in order. */
  function RemoveIds(ids: seq<JobId>, del: seq<JobId>): (r: seq<JobId>)
    ensures |r| <= |ids|
    ensures forall x :: x in r <==> x in ids && x !in del
    ensures (forall x :: x in ids ==> x in del) ==> r == []
  {
    if ids == [] then []
    else
      var rest := RemoveIds(ids[1..], del);
      assert forall x :: x in ids <==> x == ids[0] || x in ids[1..];
      (if ids[0] in del then [] else [ids[0]]) + rest
  }

  /** Removing the same ids twice is removing them once. */
  lemma {:induction false} RemoveIdsIdempotent(ids: seq<JobId>, del: seq<JobId>)
    ensures RemoveIds(RemoveIds(ids, del), del) == RemoveIds(ids, del)
  {
    if ids != [] {
      RemoveIdsIdempotent(ids[1..], del);
      var rest := RemoveIds(ids[1..], del);
      if ids[0] !in del {
        assert ([ids[0]] + rest)[1..] == rest;
      } else {
        assert [] + rest == rest;
      }
    }
  }

  /** One step of the removal: the first id is kept (offset 1) or dropped (offset 0). */
  lemma RemoveIdsStep(ids: seq<JobId>, del: seq<JobId>) returns (off: nat)
    requires ids != []
    ensures off == if ids[0] in del then 0 else 1
    ensures |RemoveIds(ids, del)| == |RemoveIds(ids[1..], del)| + off
    ensures forall t :: 0 <= t < |RemoveIds(ids[1..], del)| ==> RemoveIds(ids, del)[t + off] == RemoveIds(ids[1..], del)[t]
    ensures off == 1 ==> RemoveIds(ids, del)[0] == ids[0]
  {
    var rest := RemoveIds(ids[1..], del);
    if ids[0] in del {
      off := 0;
      assert RemoveIds(ids, del) == [] + rest;
    } else {
      off := 1;
      assert RemoveIds(ids, del) == [ids[0]] + rest;
    }
  }

  /** Removal keeps the remaining ids in their order: it is the same as filtering them. */
  lemma {:induction false} RemoveIdsKeepsOrder(ids: seq<JobId>, del: seq<JobId>, i: nat, k: nat)
    requires i < k < |ids| && ids[i] !in del && ids[k] !in del
    ensures exists a, b :: 0 <= a < b < |RemoveIds(ids, del)| && RemoveIds(ids, del)[a] == ids[i] && RemoveIds(ids, del)[b] == ids[k]
  {
    var rest := RemoveIds(ids[1..], del);
    var r := RemoveIds(ids, del);
    var off := RemoveIdsStep(ids, del);
    if i == 0 {
      assert ids[1..][k - 1] == ids[k];
      assert ids[k] in rest;
      var b :| 0 <= b < |rest| && rest[b] == ids[k];
      assert r[0] == ids[0] && r[b + 1] == ids[k];
    } else {
      RemoveIdsKeepsOrder(ids[1..], del, i - 1, k - 1);
      var a, b :| 0 <= a < b < |rest| && rest[a] == ids[i] && rest[b] == ids[k];
      assert r[a + off] == ids[i] && r[b + off] == ids[k];
    }
  }

  /** getConfigByid: the first configuration of a data source, if any. */
  function ConfigById(configs: seq<Config>, id: SourceId): (r: Option<Config>)
    ensures r.Some? <==> exists c :: c in configs && c.dataSourceId == id
    ensures r.Some? ==> r.value in configs && r.value.dataSourceId == id
  {
    if configs == [] then None
    else if configs[0].dataSourceId == id then Some(configs[0])
    else
      assert forall c :: c in configs <==> c == configs[0] || c in configs[1..];
      ConfigById(configs[1..], id)
  }

  /** getBatchById: the configurations whose data source is among `ids`, in table order. */
  function ConfigsOf(configs: seq<Config>, ids: set<SourceId>): (r: seq<Config>)
    ensures forall c :: c in r <==> c in configs && c.dataSourceId in ids
  {
    if configs == [] then []
    else
      assert forall c :: c in configs <==> c == configs[0] || c in configs[1..];
      (if configs[0].dataSourceId in ids then [configs[0]] else []) + ConfigsOf(configs[1..], ids)
  }

  /** getSourceIdByJobId: the data sources whose binding lists the job. */
  function SourcesOf(bindings: map<SourceId, seq<JobId>>, id: JobId): set<SourceId> {
    set s | s in bindings && id in bindings[s]
  }
}
