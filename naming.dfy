/**
 * Job-name suffixes (dealMax): every stored job name is read as a three-letter
 * prefix followed by a Java `int`; a new job is named after the largest one plus one.
 */
module Naming {
  import opened Base
  import opened Text
  import opened Domain

  /** `substring(3)` succeeds and `Integer.parseInt` accepts the rest. */
  predicate ValidName(name: string) {
    |name| >= 3 && ParseInt(name[3..]).Some?
  }

  predicate AllValidNames(jobs: seq<Job>) {
    forall i :: 0 <= i < |jobs| ==> ValidName(jobs[i].jobName)
  }

  /** The number after the first three characters of a name. */
  function Suffix(name: string): int
    requires ValidName(name)
  {
    ParseInt(name[3..]).value
  }

  /** `reduce(Integer::max)` over the suffixes of a non-empty list of jobs. */
  function MaxSuffix(jobs: seq<Job>): (m: int)
    requires |jobs| > 0 && AllValidNames(jobs)
    ensures InInt(m)
    ensures forall i :: 0 <= i < |jobs| ==> Suffix(jobs[i].jobName) <= m
    ensures exists i :: 0 <= i < |jobs| && Suffix(jobs[i].jobName) == m
  {
    if |jobs| == 1 then Suffix(jobs[0].jobName)
    else
      var rest := MaxSuffix(jobs[1..]);
      assert forall i :: 1 <= i < |jobs| ==> jobs[1..][i - 1] == jobs[i];
      var first := Suffix(jobs[0].jobName);
      if first >= rest then first else rest
  }

  /** dealMax: 0 for no jobs, otherwise the largest name suffix. */
  function DealMax(jobs: seq<Job>): (m: int)
    requires AllValidNames(jobs)
    ensures InInt(m)
    ensures jobs == [] ==> m == 0
    ensures forall i :: 0 <= i < |jobs| ==> Suffix(jobs[i].jobName) <= m
    ensures jobs != [] ==> exists i :: 0 <= i < |jobs| && Suffix(jobs[i].jobName) == m
  {
    if jobs == [] then 0 else MaxSuffix(jobs)
  }

  /** The name insertTask gives a new job: its name followed by `dealMax + 1`, in `int` arithmetic. */
  function NewName(prefix: string, jobs: seq<Job>): (r: string)
    requires AllValidNames(jobs)
    ensures |r| > |prefix| && r[..|prefix|] == prefix
  {
    prefix + IntToString(Wrap(DealMax(jobs) + 1))
  }

  /**
   * With a three-character prefix and no overflow, the new name differs from
   * every stored name: its suffix exceeds all of theirs.
   */
  lemma NewNameIsFresh(prefix: string, jobs: seq<Job>)
    requires AllValidNames(jobs)
    requires |prefix| == 3
    requires DealMax(jobs) < IntMax
    ensures forall i :: 0 <= i < |jobs| ==> jobs[i].jobName != NewName(prefix, jobs)
  {
    var n := DealMax(jobs) + 1;
    var name := NewName(prefix, jobs);
    assert name[3..] == IntToString(n);
    ParseIntToString(n);
    forall i | 0 <= i < |jobs|
      ensures jobs[i].jobName != name
    {
      if jobs[i].jobName == name {
        assert false;
      }
    }
  }

  /** A name built from a three-character prefix keeps the next dealMax defined, and adds its suffix. */
  lemma NewNameStaysValid(prefix: string, jobs: seq<Job>, job: Job)
    requires AllValidNames(jobs)
    requires |prefix| == 3
    requires job.jobName == NewName(prefix, jobs)
    ensures ValidName(job.jobName) && Suffix(job.jobName) == Wrap(DealMax(jobs) + 1)
    ensures AllValidNames(jobs + [job])
  {
    var n := Wrap(DealMax(jobs) + 1);
    SuffixOf(prefix, n, job.jobName);
    var all := jobs + [job];
    forall i | 0 <= i < |all|
      ensures ValidName(all[i].jobName)
    {
      if i < |jobs| {
        assert all[i] == jobs[i];
      }
    }
  }

  /**
   * insertTask does not check that the prefix has three characters. With a
   * two-character prefix the suffix is read from the wrong place: for the
   * table ["xyz12", "ab13"], dealMax is max(12, 3) = 12, and the new name
   * "ab" + 13 is already taken.
   */
  lemma ShortPrefixCollides(j1: Job, j2: Job)
    requires j1.jobName == "xyz12" && j2.jobName == "ab13"
    ensures AllValidNames([j1, j2])
    ensures NewName("ab", [j1, j2]) == j2.jobName
  {
    var jobs := [j1, j2];
    assert j1.jobName[3..] == IntToString(12);
    assert j2.jobName[3..] == IntToString(3);
    ParseIntToString(12);
    ParseIntToString(3);
    assert Suffix(j1.jobName) == 12 && Suffix(j2.jobName) == 3;
    assert DealMax(jobs) == 12;
    assert IntToString(Wrap(13)) == "13";
  }

  /**
   * Nor does it check that the prefix is no longer than three characters.
   * When the fourth character cannot start an `int` (as in "cpu_usage"), the
   * saved name is one dealMax cannot read, so every later insert that gets
   * that far throws.
   */
  lemma LongPrefixBreaksTable(prefix: string, jobs: seq<Job>, job: Job)
    requires AllValidNames(jobs)
    requires |prefix| > 3 && !IsDigit(prefix[3]) && prefix[3] != '+' && prefix[3] != '-'
    requires job.jobName == NewName(prefix, jobs)
    ensures !ValidName(job.jobName)
    ensures !AllValidNames(jobs + [job])
  {
    var rest := job.jobName[3..];
    assert rest[0] == prefix[3];
    assert SignLen(rest, 0) == 0;
    assert !AllDigits(rest[0..]);
    assert (jobs + [job])[|jobs|] == job;
  }

  lemma SuffixOf(prefix: string, n: int, name: string)
    requires |prefix| == 3 && InInt(n)
    requires name == prefix + IntToString(n)
    ensures ValidName(name) && Suffix(name) == n
  {
    assert name[3..] == IntToString(n);
    ParseIntToString(n);
  }
}
