/**
 * Schedule derivation: the fixed cron table (getCron) and the interval bounds
 * that are enforced before it is used (checkNum).
 */
module Cron {
  import opened Base
  import opened Text
  import opened Domain

  /**
   * getCron: SECOND, MINUTE and HOUR repeat every `num` units; DAY, WEEK, MONTH
   * and YEAR are fixed expressions that ignore `num`; any other unit gives "".
   */
  function GetCron(num: int, unit: TimeUnit): (r: string)
    ensures r == "" <==> unit.OtherUnit?
  {
    GetCronText(IntToString(num), unit)
  }

  /** The cron table, with the interval already written as text. */
  function GetCronText(time: string, unit: TimeUnit): string {
    match unit
    case Second => "0/" + time + " * * * * ?"
    case Minute => "0 */" + time + " * * * ?"
    case Hour => "* * 0/" + time + " * * ?"
    case Day => "0 0 23 * * ?"
    case Week => "0 0 12 ? * WED"
    case Month => "0 15 10 15 * ?"
    case Year => "0 10,44 14 ? 3 WED"
    case OtherUnit(_) => ""
  }

  // ---------------------------------------------------------------------------
  // Reading a cron expression back: its space-separated fields
  // ---------------------------------------------------------------------------

  /** Index of the first space of `s`, or `|s|`. */
  function SpaceIndex(s: string): (k: nat)
    ensures k <= |s|
    ensures forall i :: 0 <= i < k ==> s[i] != ' '
    ensures k < |s| ==> s[k] == ' '
  {
    if s == [] || s[0] == ' ' then 0 else 1 + SpaceIndex(s[1..])
  }

  /** Field `k` (from 0) of a cron expression whose fields are separated by single spaces. */
  function FieldAt(s: string, k: nat): Option<string>
    decreases |s|
  {
    var i := SpaceIndex(s);
    if k == 0 then Some(s[..i])
    else if i == |s| then None
    else FieldAt(s[i + 1..], k - 1)
  }

  /** The first field ends at the first space; later fields are read in the rest. */
  lemma FieldAtCons(a: string, b: string, k: nat)
    requires ' ' !in a
    ensures FieldAt(a + " " + b, 0) == Some(a)
    ensures FieldAt(a + " " + b, k + 1) == FieldAt(b, k)
  {
    var s := a + " " + b;
    assert SpaceIndex(s) == |a| by {
      assert forall i :: 0 <= i < |a| ==> s[i] == a[i];
      assert s[|a|] == ' ';
    }
    assert s[..|a|] == a;
    assert s[|a| + 1..] == b;
  }

  lemma NoSpaceInNumber(n: int)
    ensures ' ' !in IntToString(n)
  {
    var s := IntToString(n);
    if n < 0 {
      assert forall i :: 1 <= i < |s| ==> s[i] == NatToString(-n)[i - 1];
    }
  }

  /** Which field carries the repeat interval, for the units that have one. */
  function IntervalField(unit: TimeUnit): Option<nat> {
    match unit
    case Second => Some(0)
    case Minute => Some(1)
    case Hour => Some(2)
    case _ => None
  }

  /** The repeat interval written in a cron expression (`0/n` or `*\/n` in the unit's field). */
  function IntervalOf(expr: string, unit: TimeUnit): Option<int> {
    match IntervalField(unit)
    case None => None
    case Some(k) =>
      match FieldAt(expr, k)
      case None => None
      case Some(f) =>
        if StartsWith(f, "0/") || StartsWith(f, "*/") then ParseInt(f[2..]) else None
  }

  /** The interval field `0/t` or `*\/t` reads back as the number `t` was written from. */
  lemma IntervalFieldReads(num: int, p: string, f: string)
    requires InInt(num)
    requires p == "0/" || p == "*/"
    requires f == p + IntToString(num)
    ensures StartsWith(f, "0/") || StartsWith(f, "*/")
    ensures ParseInt(f[2..]) == Some(num)
  {
    assert f[..2] == p;
    assert f[2..] == IntToString(num);
    ParseIntToString(num);
  }

  /** A cron expression whose field `k` is `f` = `p` + the text of `num` reports `num` as interval. */
  lemma IntervalFromField(expr: string, unit: TimeUnit, k: nat, p: string, f: string, num: int)
    requires InInt(num)
    requires IntervalField(unit) == Some(k)
    requires p == "0/" || p == "*/"
    requires f == p + IntToString(num)
    requires FieldAt(expr, k) == Some(f)
    ensures IntervalOf(expr, unit) == Some(num)
  {
    IntervalFieldReads(num, p, f);
  }

  lemma FieldIsSpaceFree(p: string, num: int)
    requires ' ' !in p
    ensures ' ' !in p + IntToString(num)
  {
    NoSpaceInNumber(num);
  }

  lemma SecondShape(t: string)
    ensures GetCronText(t, Second) == ("0/" + t) + " " + "* * * * ?"
  {
    assert " * * * * ?" == " " + "* * * * ?";
  }

  lemma MinuteShape(t: string)
    ensures GetCronText(t, Minute) == "0" + " " + (("*/" + t) + " " + "* * * ?")
  {
    assert "0 */" == "0" + " " + "*/";
    assert " * * * ?" == " " + "* * * ?";
  }

  lemma HourShape(t: string)
    ensures GetCronText(t, Hour) == "*" + " " + ("*" + " " + (("0/" + t) + " " + "* * ?"))
  {
    assert "* * 0/" == "*" + " " + "*" + " " + "0/";
    assert " * * ?" == " " + "* * ?";
  }

  lemma SecondInterval(num: int)
    requires InInt(num)
    ensures IntervalOf(GetCron(num, Second), Second) == Some(num)
  {
    var f := "0/" + IntToString(num);
    FieldIsSpaceFree("0/", num);
    SecondShape(IntToString(num));
    FieldAtCons(f, "* * * * ?", 0);
    IntervalFromField(GetCron(num, Second), Second, 0, "0/", f, num);
  }

  lemma MinuteInterval(num: int)
    requires InInt(num)
    ensures IntervalOf(GetCron(num, Minute), Minute) == Some(num)
  {
    var f := "*/" + IntToString(num);
    FieldIsSpaceFree("*/", num);
    var g := f + " " + "* * * ?";
    MinuteShape(IntToString(num));
    FieldAtCons(f, "* * * ?", 0);
    FieldAtCons("0", g, 0);
    IntervalFromField(GetCron(num, Minute), Minute, 1, "*/", f, num);
  }

  lemma HourInterval(num: int)
    requires InInt(num)
    ensures IntervalOf(GetCron(num, Hour), Hour) == Some(num)
  {
    var f := "0/" + IntToString(num);
    FieldIsSpaceFree("0/", num);
    var g := f + " " + "* * ?";
    var h := "*" + " " + g;
    HourShape(IntToString(num));
    FieldAtCons(f, "* * ?", 0);
    FieldAtCons("*", g, 0);
    FieldAtCons("*", h, 1);
    IntervalFromField(GetCron(num, Hour), Hour, 2, "0/", f, num);
  }

  /** SECOND, MINUTE and HOUR expressions carry `num` as their repeat interval. */
  lemma CronIntervalRoundTrip(num: int, unit: TimeUnit)
    requires InInt(num)
    requires unit == Second || unit == Minute || unit == Hour
    ensures IntervalOf(GetCron(num, unit), unit) == Some(num)
  {
    match unit
    case Second => SecondInterval(num);
    case Minute => MinuteInterval(num);
    case Hour => HourInterval(num);
  }

  /** DAY, WEEK, MONTH and YEAR expressions do not depend on `num`; only an unknown unit yields "". */
  lemma CronFixedUnits(num: int, other: int, unit: TimeUnit)
    ensures unit == Day || unit == Week || unit == Month || unit == Year ==> GetCron(num, unit) == GetCron(other, unit)
    ensures GetCron(num, unit) == "" <==> unit.OtherUnit?
  {
  }

  // ---------------------------------------------------------------------------
  // checkNum
  // ---------------------------------------------------------------------------

  /** The largest interval checkNum admits for a unit; YEAR and unknown units are not checked. */
  function IntervalBound(unit: TimeUnit): Option<int> {
    match unit
    case Second => Some(59)
    case Minute => Some(59)
    case Hour => Some(23)
    case Day => Some(30)
    case Week => Some(4)
    case Month => Some(12)
    case _ => None
  }

  /**
   * checkNum: the message of the assertion that fails (the interval is below 0
   * or above the unit's bound), or None when the interval is admitted.
   */
  function CheckNum(num: int, unit: TimeUnit): (r: Option<string>)
    ensures r.Some? ==> IntervalBound(unit).Some? && (num < 0 || num > IntervalBound(unit).value)
  {
    match unit
    case Second => if num < 0 || num > 59 then Some("时间间隔应大于0小于等于59") else None
    case Minute => if num < 0 || num > 59 then Some("时间间隔应大于0小于等于59") else None
    case Hour => if num < 0 || num > 23 then Some("时间间隔应大于0小于等于23") else None
    case Day => if num < 0 || num > 30 then Some("时间间隔应大于0小于等于30") else None
    case Week => if num < 0 || num > 4 then Some("时间间隔应大于0小于等于4") else None
    case Month => if num < 0 || num > 12 then Some("时间间隔应大于0小于12") else None
    case _ => None
  }

  /** checkNum admits exactly the intervals from 0 up to the unit's bound (all of them for an unchecked unit). */
  lemma CheckNumAdmits(num: int, unit: TimeUnit)
    ensures CheckNum(num, unit).None? <==> IntervalBound(unit).None? || 0 <= num <= IntervalBound(unit).value
  {
  }
}
