/** The weekly reports: the row queries of `status`, `gametime` and
    `voicetime`, the loops that total the durations of the rows found, and
    the hours/minutes split used to display a total. */
module Aggregation {
  import opened Intervals

  const DaySeconds: int := 86400
  const WeekSeconds: int := 7 * DaySeconds
  const MonthSeconds: int := 30 * DaySeconds

  /** The conditions of one `filter(...)`: the user the rows must belong to,
      a user they must not belong to, a value they must carry, a value they
      must not carry, and the earliest start time. */
  datatype Query = Query(
    user: Option<UserId>,
    notUser: Option<UserId>,
    value: Option<string>,
    notValue: Option<string>,
    since: int)

  predicate Matches(iv: Interval, q: Query)
  {
    && (q.user.Some? ==> iv.user == q.user.value)
    && (q.notUser.Some? ==> iv.user != q.notUser.value)
    && (q.value.Some? ==> iv.value == q.value.value)
    && (q.notValue.Some? ==> iv.value != q.notValue.value)
    && iv.start >= q.since
  }

  /** The rows of `log` a query returns, in table order. */
  function Select(log: seq<Interval>, q: Query): (r: seq<Interval>)
    ensures |r| <= |log|
  {
    if |log| == 0 then []
    else if Matches(log[|log| - 1], q) then Select(log[..|log| - 1], q) + [log[|log| - 1]]
    else Select(log[..|log| - 1], q)
  }

  /** A query returns exactly the rows that match it. */
  lemma {:induction false} SelectMatches(log: seq<Interval>, q: Query)
    ensures forall iv :: iv in Select(log, q) <==> iv in log && Matches(iv, q)
  {
    if |log| > 0 {
      SelectMatches(log[..|log| - 1], q);
      assert forall iv :: iv in log <==> iv in log[..|log| - 1] || iv == log[|log| - 1];
    }
  }

  /** The query of the three weekly reports: the member's rows that started
      in the last seven days. */
  function WeekOf(user: UserId, now: int): Query
  {
    Query(Some(user), None, None, None, now - WeekSeconds)
  }

  /** How rows are grouped: by the user they belong to or by their value
      (status, game or channel). */
  datatype Field = ByUser | ByValue

  function KeyOf(iv: Interval, f: Field): string
  {
    match f
    case ByUser => iv.user
    case ByValue => iv.value
  }

  /** Sum of the durations of all rows. */
  function Total(ivs: seq<Interval>, now: int): int
  {
    if |ivs| == 0 then 0 else Total(ivs[..|ivs| - 1], now) + Duration(ivs[|ivs| - 1], now)
  }

  /** Sum of the durations of the rows whose key is `key`. */
  function TotalBy(ivs: seq<Interval>, f: Field, key: string, now: int): int
  {
    if |ivs| == 0 then 0
    else TotalBy(ivs[..|ivs| - 1], f, key, now) + (if KeyOf(ivs[|ivs| - 1], f) == key then Duration(ivs[|ivs| - 1], now) else 0)
  }

  /** The distinct keys of the rows, in order of first appearance (the order
      in which a dict built by a loop over the rows gets its keys). */
  function Keys(ivs: seq<Interval>, f: Field): (ks: seq<string>)
    ensures forall i, j :: 0 <= i < j < |ks| ==> ks[i] != ks[j]
  {
    if |ivs| == 0 then []
    else
      var init := Keys(ivs[..|ivs| - 1], f);
      var k := KeyOf(ivs[|ivs| - 1], f);
      if k in init then init else init + [k]
  }

  /** The keys are exactly those some row carries. */
  lemma {:induction false} KeysMembers(ivs: seq<Interval>, f: Field)
    ensures forall k :: k in Keys(ivs, f) <==> exists iv :: iv in ivs && KeyOf(iv, f) == k
  {
    if |ivs| > 0 {
      KeysMembers(ivs[..|ivs| - 1], f);
      assert forall iv :: iv in ivs <==> iv in ivs[..|ivs| - 1] || iv == ivs[|ivs| - 1];
    }
  }

  /** A key no row carries has total zero. */
  lemma {:induction false} TotalByAbsent(ivs: seq<Interval>, f: Field, key: string, now: int)
    requires forall iv :: iv in ivs ==> KeyOf(iv, f) != key
    ensures TotalBy(ivs, f, key, now) == 0
  {
    if |ivs| > 0 {
      TotalByAbsent(ivs[..|ivs| - 1], f, key, now);
    }
  }

  /** A key that is not among the rows' keys has total zero. */
  lemma TotalByNotKey(ivs: seq<Interval>, f: Field, key: string, now: int)
    requires key !in Keys(ivs, f)
    ensures TotalBy(ivs, f, key, now) == 0
  {
    KeysMembers(ivs, f);
    TotalByAbsent(ivs, f, key, now);
  }

  /** With every row chronological, no total is negative. */
  lemma {:induction false} TotalNonNegative(ivs: seq<Interval>, now: int)
    requires Chronological(ivs, now)
    ensures Total(ivs, now) >= 0
  {
    if |ivs| > 0 {
      TotalNonNegative(ivs[..|ivs| - 1], now);
      DurationNonNegative(ivs, now, |ivs| - 1);
    }
  }

  /** Extending the rows by one adds that row's duration to its own key only. */
  lemma TotalByStep(ivs: seq<Interval>, i: nat, f: Field, now: int)
    requires i < |ivs|
    ensures forall k ::
      TotalBy(ivs[..i + 1], f, k, now) == TotalBy(ivs[..i], f, k, now) + (if KeyOf(ivs[i], f) == k then Duration(ivs[i], now) else 0)
  {
    assert ivs[..i + 1][..i] == ivs[..i];
  }

  lemma KeysStep(ivs: seq<Interval>, i: nat, f: Field)
    requires i < |ivs|
    ensures Keys(ivs[..i + 1], f) ==
      if KeyOf(ivs[i], f) in Keys(ivs[..i], f) then Keys(ivs[..i], f) else Keys(ivs[..i], f) + [KeyOf(ivs[i], f)]
  {
    assert ivs[..i + 1][..i] == ivs[..i];
  }

  /** The four keys `status` reports. */
  const StatusNames: set<string> := {"online", "idle", "dnd", "offline"}

  predicate IsStatusName(s: string)
  {
    s in StatusNames
  }

  predicate AllStatusNames(rows: seq<Interval>)
  {
    forall j :: 0 <= j < |rows| ==> IsStatusName(rows[j].value)
  }

  /** Every entry of `times` is the total of its key over `rows`. */
  predicate TotalsAgree(times: map<string, int>, rows: seq<Interval>, f: Field, now: int)
  {
    forall k :: k in times ==> times[k] == TotalBy(rows, f, k, now)
  }

  /** Adding row `i`'s duration to its key's entry extends the agreement
      from the first `i` rows to the first `i + 1`. */
  lemma TotalsAgreeStep(times: map<string, int>, rows: seq<Interval>, i: nat, f: Field, now: int, before: int)
    requires i < |rows| && TotalsAgree(times, rows[..i], f, now)
    requires before == TotalBy(rows[..i], f, KeyOf(rows[i], f), now)
    ensures TotalsAgree(times[KeyOf(rows[i], f) := before + Duration(rows[i], now)], rows[..i + 1], f, now)
  {
    TotalByStep(rows, i, f, now);
  }

  /** The state of the `status` loop after its first `i` rows: the four keys,
      each with its total over those rows, all of which carry one of them. */
  predicate StatusSoFar(times: map<string, int>, rows: seq<Interval>, i: nat, now: int)
    requires i <= |rows|
  {
    times.Keys == StatusNames && TotalsAgree(times, rows[..i], ByValue, now) && AllStatusNames(rows[..i])
  }

  lemma StatusSoFarInit(rows: seq<Interval>, now: int)
    ensures StatusSoFar(map k | k in StatusNames :: 0, rows, 0, now)
  {
  }

  /** Adding row `i`, whose status is one of the four, keeps the state. */
  lemma StatusSoFarStep(times: map<string, int>, rows: seq<Interval>, i: nat, now: int, next: map<string, int>)
    requires i < |rows| && StatusSoFar(times, rows, i, now) && rows[i].value in times
    requires next == times[rows[i].value := times[rows[i].value] + Duration(rows[i], now)]
    ensures StatusSoFar(next, rows, i + 1, now)
  {
    TotalsAgreeStep(times, rows, i, ByValue, now, times[rows[i].value]);
    assert rows[..i + 1] == rows[..i] + [rows[i]];
  }

  /** A row whose status is none of the four spoils the report. */
  lemma StatusSoFarMissing(times: map<string, int>, rows: seq<Interval>, i: nat, now: int)
    requires i < |rows| && StatusSoFar(times, rows, i, now) && rows[i].value !in times
    ensures !AllStatusNames(rows)
  {
    assert !IsStatusName(rows[i].value);
  }

  lemma StatusSoFarDone(times: map<string, int>, rows: seq<Interval>, now: int)
    requires StatusSoFar(times, rows, |rows|, now)
    ensures times.Keys == StatusNames && TotalsAgree(times, rows, ByValue, now) && AllStatusNames(rows)
  {
    assert rows[..|rows|] == rows;
  }

  /** The `status` command's loop: per-status seconds of the member's rows of
      the last week. A row whose status is not one of the four keys makes
      `status_times[activity.status] += duration` fail, and then there is no
      report. */
  method StatusTimes(log: seq<Interval>, user: UserId, now: int) returns (r: Option<map<string, int>>)
    ensures r.Some? <==> AllStatusNames(Select(log, WeekOf(user, now)))
    ensures r.Some? ==> r.value.Keys == StatusNames && TotalsAgree(r.value, Select(log, WeekOf(user, now)), ByValue, now)
  {
    var activities := Select(log, WeekOf(user, now));
    var times := map k | k in StatusNames :: 0;
    StatusSoFarInit(activities, now);
    var i := 0;
    while i < |activities|
      invariant 0 <= i <= |activities|
      invariant StatusSoFar(times, activities, i, now)
    {
      var activity := activities[i];
      if activity.value !in times {
        StatusSoFarMissing(times, activities, i, now);
        return None;
      }
      var duration := Duration(activity, now);
      ghost var prev := times;
      times := times[activity.value := times[activity.value] + duration];
      StatusSoFarStep(prev, activities, i, now, times);
      i := i + 1;
    }
    StatusSoFarDone(times, activities, now);
    return Some(times);
  }

  /** The `gametime` command's loop: per-game seconds of the member's rows of
      the last week, with the games in the order the dict receives them. */
  method GameTimes(log: seq<Interval>, user: UserId, now: int) returns (times: map<string, int>, order: seq<string>)
    ensures order == Keys(Select(log, WeekOf(user, now)), ByValue)
    ensures times.Keys == set g | g in order
    ensures TotalsAgree(times, Select(log, WeekOf(user, now)), ByValue, now)
  {
    var activities := Select(log, WeekOf(user, now));
    times, order := map[], [];
    var i := 0;
    while i < |activities|
      invariant 0 <= i <= |activities|
      invariant order == Keys(activities[..i], ByValue)
      invariant times.Keys == set g | g in order
      invariant TotalsAgree(times, activities[..i], ByValue, now)
    {
      var activity := activities[i];
      var duration := Duration(activity, now);
      var before := if activity.value in times then times[activity.value] else 0;
      KeysStep(activities, i, ByValue);
      if activity.value !in times {
        TotalByNotKey(activities[..i], ByValue, activity.value, now);
        order := order + [activity.value];
      }
      TotalsAgreeStep(times, activities, i, ByValue, now, before);
      times := times[activity.value := before + duration];
      i := i + 1;
    }
    assert activities[..i] == activities;
  }

  /** The `voicetime` command's loop: the member's voice seconds of the last week. */
  method VoiceTime(log: seq<Interval>, user: UserId, now: int) returns (total: int)
    ensures total == Total(Select(log, WeekOf(user, now)), now)
    ensures Chronological(log, now) ==> total >= 0
  {
    var activities := Select(log, WeekOf(user, now));
    total := 0;
    var i := 0;
    while i < |activities|
      invariant 0 <= i <= |activities|
      invariant total == Total(activities[..i], now)
    {
      var activity := activities[i];
      var duration := Duration(activity, now);
      total := total + duration;
      assert activities[..i + 1][..i] == activities[..i];
      i := i + 1;
    }
    assert activities[..i] == activities;
    if Chronological(log, now) {
      SelectChronological(log, WeekOf(user, now), now);
      TotalNonNegative(activities, now);
    }
  }

  lemma SelectChronological(log: seq<Interval>, q: Query, now: int)
    requires Chronological(log, now)
    ensures Chronological(Select(log, q), now)
  {
    var r := Select(log, q);
    SelectMatches(log, q);
    forall i | 0 <= i < |r|
      ensures r[i].start <= now && (r[i].end.Some? ==> r[i].start <= r[i].end.value <= now)
    {
      assert r[i] in log;
      var k :| 0 <= k < |log| && log[k] == r[i];
    }
  }

  /** A displayed total `time` splits into whole hours and the minutes left
      over: `hours = time // 3600`, `minutes = (time % 3600) // 60`. */
  function HoursMinutes(time: int): (hm: (int, int))
    ensures 0 <= hm.1 < 60
    ensures hm.0 * 3600 + hm.1 * 60 <= time < hm.0 * 3600 + hm.1 * 60 + 60
    ensures time >= 0 ==> hm.0 >= 0
  {
    (time / 3600, (time % 3600) / 60)
  }
}
