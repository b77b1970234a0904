/** The interval store: the rows of the three activity tables (user_activity,
    game_activity, voice_activity), their open-interval lookup, and the two
    invariants the reconciler keeps (at most one open interval per user, and
    an append-only history). Time is integer UTC seconds. */
module Intervals {

  datatype Option<T> = None | Some(value: T)

  type UserId = string

  /** One row of an activity table. `value` is the status, the game name or
      the voice channel id; `end == None` means the interval is still open. */
  datatype Interval = Interval(user: UserId, value: string, start: int, end: Option<int>)

  predicate OpenFor(iv: Interval, user: UserId)
  {
    iv.user == user && iv.end.None?
  }

  /** The row `filter_by(user_id=user, end_time=None).first()` finds:
      the lowest-indexed open interval of `user`, if any. */
  function FirstOpen(log: seq<Interval>, user: UserId): (r: Option<nat>)
    ensures r.Some? ==> r.value < |log| && OpenFor(log[r.value], user)
    ensures r.Some? ==> forall j :: 0 <= j < r.value ==> !OpenFor(log[j], user)
    ensures r.None? <==> forall j :: 0 <= j < |log| ==> !OpenFor(log[j], user)
  {
    if |log| == 0 then None
    else if OpenFor(log[0], user) then Some(0)
    else match FirstOpen(log[1..], user)
      case None => None
      case Some(k) => Some(k + 1)
  }

  /** The invariant of every activity table: no user has two open intervals. */
  predicate AtMostOneOpen(log: seq<Interval>)
  {
    forall i, j :: 0 <= i < j < |log| && log[i].end.None? && log[j].end.None? ==> log[i].user != log[j].user
  }

  /** Under the invariant the row the lookup finds is the user's only open one. */
  lemma FirstOpenIsOnly(log: seq<Interval>, user: UserId)
    requires AtMostOneOpen(log)
    requires FirstOpen(log, user).Some?
    ensures forall j :: 0 <= j < |log| && OpenFor(log[j], user) ==> j == FirstOpen(log, user).value
  {
  }

  /** The interval `iv` closed at time `t`. */
  function Closed(iv: Interval, t: int): Interval
  {
    iv.(end := Some(t))
  }

  /** History only grows: `b` keeps every row of `a` in place, and a row of
      `a` may change only by getting an end time while it was still open. */
  predicate EvolvesTo(a: seq<Interval>, b: seq<Interval>)
  {
    |a| <= |b| &&
    forall i :: 0 <= i < |a| ==> b[i] == a[i] || (a[i].end.None? && b[i].end.Some? && b[i] == Closed(a[i], b[i].end.value))
  }

  lemma EvolvesTransitive(a: seq<Interval>, b: seq<Interval>, c: seq<Interval>)
    requires EvolvesTo(a, b) && EvolvesTo(b, c)
    ensures EvolvesTo(a, c)
  {
    forall i | 0 <= i < |a|
      ensures c[i] == a[i] || (a[i].end.None? && c[i].end.Some? && c[i] == Closed(a[i], c[i].end.value))
    {
      assert b[i] == a[i] || (a[i].end.None? && b[i].end.Some? && b[i] == Closed(a[i], b[i].end.value));
    }
  }

  /** A closed row is never touched again. */
  lemma ClosedRowsAreFrozen(a: seq<Interval>, b: seq<Interval>, i: nat)
    requires EvolvesTo(a, b)
    requires i < |a| && a[i].end.Some?
    ensures b[i] == a[i]
  {
  }

  /** Every row started by time `t`, and every closed row ended between its
      start and `t`: the store as the reconciler leaves it at tick `t`. */
  predicate Chronological(log: seq<Interval>, t: int)
  {
    forall i :: 0 <= i < |log| ==> log[i].start <= t && (log[i].end.Some? ==> log[i].start <= log[i].end.value <= t)
  }

  /** Seconds an interval lasted, an open one counting up to `now`:
      `(end_time or utcnow()) - start_time`. */
  function Duration(iv: Interval, now: int): int
  {
    (match iv.end
     case Some(e) => e
     case None => now) - iv.start
  }

  lemma DurationNonNegative(log: seq<Interval>, now: int, i: nat)
    requires Chronological(log, now) && i < |log|
    ensures Duration(log[i], now) >= 0
  {
  }

  /** The three activity tables. */
  datatype Logs = Logs(status: seq<Interval>, games: seq<Interval>, voice: seq<Interval>)

  predicate ValidLogs(l: Logs)
  {
    AtMostOneOpen(l.status) && AtMostOneOpen(l.games) && AtMostOneOpen(l.voice)
  }

  predicate LogsEvolve(a: Logs, b: Logs)
  {
    EvolvesTo(a.status, b.status) && EvolvesTo(a.games, b.games) && EvolvesTo(a.voice, b.voice)
  }

  predicate LogsChronological(l: Logs, t: int)
  {
    Chronological(l.status, t) && Chronological(l.games, t) && Chronological(l.voice, t)
  }

  lemma LogsEvolveTransitive(a: Logs, b: Logs, c: Logs)
    requires LogsEvolve(a, b) && LogsEvolve(b, c)
    ensures LogsEvolve(a, c)
  {
    EvolvesTransitive(a.status, b.status, c.status);
    EvolvesTransitive(a.games, b.games, c.games);
    EvolvesTransitive(a.voice, b.voice, c.voice);
  }
}
