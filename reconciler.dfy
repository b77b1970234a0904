/** The per-member body of the polling loop: each tick compares what a member
    is doing now with the open interval of each tracked kind and opens or
    closes intervals accordingly. */
module Reconciler {
  import opened Intervals
  import opened Settings

  /** The kinds of Discord activity; only `Playing` is recorded as a game. */
  datatype ActivityType = Playing | Streaming | Listening | Watching | Custom | Competing

  datatype Activity = Activity(kind: ActivityType, name: string)

  /** What one poll observes of a guild member: `str(member.status)`,
      `member.activity` and the id of the voice channel the member is in. */
  datatype Member = Member(id: UserId, status: string, activity: Option<Activity>, voice: Option<string>)

  /** The status rule, which games follow too: open an interval when the user
      has none; when the open one carries another value, close it at `t` and
      open one for `observed` at `t`; otherwise leave the table alone. */
  function Reconcile(log: seq<Interval>, user: UserId, observed: string, t: int): seq<Interval>
  {
    match FirstOpen(log, user)
    case None => log + [Interval(user, observed, t, None)]
    case Some(k) =>
      if log[k].value == observed then log
      else log[k := Closed(log[k], t)] + [Interval(user, observed, t, None)]
  }

  predicate IsPlaying(activity: Option<Activity>)
  {
    activity.Some? && activity.value.kind == Playing
  }

  /** Games are reconciled only while the member is playing; otherwise the
      table, open game interval included, is left as it is. */
  function ReconcileGame(log: seq<Interval>, user: UserId, activity: Option<Activity>, t: int): seq<Interval>
  {
    if IsPlaying(activity) then Reconcile(log, user, activity.value.name, t) else log
  }

  /** Voice: open an interval on joining, close it on leaving; a switch of
      channel keeps the open interval as it is. */
  function ReconcileVoice(log: seq<Interval>, user: UserId, channel: Option<string>, t: int): seq<Interval>
  {
    match channel
    case Some(c) =>
      if FirstOpen(log, user).None? then log + [Interval(user, c, t, None)] else log
    case None =>
      match FirstOpen(log, user)
      case None => log
      case Some(k) => log[k := Closed(log[k], t)]
  }

  /** One member's step: each kind is reconciled only when its tracking is on. */
  function StepMember(l: Logs, s: Settings, m: Member, t: int): Logs
  {
    Logs(
      if s.trackStatus then Reconcile(l.status, m.id, m.status, t) else l.status,
      if s.trackGames then ReconcileGame(l.games, m.id, m.activity, t) else l.games,
      if s.trackVoice then ReconcileVoice(l.voice, m.id, m.voice, t) else l.voice)
  }

  // ---------------------------------------------------------------------
  // Status (and game) reconciliation

  /** After a tick the user has exactly one open interval and it carries the
      observed value; the invariant is kept. */
  lemma ReconcileOpensObserved(log: seq<Interval>, user: UserId, observed: string, t: int)
    requires AtMostOneOpen(log)
    ensures var r := Reconcile(log, user, observed, t);
      && AtMostOneOpen(r)
      && FirstOpen(r, user).Some?
      && r[FirstOpen(r, user).value].value == observed
      && forall j :: 0 <= j < |r| && OpenFor(r[j], user) ==> j == FirstOpen(r, user).value
  {
    var r := Reconcile(log, user, observed, t);
    match FirstOpen(log, user)
    case None =>
      assert OpenFor(r[|log|], user);
    case Some(k) =>
      FirstOpenIsOnly(log, user);
      if log[k].value != observed {
        assert OpenFor(r[|log|], user);
      }
    assert AtMostOneOpen(r);
    FirstOpenIsOnly(r, user);
  }

  /** A change of value closes the old interval and opens the new one, both
      at the tick time. */
  lemma ReconcileOnChange(log: seq<Interval>, user: UserId, observed: string, t: int)
    requires FirstOpen(log, user).Some?
    requires log[FirstOpen(log, user).value].value != observed
    ensures var r := Reconcile(log, user, observed, t); var k := FirstOpen(log, user).value;
      && |r| == |log| + 1
      && r[k].end == Some(t) && r[k].start == log[k].start && r[k].value == log[k].value
      && r[|log|] == Interval(user, observed, t, None)
      && forall j :: 0 <= j < |log| && j != k ==> r[j] == log[j]
  {
  }

  /** No-op: when the open interval already carries the observed value,
      nothing is appended and no end time is set. */
  lemma ReconcileUnchanged(log: seq<Interval>, user: UserId, observed: string, t: int)
    requires FirstOpen(log, user).Some?
    requires log[FirstOpen(log, user).value].value == observed
    ensures Reconcile(log, user, observed, t) == log
  {
  }

  /** Reconciliation only appends and closes, only touches rows of `user`,
      and only appends rows of `user` starting at `t`. */
  lemma ReconcileFrame(log: seq<Interval>, user: UserId, observed: string, t: int)
    ensures var r := Reconcile(log, user, observed, t);
      && EvolvesTo(log, r)
      && (forall i :: 0 <= i < |log| && log[i].user != user ==> r[i] == log[i])
      && (forall i :: 0 <= i < |log| && r[i] != log[i] ==> r[i] == Closed(log[i], t))
      && (forall i :: |log| <= i < |r| ==> r[i].user == user && r[i].start == t && r[i].end.None?)
  {
  }

  /** Running the same tick twice (a member seen in two guilds) changes
      nothing the second time. */
  lemma ReconcileIdempotent(log: seq<Interval>, user: UserId, observed: string, t: int)
    requires AtMostOneOpen(log)
    ensures var r := Reconcile(log, user, observed, t); Reconcile(r, user, observed, t) == r
  {
    ReconcileOpensObserved(log, user, observed, t);
  }

  lemma ReconcileChronological(log: seq<Interval>, user: UserId, observed: string, t0: int, t: int)
    requires Chronological(log, t0) && t0 <= t
    ensures Chronological(Reconcile(log, user, observed, t), t)
  {
  }

  // ---------------------------------------------------------------------
  // Games

  /** While the member is not playing, the game table is left completely
      unchanged, including an open game interval. */
  lemma GameIdleIsFrame(log: seq<Interval>, user: UserId, activity: Option<Activity>, t: int)
    requires !IsPlaying(activity)
    ensures ReconcileGame(log, user, activity, t) == log
  {
  }

  /** While playing, the open game interval is the game being played. */
  lemma GamePlayingOpensGame(log: seq<Interval>, user: UserId, activity: Option<Activity>, t: int)
    requires AtMostOneOpen(log)
    requires IsPlaying(activity)
    ensures var r := ReconcileGame(log, user, activity, t);
      && AtMostOneOpen(r)
      && FirstOpen(r, user).Some?
      && r[FirstOpen(r, user).value].value == activity.value.name
  {
    ReconcileOpensObserved(log, user, activity.value.name, t);
  }

  // ---------------------------------------------------------------------
  // Voice

  /** Joining a channel with no open interval opens one for that channel. */
  lemma VoiceJoinOpens(log: seq<Interval>, user: UserId, channel: string, t: int)
    requires FirstOpen(log, user).None?
    ensures ReconcileVoice(log, user, Some(channel), t) == log + [Interval(user, channel, t, None)]
  {
  }

  /** Being in voice with an open interval changes nothing, even when the
      channel differs from the recorded one. */
  lemma VoiceSwitchIgnored(log: seq<Interval>, user: UserId, channel: string, t: int)
    requires FirstOpen(log, user).Some?
    ensures ReconcileVoice(log, user, Some(channel), t) == log
  {
  }

  /** Leaving voice closes the user's open interval at `t`, and then no
      interval of the user is open. */
  lemma VoiceLeaveCloses(log: seq<Interval>, user: UserId, t: int)
    requires AtMostOneOpen(log)
    ensures var r := ReconcileVoice(log, user, None, t);
      && |r| == |log|
      && FirstOpen(r, user).None?
      && forall i :: 0 <= i < |log| ==> r[i] == log[i] || (OpenFor(log[i], user) && r[i] == Closed(log[i], t))
  {
    if FirstOpen(log, user).Some? {
      FirstOpenIsOnly(log, user);
    }
  }

  /** Joining and leaving in the same tick leaves one row that opens and
      closes at `t`. */
  lemma VoiceJoinThenLeave(log: seq<Interval>, user: UserId, channel: string, t: int)
    requires FirstOpen(log, user).None?
    ensures ReconcileVoice(ReconcileVoice(log, user, Some(channel), t), user, None, t) == log + [Interval(user, channel, t, Some(t))]
  {
    var joined := log + [Interval(user, channel, t, None)];
    assert FirstOpen(joined, user) == Some(|log|) by {
      assert OpenFor(joined[|log|], user);
    }
    assert joined[|log| := Closed(joined[|log|], t)] == log + [Interval(user, channel, t, Some(t))];
  }

  /** A tick that first sees the user out of voice and then in voice closes
      the running interval and opens a new one, both at `t`. */
  lemma VoiceLeaveThenJoin(log: seq<Interval>, user: UserId, channel: string, t0: int, t: int)
    requires FirstOpen(log, user).None?
    ensures var running := log + [Interval(user, channel, t0, None)];
      ReconcileVoice(ReconcileVoice(running, user, None, t), user, Some(channel), t) ==
        log + [Interval(user, channel, t0, Some(t)), Interval(user, channel, t, None)]
  {
    var running := log + [Interval(user, channel, t0, None)];
    assert FirstOpen(running, user) == Some(|log|) by {
      assert OpenFor(running[|log|], user);
    }
    var closed := log + [Interval(user, channel, t0, Some(t))];
    assert running[|log| := Closed(running[|log|], t)] == closed;
    assert FirstOpen(closed, user).None? by {
      assert !OpenFor(closed[|log|], user);
    }
    assert closed + [Interval(user, channel, t, None)] == log + [Interval(user, channel, t0, Some(t)), Interval(user, channel, t, None)];
  }

  lemma VoiceKeepsInvariant(log: seq<Interval>, user: UserId, channel: Option<string>, t0: int, t: int)
    requires AtMostOneOpen(log)
    requires Chronological(log, t0) && t0 <= t
    ensures var r := ReconcileVoice(log, user, channel, t);
      && AtMostOneOpen(r)
      && EvolvesTo(log, r)
      && Chronological(r, t)
      && (forall i :: 0 <= i < |log| && log[i].user != user ==> r[i] == log[i])
      && (forall i :: |log| <= i < |r| ==> r[i].user == user)
  {
  }

  // ---------------------------------------------------------------------
  // One member's step

  /** A member's step keeps the invariant and the history append-only,
      touches only that member's rows, and leaves a disabled kind untouched. */
  lemma StepMemberKeepsInvariant(l: Logs, s: Settings, m: Member, t0: int, t: int)
    requires ValidLogs(l) && LogsChronological(l, t0) && t0 <= t
    ensures var r := StepMember(l, s, m, t);
      && ValidLogs(r)
      && LogsEvolve(l, r)
      && LogsChronological(r, t)
      && (!s.trackStatus ==> r.status == l.status)
      && (!s.trackGames ==> r.games == l.games)
      && (!s.trackVoice ==> r.voice == l.voice)
  {
    var r := StepMember(l, s, m, t);
    StatusStepKeepsInvariant(l.status, m.id, m.status, t0, t);
    GameStepKeepsInvariant(l.games, m.id, m.activity, t0, t);
    VoiceKeepsInvariant(l.voice, m.id, m.voice, t0, t);
    assert Chronological(r.status, t) && Chronological(r.games, t) && Chronological(r.voice, t);
    assert EvolvesTo(l.status, r.status) && EvolvesTo(l.games, r.games) && EvolvesTo(l.voice, r.voice);
  }

  lemma StatusStepKeepsInvariant(log: seq<Interval>, user: UserId, observed: string, t0: int, t: int)
    requires AtMostOneOpen(log) && Chronological(log, t0) && t0 <= t
    ensures var r := Reconcile(log, user, observed, t);
      && AtMostOneOpen(r) && EvolvesTo(log, r) && Chronological(r, t)
  {
    ReconcileOpensObserved(log, user, observed, t);
    ReconcileFrame(log, user, observed, t);
    ReconcileChronological(log, user, observed, t0, t);
  }

  lemma GameStepKeepsInvariant(log: seq<Interval>, user: UserId, activity: Option<Activity>, t0: int, t: int)
    requires AtMostOneOpen(log) && Chronological(log, t0) && t0 <= t
    ensures var r := ReconcileGame(log, user, activity, t);
      && AtMostOneOpen(r) && EvolvesTo(log, r) && Chronological(r, t)
  {
    if IsPlaying(activity) {
      StatusStepKeepsInvariant(log, user, activity.value.name, t0, t);
    }
  }

  /** Rows of other users are not touched by a member's step: in particular a
      user absent from the snapshot keeps an open interval open. */
  lemma StepMemberOthersUnchanged(l: Logs, s: Settings, m: Member, t: int, user: UserId)
    requires user != m.id
    ensures var r := StepMember(l, s, m, t);
      && (forall i :: 0 <= i < |l.status| && l.status[i].user == user ==> r.status[i] == l.status[i])
      && (forall i :: 0 <= i < |l.games| && l.games[i].user == user ==> r.games[i] == l.games[i])
      && (forall i :: 0 <= i < |l.voice| && l.voice[i].user == user ==> r.voice[i] == l.voice[i])
      && (forall i :: |l.status| <= i < |r.status| ==> r.status[i].user != user)
      && (forall i :: |l.games| <= i < |r.games| ==> r.games[i].user != user)
      && (forall i :: |l.voice| <= i < |r.voice| ==> r.voice[i].user != user)
  {
    ReconcileFrame(l.status, m.id, m.status, t);
    if IsPlaying(m.activity) {
      ReconcileFrame(l.games, m.id, m.activity.value.name, t);
    }
    VoiceFrame(l.voice, m.id, m.voice, t);
  }

  lemma VoiceFrame(log: seq<Interval>, user: UserId, channel: Option<string>, t: int)
    ensures var r := ReconcileVoice(log, user, channel, t);
      && EvolvesTo(log, r)
      && (forall i :: 0 <= i < |log| && log[i].user != user ==> r[i] == log[i])
      && (forall i :: |log| <= i < |r| ==> r[i].user == user)
  {
  }
}
