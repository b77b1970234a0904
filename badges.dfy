/** Badge evaluation: the BADGES table, the two metrics that are evaluated
    (Online Streaker's distinct online days of the week, Chatterbox's voice
    time of the month), the tiers each metric reaches, and the award ledger
    that grants a tier's role, with a notification, only to a member who does
    not hold it yet. */
module Badges {
  import opened Intervals
  import opened Aggregation
  import opened Settings

  datatype Badge = OnlineStreaker | NightOwl | Chatterbox | GameAddict

  datatype Tier = Bronze | Silver | Gold | Platinum

  function BadgeName(b: Badge): string
  {
    match b
    case OnlineStreaker => "Online Streaker"
    case NightOwl => "Night Owl"
    case Chatterbox => "Chatterbox"
    case GameAddict => "Game Addict"
  }

  function TierName(t: Tier): string
  {
    match t
    case Bronze => "Bronze"
    case Silver => "Silver"
    case Gold => "Gold"
    case Platinum => "Platinum"
  }

  /** The BADGES table: the role of each tier a badge declares (Night Owl has
      no Platinum tier). */
  function RoleName(b: Badge, t: Tier): Option<string>
  {
    if b == NightOwl && t == Platinum then None else Some(BadgeName(b) + " " + TierName(t))
  }

  /** The order of the tiers, Bronze lowest. */
  function Rank(t: Tier): nat
  {
    match t
    case Bronze => 0
    case Silver => 1
    case Gold => 2
    case Platinum => 3
  }

  /** The threshold of each evaluated tier: Online Streaker in distinct days
      (7, 14, 30), Chatterbox in voice seconds (10, 25, 50, 100 hours).
      Online Streaker Platinum, Night Owl and Game Addict are declared in the
      table but never evaluated. */
  function Threshold(b: Badge, t: Tier): Option<int>
  {
    match b
    case OnlineStreaker =>
      (match t
       case Bronze => Some(7)
       case Silver => Some(14)
       case Gold => Some(30)
       case Platinum => None)
    case Chatterbox =>
      (match t
       case Bronze => Some(10 * 3600)
       case Silver => Some(25 * 3600)
       case Gold => Some(50 * 3600)
       case Platinum => Some(100 * 3600))
    case NightOwl => None
    case GameAddict => None
  }

  /** Every evaluated tier has a role in the table. */
  lemma EvaluatedTiersHaveRoles(b: Badge, t: Tier)
    requires Threshold(b, t).Some?
    ensures RoleName(b, t).Some?
  {
  }

  /** Higher tiers of a badge have higher thresholds; a badge evaluates a
      tier only if it evaluates every lower one. */
  lemma ThresholdsMonotone(b: Badge, t1: Tier, t2: Tier)
    requires Rank(t1) <= Rank(t2) && Threshold(b, t2).Some?
    ensures Threshold(b, t1).Some? && Threshold(b, t1).value <= Threshold(b, t2).value
  {
  }

  // ---------------------------------------------------------------------
  // Metrics

  /** The query behind Online Streaker: the member's "online" status rows
      that started in the last seven days. */
  function OnlineQuery(user: UserId, now: int): Query
  {
    Query(Some(user), None, Some("online"), None, now - WeekSeconds)
  }

  /** `count(distinct date(start_time))` over those rows, a UTC date being
      the day number `start div 86400`. */
  function OnlineDays(status: seq<Interval>, user: UserId, now: int): nat
  {
    var rows := Select(status, OnlineQuery(user, now));
    |set i | 0 <= i < |rows| :: rows[i].start / DaySeconds|
  }

  /** The member's voice seconds of the last thirty days, open intervals
      counting up to `now`. */
  function VoiceSeconds(voice: seq<Interval>, user: UserId, now: int): int
  {
    Total(Select(voice, Query(Some(user), None, None, None, now - MonthSeconds)), now)
  }

  function Metric(b: Badge, l: Logs, user: UserId, now: int): int
  {
    match b
    case OnlineStreaker => OnlineDays(l.status, user, now)
    case Chatterbox => VoiceSeconds(l.voice, user, now)
    case NightOwl => 0
    case GameAddict => 0
  }

  lemma {:induction false} SetWithinRange(d: set<int>, lo: int, n: nat)
    requires forall x :: x in d ==> lo <= x < lo + n
    ensures |d| <= n
  {
    if n > 0 {
      var top := lo + n - 1;
      var rest := d - {top};
      SetWithinRange(rest, lo, n - 1);
      if top in d {
        assert d == rest + {top} && top !in rest;
        assert |d| == |rest| + 1;
      } else {
        assert d == rest;
      }
    } else {
      assert forall x :: x !in d;
    }
  }

  /** Rows that started within the week fall on at most eight UTC dates, so
      the streak metric never exceeds 8. */
  lemma OnlineDaysAtMostEight(status: seq<Interval>, user: UserId, now: int)
    requires Chronological(status, now)
    ensures OnlineDays(status, user, now) <= 8
  {
    var rows := Select(status, OnlineQuery(user, now));
    SelectMatches(status, OnlineQuery(user, now));
    var lo := now / DaySeconds - 7;
    forall i | 0 <= i < |rows|
      ensures lo <= rows[i].start / DaySeconds < lo + 8
    {
      assert rows[i] in rows;
      var k :| 0 <= k < |status| && status[k] == rows[i];
      assert now - WeekSeconds <= rows[i].start <= now;
      assert (now - WeekSeconds) / DaySeconds == now / DaySeconds - 7;
    }
    SetWithinRange(set i | 0 <= i < |rows| :: rows[i].start / DaySeconds, lo, 8);
  }

  // ---------------------------------------------------------------------
  // Evaluation

  /** One granted role: a badge tier held by a user in a guild. */
  datatype Grant = Grant(guild: string, user: UserId, badge: Badge, tier: Tier)

  /** The tiers of `ladder` whose threshold `metric` meets, in ladder order. */
  function Reached(guild: string, user: UserId, b: Badge, ladder: seq<Tier>, metric: int): seq<Grant>
  {
    if |ladder| == 0 then []
    else
      var t := ladder[|ladder| - 1];
      Reached(guild, user, b, ladder[..|ladder| - 1], metric) +
        (if Threshold(b, t).Some? && metric >= Threshold(b, t).value then [Grant(guild, user, b, t)] else [])
  }

  const StreakLadder: seq<Tier> := [Bronze, Silver, Gold]
  const ChatterboxLadder: seq<Tier> := [Bronze, Silver, Gold, Platinum]

  function Ladder(b: Badge): seq<Tier>
  {
    match b
    case OnlineStreaker => StreakLadder
    case Chatterbox => ChatterboxLadder
    case NightOwl => []
    case GameAddict => []
  }

  predicate BadgesOn(settings: Option<Settings>)
  {
    settings.Some? && settings.value.useBadges
  }

  /** The tiers `check_and_award_badges` hands to `award_badge`, in order:
      none when the server has no settings or badges are off. */
  function EarnedGrants(guild: string, user: UserId, settings: Option<Settings>, l: Logs, now: int): seq<Grant>
  {
    if !BadgesOn(settings) then []
    else
      Reached(guild, user, OnlineStreaker, StreakLadder, OnlineDays(l.status, user, now)) +
      Reached(guild, user, Chatterbox, ChatterboxLadder, VoiceSeconds(l.voice, user, now))
  }

  /** Extending the ladder by one tier appends that tier when it is reached. */
  lemma ReachedStep(guild: string, user: UserId, b: Badge, ladder: seq<Tier>, i: nat, metric: int)
    requires i < |ladder|
    ensures Reached(guild, user, b, ladder[..i + 1], metric) == Reached(guild, user, b, ladder[..i], metric) +
      (if Threshold(b, ladder[i]).Some? && metric >= Threshold(b, ladder[i]).value then [Grant(guild, user, b, ladder[i])] else [])
  {
    assert ladder[..i + 1][..i] == ladder[..i];
  }

  lemma {:induction false} ReachedMembers(guild: string, user: UserId, b: Badge, ladder: seq<Tier>, metric: int)
    ensures forall g :: g in Reached(guild, user, b, ladder, metric) <==>
      g.guild == guild && g.user == user && g.badge == b && g.tier in ladder &&
      Threshold(b, g.tier).Some? && metric >= Threshold(b, g.tier).value
  {
    if |ladder| > 0 {
      ReachedMembers(guild, user, b, ladder[..|ladder| - 1], metric);
      assert ladder == ladder[..|ladder| - 1] + [ladder[|ladder| - 1]];
    }
  }

  /** A tier is awarded exactly when badges are on and the metric meets the
      tier's threshold. */
  lemma EarnedIffThreshold(guild: string, user: UserId, settings: Option<Settings>, l: Logs, now: int, b: Badge, t: Tier)
    ensures Grant(guild, user, b, t) in EarnedGrants(guild, user, settings, l, now) <==>
      BadgesOn(settings) && Threshold(b, t).Some? && Metric(b, l, user, now) >= Threshold(b, t).value
  {
    ReachedMembers(guild, user, OnlineStreaker, StreakLadder, OnlineDays(l.status, user, now));
    ReachedMembers(guild, user, Chatterbox, ChatterboxLadder, VoiceSeconds(l.voice, user, now));
  }

  /** Reaching a tier awards every lower tier of the badge in the same
      evaluation. */
  lemma EarnedBackfillsLowerTiers(guild: string, user: UserId, settings: Option<Settings>, l: Logs, now: int, b: Badge, t1: Tier, t2: Tier)
    requires Rank(t1) <= Rank(t2)
    requires Grant(guild, user, b, t2) in EarnedGrants(guild, user, settings, l, now)
    ensures Grant(guild, user, b, t1) in EarnedGrants(guild, user, settings, l, now)
  {
    EarnedIffThreshold(guild, user, settings, l, now, b, t2);
    ThresholdsMonotone(b, t1, t2);
    EarnedIffThreshold(guild, user, settings, l, now, b, t1);
  }

  /** Evaluation is skipped without settings or with badges off. */
  lemma EarnedNothingWhenOff(guild: string, user: UserId, settings: Option<Settings>, l: Logs, now: int)
    requires !BadgesOn(settings)
    ensures EarnedGrants(guild, user, settings, l, now) == []
  {
  }

  /** As written, the streak metric is counted over one week for every tier,
      so Online Streaker Silver (14 days) and Gold (30 days) are never awarded. */
  lemma StreakAboveBronzeUnreachable(guild: string, user: UserId, settings: Option<Settings>, l: Logs, now: int, t: Tier)
    requires Chronological(l.status, now)
    requires Rank(t) >= 1
    ensures Grant(guild, user, OnlineStreaker, t) !in EarnedGrants(guild, user, settings, l, now)
  {
    OnlineDaysAtMostEight(l.status, user, now);
    EarnedIffThreshold(guild, user, settings, l, now, OnlineStreaker, t);
  }

  /** Exactly 25 hours of voice in the month: Chatterbox Bronze and Silver,
      not Gold or Platinum. */
  lemma ChatterboxAtTwentyFiveHours(guild: string, user: UserId, settings: Option<Settings>, l: Logs, now: int)
    requires BadgesOn(settings)
    requires VoiceSeconds(l.voice, user, now) == 25 * 3600
    ensures Grant(guild, user, Chatterbox, Bronze) in EarnedGrants(guild, user, settings, l, now)
    ensures Grant(guild, user, Chatterbox, Silver) in EarnedGrants(guild, user, settings, l, now)
    ensures Grant(guild, user, Chatterbox, Gold) !in EarnedGrants(guild, user, settings, l, now)
    ensures Grant(guild, user, Chatterbox, Platinum) !in EarnedGrants(guild, user, settings, l, now)
  {
    assert Metric(Chatterbox, l, user, now) == 25 * 3600;
    EarnedIffThreshold(guild, user, settings, l, now, Chatterbox, Bronze);
    EarnedIffThreshold(guild, user, settings, l, now, Chatterbox, Silver);
    EarnedIffThreshold(guild, user, settings, l, now, Chatterbox, Gold);
    EarnedIffThreshold(guild, user, settings, l, now, Chatterbox, Platinum);
  }

  // ---------------------------------------------------------------------
  // The award ledger

  /** The roles members hold and the notifications sent, in order. */
  datatype LedgerState = LedgerState(held: set<Grant>, sent: seq<Grant>)

  /** `award_badge`: grant the role and notify only when it is not held. */
  function AwardOne(s: LedgerState, g: Grant): LedgerState
  {
    if g in s.held then s else LedgerState(s.held + {g}, s.sent + [g])
  }

  function AwardAll(s: LedgerState, gs: seq<Grant>): LedgerState
  {
    if |gs| == 0 then s else AwardOne(AwardAll(s, gs[..|gs| - 1]), gs[|gs| - 1])
  }

  /** Every notified grant is held, and no grant was notified twice. */
  predicate LedgerValid(s: LedgerState)
  {
    && (forall i :: 0 <= i < |s.sent| ==> s.sent[i] in s.held)
    && (forall i, j :: 0 <= i < j < |s.sent| ==> s.sent[i] != s.sent[j])
  }

  lemma {:induction false} AwardAllAppend(s: LedgerState, a: seq<Grant>, b: seq<Grant>)
    ensures AwardAll(s, a + b) == AwardAll(AwardAll(s, a), b)
  {
    if |b| > 0 {
      AwardAllAppend(s, a, b[..|b| - 1]);
      assert (a + b)[..|a + b| - 1] == a + b[..|b| - 1];
    } else {
      assert a + b == a;
    }
  }

  /** One award: the grant is held afterwards, and it is notified (as the
      one new notification) exactly when it was not held before. */
  lemma AwardOneEffect(s: LedgerState, g: Grant)
    requires LedgerValid(s)
    ensures var r := AwardOne(s, g);
      && r.held == s.held + {g}
      && LedgerValid(r)
      && r.sent[..|s.sent|] == s.sent
      && (g in s.held ==> r.sent == s.sent)
      && (g !in s.held ==> r.sent == s.sent + [g])
  {
    var r := AwardOne(s, g);
    assert r.sent[..|s.sent|] == s.sent;
  }

  /** The roles held grow by exactly the awarded ones. */
  lemma {:induction false} AwardAllHeldSet(s: LedgerState, gs: seq<Grant>)
    ensures AwardAll(s, gs).held == s.held + (set g | g in gs)
  {
    if |gs| > 0 {
      var init := gs[..|gs| - 1];
      AwardAllHeldSet(s, init);
      assert gs == init + [gs[|gs| - 1]];
      assert (set g | g in gs) == (set g | g in init) + {gs[|gs| - 1]};
    }
  }

  /** Notifications are only appended, each for an awarded grant that was
      not held before. */
  lemma {:induction false} AwardAllSent(s: LedgerState, gs: seq<Grant>)
    ensures var r := AwardAll(s, gs);
      && |s.sent| <= |r.sent| && r.sent[..|s.sent|] == s.sent
      && (forall i :: |s.sent| <= i < |r.sent| ==> r.sent[i] in gs && r.sent[i] !in s.held)
  {
    if |gs| > 0 {
      var init := gs[..|gs| - 1];
      var last := gs[|gs| - 1];
      var mid := AwardAll(s, init);
      var r := AwardAll(s, gs);
      AwardAllSent(s, init);
      AwardAllHeld(s, init);
      assert r == AwardOne(mid, last);
      assert r.sent[..|mid.sent|] == mid.sent;
      assert r.sent[..|s.sent|] == mid.sent[..|s.sent|];
      forall i | |s.sent| <= i < |r.sent|
        ensures r.sent[i] in gs && r.sent[i] !in s.held
      {
        if i < |mid.sent| {
          assert r.sent[i] == mid.sent[i];
          assert mid.sent[i] in init;
        } else {
          assert r.sent[i] == last;
        }
      }
    }
  }

  /** Every notified role is held and none is notified twice, whatever is
      awarded. */
  lemma {:induction false} AwardAllValid(s: LedgerState, gs: seq<Grant>)
    requires LedgerValid(s)
    ensures LedgerValid(AwardAll(s, gs))
  {
    if |gs| > 0 {
      AwardAllValid(s, gs[..|gs| - 1]);
      AwardOneEffect(AwardAll(s, gs[..|gs| - 1]), gs[|gs| - 1]);
    }
  }

  /** After awarding, every awarded grant is held, nothing else was added,
      and the ledger stays consistent: a notification goes out once per role. */
  lemma AwardAllEffect(s: LedgerState, gs: seq<Grant>)
    requires LedgerValid(s)
    ensures var r := AwardAll(s, gs);
      && r.held == s.held + (set g | g in gs)
      && LedgerValid(r)
      && |s.sent| <= |r.sent| && r.sent[..|s.sent|] == s.sent
      && (forall i :: |s.sent| <= i < |r.sent| ==> r.sent[i] in gs && r.sent[i] !in s.held)
  {
    AwardAllHeldSet(s, gs);
    AwardAllValid(s, gs);
    AwardAllSent(s, gs);
  }

  /** Re-running an evaluation with the same grants awards nothing new. */
  lemma {:induction false} AwardAllIdempotent(s: LedgerState, gs: seq<Grant>)
    ensures AwardAll(AwardAll(s, gs), gs) == AwardAll(s, gs)
  {
    var r := AwardAll(s, gs);
    AwardAllHeld(s, gs);
    AwardAllNoop(r, gs);
  }

  lemma {:induction false} AwardAllHeld(s: LedgerState, gs: seq<Grant>)
    ensures forall g :: g in gs ==> g in AwardAll(s, gs).held
    ensures forall g :: g in s.held ==> g in AwardAll(s, gs).held
  {
    if |gs| > 0 {
      AwardAllHeld(s, gs[..|gs| - 1]);
      assert forall g :: g in gs ==> g in gs[..|gs| - 1] || g == gs[|gs| - 1];
    }
  }

  /** Awarding grants that are all held already changes nothing. */
  lemma {:induction false} AwardAllNoop(s: LedgerState, gs: seq<Grant>)
    requires forall g :: g in gs ==> g in s.held
    ensures AwardAll(s, gs) == s
  {
    if |gs| > 0 {
      AwardAllNoop(s, gs[..|gs| - 1]);
      assert gs[|gs| - 1] in gs;
    }
  }

  /** The roles granted per guild member, and the notifications sent. */
  class AwardLedger {
    var held: set<Grant>
    var sent: seq<Grant>

    function State(): LedgerState
      reads this
    {
      LedgerState(held, sent)
    }

    constructor ()
      ensures held == {} && sent == []
    {
      held, sent := {}, [];
    }

    /** `award_badge`: add the role and send the notification unless the
        member already holds the role. */
    method AwardBadge(g: Grant)
      modifies this
      ensures State() == AwardOne(old(State()), g)
      ensures g in held
      ensures old(g in held) ==> sent == old(sent)
    {
      if g !in held {
        held := held + {g};
        sent := sent + [g];
      }
    }

    /** `check_and_award_badges` for one member: with badges on, compare the
        two metrics with each threshold in turn and award every tier met. */
    method CheckAndAward(guild: string, user: UserId, settings: Option<Settings>, l: Logs, now: int)
      modifies this
      ensures State() == AwardAll(old(State()), EarnedGrants(guild, user, settings, l, now))
    {
      if settings.None? || !settings.value.useBadges {
        return;
      }
      ghost var s0 := State();
      var onlineDays := OnlineDays(l.status, user, now);
      AwardStreak(guild, user, onlineDays);
      ghost var s1 := State();
      var voiceTime := VoiceSeconds(l.voice, user, now);
      AwardChatterbox(guild, user, voiceTime);
      AwardAllAppend(s0, Reached(guild, user, OnlineStreaker, StreakLadder, onlineDays),
        Reached(guild, user, Chatterbox, ChatterboxLadder, voiceTime));
    }

    /** The Online Streaker comparisons, lowest tier first. */
    method AwardStreak(guild: string, user: UserId, onlineDays: int)
      modifies this
      ensures State() == AwardAll(old(State()), Reached(guild, user, OnlineStreaker, StreakLadder, onlineDays))
    {
      ghost var s0 := State();
      AwardIfReached(guild, user, OnlineStreaker, StreakLadder, 0, onlineDays, s0);
      AwardIfReached(guild, user, OnlineStreaker, StreakLadder, 1, onlineDays, s0);
      AwardIfReached(guild, user, OnlineStreaker, StreakLadder, 2, onlineDays, s0);
      assert StreakLadder[..3] == StreakLadder;
    }

    /** The Chatterbox comparisons, lowest tier first. */
    method AwardChatterbox(guild: string, user: UserId, voiceTime: int)
      modifies this
      ensures State() == AwardAll(old(State()), Reached(guild, user, Chatterbox, ChatterboxLadder, voiceTime))
    {
      ghost var s0 := State();
      AwardIfReached(guild, user, Chatterbox, ChatterboxLadder, 0, voiceTime, s0);
      AwardIfReached(guild, user, Chatterbox, ChatterboxLadder, 1, voiceTime, s0);
      AwardIfReached(guild, user, Chatterbox, ChatterboxLadder, 2, voiceTime, s0);
      AwardIfReached(guild, user, Chatterbox, ChatterboxLadder, 3, voiceTime, s0);
      assert ChatterboxLadder[..4] == ChatterboxLadder;
    }

    /** One comparison: award tier `ladder[i]` when `metric` meets its
        threshold. */
    method AwardIfReached(guild: string, user: UserId, b: Badge, ladder: seq<Tier>, i: nat, metric: int, ghost s0: LedgerState)
      requires i < |ladder| && Threshold(b, ladder[i]).Some?
      requires State() == AwardAll(s0, Reached(guild, user, b, ladder[..i], metric))
      modifies this
      ensures State() == AwardAll(s0, Reached(guild, user, b, ladder[..i + 1], metric))
    {
      ReachedStep(guild, user, b, ladder, i, metric);
      if metric >= Threshold(b, ladder[i]).value {
        AwardStep(s0, Reached(guild, user, b, ladder[..i], metric), Grant(guild, user, b, ladder[i]));
      } else {
        ghost var before := Reached(guild, user, b, ladder[..i], metric);
        assert before + [] == before;
      }
    }

    /** One more award extends the sequence of grants applied so far. */
    method AwardStep(ghost s0: LedgerState, ghost done: seq<Grant>, g: Grant)
      requires State() == AwardAll(s0, done)
      modifies this
      ensures State() == AwardAll(s0, done + [g])
    {
      assert (done + [g])[..|done|] == done;
      AwardBadge(g);
    }
  }
}
