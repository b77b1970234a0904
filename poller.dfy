/** The polling loop: once a minute every member of every configured guild
    is reconciled against the three interval tables, and, where badges are
    on, evaluated for badges against the state committed by earlier ticks. */
module Poller {
  import opened Intervals
  import opened Settings
  import opened Reconciler
  import opened Badges

  /** A guild as the poll sees it: its id and its member snapshot. */
  datatype Guild = Guild(id: string, members: seq<Member>)

  // ---------------------------------------------------------------------
  // Specification of one tick

  /** The members of one guild reconciled in order, the bot itself skipped. */
  function StepMembers(l: Logs, s: Settings, members: seq<Member>, botId: UserId, t: int): Logs
  {
    if |members| == 0 then l
    else
      var prev := StepMembers(l, s, members[..|members| - 1], botId, t);
      var m := members[|members| - 1];
      if m.id == botId then prev else StepMember(prev, s, m, t)
  }

  /** The guilds in order; a guild without settings is skipped. */
  function StepGuilds(l: Logs, configs: map<string, Settings>, guilds: seq<Guild>, botId: UserId, t: int): Logs
  {
    if |guilds| == 0 then l
    else
      var prev := StepGuilds(l, configs, guilds[..|guilds| - 1], botId, t);
      var g := guilds[|guilds| - 1];
      if g.id in configs then StepMembers(prev, configs[g.id], g.members, botId, t) else prev
  }

  /** The grants evaluated for one guild's members, each against `committed`. */
  function MemberGrants(committed: Logs, guild: string, s: Settings, members: seq<Member>, botId: UserId, t: int): seq<Grant>
  {
    if |members| == 0 then []
    else
      var prev := MemberGrants(committed, guild, s, members[..|members| - 1], botId, t);
      var m := members[|members| - 1];
      prev + MemberExtra(committed, guild, s, m, botId, t)
  }

  /** The grants one member's evaluation may award: none for the bot or
      when the guild has badges off. */
  function MemberExtra(committed: Logs, guild: string, s: Settings, m: Member, botId: UserId, t: int): seq<Grant>
  {
    if m.id == botId || !s.useBadges then [] else EarnedGrants(guild, m.id, Some(s), committed, t)
  }

  function PollGrants(committed: Logs, configs: map<string, Settings>, guilds: seq<Guild>, botId: UserId, t: int): seq<Grant>
  {
    if |guilds| == 0 then []
    else
      var prev := PollGrants(committed, configs, guilds[..|guilds| - 1], botId, t);
      var g := guilds[|guilds| - 1];
      if g.id in configs then prev + MemberGrants(committed, g.id, configs[g.id], g.members, botId, t) else prev
  }

  lemma StepMembersStep(l: Logs, s: Settings, members: seq<Member>, i: nat, botId: UserId, t: int)
    requires i < |members|
    ensures StepMembers(l, s, members[..i + 1], botId, t) ==
      if members[i].id == botId then StepMembers(l, s, members[..i], botId, t)
      else StepMember(StepMembers(l, s, members[..i], botId, t), s, members[i], t)
  {
    assert members[..i + 1][..i] == members[..i];
  }

  lemma MemberGrantsStep(committed: Logs, guild: string, s: Settings, members: seq<Member>, i: nat, botId: UserId, t: int)
    requires i < |members|
    ensures MemberGrants(committed, guild, s, members[..i + 1], botId, t) ==
      MemberGrants(committed, guild, s, members[..i], botId, t) + MemberExtra(committed, guild, s, members[i], botId, t)
  {
    assert members[..i + 1][..i] == members[..i];
  }

  // ---------------------------------------------------------------------
  // Properties of a tick

  predicate Healthy(l: Logs, t: int)
  {
    ValidLogs(l) && LogsChronological(l, t)
  }

  lemma {:induction false} StepMembersKeepsInvariant(l: Logs, s: Settings, members: seq<Member>, botId: UserId, t: int)
    requires Healthy(l, t)
    ensures var r := StepMembers(l, s, members, botId, t);
      Healthy(r, t) && LogsEvolve(l, r)
  {
    if |members| > 0 {
      var prev := StepMembers(l, s, members[..|members| - 1], botId, t);
      StepMembersKeepsInvariant(l, s, members[..|members| - 1], botId, t);
      var m := members[|members| - 1];
      if m.id != botId {
        StepMemberKeepsInvariant(prev, s, m, t, t);
        LogsEvolveTransitive(l, prev, StepMember(prev, s, m, t));
      }
    }
  }

  /** A tick keeps at most one open interval per user and kind, only appends
      and closes rows, and stamps nothing later than the tick time. */
  lemma {:induction false} StepGuildsKeepsInvariant(l: Logs, configs: map<string, Settings>, guilds: seq<Guild>, botId: UserId, t: int)
    requires Healthy(l, t)
    ensures var r := StepGuilds(l, configs, guilds, botId, t);
      Healthy(r, t) && LogsEvolve(l, r)
  {
    if |guilds| > 0 {
      var prev := StepGuilds(l, configs, guilds[..|guilds| - 1], botId, t);
      StepGuildsKeepsInvariant(l, configs, guilds[..|guilds| - 1], botId, t);
      var g := guilds[|guilds| - 1];
      if g.id in configs {
        StepMembersKeepsInvariant(prev, configs[g.id], g.members, botId, t);
        LogsEvolveTransitive(l, prev, StepMembers(prev, configs[g.id], g.members, botId, t));
      }
    }
  }

  /** The rows of `user` are untouched, and none is appended for `user`. */
  predicate UserUntouched(a: Logs, b: Logs, user: UserId)
  {
    && |a.status| <= |b.status| && |a.games| <= |b.games| && |a.voice| <= |b.voice|
    && (forall i :: 0 <= i < |a.status| ==> b.status[i].user == a.status[i].user)
    && (forall i :: 0 <= i < |a.games| ==> b.games[i].user == a.games[i].user)
    && (forall i :: 0 <= i < |a.voice| ==> b.voice[i].user == a.voice[i].user)
    && (forall i :: 0 <= i < |a.status| && a.status[i].user == user ==> b.status[i] == a.status[i])
    && (forall i :: 0 <= i < |a.games| && a.games[i].user == user ==> b.games[i] == a.games[i])
    && (forall i :: 0 <= i < |a.voice| && a.voice[i].user == user ==> b.voice[i] == a.voice[i])
    && (forall i :: |a.status| <= i < |b.status| ==> b.status[i].user != user)
    && (forall i :: |a.games| <= i < |b.games| ==> b.games[i].user != user)
    && (forall i :: |a.voice| <= i < |b.voice| ==> b.voice[i].user != user)
  }

  lemma UserUntouchedTransitive(a: Logs, b: Logs, c: Logs, user: UserId)
    requires UserUntouched(a, b, user) && UserUntouched(b, c, user)
    ensures UserUntouched(a, c, user)
  {
  }

  /** Another member's step leaves the rows of `user` alone. */
  lemma StepMemberUntouched(l: Logs, s: Settings, m: Member, t: int, user: UserId)
    requires m.id != user
    ensures UserUntouched(l, StepMember(l, s, m, t), user)
  {
    StepMemberOthersUnchanged(l, s, m, t, user);
    VoiceFrame(l.voice, m.id, m.voice, t);
    ReconcileFrame(l.status, m.id, m.status, t);
    if IsPlaying(m.activity) {
      ReconcileFrame(l.games, m.id, m.activity.value.name, t);
    }
  }

  lemma {:induction false} StepMembersUntouched(l: Logs, s: Settings, members: seq<Member>, botId: UserId, t: int, user: UserId)
    requires forall i :: 0 <= i < |members| ==> members[i].id != user || members[i].id == botId
    ensures UserUntouched(l, StepMembers(l, s, members, botId, t), user)
  {
    if |members| > 0 {
      var prev := StepMembers(l, s, members[..|members| - 1], botId, t);
      StepMembersUntouched(l, s, members[..|members| - 1], botId, t, user);
      var m := members[|members| - 1];
      if m.id != botId {
        StepMemberUntouched(prev, s, m, t, user);
        UserUntouchedTransitive(l, prev, StepMember(prev, s, m, t), user);
      }
    }
  }

  /** The bot's own rows are never written by a tick. */
  lemma {:induction false} StepGuildsSkipsBot(l: Logs, configs: map<string, Settings>, guilds: seq<Guild>, botId: UserId, t: int)
    ensures UserUntouched(l, StepGuilds(l, configs, guilds, botId, t), botId)
  {
    if |guilds| > 0 {
      var prev := StepGuilds(l, configs, guilds[..|guilds| - 1], botId, t);
      StepGuildsSkipsBot(l, configs, guilds[..|guilds| - 1], botId, t);
      var g := guilds[|guilds| - 1];
      if g.id in configs {
        StepMembersUntouched(prev, configs[g.id], g.members, botId, t, botId);
        UserUntouchedTransitive(l, prev, StepMembers(prev, configs[g.id], g.members, botId, t), botId);
      }
    }
  }

  /** Guilds without settings are not tracked at all. */
  lemma {:induction false} StepGuildsUnconfigured(l: Logs, configs: map<string, Settings>, guilds: seq<Guild>, botId: UserId, t: int)
    requires forall i :: 0 <= i < |guilds| ==> guilds[i].id !in configs
    ensures StepGuilds(l, configs, guilds, botId, t) == l
  {
    if |guilds| > 0 {
      StepGuildsUnconfigured(l, configs, guilds[..|guilds| - 1], botId, t);
    }
  }

  /** A guild without settings contributes nothing to a pass, wherever it
      stands among the others. */
  lemma {:induction false} UnconfiguredSkipped(l: Logs, configs: map<string, Settings>, pre: seq<Guild>, g: Guild, post: seq<Guild>, botId: UserId, t: int)
    requires g.id !in configs
    ensures StepGuilds(l, configs, pre + [g] + post, botId, t) == StepGuilds(l, configs, pre + post, botId, t)
  {
    if |post| == 0 {
      assert pre + [g] + post == pre + [g];
      assert (pre + [g])[..|pre|] == pre;
      assert pre + post == pre;
    } else {
      var init := post[..|post| - 1];
      UnconfiguredSkipped(l, configs, pre, g, init, botId, t);
      assert (pre + [g] + post)[..|pre + [g] + post| - 1] == pre + [g] + init;
      assert (pre + post)[..|pre + post| - 1] == pre + init;
    }
  }

  /** Nor does it grant anything. */
  lemma {:induction false} UnconfiguredGrantsNothing(committed: Logs, configs: map<string, Settings>, pre: seq<Guild>, g: Guild, post: seq<Guild>, botId: UserId, t: int)
    requires g.id !in configs
    ensures PollGrants(committed, configs, pre + [g] + post, botId, t) == PollGrants(committed, configs, pre + post, botId, t)
  {
    if |post| == 0 {
      assert pre + [g] + post == pre + [g];
      assert (pre + [g])[..|pre|] == pre;
      assert pre + post == pre;
    } else {
      var init := post[..|post| - 1];
      UnconfiguredGrantsNothing(committed, configs, pre, g, init, botId, t);
      assert (pre + [g] + post)[..|pre + [g] + post| - 1] == pre + [g] + init;
      assert (pre + post)[..|pre + post| - 1] == pre + init;
    }
  }

  lemma {:induction false} MemberGrantsFrom(committed: Logs, guild: string, s: Settings, members: seq<Member>, botId: UserId, t: int)
    ensures forall g :: g in MemberGrants(committed, guild, s, members, botId, t) ==>
      g.guild == guild && g.user != botId && s.useBadges
  {
    if |members| > 0 {
      MemberGrantsFrom(committed, guild, s, members[..|members| - 1], botId, t);
      var m := members[|members| - 1];
      if m.id != botId && s.useBadges {
        ReachedMembers(guild, m.id, OnlineStreaker, StreakLadder, OnlineDays(committed.status, m.id, t));
        ReachedMembers(guild, m.id, Chatterbox, ChatterboxLadder, VoiceSeconds(committed.voice, m.id, t));
      }
    }
  }

  /** Badges are awarded only in guilds whose settings turn them on, and never
      to the bot. */
  lemma {:induction false} PollGrantsOnlyWhereOn(committed: Logs, configs: map<string, Settings>, guilds: seq<Guild>, botId: UserId, t: int)
    ensures forall g :: g in PollGrants(committed, configs, guilds, botId, t) ==>
      g.guild in configs && configs[g.guild].useBadges && g.user != botId
  {
    if |guilds| > 0 {
      PollGrantsOnlyWhereOn(committed, configs, guilds[..|guilds| - 1], botId, t);
      var g := guilds[|guilds| - 1];
      if g.id in configs {
        MemberGrantsFrom(committed, g.id, configs[g.id], g.members, botId, t);
      }
    }
  }

  /** With the same settings, applying the same member snapshot a second
      time in the same tick changes nothing. A member of two guilds is not
      always such a case: the voice state differs per guild
      (`VoiceInTwoGuilds`). */
  lemma StepMemberIdempotent(l: Logs, s: Settings, m: Member, t: int)
    requires ValidLogs(l)
    ensures StepMember(StepMember(l, s, m, t), s, m, t) == StepMember(l, s, m, t)
  {
    ReconcileIdempotent(l.status, m.id, m.status, t);
    if IsPlaying(m.activity) {
      ReconcileIdempotent(l.games, m.id, m.activity.value.name, t);
    }
    if m.voice.Some? && FirstOpen(l.voice, m.id).None? {
      var r := ReconcileVoice(l.voice, m.id, m.voice, t);
      assert OpenFor(r[|l.voice|], m.id);
    } else if m.voice.None? {
      VoiceLeaveCloses(l.voice, m.id, t);
    }
  }

  /** A member of two tracked guilds who sits in voice in the first guild
      has no voice state in the second (a user is in one voice channel at a
      time). In the order first-then-second, one pass opens the interval and
      closes it again at the same `t`, so the only row it leaves lasts zero
      seconds. */
  lemma VoiceInTwoGuilds(l: Logs, configs: map<string, Settings>, a: Guild, b: Guild, m: Member, c: string, botId: UserId, t: int)
    requires FirstOpen(l.voice, m.id).None?
    requires m.id != botId && m.voice == Some(c)
    requires a.id in configs && b.id in configs && configs[a.id].trackVoice && configs[b.id].trackVoice
    requires a.members == [m] && b.members == [m.(voice := None)]
    ensures var r := StepGuilds(l, configs, [a, b], botId, t);
      && r.voice == l.voice + [Interval(m.id, c, t, Some(t))]
      && Duration(r.voice[|l.voice|], t) == 0
  {
    StepTwoGuilds(l, configs, a, b, botId, t);
    StepOneMember(l, configs[a.id], m, botId, t);
    var l1 := StepMember(l, configs[a.id], m, t);
    StepOneMember(l1, configs[b.id], m.(voice := None), botId, t);
    VoiceJoinThenLeave(l.voice, m.id, c, t);
  }

  /** The same member with the guilds the other way round: the interval
      the pass opens is still open after it (a later pass closes it again,
      `VoiceInTwoGuildsTwoPasses`). */
  lemma VoiceInTwoGuildsReversed(l: Logs, configs: map<string, Settings>, a: Guild, b: Guild, m: Member, c: string, botId: UserId, t: int)
    requires FirstOpen(l.voice, m.id).None?
    requires m.id != botId && m.voice == Some(c)
    requires a.id in configs && b.id in configs && configs[a.id].trackVoice && configs[b.id].trackVoice
    requires a.members == [m] && b.members == [m.(voice := None)]
    ensures StepGuilds(l, configs, [b, a], botId, t).voice == l.voice + [Interval(m.id, c, t, None)]
  {
    StepTwoGuilds(l, configs, b, a, botId, t);
    StepOneMember(l, configs[b.id], m.(voice := None), botId, t);
    var l1 := StepMember(l, configs[b.id], m.(voice := None), t);
    assert l1.voice == l.voice;
    StepOneMember(l1, configs[a.id], m, botId, t);
  }

  /** Two passes in the order [second, first]: each pass closes the
      interval at its own time and opens a new one, so the member gets a row
      per pass. */
  lemma VoiceInTwoGuildsTwoPasses(l: Logs, configs: map<string, Settings>, a: Guild, b: Guild, m: Member, c: string, botId: UserId, t1: int, t2: int)
    requires FirstOpen(l.voice, m.id).None?
    requires m.id != botId && m.voice == Some(c)
    requires a.id in configs && b.id in configs && configs[a.id].trackVoice && configs[b.id].trackVoice
    requires a.members == [m] && b.members == [m.(voice := None)]
    ensures var l1 := StepGuilds(l, configs, [b, a], botId, t1);
      StepGuilds(l1, configs, [b, a], botId, t2).voice == l.voice + [Interval(m.id, c, t1, Some(t2)), Interval(m.id, c, t2, None)]
  {
    VoiceInTwoGuildsReversed(l, configs, a, b, m, c, botId, t1);
    var l1 := StepGuilds(l, configs, [b, a], botId, t1);
    StepTwoGuilds(l1, configs, b, a, botId, t2);
    StepOneMember(l1, configs[b.id], m.(voice := None), botId, t2);
    var l2 := StepMember(l1, configs[b.id], m.(voice := None), t2);
    StepOneMember(l2, configs[a.id], m, botId, t2);
    VoiceLeaveThenJoin(l.voice, m.id, c, t1, t2);
  }

  lemma StepTwoGuilds(l: Logs, configs: map<string, Settings>, a: Guild, b: Guild, botId: UserId, t: int)
    requires a.id in configs && b.id in configs
    ensures StepGuilds(l, configs, [a, b], botId, t) ==
      StepMembers(StepMembers(l, configs[a.id], a.members, botId, t), configs[b.id], b.members, botId, t)
  {
    assert [a, b][..1] == [a] && [a][..0] == [];
    assert StepGuilds(l, configs, [a], botId, t) == StepMembers(l, configs[a.id], a.members, botId, t);
  }

  lemma StepOneMember(l: Logs, s: Settings, m: Member, botId: UserId, t: int)
    requires m.id != botId
    ensures StepMembers(l, s, [m], botId, t) == StepMember(l, s, m, t)
  {
    assert [m][..0] == [];
  }

  // ---------------------------------------------------------------------
  // The store

  /** The three interval tables. */
  class ActivityStore {
    var status: seq<Interval>
    var games: seq<Interval>
    var voice: seq<Interval>

    function Current(): Logs
      reads this
    {
      Logs(status, games, voice)
    }

    constructor ()
      ensures Current() == Logs([], [], [])
    {
      status, games, voice := [], [], [];
    }

    /** The status block of the per-member body. */
    method TickStatus(user: UserId, current: string, t: int)
      modifies this
      ensures status == Reconcile(old(status), user, current, t)
      ensures games == old(games) && voice == old(voice)
    {
      var existing := FirstOpen(status, user);
      if existing.Some? {
        var k := existing.value;
        if status[k].value != current {
          status := status[k := Closed(status[k], t)];
          status := status + [Interval(user, current, t, None)];
        }
      } else {
        status := status + [Interval(user, current, t, None)];
      }
    }

    /** The games block: only a `Playing` activity is looked at. */
    method TickGame(user: UserId, activity: Option<Activity>, t: int)
      modifies this
      ensures games == ReconcileGame(old(games), user, activity, t)
      ensures status == old(status) && voice == old(voice)
    {
      if activity.Some? && activity.value.kind == Playing {
        var game := activity.value.name;
        var existing := FirstOpen(games, user);
        if existing.Some? {
          var k := existing.value;
          if games[k].value != game {
            games := games[k := Closed(games[k], t)];
            games := games + [Interval(user, game, t, None)];
          }
        } else {
          games := games + [Interval(user, game, t, None)];
        }
      }
    }

    /** The voice block. */
    method TickVoice(user: UserId, channel: Option<string>, t: int)
      modifies this
      ensures voice == ReconcileVoice(old(voice), user, channel, t)
      ensures status == old(status) && games == old(games)
    {
      var existing := FirstOpen(voice, user);
      if channel.Some? {
        if existing.None? {
          voice := voice + [Interval(user, channel.value, t, None)];
        }
      } else if existing.Some? {
        var k := existing.value;
        voice := voice[k := Closed(voice[k], t)];
      }
    }

    /** The per-member body: each tracked kind in turn. */
    method TickMember(s: Settings, m: Member, t: int)
      modifies this
      ensures Current() == StepMember(old(Current()), s, m, t)
    {
      if s.trackStatus {
        TickStatus(m.id, m.status, t);
      }
      if s.trackGames {
        TickGame(m.id, m.activity, t);
      }
      if s.trackVoice {
        TickVoice(m.id, m.voice, t);
      }
    }

    /** One pass of `track_activities`: every member of every configured
        guild except the bot is reconciled at `t`; where badges are on, the
        member is evaluated against the tables as they were before the pass,
        since evaluation reads through a session of its own while the pass
        commits only at its end. */
    method Poll(guilds: seq<Guild>, configs: map<string, Settings>, botId: UserId, t: int, ledger: AwardLedger)
      requires Healthy(Current(), t)
      modifies this, ledger
      ensures Current() == StepGuilds(old(Current()), configs, guilds, botId, t)
      ensures Healthy(Current(), t) && LogsEvolve(old(Current()), Current())
      ensures ledger.State() == AwardAll(old(ledger.State()), PollGrants(old(Current()), configs, guilds, botId, t))
    {
      var committed := Current();
      ghost var ledger0 := ledger.State();
      var gi := 0;
      while gi < |guilds|
        invariant 0 <= gi <= |guilds|
        invariant Current() == StepGuilds(committed, configs, guilds[..gi], botId, t)
        invariant ledger.State() == AwardAll(ledger0, PollGrants(committed, configs, guilds[..gi], botId, t))
      {
        var guild := guilds[gi];
        assert guilds[..gi + 1][..gi] == guilds[..gi];
        if guild.id in configs {
          ghost var granted := PollGrants(committed, configs, guilds[..gi], botId, t);
          PollGuild(guild, configs[guild.id], botId, t, committed, ledger);
          AwardAllAppend(ledger0, granted, MemberGrants(committed, guild.id, configs[guild.id], guild.members, botId, t));
        }
        gi := gi + 1;
      }
      assert guilds[..gi] == guilds;
      StepGuildsKeepsInvariant(committed, configs, guilds, botId, t);
    }

    /** The member loop of one configured guild. */
    method PollGuild(guild: Guild, settings: Settings, botId: UserId, t: int, committed: Logs, ledger: AwardLedger)
      modifies this, ledger
      ensures Current() == StepMembers(old(Current()), settings, guild.members, botId, t)
      ensures ledger.State() == AwardAll(old(ledger.State()), MemberGrants(committed, guild.id, settings, guild.members, botId, t))
    {
      ghost var before := Current();
      ghost var ledger0 := ledger.State();
      var mi := 0;
      while mi < |guild.members|
        invariant 0 <= mi <= |guild.members|
        invariant Current() == StepMembers(before, settings, guild.members[..mi], botId, t)
        invariant ledger.State() == AwardAll(ledger0, MemberGrants(committed, guild.id, settings, guild.members[..mi], botId, t))
      {
        ghost var done := MemberGrants(committed, guild.id, settings, guild.members[..mi], botId, t);
        ghost var extra := MemberExtra(committed, guild.id, settings, guild.members[mi], botId, t);
        StepMembersStep(before, settings, guild.members, mi, botId, t);
        MemberGrantsStep(committed, guild.id, settings, guild.members, mi, botId, t);
        PollMember(guild.id, guild.members[mi], settings, botId, t, committed, ledger);
        AwardAllAppend(ledger0, done, extra);
        mi := mi + 1;
      }
      assert guild.members[..mi] == guild.members;
    }

    /** One member of a configured guild: the bot is skipped; anyone else
        is reconciled and, with badges on, evaluated against `committed`. */
    method PollMember(guild: string, member: Member, settings: Settings, botId: UserId, t: int, committed: Logs, ledger: AwardLedger)
      modifies this, ledger
      ensures Current() == if member.id == botId then old(Current()) else StepMember(old(Current()), settings, member, t)
      ensures ledger.State() == AwardAll(old(ledger.State()), MemberExtra(committed, guild, settings, member, botId, t))
    {
      if member.id != botId {
        TickMember(settings, member, t);
        if settings.useBadges {
          ledger.CheckAndAward(guild, member.id, Some(settings), committed, t);
        }
      }
    }
  }
}
