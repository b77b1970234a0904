/** The grouped queries: `leaderboard` (top five users of the week by online,
    gaming or voice time) and `mostplayedgame` (the game with the most time of
    the week), and the descending order in which `gametime` lists games. Each
    is a group-by, a sum, a descending sort and a limit. */
module Ranking {
  import opened Intervals
  import opened Aggregation

  /** A group's key (user id or game) with its total seconds. */
  type Row = (string, int)

  predicate SortedDesc(rows: seq<Row>)
  {
    forall i, j :: 0 <= i < j < |rows| ==> rows[i].1 >= rows[j].1
  }

  predicate NoDuplicates(rows: seq<Row>)
  {
    forall i, j :: 0 <= i < j < |rows| ==> rows[i] != rows[j]
  }

  /** Puts `x` before the first row with a smaller total. */
  function Insert(x: Row, s: seq<Row>): (r: seq<Row>)
    ensures multiset(r) == multiset(s) + multiset{x}
  {
    if |s| == 0 then [x]
    else if x.1 >= s[0].1 then [x] + s
    else
      assert s == [s[0]] + s[1..];
      [s[0]] + Insert(x, s[1..])
  }

  lemma {:induction false} InsertSorted(x: Row, s: seq<Row>)
    requires SortedDesc(s)
    ensures SortedDesc(Insert(x, s))
  {
    if |s| > 0 && x.1 < s[0].1 {
      InsertSorted(x, s[1..]);
      var rest := Insert(x, s[1..]);
      forall y | y in rest
        ensures y.1 <= s[0].1
      {
        assert y in multiset(rest);
        assert y in multiset(s[1..]) || y == x;
      }
    }
  }

  /** A sort by total, largest first; `SortDescStable` shows that rows with
      equal totals keep their order, as with `sorted(..., reverse=True)`. */
  function SortDesc(s: seq<Row>): (r: seq<Row>)
    ensures multiset(r) == multiset(s)
    ensures SortedDesc(r)
  {
    if |s| == 0 then []
    else
      assert s == [s[0]] + s[1..];
      InsertSorted(s[0], SortDesc(s[1..]));
      Insert(s[0], SortDesc(s[1..]))
  }

  /** The rows with total `v`, in order. */
  function WithTotal(s: seq<Row>, v: int): seq<Row>
  {
    if |s| == 0 then []
    else (if s[0].1 == v then [s[0]] else []) + WithTotal(s[1..], v)
  }

  lemma WithTotalCons(y: Row, r: seq<Row>, v: int)
    ensures WithTotal([y] + r, v) == (if y.1 == v then [y] else []) + WithTotal(r, v)
  {
    assert ([y] + r)[1..] == r;
  }

  /** `Insert` puts `x` ahead of every row with the same total. */
  lemma {:induction false} InsertWithTotal(x: Row, s: seq<Row>, v: int)
    ensures WithTotal(Insert(x, s), v) == (if x.1 == v then [x] else []) + WithTotal(s, v)
  {
    if |s| == 0 {
    } else if x.1 >= s[0].1 {
      WithTotalCons(x, s, v);
    } else {
      var rest := Insert(x, s[1..]);
      InsertWithTotal(x, s[1..], v);
      WithTotalCons(s[0], rest, v);
      WithTotalCons(s[0], s[1..], v);
      assert s == [s[0]] + s[1..];
      if x.1 == v {
        assert s[0].1 != v;
        assert [] + ([x] + WithTotal(s[1..], v)) == [x] + ([] + WithTotal(s[1..], v));
      } else {
        assert [] + WithTotal(s[1..], v) == WithTotal(s[1..], v);
      }
    }
  }

  /** The sort is stable: among rows with equal totals the input order is
      kept. */
  lemma {:induction false} SortDescStable(s: seq<Row>, v: int)
    ensures WithTotal(SortDesc(s), v) == WithTotal(s, v)
  {
    if |s| > 0 {
      SortDescStable(s[1..], v);
      InsertWithTotal(s[0], SortDesc(s[1..]), v);
    }
  }

  lemma {:induction false} InsertNoDuplicates(x: Row, s: seq<Row>)
    requires NoDuplicates(s) && x !in s
    ensures NoDuplicates(Insert(x, s))
  {
    if |s| > 0 && x.1 < s[0].1 {
      InsertNoDuplicates(x, s[1..]);
      var rest := Insert(x, s[1..]);
      assert s[0] !in multiset(s[1..]) + multiset{x};
      assert s[0] !in multiset(rest);
    }
  }

  lemma {:induction false} SortDescNoDuplicates(s: seq<Row>)
    requires NoDuplicates(s)
    ensures NoDuplicates(SortDesc(s))
  {
    if |s| > 0 {
      SortDescNoDuplicates(s[1..]);
      var rest := SortDesc(s[1..]);
      assert s[0] !in multiset(s[1..]);
      assert s[0] !in multiset(rest);
      InsertNoDuplicates(s[0], rest);
    }
  }

  /** `GROUP BY` key with `SUM` of durations: one row per distinct key, in
      order of first appearance. */
  function Groups(ivs: seq<Interval>, f: Field, now: int): seq<Row>
  {
    var ks := Keys(ivs, f);
    seq(|ks|, i requires 0 <= i < |ks| => (ks[i], TotalBy(ivs, f, ks[i], now)))
  }

  /** `LIMIT n`. */
  function Take(s: seq<Row>, n: nat): seq<Row>
  {
    if |s| <= n then s else s[..n]
  }

  /** `ORDER BY SUM(...) DESC LIMIT n`. */
  function Ranked(ivs: seq<Interval>, f: Field, now: int, n: nat): seq<Row>
  {
    Take(SortDesc(Groups(ivs, f, now)), n)
  }

  function Min(a: int, b: int): int
  {
    if a <= b then a else b
  }

  /** Every row of the sorted groups is a key with its own total, and no
      key appears twice. */
  lemma SortedGroups(ivs: seq<Interval>, f: Field, now: int)
    ensures var s := SortDesc(Groups(ivs, f, now)); var ks := Keys(ivs, f);
      && |s| == |ks|
      && (forall i :: 0 <= i < |s| ==> s[i].0 in ks && s[i].1 == TotalBy(ivs, f, s[i].0, now))
      && (forall i, j :: 0 <= i < j < |s| ==> s[i].0 != s[j].0)
  {
    var ks := Keys(ivs, f);
    var g := Groups(ivs, f, now);
    var s := SortDesc(g);
    assert |multiset(s)| == |multiset(g)|;
    assert NoDuplicates(g);
    SortDescNoDuplicates(g);
    forall i | 0 <= i < |s|
      ensures s[i].0 in ks && s[i].1 == TotalBy(ivs, f, s[i].0, now)
    {
      assert s[i] in multiset(g);
    }
  }

  /** No key is lost by sorting: each has its row among the sorted groups. */
  lemma SortedGroupsComplete(ivs: seq<Interval>, f: Field, now: int)
    ensures forall k :: k in Keys(ivs, f) ==> (k, TotalBy(ivs, f, k, now)) in SortDesc(Groups(ivs, f, now))
  {
    var ks := Keys(ivs, f);
    var g := Groups(ivs, f, now);
    forall k | k in ks
      ensures (k, TotalBy(ivs, f, k, now)) in SortDesc(g)
    {
      var p :| 0 <= p < |ks| && ks[p] == k;
      assert g[p] in multiset(SortDesc(g));
    }
  }

  /** `r` holds the `n` keys of `ks` with the largest totals (all of them
      when there are fewer), each once with its own total, largest first;
      every key left out has a total no larger than any row shown. */
  predicate IsTop(r: seq<Row>, ks: seq<string>, ivs: seq<Interval>, f: Field, now: int, n: nat)
  {
    && |r| == Min(n, |ks|)
    && SortedDesc(r)
    && (forall i :: 0 <= i < |r| ==> r[i].0 in ks && r[i].1 == TotalBy(ivs, f, r[i].0, now))
    && (forall i, j :: 0 <= i < j < |r| ==> r[i].0 != r[j].0)
    && (forall k, i :: k in ks && (forall j :: 0 <= j < |r| ==> r[j].0 != k) && 0 <= i < |r| ==> TotalBy(ivs, f, k, now) <= r[i].1)
  }

  /** The first `n` rows of a descending list: descending, and no row cut
      off has a larger total than the last one kept. */
  lemma TopOfSorted(s: seq<Row>, n: nat)
    requires n > 0 && SortedDesc(s)
    ensures var r := Take(s, n);
      && |r| == Min(n, |s|)
      && SortedDesc(r)
      && (forall i :: 0 <= i < |r| ==> r[i] == s[i])
      && (forall j :: |r| <= j < |s| ==> s[j].1 <= r[|r| - 1].1)
  {
  }

  lemma TopOfGroups(s: seq<Row>, ks: seq<string>, ivs: seq<Interval>, f: Field, now: int, n: nat)
    requires n > 0 && SortedDesc(s) && |s| == |ks|
    requires forall i :: 0 <= i < |s| ==> s[i].0 in ks && s[i].1 == TotalBy(ivs, f, s[i].0, now)
    requires forall i, j :: 0 <= i < j < |s| ==> s[i].0 != s[j].0
    requires forall k :: k in ks ==> (k, TotalBy(ivs, f, k, now)) in s
    ensures IsTop(Take(s, n), ks, ivs, f, now, n)
  {
    var r := Take(s, n);
    TopOfSorted(s, n);
    forall k, i | k in ks && (forall j :: 0 <= j < |r| ==> r[j].0 != k) && 0 <= i < |r|
      ensures TotalBy(ivs, f, k, now) <= r[i].1
    {
      var j :| 0 <= j < |s| && s[j] == (k, TotalBy(ivs, f, k, now));
      assert s[j].0 == k;
      assert j >= |r|;
    }
  }

  /** The ranking of `n > 0` rows is the top `n` of the groups. */
  lemma RankedTop(ivs: seq<Interval>, f: Field, now: int, n: nat)
    requires n > 0
    ensures IsTop(Ranked(ivs, f, now, n), Keys(ivs, f), ivs, f, now, n)
  {
    SortedGroups(ivs, f, now);
    SortedGroupsComplete(ivs, f, now);
    TopOfGroups(SortDesc(Groups(ivs, f, now)), Keys(ivs, f), ivs, f, now, n);
  }

  // ---------------------------------------------------------------------
  // leaderboard

  datatype Category = OnlineBoard | GamesBoard | VoiceBoard

  /** The bot's own "game": its presence, excluded from game rankings. */
  const BotGame: string := "Stalking Simulator"

  const BoardSize: nat := 5

  /** The category argument is compared as typed (no lower-casing). */
  function ParseCategory(word: string): Option<Category>
  {
    if word == "online" then Some(OnlineBoard)
    else if word == "games" then Some(GamesBoard)
    else if word == "voice" then Some(VoiceBoard)
    else None
  }

  /** The table a category ranks and the filter of its query. */
  function BoardTable(l: Logs, c: Category): seq<Interval>
  {
    match c
    case OnlineBoard => l.status
    case GamesBoard => l.games
    case VoiceBoard => l.voice
  }

  function BoardQuery(c: Category, botId: UserId, now: int): Query
  {
    match c
    case OnlineBoard => Query(None, Some(botId), Some("online"), None, now - WeekSeconds)
    case GamesBoard => Query(None, Some(botId), None, Some(BotGame), now - WeekSeconds)
    case VoiceBoard => Query(None, Some(botId), None, None, now - WeekSeconds)
  }

  function BoardRows(l: Logs, c: Category, botId: UserId, now: int): seq<Interval>
  {
    Select(BoardTable(l, c), BoardQuery(c, botId, now))
  }

  /** The `leaderboard` command's result: `None` for an unknown category,
      else the top five users with their seconds. */
  function Leaderboard(l: Logs, word: string, botId: UserId, now: int): Option<seq<Row>>
  {
    match ParseCategory(word)
    case None => None
    case Some(c) => Some(Ranked(BoardRows(l, c, botId, now), ByUser, now, BoardSize))
  }

  /** A leaderboard shows at most five users, never the bot, largest total
      first, each with the sum of their counted rows; anyone left out has no
      more time than the last user shown. */
  lemma LeaderboardCorrect(l: Logs, word: string, botId: UserId, now: int)
    ensures Leaderboard(l, word, botId, now).Some? <==> word in {"online", "games", "voice"}
    ensures Leaderboard(l, word, botId, now).Some? ==>
      var c := ParseCategory(word).value;
      var rows := BoardRows(l, c, botId, now);
      var r := Leaderboard(l, word, botId, now).value;
      && |r| == Min(BoardSize, |Keys(rows, ByUser)|)
      && SortedDesc(r)
      && (forall i :: 0 <= i < |r| ==> r[i].0 != botId && r[i].0 in Keys(rows, ByUser) && r[i].1 == TotalBy(rows, ByUser, r[i].0, now))
      && (forall i, j :: 0 <= i < j < |r| ==> r[i].0 != r[j].0)
      && (forall u, i :: u in Keys(rows, ByUser) && (forall j :: 0 <= j < |r| ==> r[j].0 != u) && 0 <= i < |r| ==>
            TotalBy(rows, ByUser, u, now) <= r[i].1)
  {
    if ParseCategory(word).Some? {
      var c := ParseCategory(word).value;
      var rows := BoardRows(l, c, botId, now);
      RankedTop(rows, ByUser, now, BoardSize);
      KeysMembers(rows, ByUser);
      SelectMatches(BoardTable(l, c), BoardQuery(c, botId, now));
    }
  }

  /** Only the counted rows contribute: online time counts only "online"
      rows, and gaming time never counts the bot's own game. */
  lemma BoardRowsFiltered(l: Logs, c: Category, botId: UserId, now: int)
    ensures var rows := BoardRows(l, c, botId, now);
      forall iv :: iv in rows ==>
        && iv in BoardTable(l, c)
        && iv.user != botId
        && iv.start >= now - WeekSeconds
        && (c == OnlineBoard ==> iv.value == "online")
        && (c == GamesBoard ==> iv.value != BotGame)
  {
    SelectMatches(BoardTable(l, c), BoardQuery(c, botId, now));
  }

  // ---------------------------------------------------------------------
  // mostplayedgame

  /** The query of `mostplayedgame`: every user's game rows of the week
      except the bot's own game (the bot's user id is not filtered here). */
  function MostPlayedQuery(now: int): Query
  {
    Query(None, None, None, Some(BotGame), now - WeekSeconds)
  }

  /** `mostplayedgame`: the game with the largest total, or `None` when no
      game row of the week counts. */
  function MostPlayedGame(games: seq<Interval>, now: int): Option<Row>
  {
    var r := Ranked(Select(games, MostPlayedQuery(now)), ByValue, now, 1);
    if |r| == 0 then None else Some(r[0])
  }

  lemma MostPlayedGameCorrect(games: seq<Interval>, now: int)
    ensures var rows := Select(games, MostPlayedQuery(now));
      && (MostPlayedGame(games, now).None? <==> rows == [])
      && (MostPlayedGame(games, now).Some? ==>
            var best := MostPlayedGame(games, now).value;
            && best.0 != BotGame
            && best.0 in Keys(rows, ByValue)
            && best.1 == TotalBy(rows, ByValue, best.0, now)
            && forall g :: g in Keys(rows, ByValue) ==> TotalBy(rows, ByValue, g, now) <= best.1)
  {
    var rows := Select(games, MostPlayedQuery(now));
    RankedTop(rows, ByValue, now, 1);
    KeysMembers(rows, ByValue);
    SelectMatches(games, MostPlayedQuery(now));
    if rows != [] {
      assert rows[0] in rows;
    }
  }

  // ---------------------------------------------------------------------
  // gametime display order

  /** The lines `gametime` shows: its dict's items sorted by time, largest first. */
  function GameLines(times: map<string, int>, order: seq<string>): seq<Row>
    requires forall g :: g in order ==> g in times
  {
    SortDesc(seq(|order|, i requires 0 <= i < |order| => (order[i], times[order[i]])))
  }

  /** With the dict `GameTimes` builds, the lines are the week's games
      grouped and sorted by total. */
  lemma GameLinesAreRankedGames(log: seq<Interval>, user: UserId, now: int, times: map<string, int>, order: seq<string>)
    requires order == Keys(Select(log, WeekOf(user, now)), ByValue)
    requires times.Keys == set g | g in order
    requires TotalsAgree(times, Select(log, WeekOf(user, now)), ByValue, now)
    ensures GameLines(times, order) == SortDesc(Groups(Select(log, WeekOf(user, now)), ByValue, now))
  {
    var rows := Select(log, WeekOf(user, now));
    assert seq(|order|, i requires 0 <= i < |order| => (order[i], times[order[i]])) == Groups(rows, ByValue, now);
  }
}
