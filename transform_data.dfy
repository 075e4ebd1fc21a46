/**
 * The transform stage: `transform_and_join(game_df, campaign_df)`.
 *
 *   1. clean      drop incomplete game events and incomplete clicks (`dropna`);
 *   2. aggregate  sum playtime and revenue per user (`groupby("user_id").agg`);
 *   3. join       left-merge the clean clicks with that aggregate on user_id;
 *   4. fill       turn the totals the merge left missing into 0 (`fillna(0)`).
 *
 * Playtime and revenue are exact integers; a missing number in a kept game
 * event adds 0 to its user's sums, as pandas' `sum` skips missing values.
 */
module TransformData {
  import opened Wrappers
  import opened Records
  import Tables

  // ---------------------------------------------------------------------------
  // Step 1: clean

  /** `game_df.dropna(subset=["user_id", "session_id", "event_time"])` */
  function CleanGames(games: seq<GameEvent>): (kept: seq<GameEvent>)
    ensures |kept| <= |games|
    ensures forall g :: g in kept <==> g in games && IsCompleteEvent(g)
  {
    Tables.Filter(games, IsCompleteEvent)
  }

  /** `campaign_df.dropna(subset=["user_id", "campaign_name", "source", "clicked_at"])` */
  function CleanClicks(clicks: seq<CampaignClick>): (kept: seq<CampaignClick>)
    ensures |kept| <= |clicks|
    ensures forall c :: c in kept <==> c in clicks && IsCompleteClick(c)
  {
    Tables.Filter(clicks, IsCompleteClick)
  }

  lemma CleanGamesIdempotent(games: seq<GameEvent>)
    ensures CleanGames(CleanGames(games)) == CleanGames(games)
  {
    Tables.FilterIdempotent(games, IsCompleteEvent);
  }

  lemma CleanClicksIdempotent(clicks: seq<CampaignClick>)
    ensures CleanClicks(CleanClicks(clicks)) == CleanClicks(clicks)
  {
    Tables.FilterIdempotent(clicks, IsCompleteClick);
  }

  /** Cleaning keeps the surviving rows in their input order. */
  lemma CleanClicksAppend(a: seq<CampaignClick>, b: seq<CampaignClick>)
    ensures CleanClicks(a + b) == CleanClicks(a) + CleanClicks(b)
  {
    Tables.FilterAppend(a, b, IsCompleteClick);
  }

  // ---------------------------------------------------------------------------
  // Step 2: aggregate — the reference definition

  /** A game event's playtime; a missing value is skipped by the sum, i.e. adds 0. */
  function EventPlaytime(g: GameEvent): int {
    g.playtimeMinutes.GetOr(0)
  }

  /** A game event's revenue; a missing value is skipped by the sum, i.e. adds 0. */
  function EventRevenue(g: GameEvent): int {
    g.revenue.GetOr(0)
  }

  /** Sum of `playtime_minutes` over the events of user `u`. */
  function UserPlaytime(games: seq<GameEvent>, u: UserId): int {
    if games == [] then 0
    else (if games[0].userId == Some(u) then EventPlaytime(games[0]) else 0) + UserPlaytime(games[1..], u)
  }

  /** Sum of `revenue` over the events of user `u`. */
  function UserRevenue(games: seq<GameEvent>, u: UserId): int {
    if games == [] then 0
    else (if games[0].userId == Some(u) then EventRevenue(games[0]) else 0) + UserRevenue(games[1..], u)
  }

  /** The users that have at least one event (with a user_id) in `games`. */
  function UsersOf(games: seq<GameEvent>): set<UserId> {
    if games == [] then {}
    else (if games[0].userId.Some? then {games[0].userId.value} else {}) + UsersOf(games[1..])
  }

  lemma {:induction false} UserSumsAppend(games: seq<GameEvent>, g: GameEvent, u: UserId)
    ensures UserPlaytime(games + [g], u) == UserPlaytime(games, u) + (if g.userId == Some(u) then EventPlaytime(g) else 0)
    ensures UserRevenue(games + [g], u) == UserRevenue(games, u) + (if g.userId == Some(u) then EventRevenue(g) else 0)
  {
    if games == [] {
      assert [g][1..] == [];
    } else {
      assert (games + [g])[1..] == games[1..] + [g];
      UserSumsAppend(games[1..], g, u);
    }
  }

  lemma {:induction false} UsersOfAppend(games: seq<GameEvent>, g: GameEvent)
    ensures UsersOf(games + [g]) == UsersOf(games) + (if g.userId.Some? then {g.userId.value} else {})
  {
    if games == [] {
      assert [g][1..] == [];
    } else {
      assert (games + [g])[1..] == games[1..] + [g];
      UsersOfAppend(games[1..], g);
    }
  }

  /** A user without events sums to zero. */
  lemma {:induction false} AbsentUserSumsZero(games: seq<GameEvent>, u: UserId)
    requires u !in UsersOf(games)
    ensures UserPlaytime(games, u) == 0 && UserRevenue(games, u) == 0
  {
    if games != [] {
      AbsentUserSumsZero(games[1..], u);
    }
  }

  // ---------------------------------------------------------------------------
  // Step 2: aggregate — the grouped table

  /** The set of user_id values of an aggregate table. */
  function Keys(agg: seq<UserTotals>): set<UserId> {
    if agg == [] then {} else {agg[0].userId} + Keys(agg[1..])
  }

  lemma {:induction false} KeysAt(agg: seq<UserTotals>, i: nat)
    requires i < |agg|
    ensures agg[i].userId in Keys(agg)
  {
    if i > 0 {
      KeysAt(agg[1..], i - 1);
    }
  }

  /** Group keys are strictly increasing: sorted, as `groupby` sorts them, and so unique. */
  predicate KeysIncreasing(agg: seq<UserTotals>) {
    forall i, j :: 0 <= i < j < |agg| ==> agg[i].userId < agg[j].userId
  }

  /** Every key of a sorted table is at least its first key, so above anything below that. */
  lemma {:induction false} KeysAbove(agg: seq<UserTotals>, low: UserId)
    requires KeysIncreasing(agg)
    requires agg != [] && low < agg[0].userId
    ensures forall k :: k in Keys(agg) ==> low < k
  {
    if |agg| > 1 {
      KeysAbove(agg[1..], low);
    }
  }

  /** The aggregate rows whose key is `u`, in table order. */
  function Matches(agg: seq<UserTotals>, u: UserId): (ms: seq<UserTotals>)
    ensures forall t :: t in ms ==> t in agg && t.userId == u
    ensures ms == [] <==> u !in Keys(agg)
  {
    if agg == [] then []
    else (if agg[0].userId == u then [agg[0]] else []) + Matches(agg[1..], u)
  }

  lemma MatchesCons(t: UserTotals, rest: seq<UserTotals>, u: UserId)
    ensures Matches([t] + rest, u) == (if t.userId == u then [t] else []) + Matches(rest, u)
  {
    assert ([t] + rest)[1..] == rest;
  }

  /** With increasing keys a user matches at most one aggregate row. */
  lemma {:induction false} MatchesUnique(agg: seq<UserTotals>, u: UserId)
    requires KeysIncreasing(agg)
    ensures |Matches(agg, u)| <= 1
  {
    if agg != [] {
      if agg[0].userId == u {
        if |agg| > 1 {
          KeysAbove(agg[1..], u);
        }
      } else {
        MatchesUnique(agg[1..], u);
      }
    }
  }

  /**
   * Adds one game event of user `u` to a grouped table: the user's row grows by
   * the event's amounts, or a new row is inserted at its sorted place.
   */
  function Accumulate(agg: seq<UserTotals>, u: UserId, playtime: int, revenue: int): (r: seq<UserTotals>)
    requires KeysIncreasing(agg)
    ensures KeysIncreasing(r)
    ensures Keys(r) == Keys(agg) + {u}
  {
    if agg == [] then
      [UserTotals(u, playtime, revenue)]
    else if agg[0].userId == u then
      var r := [UserTotals(u, agg[0].totalPlaytime + playtime, agg[0].totalRevenue + revenue)] + agg[1..];
      assert r[1..] == agg[1..];
      r
    else if u < agg[0].userId then
      var r := [UserTotals(u, playtime, revenue)] + agg;
      assert r[1..] == agg;
      KeysAbove(agg, u);
      assert KeysIncreasing(r) by {
        forall j | 0 < j < |r| ensures u < r[j].userId {
          KeysAt(agg, j - 1);
        }
      }
      r
    else
      var rest := Accumulate(agg[1..], u, playtime, revenue);
      AccumulateStep(agg, rest, u);
      [agg[0]] + rest
  }

  /** The recursive case of Accumulate: the first row stays in front of the updated rest. */
  lemma AccumulateStep(agg: seq<UserTotals>, rest: seq<UserTotals>, u: UserId)
    requires KeysIncreasing(agg) && agg != [] && agg[0].userId < u
    requires KeysIncreasing(rest) && Keys(rest) == Keys(agg[1..]) + {u}
    ensures KeysIncreasing([agg[0]] + rest)
    ensures Keys([agg[0]] + rest) == Keys(agg) + {u}
  {
    var r := [agg[0]] + rest;
    assert r[1..] == rest;
    if |agg| > 1 {
      KeysAbove(agg[1..], agg[0].userId);
    }
    forall j | 0 < j < |r| ensures agg[0].userId < r[j].userId {
      KeysAt(rest, j - 1);
    }
  }

  /** The totals user `u` has in `agg` plus one event's amounts. */
  function Added(agg: seq<UserTotals>, u: UserId, playtime: int, revenue: int): UserTotals {
    var ms := Matches(agg, u);
    if ms == [] then UserTotals(u, playtime, revenue)
    else UserTotals(u, ms[0].totalPlaytime + playtime, ms[0].totalRevenue + revenue)
  }

  /** Accumulate leaves the rows of every other user as they were. */
  lemma {:induction false} AccumulateOthers(agg: seq<UserTotals>, u: UserId, playtime: int, revenue: int, k: UserId)
    requires KeysIncreasing(agg) && k != u
    ensures Matches(Accumulate(agg, u, playtime, revenue), k) == Matches(agg, k)
  {
    if agg == [] {
      MatchesCons(UserTotals(u, playtime, revenue), [], k);
    } else if agg[0].userId == u {
      AccumulateHit(agg, u, playtime, revenue, k);
    } else if u < agg[0].userId {
      AccumulateBefore(agg, u, playtime, revenue, k);
    } else {
      AccumulateOthers(agg[1..], u, playtime, revenue, k);
      AccumulateAfter(agg, u, playtime, revenue, k);
      assert agg == [agg[0]] + agg[1..];
      MatchesCons(agg[0], agg[1..], k);
    }
  }

  /** After Accumulate, user `u` has exactly one row, holding the old totals plus the event's. */
  lemma {:induction false} AccumulateSelf(agg: seq<UserTotals>, u: UserId, playtime: int, revenue: int)
    requires KeysIncreasing(agg)
    ensures Matches(Accumulate(agg, u, playtime, revenue), u) == [Added(agg, u, playtime, revenue)]
  {
    if agg == [] {
      MatchesCons(UserTotals(u, playtime, revenue), [], u);
    } else if agg[0].userId == u {
      AccumulateHit(agg, u, playtime, revenue, u);
    } else if u < agg[0].userId {
      AccumulateBefore(agg, u, playtime, revenue, u);
    } else {
      AccumulateSelf(agg[1..], u, playtime, revenue);
      AccumulateAfter(agg, u, playtime, revenue, u);
      AddedAfter(agg, u, playtime, revenue);
    }
  }

  /** Accumulate of a user above the first key keeps the first row in front of the updated rest. */
  lemma AccumulateAfter(agg: seq<UserTotals>, u: UserId, playtime: int, revenue: int, k: UserId)
    requires KeysIncreasing(agg) && agg != [] && agg[0].userId < u
    ensures Matches(Accumulate(agg, u, playtime, revenue), k) ==
      (if agg[0].userId == k then [agg[0]] else []) + Matches(Accumulate(agg[1..], u, playtime, revenue), k)
  {
    var rest := Accumulate(agg[1..], u, playtime, revenue);
    assert Accumulate(agg, u, playtime, revenue) == [agg[0]] + rest;
    MatchesCons(agg[0], rest, k);
  }

  /** A first row of another user does not change what `u` accumulates to. */
  lemma AddedAfter(agg: seq<UserTotals>, u: UserId, playtime: int, revenue: int)
    requires agg != [] && agg[0].userId != u
    ensures Added(agg, u, playtime, revenue) == Added(agg[1..], u, playtime, revenue)
  {
    assert agg == [agg[0]] + agg[1..];
    MatchesCons(agg[0], agg[1..], u);
  }

  /** Accumulate on a table whose first row is the user's own. */
  lemma AccumulateHit(agg: seq<UserTotals>, u: UserId, playtime: int, revenue: int, k: UserId)
    requires KeysIncreasing(agg) && agg != [] && agg[0].userId == u
    ensures Matches(Accumulate(agg, u, playtime, revenue), k) ==
      if k == u then [Added(agg, u, playtime, revenue)] else Matches(agg, k)
  {
    var t := UserTotals(u, agg[0].totalPlaytime + playtime, agg[0].totalRevenue + revenue);
    assert Accumulate(agg, u, playtime, revenue) == [t] + agg[1..];
    assert agg == [agg[0]] + agg[1..];
    MatchesCons(agg[0], agg[1..], k);
    MatchesCons(t, agg[1..], k);
    MatchesUnique(agg, u);
    MatchesCons(agg[0], agg[1..], u);
    assert Matches(agg[1..], u) == [];
  }

  /** Accumulate of a user below every key of the table. */
  lemma AccumulateBefore(agg: seq<UserTotals>, u: UserId, playtime: int, revenue: int, k: UserId)
    requires KeysIncreasing(agg) && agg != [] && u < agg[0].userId
    ensures Matches(Accumulate(agg, u, playtime, revenue), k) ==
      if k == u then [Added(agg, u, playtime, revenue)] else Matches(agg, k)
  {
    var t := UserTotals(u, playtime, revenue);
    assert Accumulate(agg, u, playtime, revenue) == [t] + agg;
    MatchesCons(t, agg, k);
    KeysAbove(agg, u);
    assert Matches(agg, u) == [];
  }

  /**
   * `game_df.groupby("user_id").agg(total_playtime=sum, total_revenue=sum).reset_index()`,
   * as one pass over the events. Rows without a user_id form no group.
   */
  function Aggregate(games: seq<GameEvent>): (agg: seq<UserTotals>)
    ensures KeysIncreasing(agg)
    ensures Keys(agg) == UsersOf(games)
    decreases |games|
  {
    if games == [] then []
    else
      var prior := games[..|games| - 1];
      var g := games[|games| - 1];
      assert games == prior + [g];
      UsersOfAppend(prior, g);
      var agg := Aggregate(prior);
      match g.userId
      case None => agg
      case Some(u) => Accumulate(agg, u, EventPlaytime(g), EventRevenue(g))
  }

  /** What the aggregate holds for user `u`: one row with the user's sums, or nothing. */
  function ExpectedMatches(games: seq<GameEvent>, u: UserId): seq<UserTotals> {
    if u in UsersOf(games) then [UserTotals(u, UserPlaytime(games, u), UserRevenue(games, u))] else []
  }

  /**
   * The aggregate holds exactly one row for each user with events, carrying
   * that user's sums, and no row for anyone else.
   */
  lemma {:induction false} AggregateSums(games: seq<GameEvent>, u: UserId)
    ensures Matches(Aggregate(games), u) == ExpectedMatches(games, u)
    decreases |games|
  {
    if games != [] {
      var prior := games[..|games| - 1];
      var g := games[|games| - 1];
      assert games == prior + [g];
      AggregateSums(prior, u);
      UserSumsAppend(prior, g, u);
      UsersOfAppend(prior, g);
      match g.userId
      case None =>
      case Some(v) =>
        if v == u {
          AggregateSelfStep(prior, g, u);
        } else {
          AccumulateOthers(Aggregate(prior), v, EventPlaytime(g), EventRevenue(g), u);
        }
    }
  }

  /** One more event updates the aggregate by Accumulate, or not at all when it has no user_id. */
  lemma AggregateAppend(prior: seq<GameEvent>, g: GameEvent)
    ensures Aggregate(prior + [g]) ==
      if g.userId.Some? then Accumulate(Aggregate(prior), g.userId.value, EventPlaytime(g), EventRevenue(g))
      else Aggregate(prior)
  {
    var games := prior + [g];
    assert games[..|games| - 1] == prior;
  }

  /** An event of user `u` itself adds its amounts to the user's single row. */
  lemma AggregateSelfStep(prior: seq<GameEvent>, g: GameEvent, u: UserId)
    requires g.userId == Some(u)
    requires Matches(Aggregate(prior), u) == ExpectedMatches(prior, u)
    ensures Matches(Aggregate(prior + [g]), u) == ExpectedMatches(prior + [g], u)
  {
    var agg := Aggregate(prior);
    var playtime, revenue := EventPlaytime(g), EventRevenue(g);
    AggregateAppend(prior, g);
    AccumulateSelf(agg, u, playtime, revenue);
    UserSumsAppend(prior, g, u);
    UsersOfAppend(prior, g);
    if u in UsersOf(prior) {
      assert Added(agg, u, playtime, revenue) ==
        UserTotals(u, UserPlaytime(prior, u) + playtime, UserRevenue(prior, u) + revenue);
    } else {
      AbsentUserSumsZero(prior, u);
      assert Added(agg, u, playtime, revenue) == UserTotals(u, playtime, revenue);
    }
  }

  // ---------------------------------------------------------------------------
  // Step 3: left join

  /** The aggregate rows a click's user_id matches; a missing key matches none. */
  function ClickMatches(c: CampaignClick, agg: seq<UserTotals>): (ms: seq<UserTotals>)
    ensures forall t :: t in ms ==> t in agg && c.userId == Some(t.userId)
  {
    match c.userId
    case None => []
    case Some(u) => Matches(agg, u)
  }

  /** The merged rows of one click: one per matching aggregate row, or one with missing totals. */
  function MergeClick(c: CampaignClick, agg: seq<UserTotals>): (rows: seq<JoinedRow>)
    ensures |rows| >= 1
    ensures forall r :: r in rows ==> r.click == c
  {
    var ms := ClickMatches(c, agg);
    if ms == [] then [JoinedRow(c, None, None)]
    else seq(|ms|, i requires 0 <= i < |ms| => JoinedRow(c, Some(ms[i].totalPlaytime), Some(ms[i].totalRevenue)))
  }

  /** `pd.merge(campaign_df, agg_game, on="user_id", how="left")` */
  function LeftMerge(clicks: seq<CampaignClick>, agg: seq<UserTotals>): (rows: seq<JoinedRow>)
    ensures |rows| >= |clicks|
    ensures forall r :: r in rows ==> r.click in clicks
  {
    if clicks == [] then []
    else MergeClick(clicks[0], agg) + LeftMerge(clicks[1..], agg)
  }

  /** The one merged row a click gets when its user matches at most one aggregate row. */
  function JoinedFor(c: CampaignClick, agg: seq<UserTotals>): JoinedRow {
    var ms := ClickMatches(c, agg);
    if ms == [] then JoinedRow(c, None, None)
    else JoinedRow(c, Some(ms[0].totalPlaytime), Some(ms[0].totalRevenue))
  }

  lemma MergeClickSingle(c: CampaignClick, agg: seq<UserTotals>)
    requires KeysIncreasing(agg)
    ensures MergeClick(c, agg) == [JoinedFor(c, agg)]
  {
    if c.userId.Some? {
      MatchesUnique(agg, c.userId.value);
    }
  }

  lemma {:induction false} LeftMergeRows(clicks: seq<CampaignClick>, agg: seq<UserTotals>)
    requires KeysIncreasing(agg)
    ensures |LeftMerge(clicks, agg)| == |clicks|
    ensures forall i :: 0 <= i < |clicks| ==> LeftMerge(clicks, agg)[i] == JoinedFor(clicks[i], agg)
  {
    if clicks != [] {
      LeftMergeRows(clicks[1..], agg);
      MergeClickSingle(clicks[0], agg);
      var rows := LeftMerge(clicks, agg);
      assert rows == [JoinedFor(clicks[0], agg)] + LeftMerge(clicks[1..], agg);
      forall i | 0 < i < |clicks| ensures rows[i] == JoinedFor(clicks[i], agg) {
        assert clicks[i] == clicks[1..][i - 1];
      }
    }
  }

  /**
   * Against an aggregate with unique keys the left merge neither drops nor
   * duplicates a click: row `i` is click `i`, with its user's totals when the
   * user has an aggregate row and with missing totals otherwise.
   */
  lemma LeftMergeOnePerClick(clicks: seq<CampaignClick>, agg: seq<UserTotals>)
    requires KeysIncreasing(agg)
    ensures |LeftMerge(clicks, agg)| == |clicks|
    ensures forall i :: 0 <= i < |clicks| ==>
      var r := LeftMerge(clicks, agg)[i];
      var ms := ClickMatches(clicks[i], agg);
      && r.click == clicks[i]
      && (ms == [] ==> r.totalPlaytime.None? && r.totalRevenue.None?)
      && (ms != [] ==> r.totalPlaytime == Some(ms[0].totalPlaytime) && r.totalRevenue == Some(ms[0].totalRevenue))
  {
    LeftMergeRows(clicks, agg);
  }

  // ---------------------------------------------------------------------------
  // Step 4: fill

  /** `fillna(0)` on total_playtime and total_revenue. */
  function FillMissing(rows: seq<JoinedRow>): (filled: seq<SummaryRow>)
    ensures |filled| == |rows|
    ensures forall i :: 0 <= i < |rows| ==> filled[i].click == rows[i].click
    ensures forall i :: 0 <= i < |rows| && rows[i].totalPlaytime.Some? ==> filled[i].totalPlaytime == rows[i].totalPlaytime.value
    ensures forall i :: 0 <= i < |rows| && rows[i].totalPlaytime.None? ==> filled[i].totalPlaytime == 0
    ensures forall i :: 0 <= i < |rows| && rows[i].totalRevenue.Some? ==> filled[i].totalRevenue == rows[i].totalRevenue.value
    ensures forall i :: 0 <= i < |rows| && rows[i].totalRevenue.None? ==> filled[i].totalRevenue == 0
  {
    seq(|rows|, i requires 0 <= i < |rows| =>
      SummaryRow(rows[i].click, rows[i].totalPlaytime.GetOr(0), rows[i].totalRevenue.GetOr(0)))
  }

  // ---------------------------------------------------------------------------
  // The whole transform

  /** `transform_and_join(game_df, campaign_df)` */
  function TransformAndJoin(games: seq<GameEvent>, clicks: seq<CampaignClick>): (summary: seq<SummaryRow>)
    ensures forall r :: r in summary ==> r.click in clicks && IsCompleteClick(r.click)
  {
    var rows := LeftMerge(CleanClicks(clicks), Aggregate(CleanGames(games)));
    var summary := FillMissing(rows);
    assert forall r :: r in summary ==> r.click in CleanClicks(clicks) by {
      forall r | r in summary ensures r.click in CleanClicks(clicks) {
        var i :| 0 <= i < |summary| && summary[i] == r;
        assert rows[i] in rows;
      }
    }
    summary
  }

  /** One output row per clean click: the join neither drops nor duplicates clicks. */
  lemma TransformCardinality(games: seq<GameEvent>, clicks: seq<CampaignClick>)
    ensures |TransformAndJoin(games, clicks)| == |CleanClicks(clicks)|
  {
    LeftMergeOnePerClick(CleanClicks(clicks), Aggregate(CleanGames(games)));
  }

  /**
   * Output row `i` is clean click `i` (same columns, same order) with its user's
   * full sums over the clean game events, or with 0 and 0 when that user has
   * no clean game event.
   */
  lemma TransformRow(games: seq<GameEvent>, clicks: seq<CampaignClick>, i: nat)
    requires i < |CleanClicks(clicks)|
    ensures
      var summary := TransformAndJoin(games, clicks);
      var c := CleanClicks(clicks)[i];
      var events := CleanGames(games);
      && i < |summary|
      && summary[i].click == c
      && IsCompleteClick(c)
      && (c.userId.value in UsersOf(events) ==>
            summary[i].totalPlaytime == UserPlaytime(events, c.userId.value) &&
            summary[i].totalRevenue == UserRevenue(events, c.userId.value))
      && (c.userId.value !in UsersOf(events) ==>
            summary[i].totalPlaytime == 0 && summary[i].totalRevenue == 0)
  {
    var cleaned := CleanClicks(clicks);
    var events := CleanGames(games);
    var agg := Aggregate(events);
    LeftMergeOnePerClick(cleaned, agg);
    assert cleaned[i] in cleaned;
    AggregateSums(events, cleaned[i].userId.value);
  }

  /** Two output rows of the same user carry the same, undivided totals. */
  lemma SameUserSameTotals(games: seq<GameEvent>, clicks: seq<CampaignClick>, i: nat, j: nat)
    requires i < |CleanClicks(clicks)| && j < |CleanClicks(clicks)|
    requires CleanClicks(clicks)[i].userId == CleanClicks(clicks)[j].userId
    ensures
      var summary := TransformAndJoin(games, clicks);
      && i < |summary| && j < |summary|
      && summary[i].totalPlaytime == summary[j].totalPlaytime
      && summary[i].totalRevenue == summary[j].totalRevenue
  {
    TransformRow(games, clicks, i);
    TransformRow(games, clicks, j);
  }

  /** An incomplete game event, wherever it stands, changes nothing in the output. */
  lemma IncompleteEventIgnored(before: seq<GameEvent>, g: GameEvent, after: seq<GameEvent>, clicks: seq<CampaignClick>)
    requires !IsCompleteEvent(g)
    ensures TransformAndJoin(before + [g] + after, clicks) == TransformAndJoin(before + after, clicks)
  {
    Tables.FilterDropsRejected(before, g, after, IsCompleteEvent);
  }

  /** An incomplete click, wherever it stands, leaves no trace in the output. */
  lemma IncompleteClickDropped(games: seq<GameEvent>, before: seq<CampaignClick>, c: CampaignClick, after: seq<CampaignClick>)
    requires !IsCompleteClick(c)
    ensures TransformAndJoin(games, before + [c] + after) == TransformAndJoin(games, before + after)
  {
    Tables.FilterDropsRejected(before, c, after, IsCompleteClick);
  }
}
