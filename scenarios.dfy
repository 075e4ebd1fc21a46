/** The worked examples of the transform stage's documented behaviour. */
module Scenarios {
  import opened Wrappers
  import opened Records
  import opened TransformData
  import Tables

  function Click(u: UserId, campaign: string, source: string, at: Timestamp): CampaignClick {
    CampaignClick(Some(u), Some(campaign), Some(source), Some(at))
  }

  function Event(u: UserId, session: SessionId, playtime: int, revenue: int): GameEvent {
    GameEvent(Some(u), Some(session), Some(0), Some(playtime), Some(revenue))
  }

  /** Playtimes 10 and 20 with revenues 5 and -2 aggregate to 30 and 3. */
  lemma AggregationExample()
    ensures Aggregate(CleanGames([Event(1, 1, 10, 5), Event(1, 2, 20, -2)])) == [UserTotals(1, 30, 3)]
  {
    var games := [Event(1, 1, 10, 5), Event(1, 2, 20, -2)];
    Tables.FilterAllKept(games, IsCompleteEvent);
    AggregateAppend([Event(1, 1, 10, 5)], Event(1, 2, 20, -2));
    assert games == [Event(1, 1, 10, 5)] + [Event(1, 2, 20, -2)];
    AggregateAppend([], Event(1, 1, 10, 5));
  }

  /** A click of a user with no game events gets totals 0 and 0. */
  lemma ClickWithoutGamesExample()
    ensures TransformAndJoin([], [Click(1, "A", "fb", 20240101)]) ==
      [SummaryRow(Click(1, "A", "fb", 20240101), 0, 0)]
  {
    var clicks := [Click(1, "A", "fb", 20240101)];
    Tables.FilterAllKept(clicks, IsCompleteClick);
    TransformCardinality([], clicks);
    TransformRow([], clicks, 0);
  }

  /** Two clicks of one user both carry that user's whole totals. */
  lemma TwoClicksOneUserExample()
    ensures TransformAndJoin([Event(1, 7, 5, 1)], [Click(1, "A", "fb", 1), Click(1, "B", "ig", 2)]) ==
      [SummaryRow(Click(1, "A", "fb", 1), 5, 1), SummaryRow(Click(1, "B", "ig", 2), 5, 1)]
  {
    var games := [Event(1, 7, 5, 1)];
    var clicks := [Click(1, "A", "fb", 1), Click(1, "B", "ig", 2)];
    Tables.FilterAllKept(games, IsCompleteEvent);
    Tables.FilterAllKept(clicks, IsCompleteClick);
    TransformCardinality(games, clicks);
    TransformRow(games, clicks, 0);
    TransformRow(games, clicks, 1);
  }

  /** A click without a source leaves no row behind. */
  lemma ClickMissingSourceExample()
    ensures TransformAndJoin([], [CampaignClick(Some(1), Some("A"), None, Some(1))]) == []
  {
    TransformCardinality([], [CampaignClick(Some(1), Some("A"), None, Some(1))]);
  }
}
