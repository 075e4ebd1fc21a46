/**
 * The record shapes the transform stage reads and writes. Every column that
 * pandas may leave empty is an `Option`; column presence itself holds by
 * construction.
 */
module Records {
  import opened Wrappers

  type UserId = int
  type SessionId = int
  /** A timestamp as the extractor coerced it (for instance seconds since the epoch). */
  type Timestamp = int

  /** One gameplay row: user_id, session_id, event_time, playtime_minutes, revenue. */
  datatype GameEvent = GameEvent(
    userId: Option<UserId>,
    sessionId: Option<SessionId>,
    eventTime: Option<Timestamp>,
    playtimeMinutes: Option<int>,
    revenue: Option<int>)

  /** One campaign click row: user_id, campaign_name, source, clicked_at. */
  datatype CampaignClick = CampaignClick(
    userId: Option<UserId>,
    campaignName: Option<string>,
    source: Option<string>,
    clickedAt: Option<Timestamp>)

  /** One row of the per-user aggregate: user_id, total_playtime, total_revenue. */
  datatype UserTotals = UserTotals(userId: UserId, totalPlaytime: int, totalRevenue: int)

  /** A click after the left merge; the totals are missing when no aggregate row matched. */
  datatype JoinedRow = JoinedRow(click: CampaignClick, totalPlaytime: Option<int>, totalRevenue: Option<int>)

  /** One row of user_campaign_summary: the click's columns and the two filled totals. */
  datatype SummaryRow = SummaryRow(click: CampaignClick, totalPlaytime: int, totalRevenue: int)

  /** The game-event cleaning subset: user_id, session_id and event_time are present. */
  predicate IsCompleteEvent(g: GameEvent) {
    g.userId.Some? && g.sessionId.Some? && g.eventTime.Some?
  }

  /** The click cleaning subset: user_id, campaign_name, source and clicked_at are present. */
  predicate IsCompleteClick(c: CampaignClick) {
    c.userId.Some? && c.campaignName.Some? && c.source.Some? && c.clickedAt.Some?
  }
}
