# Marketing-analytics transform stage in Dafny

This project models the transform stage of a small marketing-analytics ETL
pipeline: `transform_and_join(game_df, campaign_df)` in
`transform/transform_data.py`. It takes two record sets and produces the
`user_campaign_summary` table: one row per campaign click, enriched with the
clicking user's total playtime and total revenue. The steps are:

1. **Clean**: drop game events missing `user_id`, `session_id` or `event_time`,
   and drop clicks missing `user_id`, `campaign_name`, `source` or `clicked_at`.
2. **Aggregate**: group the clean game events by `user_id` and sum
   `playtime_minutes` and `revenue`.
3. **Join**: left-merge the clean clicks with that aggregate on `user_id`.
4. **Fill**: turn totals the merge left missing into 0.

Files:

- `wrappers.dfy`: `Option`, used for a cell that may be missing (NaN).
- `records.dfy`: the row types `GameEvent`, `CampaignClick`, `UserTotals`
  (a row of the aggregate), `JoinedRow` (a row after the merge) and
  `SummaryRow` (a row of the output). It also holds the two cleaning subsets as
  predicates.
- `tables.dfy`: `Filter`, an order-preserving row filter, which is what
  `dropna(subset=...)` does.
- `transform_data.dfy`: the four steps, the composed `TransformAndJoin`, and
  the lemmas about them.
- `scenarios.dfy`: worked examples of the documented behaviour.

Modelling choices:

- Tables are sequences of rows. A column pandas may leave empty is an `Option`.
- Playtime and revenue are exact integers. Revenue may be negative.
- A kept game event whose `playtime_minutes` or `revenue` is missing adds 0 to
  its user's sums. pandas' group `sum` skips missing values, so it behaves the
  same way.
- `Aggregate` is written as one pass over the events. Each event is added to a
  table kept sorted by `user_id`, because `groupby` sorts its groups. It is
  proved equal to an independent definition: the per-user sums `UserPlaytime`
  and `UserRevenue`, over the users `UsersOf` the events.
- `LeftMerge` models a general left merge: each click gets one row per
  matching aggregate row, or one row with missing totals. The lemmas show that
  against the sorted, duplicate-free aggregate, each click yields exactly one
  row.
- In the output, a click's columns stay `Option`-typed, as they are in the
  pandas frame. A lemma proves they are all present in every output row.
- Output rows follow the order of the clean clicks, because a left merge keeps
  left-row order. The pipeline's documented contract promises no order at
  all; the model follows the code.

## Model

| member | source | states |
|---|---|---|
| `Tables.Filter` | transform/transform_data.py:21-22 | the kept rows are exactly the input rows that pass the test, and there are no more of them than input rows |
| `Tables.FilterAppend` | transform/transform_data.py:21-22 | filtering works row by row and keeps the input order: filtering `a + b` is filtering `a` followed by filtering `b` |
| `Tables.FilterAllKept` | transform/transform_data.py:21-22 | a table whose every row passes comes back unchanged |
| `Tables.FilterIdempotent` | transform/transform_data.py:21-22 | filtering an already filtered table changes nothing |
| `Tables.FilterDropsRejected` | transform/transform_data.py:21-22 | a row that fails the test leaves no trace, wherever it stands in the table |
| `TransformData.CleanGames` | transform/transform_data.py:21 | a game event survives cleaning exactly when it has `user_id`, `session_id` and `event_time` |
| `TransformData.CleanClicks` | transform/transform_data.py:22 | a click survives cleaning exactly when it has `user_id`, `campaign_name`, `source` and `clicked_at` |
| `TransformData.CleanGamesIdempotent` | transform/transform_data.py:21 | cleaning already-clean game events returns them unchanged |
| `TransformData.CleanClicksIdempotent` | transform/transform_data.py:22 | cleaning already-clean clicks returns them unchanged |
| `TransformData.CleanClicksAppend` | transform/transform_data.py:22 | cleaning keeps the surviving clicks in their input order |
| `TransformData.UserSumsAppend` | transform/transform_data.py:25-28 | one more event raises its user's playtime and revenue sums by its own amounts (a missing amount counts as 0) and leaves every other user's sums alone |
| `TransformData.UsersOfAppend` | transform/transform_data.py:25-28 | one more event adds its user, if it has one, to the set of users with events |
| `TransformData.AbsentUserSumsZero` | transform/transform_data.py:25-28 | a user with no events has playtime and revenue sums of 0 |
| `TransformData.Matches` | transform/transform_data.py:32-37 | the rows of a table matching a key all carry that key and come from the table; there are none exactly when the key is absent |
| `TransformData.MatchesUnique` | transform/transform_data.py:25-37 | in a table with strictly increasing keys, a key matches at most one row |
| `TransformData.Accumulate` | transform/transform_data.py:25-28 | adding one event keeps the grouped table's keys strictly increasing, and its key set becomes the old key set plus the event's user |
| `TransformData.AccumulateOthers` | transform/transform_data.py:25-28 | adding an event of one user leaves every other user's rows unchanged |
| `TransformData.AccumulateSelf` | transform/transform_data.py:25-28 | after adding an event, its user has exactly one row, holding the old totals (0 when there were none) plus the event's amounts |
| `TransformData.Aggregate` | transform/transform_data.py:25-28 | the grouped table has strictly increasing keys, so at most one row per `user_id`; its keys are exactly the users that have events |
| `TransformData.AggregateAppend` | transform/transform_data.py:25-28 | the grouped table of `events + [g]` is that of `events` with `g` accumulated; it is unchanged when `g` has no `user_id` |
| `TransformData.AggregateSums` | transform/transform_data.py:25-28 | for each user, the grouped table holds exactly one row carrying the user's playtime sum and revenue sum when the user has events, and no row otherwise |
| `TransformData.ClickMatches` | transform/transform_data.py:32-37 | a click matches only aggregate rows with its own `user_id`; a click without one matches nothing |
| `TransformData.MergeClick` | transform/transform_data.py:32-37 | a click yields at least one merged row, and every such row carries that click |
| `TransformData.LeftMerge` | transform/transform_data.py:32-37 | the left merge yields at least as many rows as clicks, and every row carries one of the clicks |
| `TransformData.MergeClickSingle` | transform/transform_data.py:32-37 | against an aggregate with unique keys, a click yields exactly one merged row |
| `TransformData.LeftMergeRows` | transform/transform_data.py:32-37 | against an aggregate with unique keys, the merge has one row per click, and row `i` is the merged row of click `i` alone |
| `TransformData.LeftMergeOnePerClick` | transform/transform_data.py:30-37 | against an aggregate with unique keys, merged row `i` is click `i`: no click is dropped or duplicated. The row carries the matching row's totals, or missing totals when nothing matches |
| `TransformData.FillMissing` | transform/transform_data.py:39-41 | filling keeps the row count and each row's click; a present total is kept and a missing one becomes 0 |
| `TransformData.TransformAndJoin` | transform/transform_data.py:3-44 | every output row carries a click from the input that has all four required fields |
| `TransformData.TransformCardinality` | transform/transform_data.py:30-37 | the output has exactly as many rows as there are clean clicks |
| `TransformData.TransformRow` | transform/transform_data.py:21-41 | output row `i` is clean click `i`, with the same columns in the same order. Its totals are its user's full sums over the clean game events, or 0 and 0 when the user has no clean game event |
| `TransformData.SameUserSameTotals` | transform/transform_data.py:25-37 | two output rows of the same user carry the same totals: the totals are copied to each click, not divided between them |
| `TransformData.IncompleteEventIgnored` | transform/transform_data.py:21-28 | inserting a game event that lacks `user_id`, `session_id` or `event_time` anywhere in the input changes nothing in the output |
| `TransformData.IncompleteClickDropped` | transform/transform_data.py:22 | inserting a click that lacks one of its four required fields anywhere in the input changes nothing in the output |
| `Scenarios.AggregationExample` | transform/transform_data.py:25-28 | playtimes 10 and 20 with revenues 5 and -2 for one user aggregate to 30 and 3 |
| `Scenarios.ClickWithoutGamesExample` | transform/transform_data.py:32-41 | a single click with no game events at all yields one row with totals 0 and 0 |
| `Scenarios.TwoClicksOneUserExample` | transform/transform_data.py:25-37 | two clicks of a user with one event (5, 1) both yield rows with totals 5 and 1 |
| `Scenarios.ClickMissingSourceExample` | transform/transform_data.py:22 | a click without a `source` yields an empty output |

## Left out

- The progress message printed at transform/transform_data.py:43 is observability only.
- Missing columns are not modelled. Rows are typed, so every column is present by construction. The source raises `KeyError` when a frame lacks a required column. This also covers the extractors' failure path. On a read error they return `pd.DataFrame()`, which has no columns at all. So the source's clean step raises on it. The pipeline's documented contract says the run proceeds with zero rows instead; here the code and that contract disagree.
- Floating-point sums are modelled as exact integer sums. So are the `FLOAT` totals the loader writes. IEEE rounding is not modelled.
- Column dtypes are not modelled, so neither is pandas coercing `user_id` to float when a value is missing. Keys are compared as integers. A merge refused over incompatible key dtypes is not modelled either.
- Extra columns are not modelled. Only the documented columns of each record exist. pandas would carry any other click columns through the merge.
- Missing join keys are not modelled as pandas handles them. pandas would match a missing key against a missing key. Neither clean clicks nor the aggregate have missing keys, so `ClickMatches` lets a missing key match nothing.
- The extractors, the loader, the query scripts, the DAG and driver scripts, the Lambda upload glue and the dashboards are not part of this model. They are file, HTTP, database and UI I/O around the transform.
