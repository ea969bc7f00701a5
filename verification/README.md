# Sales pipeline deal scoring, in Dafny

This project models the deal-scoring and recommendation core of a small sales-pipeline
tool server (`server.py`). A deal is a flat record: id, company, value, stage, days in
the pipeline, and days since the last contact. The server offers these operations over
that record:

- `calculate_score` computes a close-probability score. It starts a risk accumulator
  at 0, adds 15 for a deal older than 30 days, adds 20 for a client not contacted for
  more than 7 days, and subtracts 10 for a deal in Negotiation. The score is
  `max(5, 100 - risk)`.
- `suggest_next_action` applies five independent trigger rules in a fixed order. If
  none matches, it falls back to one default action. It also gives a three-way
  priority decided by strict value thresholds.
- `prioritize_deals` scores every row and sorts the entries by score, highest first.
- `summarize_pipeline` makes one pass that sums values and scores and counts the
  high-risk, high-value and neglected deals. An empty table gets a distinct message.
- `get_deal`, `create_deal` and `update_deal` work on the `deals` table, whose primary
  key is `deal_id`.

The table is modelled as a `map<string, Deal>` keyed by `deal_id`. The operations
that read the whole table take the rows as a sequence. The predicate
`DealStore.Enumerates` says that the sequence lists every stored record exactly once,
in an order the table leaves open.

Modules:

- `Deals` (deals.dfy): the record and the score.
- `Advice` (advice.dfy): the actions and the priority.
- `DealStore` (store.dfy): the map store, the lookup, create and update tools, and
  full-table listings.
- `Ranking` (ranking.dfy): `prioritize_deals`, as a stable insertion sort.
- `Pipeline` (pipeline.dfy): `summarize_pipeline`, as a loop.
- `Tools` (tools.dfy): `suggest_next_action`.

Notes on the modelled behaviour:

- The accumulated risk always lies in [-10, 35], so the score lies in [65, 110]. The
  floor of 5 never takes effect. The summary's "high risk" counter (score below 50)
  is therefore always 0. The model keeps the counter as the code computes it and
  proves that it is 0.
- Ties in the ranking keep the order in which the rows were read. The code uses
  Python's `sorted`, which is stable, including with `reverse=True`.
- The numeric columns are SQLite `INTEGER` columns, which hold signed 64-bit
  integers. Binding a value outside [-2^63, 2^63) raises before anything is
  written, so `DealStore.CreateDeal` and `DealStore.UpdateDeal` require
  `DealStore.FitsInteger(value)`. This holds for `update_deal` even on an unknown id.
  Nothing in the server rejects a negative value, so no fact here assumes a value
  or counter is non-negative.
- `update_deal` on an unknown id matches no row. The table does not change, and the
  reply still says "Deal updated".

## Model

| member | source | states |
|---|---|---|
| Deals.Risk | server.py:24-33 | the accumulated risk lies between -10 and 35 |
| Deals.Score | server.py:20-36 | the score lies in [65, 110] and equals 100 - risk, so the floor of 5 never applies; it is exactly 100 iff neither age trigger fires and the stage is not Negotiation; it exceeds 100 iff the deal is in Negotiation and neither age trigger fires |
| Deals.ScoreMatchesCases | server.py:24-35 | the score equals an independent sum of the three contributions (-15 when days_in_pipeline > 30, -20 when last_contact_days > 7, +10 in Negotiation) and is one of 65, 75, 80, 85, 90, 95, 100, 110 |
| Deals.ScoreAntitoneInAge | server.py:26-30 | with the stage fixed, an older or longer-uncontacted deal never scores higher |
| Deals.NegotiationRaisesScore | server.py:32-33 | moving a deal into Negotiation raises its score by exactly 10 |
| Deals.ScoreExamples | server.py:24-36 | a Negotiation deal at 31 days and 8 days without contact scores 75; a deal at the strict boundaries (30 and 7) outside Negotiation scores 100 |
| Advice.Actions | server.py:145-170 | between 1 and 3 actions; an action appears iff its rule's trigger holds (the Discovery, Proposal and Negotiation rules match the stage exactly); the result is exactly the fallback iff no rule fires; actions appear in strict rule order, so none repeats |
| Advice.RankOrderedUnique | server.py:147-160 | two action lists with the same members, each in strict rule order, are equal, so the contract of Actions fixes its result |
| Advice.ActionsExamples | server.py:145-170 | a fresh Discovery deal gets only the Discovery action; a deal matching no rule gets only the fallback; a stale, silent Negotiation deal gets re-engage, meeting, incentive in that order |
| Advice.PriorityOf | server.py:162-167 | High iff value > 75000; Medium iff 30000 < value <= 75000; Low iff value <= 30000 |
| Advice.PriorityMonotone | server.py:162-167 | a larger value never gets a lower priority |
| Advice.PriorityExamples | server.py:162-167 | 80000 is High, 75000 is Medium, 30001 is Medium, 30000 is Low |
| DealStore.FetchDeal | server.py:39-57 | a record is returned iff the id is stored; it is the stored record and carries that id |
| DealStore.GetDeal | server.py:77-83 | the "Deal not found" marker is returned iff the id is not stored; otherwise the stored record is returned |
| DealStore.CreateDeal | server.py:87-109 | for a new id and a value in the 64-bit INTEGER range, adds exactly that key with the given company, value and stage and both counters 0; every other record is unchanged; well-keyedness is kept; the reply is "Deal created" with the id |
| DealStore.UpdateDeal | server.py:113-135 | for a value in the 64-bit INTEGER range: the key set is unchanged; for a stored id, only company, value and stage change; the id and both counters of every record are kept; other records are untouched; an unknown id changes nothing; the reply is "Deal updated" in every such case |
| DealStore.CreateThenGet | server.py:97-104 | fetching a just-created deal returns the given company, value and stage with zeroed counters |
| DealStore.WritesAreLocal | server.py:97-130 | a create or update of one id leaves every lookup of another id unchanged, including not-found results |
| DealStore.UpdateIdempotent | server.py:123-130 | applying the same update twice equals applying it once |
| DealStore.UpdateScoreDependsOnStage | server.py:123-130 | an update changes a deal's score only by entering or leaving Negotiation, by exactly 10 |
| DealStore.CreatedDealScore | server.py:97-104 | a freshly created deal scores 100, or 110 in Negotiation |
| DealStore.DistinctIdsCount | db.py:16-17 | rows with pairwise distinct ids have as many ids as rows |
| DealStore.EnumerationCount | server.py:186-193 | a full-table listing has one row per stored deal, and it is empty iff the store is empty |
| DealStore.StoreCanBeListed | server.py:186-193 | every well-keyed store has a full-table listing |
| Ranking.Insert | server.py:217 | insertion into a non-increasing list adds exactly one entry, keeps the list non-increasing, and heads the result with the new entry or the old head |
| Ranking.SortDesc | server.py:217 | the result is a permutation of the input, non-increasing by close probability |
| Ranking.InsertKeepsClassOrder | server.py:217 | an inserted entry goes ahead of all entries with its probability, as if it had been prepended |
| Ranking.SortIsStable | server.py:217 | for every probability, the entries with it appear in the same order as in the input |
| Ranking.PrioritizeDeals | server.py:196-217 | one entry per row; a permutation of the rows' entries (each carrying calculate_score of its row); non-increasing by close probability |
| Ranking.PrioritizeIsStable | server.py:217 | for every probability, the ranked entries with it appear in the order their rows were read |
| Ranking.RowIsRanked | server.py:198-215 | every row's entry appears in the ranking |
| Ranking.RankedIsRow | server.py:198-215 | every ranking entry is the entry of some row |
| Ranking.RankingSizeMatchesStore | server.py:183-217 | on a full listing of the store, the ranking has exactly as many entries as there are stored deals |
| Ranking.StoredDealsAreRanked | server.py:183-217 | on a full listing of the store, every stored deal's entry, carrying its score, is in the ranking |
| Ranking.RankedDealsAreStored | server.py:183-217 | on a full listing of the store, every ranked entry is the entry of the stored deal with that id |
| Ranking.TopOfRankingIsBest | server.py:217 | the first entry's close probability is at least the score of every row |
| Pipeline.NoHighRiskDeals | server.py:255-259 | the high-risk count (score below 50) is 0 for every list of rows |
| Pipeline.TotalScoreBounds | server.py:255-256 | the scores sum to between 65 and 110 times the number of rows |
| Pipeline.CountsBounded | server.py:261-265 | the high-value and needs-attention counts never exceed the number of rows |
| Pipeline.SummarizePipeline | server.py:236-276 | the "No deals in pipeline." message is returned iff there are no rows; otherwise: total_deals is the row count; the value total is the sum of values; the score total is the sum of scores; high_risk_deals is 0; the high-value count is of value > 75000; the needs-attention count is of last_contact_days > 7; the score total lies between 65 and 110 times the count |
| Tools.SuggestNextAction | server.py:139-177 | the not-found marker is returned iff the id is not stored; otherwise the reply carries the id, the stored company, the priority from the value, and the actions from the counters and stage |
| Tools.FreshDealAdvice | server.py:145-170 | a just-created deal gets exactly one action (its stage's action, or the fallback) and the priority of its value |
| Tools.PriorityIndependentOfActions | server.py:145-167 | an update of the value alone leaves the actions as they were; an update of the stage alone leaves the priority as it was |

## Left out

- SQLite connections, cursors, SQL text and row-tuple indexing (server.py:39-57, db.py)
  are I/O. The table is the map `DealStore.Store`. A full-table SELECT is any sequence
  satisfying `DealStore.Enumerates`, because the table does not fix the row order.
- The tool-server registration and the HTTP `run` (server.py:7-13, 279-280) are
  transport only.
- `average_close_probability` and its `round(…, 2)` (server.py:267, 272) are float
  arithmetic. The summary keeps the integer numerator `probabilitySum`. The server
  reports the real quotient `probabilitySum as real / totalDeals as real` rounded to
  two decimals, which is not integer division.
- `list_open_deals` (server.py:64-73) projects each row to its id and company. It has
  no logic beyond the listing that `DealStore.Enumerates` already describes.
- DealStore.CreateDeal: a duplicate id makes the table's primary key raise an
  exception. This is stated as a precondition rather than modelled as an error result.
  A value outside the 64-bit INTEGER range also raises. That is a precondition too.
- DealStore.UpdateDeal: a value outside the 64-bit INTEGER range raises, even for an
  unknown id. This is stated as a precondition rather than modelled as an error result.
- NULL columns are not modelled. The table declares no column `NOT NULL`. A NULL
  counter makes `calculate_score` raise a `TypeError` (server.py:26, 29), and a NULL
  value does the same in `suggest_next_action` and `summarize_pipeline`
  (server.py:162, 253). The fields of `Deals.Deal` are plain integers. The server's
  own tools never write NULL.
- main.py (random-number, dice and addition tools) is not part of this model. It uses
  randomness and holds no pipeline logic.
- Stored ids are compared by exact string equality, and stages are compared by exact
  match. No text collation or normalisation is modelled.
- The recommended actions are values of a datatype. `Advice.Text` gives the exact
  string the server reports for each one.
