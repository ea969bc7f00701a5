/**
 The `deals` table as a map keyed by `deal_id`, with the server's record
 lookup, create and update operations as map-transforming functions.
 */
module DealStore {
  import opened Deals

  type Store = map<string, Deal>

  /** Every record sits under its own `deal_id`, the table's primary key. */
  predicate WellKeyed(s: Store) {
    forall id | id in s :: s[id].dealId == id
  }

  datatype Option<T> = None | Some(value: T)

  /** A tool result: the value, or the error marker the server returns. */
  datatype Lookup<T> = Found(value: T) | Error(message: string)

  const DealNotFound: string := "Deal not found"

  /** The status marker returned by the create and update tools. */
  datatype Ack = Ack(status: string, dealId: string)

  const DealCreated: string := "Deal created"
  const DealUpdated: string := "Deal updated"

  /** The range of a SQLite INTEGER column: a signed 64-bit integer.
      Binding a Python int outside it raises before anything is written. */
  predicate FitsInteger(v: int) {
    -0x8000_0000_0000_0000 <= v < 0x8000_0000_0000_0000
  }

  /** The store after a write, together with the tool's reply. */
  datatype Written = Written(store: Store, ack: Ack)

  /** Row lookup by primary key: absent when no row has that id. */
  function FetchDeal(s: Store, id: string): (r: Option<Deal>)
    ensures r.Some? <==> id in s
    ensures r.Some? ==> r.value == s[id]
    ensures r.Some? && WellKeyed(s) ==> r.value.dealId == id
  {
    if id in s then Some(s[id]) else None
  }

  /** The `get_deal` tool: the record, or the "Deal not found" marker. */
  function GetDeal(s: Store, id: string): (r: Lookup<Deal>)
    ensures r.Error? <==> id !in s
    ensures r.Error? ==> r.message == DealNotFound
    ensures r.Found? ==> r.value == s[id]
  {
    match FetchDeal(s, id)
    case None => Error(DealNotFound)
    case Some(d) => Found(d)
  }

  /** The `create_deal` tool: inserts a new record with both counters at
      zero. The id must be new: the table's primary key rejects a
      duplicate insert. The value must fit the INTEGER column. */
  function CreateDeal(s: Store, id: string, company: string, value: int, stage: string): (w: Written)
    requires id !in s
    requires FitsInteger(value)
    ensures w.store.Keys == s.Keys + {id}
    ensures w.store[id] == Deal(id, company, value, stage, 0, 0)
    ensures forall k | k in s :: w.store[k] == s[k]
    ensures WellKeyed(s) ==> WellKeyed(w.store)
    ensures w.ack == Ack(DealCreated, id)
  {
    Written(s[id := Deal(id, company, value, stage, 0, 0)], Ack(DealCreated, id))
  }

  /** The `update_deal` tool: overwrites company, value and stage of the
      record with that id. An unknown id matches no row, so nothing
      changes, and the reply still says the deal was updated. The value
      must fit the INTEGER column, even for an unknown id: it is bound to
      the statement before any row is matched. */
  function UpdateDeal(s: Store, id: string, company: string, value: int, stage: string): (w: Written)
    requires FitsInteger(value)
    ensures w.store.Keys == s.Keys
    ensures id !in s ==> w.store == s
    ensures id in s ==> w.store[id].company == company && w.store[id].value == value && w.store[id].stage == stage
    ensures forall k | k in s ::
      && w.store[k].dealId == s[k].dealId
      && w.store[k].daysInPipeline == s[k].daysInPipeline
      && w.store[k].lastContactDays == s[k].lastContactDays
    ensures forall k | k in s && k != id :: w.store[k] == s[k]
    ensures WellKeyed(s) ==> WellKeyed(w.store)
    ensures w.ack == Ack(DealUpdated, id)
  {
    var s' := if id in s then s[id := s[id].(company := company, value := value, stage := stage)] else s;
    Written(s', Ack(DealUpdated, id))
  }

  /** Creating a deal and then fetching it returns the given company,
      value and stage with zeroed counters. */
  lemma CreateThenGet(s: Store, id: string, company: string, value: int, stage: string)
    requires id !in s
    requires FitsInteger(value)
    ensures GetDeal(CreateDeal(s, id, company, value, stage).store, id) == Found(Deal(id, company, value, stage, 0, 0))
  {
  }

  /** Creating or updating one deal leaves every lookup of another id as
      it was, including the not-found ones. */
  lemma WritesAreLocal(s: Store, id: string, other: string, company: string, value: int, stage: string)
    requires other != id
    requires FitsInteger(value)
    ensures GetDeal(UpdateDeal(s, id, company, value, stage).store, other) == GetDeal(s, other)
    ensures id !in s ==> GetDeal(CreateDeal(s, id, company, value, stage).store, other) == GetDeal(s, other)
  {
  }

  /** Updating twice with the same arguments is the same as updating once. */
  lemma UpdateIdempotent(s: Store, id: string, company: string, value: int, stage: string)
    requires FitsInteger(value)
    ensures var once := UpdateDeal(s, id, company, value, stage).store;
            UpdateDeal(once, id, company, value, stage).store == once
  {
  }

  /** The update never touches the counters, so it changes a deal's score
      only through its stage. */
  lemma UpdateScoreDependsOnStage(s: Store, id: string, company: string, value: int, stage: string)
    requires id in s
    requires FitsInteger(value)
    ensures var d' := UpdateDeal(s, id, company, value, stage).store[id];
            Score(d') == Score(s[id]) + (if stage == Negotiation then NegotiationRelief else 0)
                                      - (if InNegotiation(s[id]) then NegotiationRelief else 0)
  {
  }

  /** A freshly created deal scores 100, or 110 in negotiation. */
  lemma CreatedDealScore(s: Store, id: string, company: string, value: int, stage: string)
    requires id !in s
    requires FitsInteger(value)
    ensures Score(CreateDeal(s, id, company, value, stage).store[id]) == if stage == Negotiation then 110 else 100
  {
  }

  /** The ids of a sequence of rows. */
  function IdSet(rows: seq<Deal>): set<string> {
    set i | 0 <= i < |rows| :: rows[i].dealId
  }

  predicate DistinctIds(rows: seq<Deal>) {
    forall i, j | 0 <= i < j < |rows| :: rows[i].dealId != rows[j].dealId
  }

  /** `rows` is what a full-table SELECT returns on the store: every stored
      record exactly once, in some order the table does not specify. */
  predicate Enumerates(rows: seq<Deal>, s: Store) {
    && DistinctIds(rows)
    && (forall i | 0 <= i < |rows| :: rows[i].dealId in s && s[rows[i].dealId] == rows[i])
    && s.Keys <= IdSet(rows)
  }

  lemma {:induction false} DistinctIdsCount(rows: seq<Deal>)
    requires DistinctIds(rows)
    ensures |IdSet(rows)| == |rows|
  {
    if rows != [] {
      var front := rows[..|rows| - 1];
      var last := rows[|rows| - 1];
      assert IdSet(rows) == IdSet(front) + {last.dealId};
      assert last.dealId !in IdSet(front);
      DistinctIdsCount(front);
    }
  }

  /** A full-table SELECT returns one row per stored deal. */
  lemma EnumerationCount(rows: seq<Deal>, s: Store)
    requires Enumerates(rows, s)
    ensures |rows| == |s|
    ensures |rows| == 0 <==> s == map[]
  {
    assert s.Keys == IdSet(rows);
    DistinctIdsCount(rows);
    assert |s| == |s.Keys|;
  }

  /** Every well-keyed store can be listed: the full-table SELECT the
      ranking and the summary read from always exists. */
  lemma {:induction false} StoreCanBeListed(s: Store) returns (rows: seq<Deal>)
    requires WellKeyed(s)
    ensures Enumerates(rows, s)
    decreases |s|
  {
    if s == map[] {
      rows := [];
    } else {
      var k :| k in s;
      var rest := s - {k};
      assert |rest| < |s| by {
        assert rest.Keys == s.Keys - {k};
      }
      var front := StoreCanBeListed(rest);
      rows := front + [s[k]];
      assert s[k].dealId == k;
      assert DistinctIds(rows) by {
        forall i, j | 0 <= i < j < |rows|
          ensures rows[i].dealId != rows[j].dealId
        {
          assert rows[i] == front[i];
          if j < |front| {
            assert rows[j] == front[j];
          }
        }
      }
      assert forall i | 0 <= i < |rows| :: rows[i].dealId in s && s[rows[i].dealId] == rows[i] by {
        forall i | 0 <= i < |rows|
          ensures rows[i].dealId in s && s[rows[i].dealId] == rows[i]
        {
          if i < |front| {
            assert rows[i] == front[i];
          }
        }
      }
      assert s.Keys <= IdSet(rows) by {
        forall id | id in s
          ensures id in IdSet(rows)
        {
          if id == k {
            assert rows[|front|].dealId == id;
          } else {
            assert id in IdSet(front);
            var i :| 0 <= i < |front| && front[i].dealId == id;
            assert rows[i].dealId == id;
          }
        }
      }
    }
  }
}
