/**
 The `prioritize_deals` tool: score every deal, then sort the scored
 entries by close probability, highest first. The sort is stable, as
 Python's `sorted` is (also with `reverse=True`): entries with equal
 probability keep the order in which the rows were read.
 */
module Ranking {
  import opened Deals
  import opened DealStore

  /** One entry of the ranking. */
  datatype RankedDeal = RankedDeal(dealId: string, company: string, value: int, closeProbability: int)

  /** The entry the tool builds from one row. */
  function Entry(d: Deal): RankedDeal {
    RankedDeal(d.dealId, d.company, d.value, Score(d))
  }

  /** The entries of all rows, in the order the rows were read. */
  function Entries(rows: seq<Deal>): (es: seq<RankedDeal>)
    ensures |es| == |rows|
    ensures forall i | 0 <= i < |rows| :: es[i] == Entry(rows[i])
  {
    if rows == [] then [] else [Entry(rows[0])] + Entries(rows[1..])
  }

  /** Non-increasing by close probability. */
  predicate SortedDesc(s: seq<RankedDeal>) {
    forall i, j | 0 <= i < j < |s| :: s[i].closeProbability >= s[j].closeProbability
  }

  /** The entries with close probability `p`, in their order in `s`. */
  function WithProbability(s: seq<RankedDeal>, p: int): seq<RankedDeal> {
    if s == [] then []
    else (if s[0].closeProbability == p then [s[0]] else []) + WithProbability(s[1..], p)
  }

  /** Putting an entry that is at least as probable as the head in front
      of a non-increasing list keeps it non-increasing. */
  lemma ConsSorted(a: RankedDeal, t: seq<RankedDeal>)
    requires SortedDesc(t)
    requires t != [] ==> a.closeProbability >= t[0].closeProbability
    ensures SortedDesc([a] + t)
  {
    var r := [a] + t;
    forall i, j | 0 <= i < j < |r|
      ensures r[i].closeProbability >= r[j].closeProbability
    {
      assert r[j] == t[j - 1];
      if i > 0 {
        assert r[i] == t[i - 1];
      }
    }
  }

  /** Inserts `x` into a non-increasing list, before the first entry whose
      probability is not greater than its own; the result is again
      non-increasing. */
  function Insert(x: RankedDeal, s: seq<RankedDeal>): (r: seq<RankedDeal>)
    requires SortedDesc(s)
    ensures multiset(r) == multiset(s) + multiset{x}
    ensures |r| == |s| + 1
    ensures r[0] == x || (s != [] && r[0] == s[0])
    ensures SortedDesc(r)
  {
    if s == [] || x.closeProbability >= s[0].closeProbability then
      ConsSorted(x, s);
      [x] + s
    else
      assert s == [s[0]] + s[1..];
      assert SortedDesc(s[1..]);
      var rest := Insert(x, s[1..]);
      ConsSorted(s[0], rest);
      [s[0]] + rest
  }

  /** Insertion sort, inserting the earlier entries in front of the later
      ones of the same probability. */
  function SortDesc(s: seq<RankedDeal>): (r: seq<RankedDeal>)
    ensures multiset(r) == multiset(s)
    ensures |r| == |s|
    ensures SortedDesc(r)
  {
    if s == [] then []
    else
      assert s == [s[0]] + s[1..];
      Insert(s[0], SortDesc(s[1..]))
  }

  lemma WithProbabilityCons(a: RankedDeal, t: seq<RankedDeal>, p: int)
    ensures WithProbability([a] + t, p) == (if a.closeProbability == p then [a] else []) + WithProbability(t, p)
  {
    assert ([a] + t)[1..] == t;
  }

  /** Inserting into a sorted list puts `x` ahead of every entry of equal
      probability, so each probability class reads as if `x` were
      prepended. */
  lemma {:induction false} InsertKeepsClassOrder(x: RankedDeal, s: seq<RankedDeal>, p: int)
    requires SortedDesc(s)
    ensures WithProbability(Insert(x, s), p) == WithProbability([x] + s, p)
  {
    if s != [] && x.closeProbability < s[0].closeProbability {
      var head, tail := s[0], s[1..];
      var rest := Insert(x, tail);
      assert s == [head] + tail;
      assert Insert(x, s) == [head] + rest;
      var inHead := if head.closeProbability == p then [head] else [];
      var inX := if x.closeProbability == p then [x] else [];
      assert inHead == [] || inX == [];
      calc {
        WithProbability(Insert(x, s), p);
        { WithProbabilityCons(head, rest, p); }
        inHead + WithProbability(rest, p);
        { InsertKeepsClassOrder(x, tail, p);
          WithProbabilityCons(x, tail, p); }
        inHead + (inX + WithProbability(tail, p));
        inX + (inHead + WithProbability(tail, p));
        { WithProbabilityCons(head, tail, p); }
        inX + WithProbability(s, p);
        { WithProbabilityCons(x, s, p); }
        WithProbability([x] + s, p);
      }
    }
  }

  /** The sort keeps the relative order of entries of equal probability. */
  lemma {:induction false} SortIsStable(s: seq<RankedDeal>, p: int)
    ensures WithProbability(SortDesc(s), p) == WithProbability(s, p)
  {
    if s != [] {
      SortIsStable(s[1..], p);
      InsertKeepsClassOrder(s[0], SortDesc(s[1..]), p);
      WithProbabilityCons(s[0], SortDesc(s[1..]), p);
      WithProbabilityCons(s[0], s[1..], p);
      assert s == [s[0]] + s[1..];
    }
  }

  /** The `prioritize_deals` tool on the rows the table returned: a
      permutation of the rows' entries, non-increasing by close
      probability. */
  function PrioritizeDeals(rows: seq<Deal>): (r: seq<RankedDeal>)
    ensures |r| == |rows|
    ensures multiset(r) == multiset(Entries(rows))
    ensures SortedDesc(r)
  {
    SortDesc(Entries(rows))
  }

  /** Ties in the ranking keep the order in which the rows were read. */
  lemma PrioritizeIsStable(rows: seq<Deal>, p: int)
    ensures WithProbability(PrioritizeDeals(rows), p) == WithProbability(Entries(rows), p)
  {
    SortIsStable(Entries(rows), p);
  }

  /** Every row has its entry in the ranking. */
  lemma RowIsRanked(rows: seq<Deal>, d: Deal)
    requires d in rows
    ensures Entry(d) in PrioritizeDeals(rows)
  {
    var es := Entries(rows);
    var i :| 0 <= i < |rows| && rows[i] == d;
    assert es[i] == Entry(d);
    assert Entry(d) in multiset(es);
    assert Entry(d) in multiset(PrioritizeDeals(rows));
  }

  /** Every entry of the ranking is the entry of some row. */
  lemma RankedIsRow(rows: seq<Deal>, e: RankedDeal) returns (d: Deal)
    requires e in PrioritizeDeals(rows)
    ensures d in rows && e == Entry(d)
  {
    var es := Entries(rows);
    assert e in multiset(PrioritizeDeals(rows));
    assert e in multiset(es);
    var i :| 0 <= i < |es| && es[i] == e;
    d := rows[i];
  }

  /** On a full listing of the store, the ranking has one entry per
      stored deal. */
  lemma RankingSizeMatchesStore(rows: seq<Deal>, s: Store)
    requires Enumerates(rows, s)
    ensures |PrioritizeDeals(rows)| == |s|
  {
    EnumerationCount(rows, s);
  }

  /** On a full listing of the store, every stored deal is ranked with its
      own score. */
  lemma StoredDealsAreRanked(rows: seq<Deal>, s: Store)
    requires Enumerates(rows, s)
    ensures forall id | id in s :: Entry(s[id]) in PrioritizeDeals(rows)
  {
    forall id | id in s
      ensures Entry(s[id]) in PrioritizeDeals(rows)
    {
      var i :| 0 <= i < |rows| && rows[i].dealId == id;
      RowIsRanked(rows, rows[i]);
    }
  }

  /** On a full listing of the store, every ranked entry is the entry of a
      stored deal. */
  lemma RankedDealsAreStored(rows: seq<Deal>, s: Store)
    requires Enumerates(rows, s)
    ensures forall e | e in PrioritizeDeals(rows) :: e.dealId in s && e == Entry(s[e.dealId])
  {
    forall e | e in PrioritizeDeals(rows)
      ensures e.dealId in s && e == Entry(s[e.dealId])
    {
      var d := RankedIsRow(rows, e);
    }
  }

  /** The head of the ranking has the highest close probability of all
      rows. */
  lemma TopOfRankingIsBest(rows: seq<Deal>, d: Deal)
    requires d in rows
    ensures PrioritizeDeals(rows)[0].closeProbability >= Score(d)
  {
    RowIsRanked(rows, d);
  }
}
